/**
 * Running a loaded blueprint graph (util/blueprint/node.go, exec.go, sysnodes.go).  Every
 * activation of a node gets ports of its own; an activation is named by a number, and the
 * context of a run says which activation of each node is the current one.
 */
module BlueprintRun {
  import opened Words
  import opened Paths
  import opened BlueprintLoad

  datatype Value = IntVal(i: int) | StrVal(s: string) | ArrayVal(a: seq<int>)

  /** The values at the ports of one side of a node; execution ports hold none. */
  type PortVals = seq<Option<Value>>

  type Vars = map<string, Value>

  /** One DoNext made by a node while it executes, with its output ports at that moment. */
  datatype Call = Call(outs: PortVals, next: int)

  /** What the Exec of a node does: the variables it leaves, its DoNext calls in order, its final
      output ports, and the port to go on with, or none for an error. */
  datatype Plan = Plan(vars: Vars, calls: seq<Call>, outs: PortVals, next: Option<int>)

  datatype Error = BadArgs | BadDefault | MissingOutPort | PreNotExecuted | ExecFailed | NoSuchNext

  datatype Outcome = Done | Failed(error: Error)

  datatype Program = Program(
    cfg: Config, next: map<string, seq<Option<string>>>, connected: set<string>, entrance: string,
    defaults: (string, int) -> Option<Value>, blank: string -> PortVals,
    exec: (string, nat, PortVals, PortVals, Vars) -> Plan)

  /** What activation a of a node does.  A live node may do something else each time it runs. */
  function PlanOf(pr: Program, id: string, a: nat, ins: PortVals, outs: PortVals, vars: Vars): Plan {
    pr.exec(id, if id in Live(pr) then a else 0, ins, outs, vars)
  }

  /** The node and out-port that feed an in-port: the source of the first edge into it. */
  function Source(cfg: Config, id: string, port: int): (r: Option<(string, int)>)
    ensures r.Some? ==> r.value.0 in cfg.nodes
  {
    SourceFrom(cfg, id, port, 0)
  }

  function SourceFrom(cfg: Config, id: string, port: int, k: nat): (r: Option<(string, int)>)
    requires k <= |cfg.edges|
    ensures r.Some? ==> r.value.0 in cfg.nodes
    decreases |cfg.edges| - k
  {
    if k == |cfg.edges| then None
    else if cfg.edges[k].des == id && cfg.edges[k].desPort == port then
      if cfg.edges[k].src in cfg.nodes then Some((cfg.edges[k].src, cfg.edges[k].srcPort)) else None
    else SourceFrom(cfg, id, port, k + 1)
  }

  predicate Into(e: Edge, id: string, port: int) {
    e.des == id && e.desPort == port
  }

  lemma {:induction false} SourceFromFirst(cfg: Config, id: string, port: int, k: nat, first: nat)
    requires k <= first <= |cfg.edges| && forall j :: k <= j < first ==> !Into(cfg.edges[j], id, port)
    requires first < |cfg.edges| ==> Into(cfg.edges[first], id, port)
    ensures SourceFrom(cfg, id, port, k) ==
            if first < |cfg.edges| && cfg.edges[first].src in cfg.nodes
            then Some((cfg.edges[first].src, cfg.edges[first].srcPort)) else None
    decreases first - k
  {
    if k < first {
      assert !Into(cfg.edges[k], id, port);
      SourceFromFirst(cfg, id, port, k + 1, first);
    }
  }

  /** An in-port has the source that the first edge into it names, if that is a node, and none without
      an edge into it. */
  lemma SourceIsFirst(cfg: Config, id: string, port: int)
    ensures (forall j :: 0 <= j < |cfg.edges| ==> !Into(cfg.edges[j], id, port)) ==> Source(cfg, id, port).None?
    ensures forall k :: 0 <= k < |cfg.edges| && Into(cfg.edges[k], id, port)
                        && (forall j :: 0 <= j < k ==> !Into(cfg.edges[j], id, port)) ==>
              Source(cfg, id, port) ==
              if cfg.edges[k].src in cfg.nodes then Some((cfg.edges[k].src, cfg.edges[k].srcPort)) else None
  {
    forall k | 0 <= k < |cfg.edges| && Into(cfg.edges[k], id, port)
               && forall j :: 0 <= j < k ==> !Into(cfg.edges[j], id, port)
      ensures Source(cfg, id, port) ==
              if cfg.edges[k].src in cfg.nodes then Some((cfg.edges[k].src, cfg.edges[k].srcPort)) else None
    {
      SourceFromFirst(cfg, id, port, 0, k);
    }
    if forall j :: 0 <= j < |cfg.edges| ==> !Into(cfg.edges[j], id, port) {
      SourceFromFirst(cfg, id, port, 0, |cfg.edges|);
    }
  }

  // ---- the order that evaluation descends ----

  /** The nodes that execution runs through; all others only compute values on demand. */
  function Live(pr: Program): set<string> {
    pr.connected + {pr.entrance}
  }

  /** For each value node the value nodes that it takes inputs from. */
  ghost function DataFlow(pr: Program): (g: Succ)
    ensures Closed(g) && g.Keys == pr.cfg.nodes.Keys - Live(pr)
    ensures forall n :: n in g ==> g[n] == Feeders(pr, n)
  {
    map n | n in pr.cfg.nodes.Keys - Live(pr) :: Feeders(pr, n)
  }

  ghost function Feeders(pr: Program, n: string): set<string>
    requires n in pr.cfg.nodes
  {
    set i | 0 <= i < |pr.cfg.nodes[n].ins| && !pr.cfg.nodes[n].ins[i] && Source(pr.cfg, n, i).Some?
            && Source(pr.cfg, n, i).value.0 !in Live(pr) :: Source(pr.cfg, n, i).value.0
  }

  /** The graph is loaded and no value node depends on itself through value nodes. */
  ghost predicate Runnable(pr: Program) {
    && Loaded(pr.cfg, pr.next, pr.connected, pr.entrance)
    && forall n :: n in DataFlow(pr) ==> AcyclicFrom(DataFlow(pr), n)
  }

  ghost function FlowRank(pr: Program, n: string): nat {
    if n in Live(pr) then Height(Flow(pr.cfg), n) else 0
  }

  ghost function DataRank(pr: Program, n: string): nat {
    if n in Live(pr) then 0 else Height(DataFlow(pr), n)
  }

  ghost function Unexecuted(pr: Program, executed: set<string>): nat {
    |Live(pr) - executed|
  }

  lemma Fewer(pr: Program, a: set<string>, b: set<string>)
    requires a <= b
    ensures Unexecuted(pr, b) <= Unexecuted(pr, a)
    ensures forall n :: n in Live(pr) && n in b && n !in a ==> Unexecuted(pr, b) < Unexecuted(pr, a)
  {
    var x, y := Live(pr) - b, Live(pr) - a;
    Smaller(x, y);
    if n :| n in Live(pr) && n in b && n !in a {
      Smaller(x, y - {n});
    }
  }

  lemma {:induction false} Smaller(x: set<string>, y: set<string>)
    requires x <= y
    ensures |x| <= |y|
  {
    if e :| e in x {
      Smaller(x - {e}, y - {e});
    }
  }

  lemma NextIsLive(pr: Program, n: string, i: int)
    requires Runnable(pr) && n in pr.cfg.nodes && 0 <= i < |pr.next[n]| && pr.next[n][i].Some?
    ensures n in Live(pr) && pr.next[n][i].value in Live(pr) && pr.next[n][i].value in Flow(pr.cfg)[n]
    ensures pr.next[n][i].value in pr.cfg.nodes
  {
    assert Some(pr.next[n][i].value) in pr.next[n];
    assert pr.next[n][i].value in Somes(pr.next[n]);
  }

  lemma BoundedOnward(g: Succ, n: string, m: string, b: int)
    requires Closed(g) && Bounded(g, n, b) && Reaches(g, n, m, 0)
    ensures m in g && Bounded(g, m, b)
  {
    var q :| PathFrom(g, n, q) && q[|q| - 1] == m;
    if |q| > 1 {
      assert Step(g, q, |q| - 2);
    }
    forall p | PathFrom(g, m, p)
      ensures |p| <= b
    {
      JoinPaths(g, q, p);
      assert PathFrom(g, n, q + p[1..]);
    }
  }

  lemma LiveBounded(pr: Program, n: string)
    requires Runnable(pr) && n in Live(pr)
    ensures n in pr.cfg.nodes && Bounded(Flow(pr.cfg), n, 256)
  {
    var g := Flow(pr.cfg);
    ReachesSelf(g, pr.entrance);
    assert Reaches(g, pr.entrance, n, 1) ==> Reaches(g, pr.entrance, n, 0);
    BoundedOnward(g, pr.entrance, n, 256);
  }

  /** Going on with a next node descends in the execution graph. */
  lemma NextDescends(pr: Program, n: string, i: int)
    requires Runnable(pr) && n in pr.cfg.nodes && 0 <= i < |pr.next[n]| && pr.next[n][i].Some?
    ensures FlowRank(pr, pr.next[n][i].value) < FlowRank(pr, n)
  {
    NextIsLive(pr, n, i);
    LiveBounded(pr, n);
    HeightDrops(Flow(pr.cfg), n, pr.next[n][i].value, 256);
  }

  lemma LiveRank(pr: Program, n: string)
    requires Runnable(pr) && n in Live(pr)
    ensures FlowRank(pr, n) > 0
  {
    LiveBounded(pr, n);
    HeightExists(Flow(pr.cfg), n, 256);
    assert PathFrom(Flow(pr.cfg), n, [n]);
  }

  /** Asking a value node for an input descends: from a live node in the execution graph's rank,
      from a value node in the data graph. */
  lemma SourceDescends(pr: Program, n: string, port: int)
    requires Runnable(pr) && n in pr.cfg.nodes && 0 <= port < |pr.cfg.nodes[n].ins| && !pr.cfg.nodes[n].ins[port]
    requires Source(pr.cfg, n, port).Some? && Source(pr.cfg, n, port).value.0 !in Live(pr)
    ensures var p := Source(pr.cfg, n, port).value.0;
            FlowRank(pr, p) == 0 && (FlowRank(pr, n) > 0 || DataRank(pr, p) < DataRank(pr, n))
  {
    if n in Live(pr) {
      LiveRank(pr, n);
    } else {
      var g, p := DataFlow(pr), Source(pr.cfg, n, port).value.0;
      assert p in g[n];
      AcyclicIsBounded(g, n);
      HeightDrops(g, n, p, |g.Keys|);
    }
  }

  /** Ranks that every call of the interpreter lowers. */
  datatype Ranks = Ranks(flow: map<string, nat>, data: map<string, nat>)

  /** Following entry i of the next nodes of n lowers the flow rank, and leads to a live node. */
  ghost predicate NextLowers(pr: Program, rk: Ranks, n: string, i: int) {
    n in pr.next && n in rk.flow && 0 <= i < |pr.next[n]| && pr.next[n][i].Some? ==> (
      var m := pr.next[n][i].value;
      m in pr.cfg.nodes && m in rk.flow && rk.flow[m] < rk.flow[n])
  }

  /** Asking a value node for the input at a port lowers the flow rank, or keeps it and lowers the data rank. */
  ghost predicate SourceLowers(pr: Program, rk: Ranks, n: string, port: int) {
    AsksValueNode(pr, n, port) && n in rk.flow && n in rk.data ==> (
      var p := Source(pr.cfg, n, port).value.0;
      && p in rk.flow && p in rk.data
      && (rk.flow[p] < rk.flow[n] || (rk.flow[p] == rk.flow[n] && rk.data[p] < rk.data[n])))
  }

  predicate DataPort(pr: Program, n: string, port: int) {
    n in pr.cfg.nodes && 0 <= port < |pr.cfg.nodes[n].ins| && !pr.cfg.nodes[n].ins[port]
  }

  predicate AsksValueNode(pr: Program, n: string, port: int) {
    DataPort(pr, n, port) && Source(pr.cfg, n, port).Some? && Source(pr.cfg, n, port).value.0 !in Live(pr)
  }

  ghost predicate Ranked(pr: Program, rk: Ranks) {
    && (forall n :: n in pr.cfg.nodes && n !in Live(pr) && n in pr.next ==> pr.next[n] == [])
    && pr.next.Keys == pr.cfg.nodes.Keys == rk.flow.Keys == rk.data.Keys
    && (forall n, i :: NextLowers(pr, rk, n, i))
    && (forall n, i :: SourceLowers(pr, rk, n, i))
  }

  ghost function RanksOf(pr: Program): Ranks {
    Ranks(map n | n in pr.cfg.nodes :: FlowRank(pr, n), map n | n in pr.cfg.nodes :: DataRank(pr, n))
  }

  /** A loaded graph without value cycles has such ranks. */
  lemma RunnableRanked(pr: Program)
    requires Runnable(pr)
    ensures Ranked(pr, RanksOf(pr))
  {
    var rk := RanksOf(pr);
    forall n, i
      ensures NextLowers(pr, rk, n, i)
    {
      if n in pr.cfg.nodes && 0 <= i < |pr.next[n]| && pr.next[n][i].Some? {
        NextIsLive(pr, n, i);
        NextDescends(pr, n, i);
      }
    }
    forall n, i
      ensures SourceLowers(pr, rk, n, i)
    {
      if AsksValueNode(pr, n, i) {
        SourceDescends(pr, n, i);
      }
    }
  }

  // ---- what a value node stands for ----

  /** A look at the output ports of an activation. */
  datatype Read = Read(act: nat, outs: PortVals)

  /** A node that a DoNext call has run, and the output ports of the caller that it was shown. */
  datatype Ran = Ran(node: string, shown: PortVals)

  /** What is known of an activation: its node, its inputs, where they were read, and what its DoNext
      calls have run. */
  datatype Act = Act(owner: string, ins: PortVals, looks: seq<Option<Read>>, log: seq<Ran>)

  function Logged(act: Act, ts: seq<Ran>): Act {
    act.(log := act.log + ts)
  }

  /** The state of a run. */
  datatype State = State(context: map<string, nat>, activations: seq<PortVals>, vars: Vars, ran: seq<Act>)

  ghost predicate Sound(st: State) {
    forall n :: n in st.context ==> st.context[n] < |st.activations|
  }

  /** The current output ports of the live nodes that have run. */
  ghost function LiveOuts(pr: Program, st: State): map<string, PortVals>
    requires Sound(st)
  {
    map n | n in st.context && n in Live(pr) :: st.activations[st.context[n]]
  }

  /** Nothing has happened that a live node could notice; activations of the past are as they were. */
  ghost predicate Quiet(pr: Program, a: State, b: State) {
    && a.vars == b.vars && |a.activations| <= |b.activations| && b.activations[..|a.activations|] == a.activations
    && forall n :: n in Live(pr) ==>
         (n in a.context <==> n in b.context) && (n in a.context ==> a.context[n] == b.context[n])
  }

  lemma QuietOuts(pr: Program, a: State, b: State)
    requires Sound(a) && Sound(b) && Quiet(pr, a, b)
    ensures LiveOuts(pr, a) == LiveOuts(pr, b)
  {
    forall n | n in a.context && n in Live(pr)
      ensures a.activations[a.context[n]] == b.activations[b.context[n]]
    {
      assert b.activations[..|a.activations|][a.context[n]] == b.activations[a.context[n]];
    }
  }

  ghost function HaveRun(pr: Program, st: State): set<string> {
    st.context.Keys * Live(pr)
  }

  lemma QuietRan(pr: Program, a: State, b: State)
    requires Quiet(pr, a, b)
    ensures HaveRun(pr, a) == HaveRun(pr, b)
  {
  }

  lemma QuietTrans(pr: Program, a: State, b: State, c: State)
    requires Quiet(pr, a, b) && Quiet(pr, b, c)
    ensures Quiet(pr, a, c)
  {
    assert c.activations[..|a.activations|] == c.activations[..|b.activations|][..|a.activations|];
  }

  ghost predicate Low(rk: Ranks, n: string, id: string) {
    && n in rk.flow && n in rk.data && id in rk.flow && id in rk.data
    && (rk.flow[n] < rk.flow[id] || (rk.flow[n] == rk.flow[id] && rk.data[n] < rk.data[id]))
  }

  /** Only nodes below id have got new activations. */
  ghost predicate OnlyLow(rk: Ranks, id: string, a: State, b: State) {
    a.context.Keys <= b.context.Keys
    && forall n :: n in a.context && !Low(rk, n, id) ==> a.context[n] == b.context[n]
  }

  /** The activation of a value node is quiet: it is new, and so is all that its inputs activate. */
  lemma ValueQuiet(pr: Program, rk: Ranks, id: string, start: State, mid: State, got: State)
    requires Ranked(pr, rk) && Sound(start) && id in pr.cfg.nodes && id !in Live(pr)
    requires Activated(pr, start, mid, id, pr.blank(id))
    requires Quiet(pr, mid, got) && OnlyLow(rk, id, mid, got)
    ensures Quiet(pr, start, mid) && Quiet(pr, start, got) && got.context[id] == |start.activations|
    ensures |start.activations| < |got.activations|
            && got.activations[|start.activations|] == mid.activations[|start.activations|]
    ensures forall n :: n in start.context && n != id && !Low(rk, n, id) ==>
              n in got.context && start.context[n] == got.context[n]
  {
    QuietTrans(pr, start, mid, got);
    var k := |start.activations|;
    assert got.activations[..|mid.activations|][k] == got.activations[k];
    assert !Low(rk, id, id) && id in mid.context;
  }

  lemma ValueStart(pr: Program, rk: Ranks, id: string, start: State, mid: State)
    requires Ranked(pr, rk) && Sound(start) && Sound(mid) && id in pr.cfg.nodes && id !in Live(pr)
    requires Activated(pr, start, mid, id, pr.blank(id))
    ensures LiveOuts(pr, start) == LiveOuts(pr, mid) && HaveRun(pr, start) == HaveRun(pr, mid)
  {
    QuietOuts(pr, start, mid);
    QuietRan(pr, start, mid);
  }

  /** Writing to a new activation is quiet. */
  lemma ValueEnd(pr: Program, start: State, got: State, end: State)
    requires Quiet(pr, start, got) && end.context == got.context && end.vars == got.vars
    requires |end.activations| == |got.activations|
    requires forall k :: 0 <= k < |got.activations| && k != |start.activations| ==>
               end.activations[k] == got.activations[k]
    ensures Quiet(pr, start, end)
  {
    var n := |start.activations|;
    assert forall k :: 0 <= k < n ==> end.activations[k] == got.activations[k] == got.activations[..n][k];
    assert end.activations[..n] == start.activations;
  }

  function At(outs: PortVals, port: int): Option<Value> {
    if 0 <= port < |outs| then outs[port] else None
  }

  /** The value of an in-port, given the outputs of the live nodes. */
  ghost function InValue(pr: Program, rk: Ranks, lv: map<string, PortVals>, vars: Vars, n: string,
                         port: int): Option<Value>
    requires Ranked(pr, rk) && DataPort(pr, n, port)
    decreases rk.flow[n], rk.data[n], 0
  {
    var source := Source(pr.cfg, n, port);
    if source.None? then pr.defaults(n, port)
    else
      var (pre, outPort) := source.value;
      if pre in Live(pr) then (if pre in lv then At(lv[pre], outPort) else None)
      else
        assert SourceLowers(pr, rk, n, port);
        At(Meaning(pr, rk, lv, vars, pre), outPort)
  }

  /** The output ports of a value node, as an expression over the outputs of the live nodes. */
  ghost function Meaning(pr: Program, rk: Ranks, lv: map<string, PortVals>, vars: Vars, n: string): PortVals
    requires Ranked(pr, rk) && n in pr.cfg.nodes
    decreases rk.flow[n], rk.data[n], 2
  {
    PlanOf(pr, n, 0, InValues(pr, rk, lv, vars, n), pr.blank(n), vars).outs
  }

  ghost function InValues(pr: Program, rk: Ranks, lv: map<string, PortVals>, vars: Vars, n: string): (ins: PortVals)
    requires Ranked(pr, rk) && n in pr.cfg.nodes
    ensures |ins| == |pr.cfg.nodes[n].ins|
    ensures forall i :: 0 <= i < |ins| ==> ins[i] == if DataPort(pr, n, i) then InValue(pr, rk, lv, vars, n, i)
                                                     else None
    decreases rk.flow[n], rk.data[n], 1
  {
    seq(|pr.cfg.nodes[n].ins|, i requires 0 <= i < |pr.cfg.nodes[n].ins| =>
      if DataPort(pr, n, i) then InValue(pr, rk, lv, vars, n, i) else None)
  }

  /** All live nodes that the in-port depends on have run. */
  ghost predicate Settled(pr: Program, rk: Ranks, executed: set<string>, n: string, port: int)
    requires Ranked(pr, rk) && DataPort(pr, n, port)
    decreases rk.flow[n], rk.data[n], 0
  {
    var source := Source(pr.cfg, n, port);
    source.Some? ==> (
      var pre := source.value.0;
      if pre in Live(pr) then pre in executed
      else
        assert SourceLowers(pr, rk, n, port);
        AllSettled(pr, rk, executed, pre))
  }

  ghost predicate AllSettled(pr: Program, rk: Ranks, executed: set<string>, n: string)
    requires Ranked(pr, rk) && n in pr.cfg.nodes
    decreases rk.flow[n], rk.data[n], 1
  {
    forall i | 0 <= i < |pr.cfg.nodes[n].ins| && DataPort(pr, n, i) :: Settled(pr, rk, executed, n, i)
  }

  /** The first in-ports of a node have the values they have at the start of collecting them. */
  ghost predicate Gathered(pr: Program, rk: Ranks, id: string, start: State, now: State, ins: PortVals)
    requires Ranked(pr, rk) && id in pr.cfg.nodes && Sound(start)
  {
    && Quiet(pr, start, now) && OnlyLow(rk, id, start, now)
    && |ins| <= |pr.cfg.nodes[id].ins| && ins == InValues(pr, rk, LiveOuts(pr, start), start.vars, id)[..|ins|]
  }

  lemma LowQuiet(pr: Program, rk: Ranks, id: string, a: State, b: State, c: State)
    requires Quiet(pr, a, b) && Quiet(pr, b, c) && OnlyLow(rk, id, a, b) && OnlyLow(rk, id, b, c)
    ensures Quiet(pr, a, c) && OnlyLow(rk, id, a, c)
  {
    QuietTrans(pr, a, b, c);
  }

  lemma StillSettled(pr: Program, rk: Ranks, id: string, start: State, before: State, ins: PortVals)
    requires Ranked(pr, rk) && id in pr.cfg.nodes && Sound(start) && Gathered(pr, rk, id, start, before, ins)
    requires AllSettled(pr, rk, HaveRun(pr, start), id) && DataPort(pr, id, |ins|)
    ensures Settled(pr, rk, HaveRun(pr, before), id, |ins|)
  {
    QuietRan(pr, start, before);
  }

  lemma GatherPort(pr: Program, rk: Ranks, id: string, start: State, before: State, after: State, ins: PortVals,
                   v: Option<Value>)
    requires Ranked(pr, rk) && id in pr.cfg.nodes && Sound(start) && Sound(before)
             && Gathered(pr, rk, id, start, before, ins)
    requires |ins| < |pr.cfg.nodes[id].ins|
    requires if DataPort(pr, id, |ins|)
             then Quiet(pr, before, after) && OnlyLow(rk, id, before, after)
                  && v == InValue(pr, rk, LiveOuts(pr, before), before.vars, id, |ins|)
             else after == before && v == None
    ensures Gathered(pr, rk, id, start, after, ins + [v])
  {
    QuietOuts(pr, start, before);
    if DataPort(pr, id, |ins|) {
      LowQuiet(pr, rk, id, start, before, after);
    }
    var all := InValues(pr, rk, LiveOuts(pr, start), start.vars, id);
    assert all[..|ins| + 1] == all[..|ins|] + [all[|ins|]];
  }

  /** Value nodes leave the variables alone. */
  ghost predicate ReadOnly(pr: Program) {
    forall n, ins, outs, vars :: n !in Live(pr) ==> pr.exec(n, 0, ins, outs, vars).vars == vars
  }

  /** The outputs of a source: those of the current activation of a live node, or what a value node means. */
  ghost function SourceOuts(pr: Program, rk: Ranks, st: State, pre: string): PortVals
    requires Ranked(pr, rk) && Sound(st) && pre in pr.cfg.nodes
  {
    if pre !in Live(pr) then Meaning(pr, rk, LiveOuts(pr, st), st.vars, pre)
    else if pre in st.context then st.activations[st.context[pre]] else []
  }

  // ---- the interpreter ----

  /** A node's current activation is only replaced by newer ones. */
  ghost predicate Later(a: map<string, nat>, b: map<string, nat>) {
    a.Keys <= b.Keys && forall n :: n in a ==> a[n] <= b[n]
  }

  /** No activation is lost, current ones are only replaced by newer ones, and what activations
      have run so far stays recorded. */
  ghost predicate Grows(a: State, b: State) {
    && Later(a.context, b.context) && |a.activations| <= |b.activations|
    && |a.ran| <= |b.ran| && forall k :: 0 <= k < |a.ran| ==> b.ran[k] == a.ran[k]
  }

  /** The same, but activations from me on may have run more. */
  ghost predicate GrowsFrom(a: State, b: State, me: int) {
    && Later(a.context, b.context) && |a.activations| <= |b.activations|
    && |a.ran| <= |b.ran| && forall k :: 0 <= k < |a.ran| && k < me ==> b.ran[k] == a.ran[k]
  }

  ghost predicate SameInputs(a: Act, b: Act) {
    b.owner == a.owner && b.ins == a.ins && b.looks == a.looks
  }

  /** The same, but activation me may have run more. */
  ghost predicate GrowsBut(a: State, b: State, me: int) {
    && Later(a.context, b.context) && |a.activations| <= |b.activations|
    && |a.ran| <= |b.ran| && (forall k :: 0 <= k < |a.ran| && k != me ==> b.ran[k] == a.ran[k])
    && (0 <= me < |a.ran| ==> SameInputs(a.ran[me], b.ran[me]))
  }

  lemma GrowsOn(a: State, b: State, c: State, at: int, me: int)
    requires GrowsFrom(a, b, me) && GrowsBut(b, c, at) && at >= me
    ensures GrowsFrom(a, c, me)
  {
  }

  lemma GrowsTrans(a: State, b: State, c: State, me: int)
    requires GrowsBut(b, c, me)
    ensures GrowsBut(a, b, me) ==> GrowsBut(a, c, me)
    ensures Grows(a, b) && Grows(b, c) ==> Grows(a, c)
  {
  }

  /** A value node whose live sources have run, in a program whose value nodes leave the variables alone. */
  ghost predicate IsValue(pr: Program, rk: Ranks, st: State, id: string)
    requires Ranked(pr, rk)
  {
    id in pr.cfg.nodes && id !in Live(pr) && ReadOnly(pr) && AllSettled(pr, rk, HaveRun(pr, st), id)
  }

  /** The node has been evaluated quietly: on success its outputs are what its expression means. */
  ghost predicate Evaluated(pr: Program, rk: Ranks, a: State, b: State, id: string, done: bool)
    requires Ranked(pr, rk) && Sound(a) && Sound(b) && id in pr.cfg.nodes
  {
    && Quiet(pr, a, b)
    && (forall n :: n in a.context && n != id && !Low(rk, n, id) ==> n in b.context && b.context[n] == a.context[n])
    && (done ==> id in b.context && b.activations[b.context[id]] == Meaning(pr, rk, LiveOuts(pr, a), a.vars, id))
  }

  /** Arguments in the out-ports from a given one on. */
  function WithArgs(outs: PortVals, args: seq<Value>, argStart: int): (r: PortVals)
    ensures |r| == |outs|
    ensures forall p :: At(r, p) == if 0 <= p < |outs| && argStart <= p < argStart + |args|
                                    then Some(args[p - argStart])
                                    else At(outs, p)
  {
    seq(|outs|, p requires 0 <= p < |outs| =>
      if argStart <= p < argStart + |args| then Some(args[p - argStart]) else outs[p])
  }

  lemma WithNoArgs(outs: PortVals, argStart: int)
    ensures WithArgs(outs, [], argStart) == outs
  {
  }

  lemma WithOneMore(outs: PortVals, args: seq<Value>, argStart: int, i: nat)
    requires i < |args| && 0 <= i + argStart < |outs|
    ensures WithArgs(outs, args[..i], argStart)[i + argStart := Some(args[i])] == WithArgs(outs, args[..i + 1],
                                                                                           argStart)
  {
  }

  /** A node has got new ports with the given values in its out-ports. */
  ghost predicate Activated(pr: Program, a: State, b: State, id: string, outs: PortVals) {
    && b.context == a.context[id := |a.activations|] && b.vars == a.vars
    && |b.activations| == |a.activations| + 1 && b.activations[..|a.activations|] == a.activations
    && b.activations[|a.activations|] == outs
  }

  /** Evaluating a source of a node is an evaluation of nodes below that node. */
  lemma SourceEvaluated(pr: Program, rk: Ranks, id: string, pre: string, a: State, b: State, done: bool)
    requires Ranked(pr, rk) && Sound(a) && Sound(b) && pre in pr.cfg.nodes && pre !in Live(pr)
    requires Evaluated(pr, rk, a, b, pre, done) && Grows(a, b) && Low(rk, pre, id)
    ensures Quiet(pr, a, b) && OnlyLow(rk, id, a, b)
    ensures done ==> pre in b.context && b.activations[b.context[pre]] == SourceOuts(pr, rk, a, pre)
  {
    forall n | n in a.context && !Low(rk, n, id)
      ensures a.context[n] == b.context[n]
    {
      assert n != pre && !Low(rk, n, pre);
    }
  }

  /** What a node with new ports makes of them, given the values that its inputs mean. */
  ghost function MeantOuts(pr: Program, rk: Ranks, id: string, me: nat, mid: State): PortVals
    requires Ranked(pr, rk) && Sound(mid) && id in pr.cfg.nodes && me < |mid.activations|
  {
    PlanOf(pr, id, 0, InValues(pr, rk, LiveOuts(pr, mid), mid.vars, id), mid.activations[me], mid.vars).outs
  }

  /** A value node has got its new ports, its inputs were collected quietly, and it has then written
      to its ports only; on success what its plan for the meant inputs says. */
  ghost predicate RunsVia(pr: Program, rk: Ranks, id: string, me: nat, mid: State, got: State, end: State, done: bool)
    requires Ranked(pr, rk) && Sound(mid) && id in pr.cfg.nodes && me < |mid.activations|
  {
    && Quiet(pr, mid, got) && OnlyLow(rk, id, mid, got) && OnlyOuts(got, end, me)
    && (done ==> me < |end.activations| && end.activations[me] == MeantOuts(pr, rk, id, me, mid))
  }

  lemma ValueDone(pr: Program, rk: Ranks, id: string, start: State, mid: State, end: State, done: bool)
    requires Ranked(pr, rk) && Sound(start) && Sound(mid) && Sound(end) && id in pr.cfg.nodes && id !in Live(pr)
    requires Activated(pr, start, mid, id, pr.blank(id))
    requires exists got :: RunsVia(pr, rk, id, |start.activations|, mid, got, end, done)
    ensures Evaluated(pr, rk, start, end, id, done)
  {
    var got :| RunsVia(pr, rk, id, |start.activations|, mid, got, end, done);
    ValueQuiet(pr, rk, id, start, mid, got);
    ValueStart(pr, rk, id, start, mid);
    ValueEnd(pr, start, got, end);
  }

  lemma KeptPorts(pr: Program, rk: Ranks, id: string, me: nat, mid: State, got: State)
    requires Quiet(pr, mid, got) && OnlyLow(rk, id, mid, got) && me < |mid.activations|
    requires id in mid.context && mid.context[id] == me
    ensures got.vars == mid.vars && me < |got.activations| && got.activations[me] == mid.activations[me]
    ensures id in got.context && got.context[id] == me
  {
    assert got.activations[..|mid.activations|][me] == got.activations[me];
    assert !Low(rk, id, id);
  }

  /** Nothing but the output ports of one activation has changed. */
  ghost predicate OnlyOuts(a: State, b: State, me: int) {
    && b.context == a.context && b.vars == a.vars && |b.activations| == |a.activations|
    && forall k :: 0 <= k < |a.activations| && k != me ==> b.activations[k] == a.activations[k]
  }

  /** What DoNext(index) runs, if anything, for an activation with the given output ports. */
  ghost function TargetOf(pr: Program, id: string, index: int, outs: PortVals): seq<Ran> {
    if id in pr.next && 0 <= index < |pr.next[id]| && pr.next[id][index].Some?
    then [Ran(pr.next[id][index].value, outs)] else []
  }

  ghost function CallTarget(pr: Program, id: string, call: Call): seq<Ran> {
    TargetOf(pr, id, call.next, call.outs)
  }

  /** What a sequence of calls runs, in order. */
  ghost function TargetsOf(pr: Program, id: string, calls: seq<Call>): seq<Ran> {
    if calls == [] then [] else TargetsOf(pr, id, calls[..|calls| - 1]) + CallTarget(pr, id, calls[|calls| - 1])
  }

  /** What an execution of a plan runs: the targets of its calls, and the node that it goes on with. */
  ghost function LogOf(pr: Program, id: string, plan: Plan): seq<Ran>
    requires plan.next.Some?
  {
    TargetsOf(pr, id, plan.calls) + TargetOf(pr, id, plan.next.value, plan.outs)
  }

  // ---- where inputs come from ----

  /** The value v at an in-port of a node is none at an execution port, the default at a port without
      a source, and else what was read at the out-port of an activation of the source; a value node
      was run for it, so that its activation is a newer one. */
  ghost predicate FedPort(pr: Program, ran: seq<Act>, id: string, i: int, v: Option<Value>, read: Option<Read>,
                          from: int)
  {
    if !DataPort(pr, id, i) then v == None
    else match Source(pr.cfg, id, i)
      case None => v == pr.defaults(id, i) && v.Some?
      case Some(source) =>
        && read.Some? && v == At(read.value.outs, source.1) && v.Some?
        && read.value.act < |ran| && ran[read.value.act].owner == source.0
        && (source.0 !in Live(pr) ==> from <= read.value.act)
  }

  ghost predicate FedPorts(pr: Program, ran: seq<Act>, id: string, ins: PortVals, looks: seq<Option<Read>>, from: int) {
    |ins| == |looks| && forall i :: 0 <= i < |ins| ==> FedPort(pr, ran, id, i, ins[i], looks[i], from)
  }

  /** All in-ports of activation k have been set. */
  ghost predicate Fed(pr: Program, ran: seq<Act>, k: nat) {
    && k < |ran| && ran[k].owner in pr.cfg.nodes && |ran[k].ins| == |pr.cfg.nodes[ran[k].owner].ins|
    && FedPorts(pr, ran, ran[k].owner, ran[k].ins, ran[k].looks, k + 1)
  }

  ghost predicate FedFrom(pr: Program, ran: seq<Act>, from: int) {
    forall k: nat :: from <= k < |ran| ==> Fed(pr, ran, k)
  }

  ghost predicate KeepInputs(a: seq<Act>, b: seq<Act>) {
    |a| <= |b| && forall k :: 0 <= k < |a| ==> SameInputs(a[k], b[k])
  }

  lemma FedKept(pr: Program, a: seq<Act>, b: seq<Act>, id: string, ins: PortVals, looks: seq<Option<Read>>, from: int)
    requires FedPorts(pr, a, id, ins, looks, from) && KeepInputs(a, b)
    ensures FedPorts(pr, b, id, ins, looks, from)
  {
    forall i | 0 <= i < |ins|
      ensures FedPort(pr, b, id, i, ins[i], looks[i], from)
    {
      assert FedPort(pr, a, id, i, ins[i], looks[i], from);
    }
  }

  lemma FedTrans(pr: Program, a: seq<Act>, b: seq<Act>, from: int)
    requires FedFrom(pr, a, from) && KeepInputs(a, b) && FedFrom(pr, b, |a|)
    ensures FedFrom(pr, b, from)
  {
    forall k: nat | from <= k < |b|
      ensures Fed(pr, b, k)
    {
      if k < |a| {
        assert Fed(pr, a, k) && SameInputs(a[k], b[k]);
        FedKept(pr, a, b, a[k].owner, a[k].ins, a[k].looks, k + 1);
      }
    }
  }

  lemma FedMore(pr: Program, a: seq<Act>, b: seq<Act>, id: string, ins: PortVals, looks: seq<Option<Read>>, from: int,
                v: Option<Value>, read: Option<Read>)
    requires FedPorts(pr, a, id, ins, looks, from) && KeepInputs(a, b)
             && FedPort(pr, b, id, |ins|, v, read, from)
    ensures FedPorts(pr, b, id, ins + [v], looks + [read], from)
  {
    FedKept(pr, a, b, id, ins, looks, from);
  }

  /** The inputs that were collected for activation me are set, after all later ones. */
  lemma FedNow(pr: Program, a: seq<Act>, b: seq<Act>, me: nat)
    requires me < |a| == |b| && FedFrom(pr, a, me + 1) && b == a[me := b[me]]
    requires b[me].owner == a[me].owner && b[me].owner in pr.cfg.nodes
    requires |b[me].ins| == |pr.cfg.nodes[b[me].owner].ins|
    requires FedPorts(pr, a, b[me].owner, b[me].ins, b[me].looks, me + 1)
    ensures FedFrom(pr, b, me)
  {
    forall k: nat | me <= k < |b|
      ensures Fed(pr, b, k)
    {
      if k > me {
        assert Fed(pr, a, k) && a[k] == b[k];
      }
      forall i | 0 <= i < |b[k].ins|
        ensures FedPort(pr, b, b[k].owner, i, b[k].ins[i], b[k].looks[i], k + 1)
      {
        assert FedPort(pr, a, b[k].owner, i, b[k].ins[i], b[k].looks[i], k + 1);
      }
    }
  }

  /** The current activation of each node is one of its own. */
  ghost predicate Owned(st: State) {
    && |st.ran| == |st.activations|
    && forall n :: n in st.context ==> st.context[n] < |st.ran| && st.ran[st.context[n]].owner == n
  }

  /** Activation a is one of the node, and has last run what its plan for its inputs says. */
  ghost predicate PlayedAt(pr: Program, id: string, ran: seq<Act>, a: nat, outs: PortVals, vars: Vars,
                           before: seq<Ran>)
  {
    && a < |ran| && ran[a].owner == id && PlanOf(pr, id, a, ran[a].ins, outs, vars).next.Some?
    && ran[a].log == before + LogOf(pr, id, PlanOf(pr, id, a, ran[a].ins, outs, vars))
  }

  /** Some activation of the node, from the given number on, has last run what its plan says. */
  ghost predicate Played(pr: Program, id: string, ran: seq<Act>, from: int) {
    exists a: nat, outs, vars, before :: from <= a && PlayedAt(pr, id, ran, a, outs, vars, before)
  }

  lemma PlayedNow(pr: Program, id: string, before: State, now: State, from: int)
    requires Owned(before) && id in before.context && from <= before.context[id] < |before.activations|
    requires GrowsBut(before, now, before.context[id])
    requires var me := before.context[id];
             var plan := PlanOf(pr, id, me, before.ran[me].ins, before.activations[me], before.vars);
             plan.next.Some? && now.ran[me] == Logged(before.ran[me], LogOf(pr, id, plan))
    ensures Played(pr, id, now.ran, from)
  {
    var me := before.context[id];
    assert PlayedAt(pr, id, now.ran, me, before.activations[me], before.vars, before.ran[me].log);
  }

  lemma LogAppend(act: Act, a: seq<Ran>, b: seq<Ran>)
    ensures Logged(Logged(act, a), b) == Logged(act, a + b) && Logged(act, []) == act
  {
    assert act.log + a + b == act.log + (a + b) && act.log + [] == act.log;
  }

  lemma GrowsCaller(a: State, b: State, c: State, caller: int, id: string)
    requires GrowsBut(a, b, caller) && GrowsFrom(b, c, |a.activations|) && |a.ran| == |a.activations|
             && caller < |a.ran| && id in b.context && b.context[id] == |a.activations|
    ensures GrowsBut(a, c, caller) && (0 <= caller ==> |c.ran| > caller && c.ran[caller] == b.ran[caller])
    ensures id in c.context && |a.activations| <= c.context[id]
  {
  }

  lemma TargetsSnoc(pr: Program, id: string, calls: seq<Call>, k: int)
    requires 0 <= k < |calls|
    ensures TargetsOf(pr, id, calls[..k + 1]) == TargetsOf(pr, id, calls[..k]) + CallTarget(pr, id, calls[k])
  {
    assert calls[..k + 1][..k] == calls[..k];
  }

  /** The state in which a node has just got new ports. */
  ghost function WithPorts(st: State, id: string, outs: PortVals): State {
    st.(context := st.context[id := |st.activations|], activations := st.activations + [outs])
  }

  /** Value nodes are read only, and all that the inputs of the node depend on has run. */
  ghost predicate Ready(pr: Program, rk: Ranks, st: State, id: string)
    requires Ranked(pr, rk) && id in pr.cfg.nodes
  {
    ReadOnly(pr) && AllSettled(pr, rk, HaveRun(pr, st), id)
  }

  /** Activation me has got the inputs that the expressions at its in-ports mean, and has run what the
      plan for them says. */
  ghost predicate Meant(pr: Program, rk: Ranks, mid: State, ran: seq<Act>, id: string, me: nat)
    requires Ranked(pr, rk) && id in pr.cfg.nodes && Sound(mid)
  {
    && me < |ran| && me < |mid.activations|
    && ran[me].ins == InValues(pr, rk, LiveOuts(pr, mid), mid.vars, id)
    && var plan := PlanOf(pr, id, me, ran[me].ins, mid.activations[me], mid.vars);
       plan.next.Some? && ran[me].log == LogOf(pr, id, plan)
  }

  /** A quiet collection leaves the node the ports that it has just got; it then runs on them. */
  lemma MeantNow(pr: Program, rk: Ranks, id: string, me: nat, mid: State, got: State, ran: seq<Act>, ins: PortVals,
                 looks: seq<Option<Read>>)
    requires Ranked(pr, rk) && id in pr.cfg.nodes && Sound(mid) && me < |mid.ran| && mid.ran[me].log == []
    requires Grows(mid, got) && me < |mid.activations| && me < |got.activations| && me < |ran|
    requires got.activations[me] == mid.activations[me] && got.vars == mid.vars
    requires ins == InValues(pr, rk, LiveOuts(pr, mid), mid.vars, id)
    requires var plan := PlanOf(pr, id, me, ins, got.activations[me], got.vars);
             plan.next.Some? && ran[me] == Logged(got.ran[me].(ins := ins, looks := looks), LogOf(pr, id, plan))
    ensures Meant(pr, rk, mid, ran, id, me)
  {
    assert forall log: seq<Ran> :: [] + log == log;
  }

  lemma MeantWithPorts(pr: Program, rk: Ranks, start: State, mid: State, ran: seq<Act>, id: string, outs: PortVals)
    requires Ranked(pr, rk) && id in pr.cfg.nodes && Sound(start) && Sound(mid) && Activated(pr, start, mid, id, outs)
    ensures Sound(WithPorts(start, id, outs))
    ensures Ready(pr, rk, WithPorts(start, id, outs), id) <==> Ready(pr, rk, mid, id)
    ensures Meant(pr, rk, mid, ran, id, |start.activations|) ==>
              Meant(pr, rk, WithPorts(start, id, outs), ran, id, |start.activations|)
  {
    assert mid.activations == start.activations + [outs];
    assert LiveOuts(pr, mid) == LiveOuts(pr, WithPorts(start, id, outs));
    assert HaveRun(pr, mid) == HaveRun(pr, WithPorts(start, id, outs));
  }

  class Graph {
    const pr: Program
    ghost const rk: Ranks
    var context: map<string, nat>
    var activations: seq<PortVals>
    var vars: Vars
    /** What is known of each activation. */
    var ran: seq<Act>

    ghost function Now(): State
      reads this
    {
      State(context, activations, vars, ran)
    }

    ghost predicate Valid()
      reads this
    {
      Ranked(pr, rk) && Sound(Now()) && Owned(Now())
    }

    constructor (pr: Program)
      requires Runnable(pr)
      ensures Valid() && this.pr == pr && context == map[]
    {
      RunnableRanked(pr);
      this.pr := pr;
      this.rk := RanksOf(pr);
      context, activations, vars, ran := map[], [], map[], [];
    }

    /** Runs a node, for the activation that calls it if any (-1 for none), and enters it in that
        activation's log.  That this terminates is the point: every call it leads to leaves fewer
        live nodes unexecuted, or descends in the execution graph, or in the data graph.  A value
        node whose live sources have run gets the outputs that its expression means, and leaves
        every live node as it is. */
    method Do(id: string, args: seq<Value>, argStart: int, caller: int) returns (r: Outcome)
      requires Valid() && id in pr.cfg.nodes && -1 <= caller < |ran|
      modifies this
      ensures Valid() && GrowsBut(old(Now()), Now(), caller) && id in context && old(|activations|) <= context[id]
      ensures caller >= 0 ==> ran[caller] == Logged(old(ran)[caller], [Ran(id, old(activations)[caller])])
      ensures r.Done? ==> Played(pr, id, ran, old(|activations|)) && FedFrom(pr, ran, old(|activations|))
      ensures r != Failed(PreNotExecuted)
      ensures var mid := WithPorts(old(Now()), id, WithArgs(pr.blank(id), args, argStart));
              Ready(pr, rk, mid, id) && r.Done? ==> Meant(pr, rk, mid, ran, id, old(|activations|))
      ensures args == [] && IsValue(pr, rk, old(Now()), id) ==> Evaluated(pr, rk, old(Now()), Now(), id, r.Done?)
      decreases Unexecuted(pr, context.Keys + {id}), rk.flow[id], rk.data[id], 7
    {
      ghost var start, began := Now(), context.Keys + {id};
      r := Activate(id, args, argStart, caller);
      assert context.Keys + {id} == began;
      if r.Done? {
        ghost var mid, outs := Now(), WithArgs(pr.blank(id), args, argStart);
        r := DoFor(id, start, outs, caller);
        MeantWithPorts(pr, rk, start, mid, ran, id, outs);
        WithNoArgs(pr.blank(id), argStart);
      }
    }

    /** Do, once the node has its new ports and is in the log of its caller. */
    method DoFor(id: string, ghost start: State, ghost outs: PortVals, ghost caller: int) returns (r: Outcome)
      requires Valid() && Sound(start) && Owned(start) && id in pr.cfg.nodes && -1 <= caller < |start.ran|
      requires Activated(pr, start, Now(), id, outs) && GrowsBut(start, Now(), caller)
      requires ran[|start.activations|].log == []
      modifies this
      ensures Valid() && GrowsBut(start, Now(), caller) && id in context && |start.activations| <= context[id]
      ensures caller >= 0 ==> ran[caller] == old(ran)[caller]
      ensures r != Failed(PreNotExecuted) && (r.Done? ==> Played(pr, id, ran, |start.activations|))
      ensures r.Done? ==> FedFrom(pr, ran, |start.activations|)
      ensures r.Done? && Ready(pr, rk, old(Now()), id) ==> Meant(pr, rk, old(Now()), ran, id, |start.activations|)
      ensures outs == pr.blank(id) && IsValue(pr, rk, start, id) ==> Evaluated(pr, rk, start, Now(), id, r.Done?)
      decreases Unexecuted(pr, context.Keys + {id}), rk.flow[id], rk.data[id], 6
    {
      ghost var mid, value := Now(), outs == pr.blank(id) && IsValue(pr, rk, start, id);
      if value {
        ValueStart(pr, rk, id, start, mid);
      }
      r := DoActivated(id, |activations| - 1);
      GrowsCaller(start, mid, Now(), caller, id);
      if value {
        ValueDone(pr, rk, id, start, mid, Now(), r.Done?);
      }
    }

    /** Do, once the node has its new ports. */
    method DoActivated(id: string, me: nat) returns (r: Outcome)
      requires Valid() && id in pr.cfg.nodes && id in context
      requires context[id] == me == |activations| - 1 && ran[me].log == []
      modifies this
      ensures Valid() && GrowsFrom(old(Now()), Now(), me)
      ensures r != Failed(PreNotExecuted) && (r.Done? ==> Played(pr, id, ran, me) && FedFrom(pr, ran, me))
      ensures Ready(pr, rk, old(Now()), id) ==>
                && (r.Done? ==> Meant(pr, rk, old(Now()), ran, id, me))
                && (id !in Live(pr) ==> exists got :: RunsVia(pr, rk, id, me, old(Now()), got, Now(), r.Done?))
      decreases Unexecuted(pr, context.Keys + {id}), rk.flow[id], rk.data[id], 5
    {
      ghost var began, mid, ready := context.Keys + {id}, Now(), Ready(pr, rk, Now(), id);
      var ins, looks;
      r, ins, looks := CollectInputs(id);
      ghost var got := Now();
      if r.Failed? {
        assert ready ==> RunsVia(pr, rk, id, me, mid, got, Now(), false);
        return;
      }
      if ready {
        KeptPorts(pr, rk, id, me, mid, got);
      }
      Fewer(pr, began, context.Keys + {id});
      r := ExecWith(id, me, ins, looks, mid);
      if ready {
        if r.Done? {
          MeantNow(pr, rk, id, me, mid, got, ran, ins, looks);
        }
        assert id !in Live(pr) ==> RunsVia(pr, rk, id, me, mid, got, Now(), r.Done?);
      }
    }

    /** The collected inputs go to the new ports; the node then runs on the ports that the context
        has for it, which are newer ones if it has run again meanwhile. */
    method ExecWith(id: string, me: nat, ins: PortVals, looks: seq<Option<Read>>, ghost mid: State)
      returns (r: Outcome)
      requires Valid() && id in pr.cfg.nodes && id in context && me <= context[id] && Grows(mid, Now())
      requires me < |ran| && ran[me].owner == id && FedFrom(pr, ran, me + 1)
      requires |ins| == |pr.cfg.nodes[id].ins| && FedPorts(pr, ran, id, ins, looks, me + 1)
      modifies this
      ensures Valid() && GrowsFrom(mid, Now(), me) && r != Failed(PreNotExecuted)
      ensures r.Done? ==> Played(pr, id, ran, me) && FedFrom(pr, ran, me)
      ensures r.Done? && old(context)[id] == me ==>
                var plan := PlanOf(pr, id, me, ins, old(activations)[me], old(vars));
                plan.next.Some? && ran[me] == Logged(old(ran)[me].(ins := ins, looks := looks), LogOf(pr, id, plan))
      ensures id !in Live(pr) && ReadOnly(pr) && old(context)[id] == me ==>
                && OnlyOuts(old(Now()), Now(), me)
                && (r.Done? ==> activations[me] == PlanOf(pr, id, me, ins, old(activations)[me], old(vars)).outs)
      decreases Unexecuted(pr, context.Keys + {id}), rk.flow[id], rk.data[id], 4
    {
      SetInputs(id, me, ins, looks, mid);
      ghost var before := Now();
      r := Exec(id);
      GrowsOn(mid, before, Now(), before.context[id], me);
      if r.Done? {
        PlayedNow(pr, id, before, Now(), me);
        FedTrans(pr, before.ran, ran, me);
      }
    }

    method SetInputs(id: string, me: nat, ins: PortVals, looks: seq<Option<Read>>, ghost mid: State)
      requires Valid() && me < |ran| && Grows(mid, Now()) && ran[me].owner == id && id in pr.cfg.nodes
      requires |ins| == |pr.cfg.nodes[id].ins| && FedPorts(pr, ran, id, ins, looks, me + 1) && FedFrom(pr, ran, me + 1)
      modifies this`ran
      ensures Valid() && GrowsFrom(mid, Now(), me) && ran == old(ran)[me := old(ran)[me].(ins := ins, looks := looks)]
      ensures FedFrom(pr, ran, me)
    {
      ran := ran[me := ran[me].(ins := ins, looks := looks)];
      FedNow(pr, old(ran), ran, me);
    }

    /** New ports for a node, with arguments in its data out-ports. */
    method Activate(id: string, args: seq<Value>, argStart: int, caller: int) returns (r: Outcome)
      requires Valid() && id in pr.cfg.nodes && -1 <= caller < |ran|
      modifies this`context, this`activations, this`ran
      ensures Valid() && GrowsBut(old(Now()), Now(), caller)
              && (caller >= 0 ==> ran[caller] == Logged(old(ran)[caller], [Ran(id, old(activations)[caller])]))
      ensures |ran| == old(|ran|) + 1 && ran[old(|ran|)] == Act(id, [], [], [])
      ensures context == old(context)[id := old(|activations|)] && vars == old(vars)
      ensures r == Done || r == Failed(BadArgs)
      ensures r.Done? <==> forall p :: argStart <= p < argStart + |args| ==> At(pr.blank(id), p).Some?
      ensures r.Done? ==> Activated(pr, old(Now()), Now(), id, WithArgs(pr.blank(id), args, argStart))
    {
      var me := |activations|;
      var outs := pr.blank(id);
      var log := if caller >= 0 then ran[caller := Logged(ran[caller], [Ran(id, activations[caller])])] else ran;
      activations, ran := activations + [outs], log + [Act(id, [], [], [])];
      context := context[id := me];
      WithNoArgs(outs, argStart);
      assert args[..0] == [];
      for i := 0 to |args|
        invariant |activations| == me + 1 && activations[..me] == old(activations) && activations[me] == outs
        invariant ran == log + [Act(id, [], [], [])]
        invariant context == old(context)[id := me] && outs == WithArgs(pr.blank(id), args[..i], argStart)
        invariant forall p :: argStart <= p < argStart + i ==> At(pr.blank(id), p).Some?
      {
        assert At(outs, i + argStart) == At(pr.blank(id), i + argStart);
        if i + argStart < 0 || i + argStart >= |outs| || outs[i + argStart].None? {
          return Failed(BadArgs);
        }
        WithOneMore(pr.blank(id), args, argStart, i);
        outs := outs[i + argStart := Some(args[i])];
        activations := activations[me := outs];
      }
      assert args[..|args|] == args;
      r := Done;
    }

    /** The loop of Do over the in-ports. */
    method CollectInputs(id: string) returns (r: Outcome, ins: PortVals, looks: seq<Option<Read>>)
      requires Valid() && id in pr.cfg.nodes && id in context
      modifies this
      ensures Valid() && Grows(old(Now()), Now())
      ensures r != Failed(PreNotExecuted)
      ensures r.Done? ==> |ins| == |pr.cfg.nodes[id].ins| && FedPorts(pr, ran, id, ins, looks, old(|ran|))
                          && FedFrom(pr, ran, old(|ran|))
      ensures ReadOnly(pr) && AllSettled(pr, rk, HaveRun(pr, old(Now())), id) ==>
                && Quiet(pr, old(Now()), Now()) && OnlyLow(rk, id, old(Now()), Now())
                && (r.Done? ==> ins == InValues(pr, rk, LiveOuts(pr, old(Now())), old(vars), id))
      decreases Unexecuted(pr, context.Keys + {id}), rk.flow[id], rk.data[id], 4
    {
      ghost var start := Now();
      ghost var began := context.Keys + {id};
      ghost var settled := ReadOnly(pr) && AllSettled(pr, rk, HaveRun(pr, start), id);
      r, ins, looks := Done, [], [];
      for port := 0 to |pr.cfg.nodes[id].ins|
        invariant Valid() && Grows(start, Now()) && |ins| == port && r.Done?
        invariant settled ==> Gathered(pr, rk, id, start, Now(), ins)
        invariant FedPorts(pr, ran, id, ins, looks, |start.ran|) && FedFrom(pr, ran, |start.ran|)
      {
        Fewer(pr, began, context.Keys + {id});
        var v, read;
        ghost var before := ran;
        r, v, read := CollectPort(id, port, ins, start, settled);
        if r.Failed? {
          return;
        }
        FedMore(pr, before, ran, id, ins, looks, |start.ran|, v, read);
        FedTrans(pr, before, ran, |start.ran|);
        ins, looks := ins + [v], looks + [read];
      }
    }

    /** One round of that loop. */
    method CollectPort(id: string, port: nat, ghost ins: PortVals, ghost start: State, ghost settled: bool)
      returns (r: Outcome, v: Option<Value>, read: Option<Read>)
      requires Valid() && id in pr.cfg.nodes && id in context && |ins| == port < |pr.cfg.nodes[id].ins|
      requires Sound(start) && Grows(start, Now())
      requires settled ==>
                 && ReadOnly(pr) && AllSettled(pr, rk, HaveRun(pr, start), id) && Gathered(pr, rk, id, start, Now(),
                                                                                           ins)
      modifies this
      ensures Valid() && Grows(start, Now()) && r != Failed(PreNotExecuted) && KeepInputs(old(ran), ran)
      ensures r.Done? ==> FedPort(pr, ran, id, port, v, read, |start.ran|) && FedFrom(pr, ran, old(|ran|))
      ensures settled && r.Done? ==> Gathered(pr, rk, id, start, Now(), ins + [v])
      ensures settled && r.Failed? ==> Quiet(pr, start, Now()) && OnlyLow(rk, id, start, Now())
      decreases Unexecuted(pr, context.Keys + {id}), rk.flow[id], rk.data[id], 3
    {
      ghost var before := Now();
      r, v, read := Done, None, None;
      if !pr.cfg.nodes[id].ins[port] {
        if settled {
          StillSettled(pr, rk, id, start, before, ins);
        }
        r, v, read := DoSetInPort(id, port);
        GrowsTrans(start, before, Now(), 0);
        if settled {
          LowQuiet(pr, rk, id, start, before, Now());
        }
      }
      if settled && r.Done? {
        GatherPort(pr, rk, id, start, before, Now(), ins, v);
      }
    }

    /** Finds the value for an in-port, running its source first where that has not run, or is a
        value node, which is computed anew each time. */
    method DoSetInPort(id: string, port: int) returns (r: Outcome, v: Option<Value>, read: Option<Read>)
      requires Valid() && id in context && DataPort(pr, id, port)
      modifies this
      ensures Valid() && Grows(old(Now()), Now())
      ensures r != Failed(PreNotExecuted)
      ensures r.Done? ==> FedPort(pr, ran, id, port, v, read, old(|ran|)) && FedFrom(pr, ran, old(|ran|))
      ensures r.Done? && Source(pr.cfg, id, port).Some? ==>
                var (pre, outPort) := Source(pr.cfg, id, port).value;
                && (pre in Live(pr) && pre in old(context) ==> Now() == old(Now()))
                && pre in context && read == Some(Read(context[pre], activations[context[pre]]))
                && v == At(read.value.outs, outPort)
      ensures Source(pr.cfg, id, port).None? ==>
                Now() == old(Now()) && r == if pr.defaults(id, port).None? then Failed(BadDefault) else Done
      ensures Source(pr.cfg, id, port).Some? ==>
                var (pre, outPort) := Source(pr.cfg, id, port).value;
                pre in Live(pr) && pre in old(context) ==>
                  r == if At(old(activations[context[pre]]), outPort).None? then Failed(MissingOutPort) else Done
      ensures ReadOnly(pr) && Settled(pr, rk, HaveRun(pr, old(Now())), id, port) ==>
                && Quiet(pr, old(Now()), Now()) && OnlyLow(rk, id, old(Now()), Now())
                && (r.Done? ==> v == InValue(pr, rk, LiveOuts(pr, old(Now())), old(vars), id, port))
      decreases Unexecuted(pr, context.Keys + {id}), rk.flow[id], rk.data[id], 1
    {
      v, read := None, None;
      var source := Source(pr.cfg, id, port);
      if source.None? {
        v := pr.defaults(id, port);
        return if v.None? then Failed(BadDefault) else Done, v, None;
      }
      var (pre, outPort) := source.value;
      r := RunSource(id, port, pre);
      if r.Failed? {
        return;
      }
      if pre !in context {
        return Failed(PreNotExecuted), None, None;
      }
      var outs := activations[context[pre]];
      if outPort < 0 || outPort >= |outs| || outs[outPort].None? {
        return Failed(MissingOutPort), None, None;
      }
      r, v, read := Done, outs[outPort], Some(Read(context[pre], outs));
    }

    /** Runs the source of an in-port where it has not run, or is a value node. */
    method RunSource(id: string, port: int, pre: string) returns (r: Outcome)
      requires Valid() && id in context && DataPort(pr, id, port)
      requires Source(pr.cfg, id, port).Some? && pre == Source(pr.cfg, id, port).value.0
      modifies this
      ensures Valid() && Grows(old(Now()), Now()) && r != Failed(PreNotExecuted)
      ensures pre in Live(pr) && pre in old(context) ==> r == Done && Now() == old(Now())
      ensures r.Done? ==>
                pre in context && FedFrom(pr, ran, old(|ran|)) && (pre !in Live(pr) ==> old(|ran|) <= context[pre])
      ensures ReadOnly(pr) && Settled(pr, rk, HaveRun(pr, old(Now())), id, port) ==>
                && Quiet(pr, old(Now()), Now()) && OnlyLow(rk, id, old(Now()), Now())
                && (r.Done? ==> activations[context[pre]] == SourceOuts(pr, rk, old(Now()), pre))
      decreases Unexecuted(pr, context.Keys + {id}), rk.flow[id], rk.data[id], 0
    {
      if pre in context && pre in Live(pr) {
        return Done;
      }
      Fewer(pr, context.Keys + {id}, context.Keys + {pre});
      assert SourceLowers(pr, rk, id, port);
      ghost var start := Now();
      r := Do(pre, [], 0, -1);
      if ReadOnly(pr) && Settled(pr, rk, HaveRun(pr, start), id, port) {
        SourceEvaluated(pr, rk, id, pre, start, Now(), r.Done?);
      }
    }

    /** Executes a node on the ports that the context has for it, and goes on with the next one.
        On success its activation has run the targets of its DoNext calls in order, and then the
        node that it goes on with. */
    method Exec(id: string) returns (r: Outcome)
      requires Valid() && id in pr.cfg.nodes && id in context
      modifies this
      ensures Valid() && GrowsBut(old(Now()), Now(), old(context[id]))
      ensures r != Failed(PreNotExecuted)
      ensures var me := old(context[id]);
              var plan := PlanOf(pr, id, me, old(ran)[me].ins, old(activations)[me], old(vars));
              && (plan.calls == [] && (plan.next.None? || plan.next.value == -1 || pr.next[id] == []) ==>
                    && Now() == old(Now()).(vars := plan.vars, activations := old(activations)[me := plan.outs])
                    && r == (if plan.next.None? then Failed(ExecFailed) else Done))
              && (r.Done? ==> plan.next.Some? && ran[me] == Logged(old(ran)[me], LogOf(pr, id, plan))
                              && FedFrom(pr, ran, old(|ran|)))
              && (id !in Live(pr) && ReadOnly(pr) ==>
                    OnlyOuts(old(Now()), Now(), me) && (r.Done? ==> activations[me] == plan.outs))
      decreases Unexecuted(pr, context.Keys + {id}), rk.flow[id], rk.data[id], 3
    {
      ghost var began := context.Keys + {id};
      var me := context[id];
      ghost var start := Now();
      var plan := PlanOf(pr, id, me, ran[me].ins, activations[me], vars);
      vars := plan.vars;
      r := MakeCalls(id, me, plan.calls);
      if r.Failed? {
        return;
      }
      Fewer(pr, began, context.Keys + {id});
      r := Finish(id, me, plan, start);
    }

    /** The end of an execution: the final output ports, and the node to go on with. */
    method Finish(id: string, me: nat, plan: Plan, ghost start: State) returns (r: Outcome)
      requires Valid() && id in pr.cfg.nodes && id in context && me < |start.ran| == |start.activations|
      requires GrowsBut(start, Now(), me) && ran[me] == Logged(start.ran[me], TargetsOf(pr, id, plan.calls))
      requires pr.next[id] == [] ==> OnlyOuts(start.(vars := plan.vars), Now(), me)
      requires FedFrom(pr, ran, |start.ran|)
      modifies this
      ensures Valid() && GrowsBut(start, Now(), me) && r != Failed(PreNotExecuted)
      ensures plan.next.None? || plan.next.value == -1 || pr.next[id] == [] ==>
                && Now() == old(Now()).(activations := old(activations)[me := plan.outs])
                && r == (if plan.next.None? then Failed(ExecFailed) else Done)
      ensures r.Done? ==> plan.next.Some? && ran[me] == Logged(start.ran[me], LogOf(pr, id, plan))
                          && FedFrom(pr, ran, |start.ran|)
      ensures pr.next[id] == [] ==>
                OnlyOuts(start.(vars := plan.vars), Now(), me) && (r.Done? ==> activations[me] == plan.outs)
      decreases Unexecuted(pr, context.Keys + {id}), rk.flow[id], rk.data[id], 1
    {
      SetOuts(me, plan.outs, start);
      if plan.next.None? {
        return Failed(ExecFailed);
      }
      LogAppend(start.ran[me], TargetsOf(pr, id, plan.calls), TargetOf(pr, id, plan.next.value, plan.outs));
      if plan.next.value == -1 || pr.next[id] == [] {
        return Done;
      }
      ghost var before := Now();
      r := DoNext(id, me, plan.next.value);
      GrowsTrans(start, before, Now(), me);
      if r.Done? {
        FedTrans(pr, before.ran, ran, |start.ran|);
      }
    }

    method SetOuts(me: nat, outs: PortVals, ghost start: State)
      requires Valid() && me < |activations| && GrowsBut(start, Now(), me)
      modifies this`activations
      ensures Valid() && GrowsBut(start, Now(), me)
      ensures Now() == old(Now()).(activations := old(activations)[me := outs])
    {
      activations := activations[me := outs];
    }

    /** The DoNext calls of one execution, in order, up to the first that fails. */
    method MakeCalls(id: string, me: nat, calls: seq<Call>) returns (r: Outcome)
      requires Valid() && id in pr.cfg.nodes && id in context && me < |activations|
      modifies this
      ensures Valid() && GrowsBut(old(Now()), Now(), me)
      ensures r != Failed(PreNotExecuted)
      ensures r.Done? ==> ran[me] == Logged(old(ran)[me], TargetsOf(pr, id, calls)) && FedFrom(pr, ran, old(|ran|))
      ensures pr.next[id] == [] ==> OnlyOuts(old(Now()), Now(), me)
      ensures calls == [] ==> r == Done && Now() == old(Now())
      decreases Unexecuted(pr, context.Keys + {id}), rk.flow[id], rk.data[id], 2
    {
      ghost var began, start := context.Keys + {id}, Now();
      ghost var log := ran[me];
      assert calls[..0] == [];
      LogAppend(log, [], []);
      r := Done;
      for k := 0 to |calls|
        invariant Valid() && GrowsBut(start, Now(), me) && r == Done
        invariant ran[me] == Logged(log, TargetsOf(pr, id, calls[..k])) && FedFrom(pr, ran, |start.ran|)
        invariant pr.next[id] == [] ==> OnlyOuts(start, Now(), me)
        invariant k == 0 ==> Now() == start
      {
        Fewer(pr, began, context.Keys + {id});
        TargetsSnoc(pr, id, calls, k);
        LogAppend(log, TargetsOf(pr, id, calls[..k]), CallTarget(pr, id, calls[k]));
        r := MakeCall(id, me, calls[k], start);
        if r.Failed? {
          return;
        }
      }
      assert calls[..|calls|] == calls;
    }

    method MakeCall(id: string, me: nat, call: Call, ghost start: State) returns (r: Outcome)
      requires Valid() && id in pr.cfg.nodes && id in context && me < |start.activations| == |start.ran|
               && GrowsBut(start, Now(), me)
      requires pr.next[id] == [] ==> OnlyOuts(start, Now(), me)
      requires FedFrom(pr, ran, |start.ran|)
      modifies this
      ensures Valid() && GrowsBut(start, Now(), me)
      ensures r != Failed(PreNotExecuted) && ran[me] == Logged(old(ran)[me], CallTarget(pr, id, call))
      ensures r.Done? ==> FedFrom(pr, ran, |start.ran|)
      ensures pr.next[id] == [] ==> OnlyOuts(start, Now(), me)
      decreases Unexecuted(pr, context.Keys + {id}), rk.flow[id], rk.data[id], 1
    {
      SetOuts(me, call.outs, start);
      ghost var before := Now();
      r := DoNext(id, me, call.next);
      GrowsTrans(start, before, Now(), me);
      if r.Done? {
        FedTrans(pr, before.ran, ran, |start.ran|);
      }
    }

    /** Goes on with the node at an execution port, for activation me: -1 and an unconnected port
        do nothing, an index out of range is an error, and otherwise the target is run. */
    method DoNext(id: string, me: nat, index: int) returns (r: Outcome)
      requires Valid() && id in pr.cfg.nodes && id in context && me < |ran|
      modifies this
      ensures Valid() && GrowsBut(old(Now()), Now(), me)
      ensures ran[me] == Logged(old(ran)[me], TargetOf(pr, id, index, old(activations)[me]))
      ensures r.Done? ==> FedFrom(pr, ran, old(|ran|))
      ensures r != Failed(PreNotExecuted)
      ensures index == -1 || (0 <= index < |pr.next[id]| && pr.next[id][index].None?) ==>
                r == Done && Now() == old(Now())
      ensures index < -1 || index >= |pr.next[id]| ==> r == Failed(NoSuchNext) && Now() == old(Now())
      ensures forall t :: t in TargetOf(pr, id, index, old(activations)[me]) && r.Done? ==>
                Played(pr, t.node, ran, old(|activations|))
      decreases Unexecuted(pr, context.Keys + {id}), rk.flow[id], rk.data[id], 0
    {
      if index == -1 {
        return Done;
      }
      if index < 0 || index >= |pr.next[id]| {
        return Failed(NoSuchNext);
      }
      if pr.next[id][index].None? {
        return Done;
      }
      assert NextLowers(pr, rk, id, index);
      Fewer(pr, context.Keys + {id}, context.Keys + {pr.next[id][index].value});
      r := Do(pr.next[id][index].value, [], 0, me);
    }

    /** One run from an entrance: it ends, whatever the nodes do, and on success some activation of
        the entrance node has run what its plan says.  An unknown entrance does nothing. */
    method Run(entrance: string, args: seq<Value>, argStart: int) returns (r: Outcome)
      requires Valid() && pr.entrance in pr.cfg.nodes
      modifies this
      ensures Valid() && r != Failed(PreNotExecuted)
      ensures entrance != pr.entrance ==> r == Done && Now() == old(Now())
      ensures entrance == pr.entrance ==>
                && pr.entrance in context
                && (r.Done? ==> Played(pr, pr.entrance, ran, old(|activations|)))
                && (r.Done? ==> FedFrom(pr, ran, old(|activations|)))
                && var start := State(map[], old(activations), map[], old(ran));
                   var mid := WithPorts(start, pr.entrance, WithArgs(pr.blank(pr.entrance), args, argStart));
                   Ready(pr, rk, mid, pr.entrance) && r.Done? ==>
                     Meant(pr, rk, mid, ran, pr.entrance, old(|activations|))
    {
      if entrance != pr.entrance {
        return Done;
      }
      vars, context := map[], map[];
      r := Do(pr.entrance, args, argStart, -1);
    }
  }

  // ---- control nodes ----

  /** Sets a number at a port of that type; a port of another type keeps its value. */
  function SetInt(outs: PortVals, port: nat, v: int): (r: PortVals)
    ensures |r| == |outs| && (At(outs, port).Some? ==> At(r, port).Some?)
    ensures forall p :: At(r, p) == if p == port && IsInt(outs, port) then Some(IntVal(v)) else At(outs, p)
  {
    if IsInt(outs, port) then outs[port := Some(IntVal(v))] else outs
  }

  predicate IsInt(vals: PortVals, port: int) {
    At(vals, port).Some? && At(vals, port).value.IntVal?
  }

  predicate IsArray(vals: PortVals, port: int) {
    At(vals, port).Some? && At(vals, port).value.ArrayVal?
  }

  /** Sequence: all its leading execution ports in order. */
  function SequencePlan(execOuts: nat, outs: PortVals, vars: Vars): Plan {
    Plan(vars, seq(execOuts, i => Call(outs, i)), outs, Some(-1))
  }

  /** Foreach from i on: port 0 for each number below end, shown at out-port 2, and then port 1. */
  function ForeachCalls(outs: PortVals, i: int, end: int): (calls: seq<Call>)
    ensures calls != []
    decreases end - i
  {
    if i >= end then [Call(outs, 1)]
    else
      var shown := SetInt(outs, 2, i);
      [Call(shown, 0)] + ForeachCalls(shown, i + 1, end)
  }

  /** ForeachIntArray from element i on, which is shown at out-ports 2 and 3. */
  function ForeachArrayCalls(outs: PortVals, a: seq<int>, i: nat): (calls: seq<Call>)
    requires i <= |a|
    ensures calls != []
    decreases |a| - i
  {
    if i == |a| then [Call(outs, 1)]
    else
      var shown := SetInt(SetInt(outs, 2, i), 3, a[i]);
      [Call(shown, 0)] + ForeachArrayCalls(shown, a, i + 1)
  }

  function Refusal(outs: PortVals, vars: Vars): Plan {
    Plan(vars, [], outs, None)
  }

  /** Makes the calls and stops there, with the output ports as the last call leaves them. */
  function Making(calls: seq<Call>, vars: Vars): Plan
    requires calls != []
  {
    Plan(vars, calls, calls[|calls| - 1].outs, Some(-1))
  }

  /** Foreach: the numbers from in-port 1 to in-port 2; a missing port is an error. */
  function ForeachPlan(ins: PortVals, outs: PortVals, vars: Vars): Plan {
    if !IsInt(ins, 1) || !IsInt(ins, 2) then Refusal(outs, vars)
    else
      var (start, end) := (At(ins, 1).value.i, At(ins, 2).value.i);
      if start < end && At(outs, 2).None? then Refusal(outs, vars)
      else Making(ForeachCalls(outs, start, end), vars)
  }

  /** ForeachIntArray: the elements of the array at in-port 1. */
  function ForeachArrayPlan(ins: PortVals, outs: PortVals, vars: Vars): Plan {
    if !IsArray(ins, 1) then Refusal(outs, vars)
    else
      var a := At(ins, 1).value.a;
      if a != [] && (At(outs, 2).None? || At(outs, 3).None?) then Refusal(outs, vars)
      else Making(ForeachArrayCalls(outs, a, 0), vars)
  }

  ghost predicate IsForeach(pr: Program, id: string) {
    forall a, ins, outs, vars :: pr.exec(id, a, ins, outs, vars) == ForeachPlan(ins, outs, vars)
  }

  ghost predicate IsForeachArray(pr: Program, id: string) {
    forall a, ins, outs, vars :: pr.exec(id, a, ins, outs, vars) == ForeachArrayPlan(ins, outs, vars)
  }

  ghost predicate IsSequence(pr: Program, id: string) {
    && id in pr.cfg.nodes
    && forall a, ins, outs, vars ::
         pr.exec(id, a, ins, outs, vars) == SequencePlan(ExecOuts(pr.cfg.nodes[id].outs), outs, vars)
  }

  /** A call of port 0 with a number shown at an out-port of that type. */
  ghost predicate Shows(outs: PortVals, call: Call, port: int, number: int) {
    call.next == 0 && (IsInt(outs, port) ==> At(call.outs, port) == Some(IntVal(number)))
  }

  /** The body runs once for each number in order, and the completion port once at the end. */
  lemma {:induction false} ForeachRuns(outs: PortVals, start: int, end: int)
    ensures var calls := ForeachCalls(outs, start, end);
            var n := Count(start, end);
            && |calls| == n + 1 && calls[n].next == 1
            && forall k :: 0 <= k < n ==> Shows(outs, calls[k], 2, start + k)
    decreases end - start
  {
    if start < end {
      var shown := SetInt(outs, 2, start);
      ForeachRuns(shown, start + 1, end);
      var calls, rest := ForeachCalls(outs, start, end), ForeachCalls(shown, start + 1, end);
      assert calls == [Call(shown, 0)] + rest;
      forall k | 0 <= k < end - start
        ensures Shows(outs, calls[k], 2, start + k)
      {
        if k > 0 {
          assert Shows(shown, rest[k - 1], 2, start + 1 + (k - 1));
        }
      }
    }
  }

  lemma {:induction false} ForeachArrayRuns(outs: PortVals, a: seq<int>, i: nat)
    requires i <= |a|
    ensures var calls := ForeachArrayCalls(outs, a, i);
            && |calls| == |a| - i + 1 && calls[|a| - i].next == 1
            && forall k :: 0 <= k < |a| - i ==> Shows(outs, calls[k], 2, i + k) && Shows(outs, calls[k], 3, a[i + k])
    decreases |a| - i
  {
    if i < |a| {
      var shown := SetInt(SetInt(outs, 2, i), 3, a[i]);
      ForeachArrayRuns(shown, a, i + 1);
      var calls, rest := ForeachArrayCalls(outs, a, i), ForeachArrayCalls(shown, a, i + 1);
      assert calls == [Call(shown, 0)] + rest;
      forall k | 0 <= k < |a| - i
        ensures Shows(outs, calls[k], 2, i + k) && Shows(outs, calls[k], 3, a[i + k])
      {
        if k > 0 {
          assert Shows(shown, rest[k - 1], 2, i + 1 + (k - 1)) && Shows(shown, rest[k - 1], 3, a[i + 1 + (k - 1)]);
        }
      }
    }
  }

  lemma {:induction false} TargetsFirst(pr: Program, id: string, c: Call, rest: seq<Call>)
    ensures TargetsOf(pr, id, [c] + rest) == CallTarget(pr, id, c) + TargetsOf(pr, id, rest)
    decreases |rest|
  {
    var all := [c] + rest;
    if rest == [] {
      assert all == [c] && all[..0] == [];
    } else {
      var last := |rest| - 1;
      assert all[..|all| - 1] == [c] + rest[..last] && all[|all| - 1] == rest[last];
      TargetsFirst(pr, id, c, rest[..last]);
    }
  }

  function Count(start: int, end: int): nat {
    if start < end then end - start else 0
  }

  // What the control nodes run, without their plans.

  /** The node at out-port 0 of a Foreach node, if any, once for each of n numbers from start on, shown
      at out-port 2. */
  ghost function ForeachBodies(pr: Program, id: string, outs: PortVals, start: int, n: nat): (b: seq<Ran>)
    ensures TargetOf(pr, id, 0, outs) == [] ==> b == []
    ensures TargetOf(pr, id, 0, outs) != [] ==>
              |b| == n && forall k :: 0 <= k < n ==> b[k] == Ran(pr.next[id][0].value, SetInt(outs, 2, start + k))
  {
    if TargetOf(pr, id, 0, outs) == [] then []
    else seq(n, k => Ran(pr.next[id][0].value, SetInt(outs, 2, start + k)))
  }

  /** The same for ForeachIntArray and the elements of an array from the i-th on, shown at out-port 3 and their
      indices at out-port 2. */
  ghost function ArrayBodies(pr: Program, id: string, outs: PortVals, a: seq<int>, i: nat): (b: seq<Ran>)
    requires i <= |a|
    ensures TargetOf(pr, id, 0, outs) == [] ==> b == []
    ensures TargetOf(pr, id, 0, outs) != [] ==>
              |b| == |a| - i
              && forall k :: 0 <= k < |a| - i ==>
                   b[k] == Ran(pr.next[id][0].value, SetInt(SetInt(outs, 2, i + k), 3, a[i + k]))
  {
    if TargetOf(pr, id, 0, outs) == [] then []
    else seq(|a| - i,
             k requires 0 <= k < |a| - i => Ran(pr.next[id][0].value, SetInt(SetInt(outs, 2, i + k), 3, a[i + k])))
  }

  /** The whole run of a Foreach node: the bodies, and then the node at out-port 1, which is shown the
      last number. */
  ghost function ForeachAll(pr: Program, id: string, outs: PortVals, start: int, n: nat): seq<Ran> {
    ForeachBodies(pr, id, outs, start, n)
    + TargetOf(pr, id, 1, if n == 0 then outs else SetInt(outs, 2, start + n - 1))
  }

  ghost function ArrayAll(pr: Program, id: string, outs: PortVals, a: seq<int>, i: nat): seq<Ran>
    requires i <= |a|
  {
    ArrayBodies(pr, id, outs, a, i)
    + TargetOf(pr, id, 1, if i == |a| then outs else SetInt(SetInt(outs, 2, |a| - 1), 3, a[|a| - 1]))
  }

  lemma SetTwice(outs: PortVals, port: nat, v: int, w: int)
    ensures SetInt(SetInt(outs, port, v), port, w) == SetInt(outs, port, w)
  {
  }

  lemma SetPairTwice(outs: PortVals, p: nat, q: nat, v: int, x: int, w: int, y: int)
    requires p != q
    ensures SetInt(SetInt(SetInt(SetInt(outs, p, v), q, x), p, w), q, y) == SetInt(SetInt(outs, p, w), q, y)
  {
  }

  lemma ForeachFirst(pr: Program, id: string, outs: PortVals, start: int, n: nat)
    ensures var shown := SetInt(outs, 2, start);
            ForeachAll(pr, id, outs, start, n + 1) ==
            CallTarget(pr, id, Call(shown, 0)) + ForeachAll(pr, id, shown, start + 1, n)
  {
    var shown := SetInt(outs, 2, start);
    forall w: int
      ensures SetInt(shown, 2, w) == SetInt(outs, 2, w)
    {
      SetTwice(outs, 2, start, w);
    }
    assert ForeachBodies(pr, id, outs, start, n + 1) ==
           TargetOf(pr, id, 0, shown) + ForeachBodies(pr, id, shown, start + 1, n);
  }

  lemma ArrayFirst(pr: Program, id: string, outs: PortVals, a: seq<int>, i: nat)
    requires i < |a|
    ensures var shown := SetInt(SetInt(outs, 2, i), 3, a[i]);
            ArrayAll(pr, id, outs, a, i) == TargetOf(pr, id, 0, shown) + ArrayAll(pr, id, shown, a, i + 1)
  {
    var shown := SetInt(SetInt(outs, 2, i), 3, a[i]);
    forall k: int, x
      ensures SetInt(SetInt(shown, 2, k), 3, x) == SetInt(SetInt(outs, 2, k), 3, x)
    {
      SetPairTwice(outs, 2, 3, i, a[i], k, x);
    }
    assert ArrayBodies(pr, id, outs, a, i) == TargetOf(pr, id, 0, shown) + ArrayBodies(pr, id, shown, a, i + 1);
  }

  lemma TargetsOne(pr: Program, id: string, c: Call)
    ensures TargetsOf(pr, id, [c]) == CallTarget(pr, id, c)
  {
    TargetsFirst(pr, id, c, []);
    assert [c] + [] == [c];
  }

  lemma ForeachTargetsStep(pr: Program, id: string, outs: PortVals, start: int, end: int)
    requires start < end
    requires var shown := SetInt(outs, 2, start);
             TargetsOf(pr, id, ForeachCalls(shown, start + 1, end)) ==
             ForeachAll(pr, id, shown, start + 1, Count(start + 1, end))
    ensures TargetsOf(pr, id, ForeachCalls(outs, start, end)) == ForeachAll(pr, id, outs, start, Count(start, end))
  {
    var shown := SetInt(outs, 2, start);
    TargetsFirst(pr, id, Call(shown, 0), ForeachCalls(shown, start + 1, end));
    ForeachFirst(pr, id, outs, start, Count(start + 1, end));
  }

  lemma ArrayTargetsStep(pr: Program, id: string, outs: PortVals, a: seq<int>, i: nat)
    requires i < |a|
    requires var shown := SetInt(SetInt(outs, 2, i), 3, a[i]);
             TargetsOf(pr, id, ForeachArrayCalls(shown, a, i + 1)) == ArrayAll(pr, id, shown, a, i + 1)
    ensures TargetsOf(pr, id, ForeachArrayCalls(outs, a, i)) == ArrayAll(pr, id, outs, a, i)
  {
    var shown := SetInt(SetInt(outs, 2, i), 3, a[i]);
    TargetsFirst(pr, id, Call(shown, 0), ForeachArrayCalls(shown, a, i + 1));
    ArrayFirst(pr, id, outs, a, i);
  }

  /** The calls of Foreach run the node at port 0 once for each number, which it is shown, and then the one
      at port 1. */
  lemma {:induction false} ForeachTargets(pr: Program, id: string, outs: PortVals, start: int, end: int)
    ensures TargetsOf(pr, id, ForeachCalls(outs, start, end)) == ForeachAll(pr, id, outs, start, Count(start, end))
    decreases end - start
  {
    if start >= end {
      TargetsOne(pr, id, Call(outs, 1));
    } else {
      ForeachTargets(pr, id, SetInt(outs, 2, start), start + 1, end);
      ForeachTargetsStep(pr, id, outs, start, end);
    }
  }

  lemma {:induction false} ForeachArrayTargets(pr: Program, id: string, outs: PortVals, a: seq<int>, i: nat)
    requires i <= |a|
    ensures TargetsOf(pr, id, ForeachArrayCalls(outs, a, i)) == ArrayAll(pr, id, outs, a, i)
    decreases |a| - i
  {
    if i == |a| {
      TargetsOne(pr, id, Call(outs, 1));
    } else {
      ForeachArrayTargets(pr, id, SetInt(SetInt(outs, 2, i), 3, a[i]), a, i + 1);
      ArrayTargetsStep(pr, id, outs, a, i);
    }
  }

  /** The nodes at the first n ports, in port order. */
  ghost function PortTargets(pr: Program, id: string, n: nat, outs: PortVals): seq<Ran> {
    if n == 0 then [] else PortTargets(pr, id, n - 1, outs) + TargetOf(pr, id, n - 1, outs)
  }

  /** The calls of Sequence run the nodes at all its execution ports in port order. */
  lemma {:induction false} SequenceTargets(pr: Program, id: string, n: nat, outs: PortVals, vars: Vars)
    ensures TargetsOf(pr, id, SequencePlan(n, outs, vars).calls) == PortTargets(pr, id, n, outs)
  {
    if n > 0 {
      SequenceTargets(pr, id, n - 1, outs, vars);
      var calls := SequencePlan(n, outs, vars).calls;
      assert calls[..n - 1] == SequencePlan(n - 1, outs, vars).calls;
    }
  }

  /** What an execution of a Foreach node with the given inputs and output ports runs. */
  ghost function ForeachRun(pr: Program, id: string, ins: PortVals, outs: PortVals): seq<Ran>
    requires IsInt(ins, 1) && IsInt(ins, 2)
  {
    var (start, end) := (At(ins, 1).value.i, At(ins, 2).value.i);
    ForeachAll(pr, id, outs, start, Count(start, end))
  }

  ghost function ArrayRun(pr: Program, id: string, ins: PortVals, outs: PortVals): seq<Ran>
    requires IsArray(ins, 1)
  {
    ArrayAll(pr, id, outs, At(ins, 1).value.a, 0)
  }

  lemma ForeachLog(pr: Program, id: string, ins: PortVals, outs: PortVals, vars: Vars)
    requires ForeachPlan(ins, outs, vars).next.Some?
    ensures IsInt(ins, 1) && IsInt(ins, 2)
    ensures LogOf(pr, id, ForeachPlan(ins, outs, vars)) == ForeachRun(pr, id, ins, outs)
  {
    ForeachTargets(pr, id, outs, At(ins, 1).value.i, At(ins, 2).value.i);
  }

  lemma ForeachArrayLog(pr: Program, id: string, ins: PortVals, outs: PortVals, vars: Vars)
    requires ForeachArrayPlan(ins, outs, vars).next.Some?
    ensures IsArray(ins, 1)
    ensures LogOf(pr, id, ForeachArrayPlan(ins, outs, vars)) == ArrayRun(pr, id, ins, outs)
  {
    ForeachArrayTargets(pr, id, outs, At(ins, 1).value.a, 0);
  }

  lemma SequenceLog(pr: Program, id: string, n: nat, outs: PortVals, vars: Vars)
    ensures LogOf(pr, id, SequencePlan(n, outs, vars)) == PortTargets(pr, id, n, outs)
  {
    SequenceTargets(pr, id, n, outs, vars);
  }

  /** Exactly when the control nodes refuse their inputs. */
  lemma Refusals(ins: PortVals, outs: PortVals, vars: Vars, n: nat)
    ensures ForeachPlan(ins, outs, vars).next.Some? <==>
              IsInt(ins, 1) && IsInt(ins, 2) && (At(ins, 1).value.i < At(ins, 2).value.i ==> At(outs, 2).Some?)
    ensures ForeachArrayPlan(ins, outs, vars).next.Some? <==>
              IsArray(ins, 1) && (At(ins, 1).value.a != [] ==> At(outs, 2).Some? && At(outs, 3).Some?)
    ensures SequencePlan(n, outs, vars).next.Some?
  {
  }

  /** Activation a of a node was fed, and has last run the given nodes. */
  ghost predicate LastRan(pr: Program, id: string, ran: seq<Act>, a: nat, before: seq<Ran>, ts: seq<Ran>) {
    Fed(pr, ran, a) && ran[a].owner == id && ran[a].log == before + ts
  }

  /** A Foreach node that Do, DoNext or Run has run: an activation of it, whose in-ports were fed, has numbers
      at in-ports 1 and 2, and has run the node at port 0 once for each number from the first up to the second,
      which it was shown at out-port 2, and then the node at port 1. */
  lemma PlayedForeach(pr: Program, id: string, ran: seq<Act>, from: int)
    requires Played(pr, id, ran, from) && FedFrom(pr, ran, from) && IsForeach(pr, id)
    ensures exists a: nat, outs, before ::
              && from <= a < |ran| && IsInt(ran[a].ins, 1) && IsInt(ran[a].ins, 2)
              && LastRan(pr, id, ran, a, before, ForeachRun(pr, id, ran[a].ins, outs))
  {
    var a: nat, outs, vars, before :| from <= a && PlayedAt(pr, id, ran, a, outs, vars, before);
    ForeachLog(pr, id, ran[a].ins, outs, vars);
    assert LastRan(pr, id, ran, a, before, ForeachRun(pr, id, ran[a].ins, outs));
  }

  /** The same for ForeachIntArray and the elements of the array at in-port 1. */
  lemma PlayedForeachArray(pr: Program, id: string, ran: seq<Act>, from: int)
    requires Played(pr, id, ran, from) && FedFrom(pr, ran, from) && IsForeachArray(pr, id)
    ensures exists a: nat, outs, before ::
              && from <= a < |ran| && IsArray(ran[a].ins, 1)
              && LastRan(pr, id, ran, a, before, ArrayRun(pr, id, ran[a].ins, outs))
  {
    var a: nat, outs, vars, before :| from <= a && PlayedAt(pr, id, ran, a, outs, vars, before);
    ForeachArrayLog(pr, id, ran[a].ins, outs, vars);
    assert LastRan(pr, id, ran, a, before, ArrayRun(pr, id, ran[a].ins, outs));
  }

  /** A Sequence node that has been run: an activation of it has run the nodes at its leading
      execution ports in port order. */
  lemma PlayedSequence(pr: Program, id: string, ran: seq<Act>, from: int)
    requires Played(pr, id, ran, from) && FedFrom(pr, ran, from) && IsSequence(pr, id)
    ensures exists a: nat, outs, before ::
              from <= a && LastRan(pr, id, ran, a, before, PortTargets(pr, id, ExecOuts(pr.cfg.nodes[id].outs), outs))
  {
    var a: nat, outs, vars, before :| from <= a && PlayedAt(pr, id, ran, a, outs, vars, before);
    SequenceLog(pr, id, ExecOuts(pr.cfg.nodes[id].outs), outs, vars);
    assert LastRan(pr, id, ran, a, before, PortTargets(pr, id, ExecOuts(pr.cfg.nodes[id].outs), outs));
  }

  /** A Foreach node is run in a graph whose value nodes are read only, when all that its inputs depend on
      has run: exactly the numbers that the expressions at its in-ports mean are counted. */
  method DoForeach(g: Graph, id: string) returns (r: Outcome)
    requires g.Valid() && id in g.pr.cfg.nodes && IsForeach(g.pr, id)
    requires Ready(g.pr, g.rk, WithPorts(g.Now(), id, g.pr.blank(id)), id)
    modifies g
    ensures g.Valid()
    ensures r.Done? ==> (
              var st := WithPorts(old(g.Now()), id, g.pr.blank(id));
              var ins := InValues(g.pr, g.rk, LiveOuts(g.pr, st), st.vars, id);
              var me := old(|g.activations|);
              && IsInt(ins, 1) && IsInt(ins, 2) && me < |g.ran|
              && g.ran[me].log == ForeachRun(g.pr, id, ins, g.pr.blank(id)))
  {
    ghost var st := WithPorts(g.Now(), id, g.pr.blank(id));
    ghost var me := |g.activations|;
    WithNoArgs(g.pr.blank(id), 0);
    r := g.Do(id, [], 0, -1);
    if r.Done? {
      assert st.activations[me] == g.pr.blank(id);
      ForeachLog(g.pr, id, g.ran[me].ins, g.pr.blank(id), st.vars);
    }
  }

  /** An execution of Foreach in the graph that succeeds had two numbers at its in-ports; its
      activation has run the node at port 0 once for each number from the first up to the second,
      and then the node at port 1. */
  method ExecForeach(g: Graph, id: string) returns (r: Outcome)
    requires g.Valid() && id in g.pr.cfg.nodes && id in g.context && IsForeach(g.pr, id)
    modifies g
    ensures g.Valid() && GrowsBut(old(g.Now()), g.Now(), old(g.context[id]))
    ensures r.Done? ==> (
              var me := old(g.context[id]);
              var ins := old(g.ran)[me].ins;
              && IsInt(ins, 1) && IsInt(ins, 2)
              && g.ran[me] == Logged(old(g.ran)[me], ForeachRun(g.pr, id, ins, old(g.activations)[me])))
  {
    ghost var me := g.context[id];
    ghost var ins, outs, vars := g.ran[me].ins, g.activations[me], g.vars;
    r := g.Exec(id);
    if r.Done? {
      ForeachLog(g.pr, id, ins, outs, vars);
    }
  }

  /** The same for ForeachIntArray, once for each element of the array at in-port 1. */
  method ExecForeachArray(g: Graph, id: string) returns (r: Outcome)
    requires g.Valid() && id in g.pr.cfg.nodes && id in g.context && IsForeachArray(g.pr, id)
    modifies g
    ensures g.Valid() && GrowsBut(old(g.Now()), g.Now(), old(g.context[id]))
    ensures r.Done? ==> (
              var me := old(g.context[id]);
              var ins := old(g.ran)[me].ins;
              && IsArray(ins, 1)
              && g.ran[me] == Logged(old(g.ran)[me], ArrayRun(g.pr, id, ins, old(g.activations)[me])))
  {
    ghost var me := g.context[id];
    ghost var ins, outs, vars := g.ran[me].ins, g.activations[me], g.vars;
    r := g.Exec(id);
    if r.Done? {
      ForeachArrayLog(g.pr, id, ins, outs, vars);
    }
  }

  /** An execution of Sequence that succeeds has run the nodes at its leading execution ports, in
      port order. */
  method ExecSequence(g: Graph, id: string) returns (r: Outcome)
    requires g.Valid() && id in g.context && IsSequence(g.pr, id)
    modifies g
    ensures g.Valid() && GrowsBut(old(g.Now()), g.Now(), old(g.context[id]))
    ensures r.Done? ==> (
              var me := old(g.context[id]);
              g.ran[me] == Logged(old(g.ran)[me],
                PortTargets(g.pr, id, ExecOuts(g.pr.cfg.nodes[id].outs), old(g.activations)[me])))
  {
    ghost var me := g.context[id];
    ghost var outs, vars := g.activations[me], g.vars;
    r := g.Exec(id);
    if r.Done? {
      SequenceLog(g.pr, id, ExecOuts(g.pr.cfg.nodes[id].outs), outs, vars);
    }
  }
}

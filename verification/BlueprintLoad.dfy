/**
 * Preparing the execution links of one entrance of a blueprint graph
 * (util/blueprint/graphpool.go).  A node is named by its id, which is its key in the node map.
 */
module BlueprintLoad {
  import opened Words
  import opened Paths

  datatype Edge = Edge(src: string, srcPort: int, des: string, desPort: int)

  /** The ports of a node: true marks an execution port. */
  datatype Ports = Ports(ins: seq<bool>, outs: seq<bool>)

  datatype Config = Config(nodes: map<string, Ports>, edges: seq<Edge>)

  /** The execution out-ports that the loader follows: those before the first data port. */
  function ExecOuts(outs: seq<bool>): (k: nat)
    ensures k <= |outs| && (forall i :: 0 <= i < k ==> outs[i]) && (k < |outs| ==> !outs[k])
  {
    if outs == [] || !outs[0] then 0 else 1 + ExecOuts(outs[1..])
  }

  /** Where the first edge out of a port leads, if that node exists. */
  function Target(cfg: Config, id: string, port: int): (r: Option<string>)
    ensures r.Some? ==> r.value in cfg.nodes
  {
    TargetFrom(cfg, id, port, 0)
  }

  function TargetFrom(cfg: Config, id: string, port: int, k: nat): (r: Option<string>)
    requires k <= |cfg.edges|
    ensures r.Some? ==> r.value in cfg.nodes
    decreases |cfg.edges| - k
  {
    if k == |cfg.edges| then None
    else if cfg.edges[k].src == id && cfg.edges[k].srcPort == port then
      if cfg.edges[k].des in cfg.nodes then Some(cfg.edges[k].des) else None
    else TargetFrom(cfg, id, port, k + 1)
  }

  predicate OutOf(e: Edge, id: string, port: int) {
    e.src == id && e.srcPort == port
  }

  lemma {:induction false} TargetFromFirst(cfg: Config, id: string, port: int, k: nat, first: nat)
    requires k <= first <= |cfg.edges| && forall j :: k <= j < first ==> !OutOf(cfg.edges[j], id, port)
    requires first < |cfg.edges| ==> OutOf(cfg.edges[first], id, port)
    ensures TargetFrom(cfg, id, port, k) ==
            if first < |cfg.edges| && cfg.edges[first].des in cfg.nodes then Some(cfg.edges[first].des) else None
    decreases first - k
  {
    if k < first {
      assert !OutOf(cfg.edges[k], id, port);
      TargetFromFirst(cfg, id, port, k + 1, first);
    }
  }

  /** A port leads where the first edge out of it leads, if that is a node, and nowhere without an edge. */
  lemma TargetIsFirst(cfg: Config, id: string, port: int)
    ensures (forall j :: 0 <= j < |cfg.edges| ==> !OutOf(cfg.edges[j], id, port)) ==> Target(cfg, id, port).None?
    ensures forall k :: 0 <= k < |cfg.edges| && OutOf(cfg.edges[k], id, port)
                        && (forall j :: 0 <= j < k ==> !OutOf(cfg.edges[j], id, port)) ==>
              Target(cfg, id, port) == if cfg.edges[k].des in cfg.nodes then Some(cfg.edges[k].des) else None
  {
    forall k | 0 <= k < |cfg.edges| && OutOf(cfg.edges[k], id, port)
               && forall j :: 0 <= j < k ==> !OutOf(cfg.edges[j], id, port)
      ensures Target(cfg, id, port) == if cfg.edges[k].des in cfg.nodes then Some(cfg.edges[k].des) else None
    {
      TargetFromFirst(cfg, id, port, 0, k);
    }
    if forall j :: 0 <= j < |cfg.edges| ==> !OutOf(cfg.edges[j], id, port) {
      TargetFromFirst(cfg, id, port, 0, |cfg.edges|);
    }
  }

  /** The targets of the execution ports of a node, in port order. */
  function Targets(cfg: Config, id: string): (r: seq<Option<string>>)
    requires id in cfg.nodes
    ensures |r| == ExecOuts(cfg.nodes[id].outs)
    ensures forall i :: 0 <= i < |r| ==> r[i] == Target(cfg, id, i)
  {
    seq(ExecOuts(cfg.nodes[id].outs), i => Target(cfg, id, i))
  }

  /** The execution graph. */
  ghost function Flow(cfg: Config): (g: Succ)
    ensures g.Keys == cfg.nodes.Keys && Closed(g)
    ensures forall n :: n in g ==> g[n] == Somes(Targets(cfg, n))
  {
    map n | n in cfg.nodes :: Somes(Targets(cfg, n))
  }

  // ---- repeated preparation ----

  function Repeat(base: seq<Option<string>>, k: nat): seq<Option<string>> {
    if k == 0 then [] else Repeat(base, k - 1) + base
  }

  lemma {:induction false} RepeatAt(base: seq<Option<string>>, k: nat, i: int)
    requires k >= 1 && 0 <= i < |base|
    ensures |base| <= |Repeat(base, k)| && Repeat(base, k)[i] == base[i]
  {
    if k > 1 {
      RepeatAt(base, k - 1, i);
    }
  }

  lemma {:induction false} RepeatOnly(base: seq<Option<string>>, k: nat, x: Option<string>)
    requires x in Repeat(base, k)
    ensures x in base
  {
    if x !in base {
      RepeatOnly(base, k - 1, x);
    }
  }

  function Somes(s: seq<Option<string>>): (r: set<string>)
    ensures forall m :: m in r <==> Some(m) in s
  {
    set i | 0 <= i < |s| && s[i].Some? :: s[i].value
  }

  lemma SomesOfRepeat(base: seq<Option<string>>, k: nat)
    requires k >= 1
    ensures Somes(Repeat(base, k)) == Somes(base)
  {
    forall m | Some(m) in base
      ensures Some(m) in Repeat(base, k)
    {
      var i :| 0 <= i < |base| && base[i] == Some(m);
      RepeatAt(base, k, i);
    }
    forall m | Some(m) in Repeat(base, k)
      ensures Some(m) in base
    {
      RepeatOnly(base, k, Some(m));
    }
  }

  // ---- what preparation achieves ----

  /** The nodes prepared and connected so far, and the calls made. */
  datatype Mark = Mark(ready: set<string>, connected: set<string>, calls: int)

  /** All paths from n run through prepared nodes only and have at most b nodes. */
  ghost predicate Covered(g: Succ, ready: set<string>, n: string, b: int) {
    forall p :: PathFrom(g, n, p) ==> |p| <= b && forall i :: 0 <= i < |p| ==> p[i] in ready
  }

  /** m can be reached from n by k or more steps. */
  ghost predicate Reaches(g: Succ, n: string, m: string, k: int) {
    exists p :: PathFrom(g, n, p) && p[|p| - 1] == m && |p| > k
  }

  /** What came to be prepared or connected between two marks can be reached from n. */
  ghost predicate Added(g: Succ, n: string, from: Mark, now: Mark) {
    && from.ready <= now.ready && from.connected <= now.connected && from.calls <= now.calls
    && (forall m :: m in now.ready && m !in from.ready ==> Reaches(g, n, m, 0))
    && (forall m :: m in now.connected && m !in from.connected ==> Reaches(g, n, m, 1))
  }

  lemma ReachesNext(g: Succ, n: string, t: string, m: string)
    requires Closed(g) && n in g && t in g[n] && Reaches(g, t, m, 0)
    ensures Reaches(g, n, m, 1) && Reaches(g, n, m, 0)
  {
    var p :| PathFrom(g, t, p) && p[|p| - 1] == m;
    ConsPath(g, n, p);
    var q := [n] + p;
    assert PathFrom(g, n, q) && q[|q| - 1] == m;
  }

  lemma ReachesSelf(g: Succ, n: string)
    requires n in g
    ensures Reaches(g, n, n, 0)
  {
    assert PathFrom(g, n, [n]);
  }

  lemma AddedNext(g: Succ, n: string, t: string, from: Mark, mid: Mark, now: Mark)
    requires Closed(g) && n in g && t in g[n] && Added(g, n, from, mid) && Added(g, t, mid, now)
    ensures Added(g, n, from, now)
  {
    forall m | Reaches(g, t, m, 0) || Reaches(g, t, m, 1)
      ensures Reaches(g, n, m, 1) && Reaches(g, n, m, 0)
    {
      ReachesNext(g, n, t, m);
    }
  }

  lemma AppendAdds(g: Succ, n: string, from: Mark, now: Mark)
    requires Closed(g) && n in g && now == Mark(from.ready + {n}, from.connected + g[n], from.calls)
    ensures Added(g, n, from, now)
  {
    ReachesSelf(g, n);
    forall m | m in g[n]
      ensures Reaches(g, n, m, 1)
    {
      ReachesSelf(g, m);
      ReachesNext(g, n, m, m);
    }
  }

  lemma CoveredGrows(g: Succ, ready: set<string>, ready': set<string>, n: string, b: int, b': int)
    requires Covered(g, ready, n, b) && ready <= ready' && b <= b'
    ensures Covered(g, ready', n, b')
  {
  }

  /** A node is covered when its successors are. */
  lemma CoveredNode(g: Succ, ready: set<string>, n: string, b: int)
    requires Closed(g) && n in g && n in ready && b >= 0 && forall t :: t in g[n] ==> Covered(g, ready, t, b)
    ensures Covered(g, ready, n, b + 1)
  {
    forall p | PathFrom(g, n, p)
      ensures |p| <= b + 1 && forall i :: 0 <= i < |p| ==> p[i] in ready
    {
      if |p| >= 2 {
        TailPath(g, p);
        assert Covered(g, ready, p[1], b);
        assert forall i :: 1 <= i < |p| ==> p[i] == p[1..][i - 1];
      }
    }
  }

  /** The first j of the next nodes are covered within b calls. */
  ghost predicate Rounds(g: Succ, ready: set<string>, nexts: seq<Option<string>>, j: int, b: int) {
    forall i :: 0 <= i < j <= |nexts| && nexts[i].Some? ==> Covered(g, ready, nexts[i].value, b)
  }

  lemma RoundsNext(g: Succ, nexts: seq<Option<string>>, j: int, from: Mark, mid: Mark, now: Mark)
    requires 0 <= j < |nexts| && mid.ready <= now.ready && from.calls <= mid.calls <= now.calls
    requires Rounds(g, mid.ready, nexts, j, mid.calls - from.calls)
    requires nexts[j].Some? ==> Covered(g, now.ready, nexts[j].value, now.calls - mid.calls)
    ensures Rounds(g, now.ready, nexts, j + 1, now.calls - from.calls)
  {
    forall i | 0 <= i < j + 1 && nexts[i].Some?
      ensures Covered(g, now.ready, nexts[i].value, now.calls - from.calls)
    {
      if i < j {
        CoveredGrows(g, mid.ready, now.ready, nexts[i].value, mid.calls - from.calls, now.calls - from.calls);
      } else {
        CoveredGrows(g, now.ready, now.ready, nexts[i].value, now.calls - mid.calls, now.calls - from.calls);
      }
    }
  }

  lemma RoundsDone(g: Succ, ready: set<string>, nexts: seq<Option<string>>, n: string, b: int)
    requires Closed(g) && n in g && n in ready && b >= 0 && g[n] == Somes(nexts) && Rounds(g, ready, nexts, |nexts|, b)
    ensures Covered(g, ready, n, b + 1)
  {
    forall t | t in g[n]
      ensures Covered(g, ready, t, b)
    {
      assert Some(t) in nexts;
    }
    CoveredNode(g, ready, n, b);
  }

  /** The second loop of prepareOneNode for id, begun at a mark, with its first j rounds done. */
  ghost predicate Looping(g: Succ, id: string, nexts: seq<Option<string>>, j: int, from: Mark, now: Mark) {
    && Closed(g) && id in g && g[id] == Somes(nexts) && now.calls <= 256
    && Added(g, id, from, now) && id in now.ready
    && Rounds(g, now.ready, nexts, j, now.calls - from.calls)
  }

  lemma LoopingStart(g: Succ, id: string, nexts: seq<Option<string>>, from: Mark, now: Mark)
    requires Closed(g) && id in g && g[id] == Somes(nexts) && from.calls <= 256
    requires now == Mark(from.ready + {id}, from.connected + g[id], from.calls)
    ensures Looping(g, id, nexts, 0, from, now)
  {
    AppendAdds(g, id, from, now);
  }

  lemma LoopingNext(g: Succ, id: string, nexts: seq<Option<string>>, j: int, from: Mark, mid: Mark, now: Mark)
    requires Looping(g, id, nexts, j, from, mid) && 0 <= j < |nexts| && now.calls <= 256
    requires nexts[j].Some? ==>
               Added(g, nexts[j].value, mid, now) && Covered(g, now.ready, nexts[j].value, now.calls - mid.calls)
    requires nexts[j].None? ==> now == mid
    ensures Looping(g, id, nexts, j + 1, from, now)
  {
    if nexts[j].Some? {
      assert nexts[j].value in g[id];
      AddedNext(g, id, nexts[j].value, from, mid, now);
    }
    RoundsNext(g, nexts, j, from, mid, now);
  }

  lemma LoopingDone(g: Succ, id: string, nexts: seq<Option<string>>, before: Mark, from: Mark, now: Mark)
    requires Looping(g, id, nexts, |nexts|, from, now) && from == before.(calls := before.calls + 1)
    ensures Covered(g, now.ready, id, now.calls - before.calls) && Added(g, id, before, now)
  {
    RoundsDone(g, now.ready, nexts, id, now.calls - from.calls);
  }

  /** What a successful load gives. */
  ghost predicate Loaded(cfg: Config, next: map<string, seq<Option<string>>>, connected: set<string>,
                         entrance: string) {
    var g := Flow(cfg);
    && next.Keys == cfg.nodes.Keys && entrance in cfg.nodes
    && Bounded(g, entrance, 256) && AcyclicFrom(g, entrance)
    && (forall m :: m in connected <==> Reaches(g, entrance, m, 1))
    && (forall n :: n in cfg.nodes && n !in connected && n != entrance ==> next[n] == [])
    && (forall n :: n in cfg.nodes && (n in connected || n == entrance) ==>
          Somes(next[n]) == g[n] <= connected && PortsFirst(Targets(cfg, n), next[n]))
  }

  /** The first entries are the targets of the ports. */
  ghost predicate PortsFirst(targets: seq<Option<string>>, next: seq<Option<string>>) {
    |targets| <= |next| && forall i :: 0 <= i < |targets| ==> next[i] == targets[i]
  }

  lemma PortsFirstRepeat(base: seq<Option<string>>, k: nat)
    requires k >= 1
    ensures PortsFirst(base, Repeat(base, k))
  {
    assert base != [] ==> |base| <= |Repeat(base, k)| by {
      if base != [] { RepeatAt(base, k, 0); }
    }
    forall i | 0 <= i < |base|
      ensures |base| <= |Repeat(base, k)| && Repeat(base, k)[i] == base[i]
    {
      RepeatAt(base, k, i);
    }
  }

  lemma ReadyIsReached(g: Succ, entrance: string, now: Mark, m: string)
    requires Closed(g) && Added(g, entrance, Mark({}, {}, 0), now) && Covered(g, now.ready, entrance, now.calls)
    requires forall n :: n in now.ready ==> n in g && g[n] <= now.connected
    ensures m in now.ready <==> Reaches(g, entrance, m, 0)
    ensures m in now.connected <==> Reaches(g, entrance, m, 1)
  {
    if Reaches(g, entrance, m, 0) {
      var p :| PathFrom(g, entrance, p) && p[|p| - 1] == m;
      assert p[|p| - 1] in now.ready;
    }
    if Reaches(g, entrance, m, 1) {
      var p :| PathFrom(g, entrance, p) && p[|p| - 1] == m && |p| > 1;
      assert p[|p| - 2] in now.ready && Step(g, p, |p| - 2);
    }
  }

  lemma ReachesMore(g: Succ, entrance: string, m: string)
    requires Reaches(g, entrance, m, 0) && m != entrance
    ensures Reaches(g, entrance, m, 1)
  {
    var p :| PathFrom(g, entrance, p) && p[|p| - 1] == m;
    assert |p| > 1;
  }

  lemma LoadedNow(cfg: Config, next: map<string, seq<Option<string>>>, copies: map<string, nat>, now: Mark,
                  entrance: string)
    requires Copied(cfg, next, copies, now.ready) && entrance in cfg.nodes && now.calls <= 256
    requires Closing(cfg, now.ready, now.connected)
    requires Added(Flow(cfg), entrance, Mark({}, {}, 0), now) && Covered(Flow(cfg), now.ready, entrance, now.calls)
    ensures Loaded(cfg, next, now.connected, entrance)
  {
    var g := Flow(cfg);
    BoundedIsAcyclic(g, entrance, 256);
    forall m
      ensures m in now.connected <==> Reaches(g, entrance, m, 1)
      ensures m in now.ready <==> m == entrance || m in now.connected
    {
      ReadyIsReached(g, entrance, now, m);
      ReachesSelf(g, entrance);
      if m in now.ready && m != entrance { ReachesMore(g, entrance, m); }
    }
    forall n | n in cfg.nodes
      ensures n in now.ready ==> Somes(next[n]) == g[n] && PortsFirst(Targets(cfg, n), next[n])
    {
      if n in now.ready {
        CopiedTargets(cfg, next, copies, now.ready, n);
        PortsFirstRepeat(Targets(cfg, n), copies[n]);
      }
    }
  }

  // ---- indices past the ports ----

  lemma {:induction false} RepeatLength(base: seq<Option<string>>, k: nat)
    ensures |Repeat(base, k)| == k * |base|
  {
    if k > 0 {
      RepeatLength(base, k - 1);
      assert (k - 1) * |base| + |base| == k * |base|;
    }
  }

  /** DoNext(index) of a node with these next nodes is not out of range. */
  predicate InRange(next: seq<Option<string>>, index: int) {
    0 <= index < |next|
  }

  /** Every index past the execution ports of a node lies past its next nodes too. */
  ghost predicate RefusesPast(cfg: Config, next: map<string, seq<Option<string>>>, n: string)
    requires n in cfg.nodes && n in next
  {
    forall index :: index >= |Targets(cfg, n)| ==> !InRange(next[n], index)
  }

  /** That is so if and only if the node was prepared once or has no execution ports. */
  lemma PastPorts(cfg: Config, next: map<string, seq<Option<string>>>, copies: map<string, nat>, ready: set<string>,
                  n: string)
    requires Copied(cfg, next, copies, ready) && n in ready
    ensures RefusesPast(cfg, next, n) <==> copies[n] == 1 || Targets(cfg, n) == []
  {
    var base, k := Targets(cfg, n), copies[n];
    RepeatLength(base, k);
    if base != [] && k > 1 {
      RepeatLength(base, k - 2);
      assert Repeat(base, k) == Repeat(base, k - 2) + base + base;
      assert InRange(next[n], |base|);
    }
  }

  // ---- the loader as a function ----

  /** The loader's state, and whether it has gone well. */
  datatype Prep = Prep(next: map<string, seq<Option<string>>>, connected: set<string>, calls: nat, ok: bool)

  /** The node's targets appended to its next nodes, and connected. */
  function Entered(cfg: Config, id: string, p: Prep): (r: Prep)
    requires id in cfg.nodes && p.next.Keys == cfg.nodes.Keys
  {
    p.(next := p.next[id := p.next[id] + Targets(cfg, id)], connected := p.connected + Somes(Targets(cfg, id)))
  }

  /** What prepareOneNode makes of the state. */
  function Prepare(cfg: Config, id: string, p: Prep): (r: Prep)
    requires id in cfg.nodes && p.next.Keys == cfg.nodes.Keys && p.calls <= 256 && p.ok
    ensures r.next.Keys == cfg.nodes.Keys && r.calls > p.calls && (r.ok <==> r.calls <= 256)
    decreases 257 - p.calls, 0, 0
  {
    if p.calls == 256 then p.(calls := 257, ok := false)
    else
      var q := Entered(cfg, id, p.(calls := p.calls + 1));
      PrepareEach(cfg, q.next[id], 0, q)
  }

  /** The second loop of prepareOneNode from its round j on. */
  function PrepareEach(cfg: Config, nexts: seq<Option<string>>, j: nat, p: Prep): (r: Prep)
    requires j <= |nexts| && p.next.Keys == cfg.nodes.Keys && p.calls <= 256 && p.ok
    ensures r.next.Keys == cfg.nodes.Keys && r.calls >= p.calls && (r.ok <==> r.calls <= 256)
    decreases 257 - p.calls, 1, |nexts| - j
  {
    if j == |nexts| then p
    else if nexts[j].None? || nexts[j].value !in cfg.nodes then PrepareEach(cfg, nexts, j + 1, p)
    else
      var q := Prepare(cfg, nexts[j].value, p);
      if q.ok then PrepareEach(cfg, nexts, j + 1, q) else q
  }

  /** The loop from round j on leads from p to all. */
  ghost predicate LeadsTo(cfg: Config, nexts: seq<Option<string>>, j: nat, p: Prep, all: Prep) {
    && j <= |nexts| && p.next.Keys == cfg.nodes.Keys && p.calls <= 256 && p.ok
    && PrepareEach(cfg, nexts, j, p) == all
  }

  lemma LeadsToEnd(cfg: Config, nexts: seq<Option<string>>, p: Prep, all: Prep)
    requires LeadsTo(cfg, nexts, |nexts|, p, all)
    ensures all == p
  {
  }

  // ---- the loader ----

  ghost predicate Copied(cfg: Config, next: map<string, seq<Option<string>>>, copies: map<string, nat>,
                         ready: set<string>) {
    && next.Keys == cfg.nodes.Keys == copies.Keys && ready <= cfg.nodes.Keys
    && forall n :: n in cfg.nodes ==> next[n] == Repeat(Targets(cfg, n), copies[n]) && (n in ready <==> copies[n] >= 1)
  }

  lemma CopiedMore(cfg: Config, next: map<string, seq<Option<string>>>, copies: map<string, nat>, ready: set<string>,
                   id: string)
    requires Copied(cfg, next, copies, ready) && id in cfg.nodes
    ensures Copied(cfg, next[id := next[id] + Targets(cfg, id)], copies[id := copies[id] + 1], ready + {id})
  {
  }

  /** All targets of prepared nodes are connected. */
  ghost predicate Closing(cfg: Config, ready: set<string>, connected: set<string>) {
    ready <= cfg.nodes.Keys && forall n :: n in ready ==> Flow(cfg)[n] <= connected
  }

  lemma ClosingMore(cfg: Config, ready: set<string>, connected: set<string>, id: string)
    requires Closing(cfg, ready, connected) && id in cfg.nodes
    ensures Closing(cfg, ready + {id}, connected + Flow(cfg)[id]) && Flow(cfg)[id] == Somes(Targets(cfg, id))
  {
  }

  lemma Visited(cfg: Config, id: string, next0: map<string, seq<Option<string>>>, copies0: map<string, nat>,
                ready0: set<string>,
                connected0: set<string>, next: map<string, seq<Option<string>>>, copies: map<string, nat>,
                ready: set<string>, connected: set<string>)
    requires Copied(cfg, next0, copies0, ready0) && Closing(cfg, ready0, connected0) && id in cfg.nodes
    requires next == next0[id := next0[id] + Targets(cfg, id)] && copies == copies0[id := copies0[id] + 1]
    requires ready == ready0 + {id} && connected == connected0 + Somes(Targets(cfg, id))
    ensures Copied(cfg, next, copies, ready) && Closing(cfg, ready, connected)
            && connected == connected0 + Flow(cfg)[id]
  {
    CopiedMore(cfg, next0, copies0, ready0, id);
    ClosingMore(cfg, ready0, connected0, id);
  }

  lemma CopiedTargets(cfg: Config, next: map<string, seq<Option<string>>>, copies: map<string, nat>, ready: set<string>,
                      id: string)
    requires Copied(cfg, next, copies, ready) && id in ready
    ensures Flow(cfg)[id] == Somes(next[id])
  {
    SomesOfRepeat(Targets(cfg, id), copies[id]);
  }

  lemma StartLoop(cfg: Config, next: map<string, seq<Option<string>>>, copies: map<string, nat>, from: Mark, now: Mark,
                  id: string)
    requires id in cfg.nodes && Copied(cfg, next, copies, now.ready) && from.calls <= 256
    requires now == Mark(from.ready + {id}, from.connected + Flow(cfg)[id], from.calls)
    ensures Looping(Flow(cfg), id, next[id], 0, from, now)
  {
    CopiedTargets(cfg, next, copies, now.ready, id);
    LoopingStart(Flow(cfg), id, next[id], from, now);
  }

  lemma PrepareEntered(cfg: Config, id: string, was: Prep, entered: Prep)
    requires id in cfg.nodes && was.next.Keys == cfg.nodes.Keys && was.ok && was.calls < 256
    requires entered == Entered(cfg, id, was.(calls := was.calls + 1))
    ensures Prepare(cfg, id, was) == PrepareEach(cfg, entered.next[id], 0, entered)
  {
  }

  class Loader {
    const cfg: Config
    var nextNode: map<string, seq<Option<string>>>
    var beConnect: set<string>
    var recursion: nat
    ghost var copies: map<string, nat>
    ghost var ready: set<string>

    /** Every list of next nodes is some number of copies of the node's targets. */
    ghost predicate Valid()
      reads this
    {
      && Copied(cfg, nextNode, copies, ready)
      && Closing(cfg, ready, beConnect)
    }

    ghost function Now(): Mark
      reads this
    {
      Mark(ready, beConnect, recursion)
    }

    ghost function State(ok: bool): Prep
      reads this
    {
      Prep(nextNode, beConnect, recursion, ok)
    }

    constructor (cfg: Config)
      ensures Valid() && this.cfg == cfg && beConnect == {} && recursion == 0 && ready == {}
      ensures nextNode == map n | n in cfg.nodes :: []
    {
      this.cfg := cfg;
      nextNode := map n | n in cfg.nodes :: [];
      copies := map n | n in cfg.nodes :: 0;
      ready := {};
      beConnect := {};
      recursion := 0;
    }

    method FindOutNextNode(id: string, port: int) returns (r: Option<string>)
      ensures r == Target(cfg, id, port)
    {
      var k := 0;
      while k < |cfg.edges|
        invariant 0 <= k <= |cfg.edges|
        invariant Target(cfg, id, port) == TargetFrom(cfg, id, port, k)
      {
        var e := cfg.edges[k];
        if e.src == id && e.srcPort == port {
          return if e.des in cfg.nodes then Some(e.des) else None;
        }
        k := k + 1;
      }
      r := None;
    }

    /** The first loop of prepareOneNode. */
    method AppendTargets(id: string)
      requires nextNode.Keys == cfg.nodes.Keys && id in cfg.nodes
      modifies this`nextNode, this`beConnect
      ensures nextNode == old(nextNode)[id := old(nextNode)[id] + Targets(cfg, id)]
      ensures beConnect == old(beConnect) + Somes(Targets(cfg, id))
    {
      ghost var targets, was := Targets(cfg, id), nextNode;
      assert was[id] + targets[..0] == was[id];
      var idx := 0;
      while idx < ExecOuts(cfg.nodes[id].outs)
        invariant 0 <= idx <= |targets|
        invariant nextNode == was[id := was[id] + targets[..idx]]
        invariant beConnect == old(beConnect) + Somes(targets[..idx])
      {
        var next := FindOutNextNode(id, idx);
        assert targets[..idx + 1] == targets[..idx] + [next];
        assert was[id] + targets[..idx + 1] == was[id] + targets[..idx] + [next];
        nextNode := nextNode[id := nextNode[id] + [next]];
        if next.Some? {
          beConnect := beConnect + {next.value};
        }
        idx := idx + 1;
      }
      assert targets[..idx] == targets;
    }

    /** One more copy of the targets, all of them now connected. */
    method Visit(id: string)
      requires Valid() && id in cfg.nodes
      modifies this`nextNode, this`beConnect, this`copies, this`ready
      ensures Valid() && ready == old(ready) + {id} && beConnect == old(beConnect) + Flow(cfg)[id]
      ensures State(true) == Entered(cfg, id, old(State(true)).(calls := recursion))
    {
      ghost var next0, copies0, ready0, connected0 := nextNode, copies, ready, beConnect;
      AppendTargets(id);
      copies := copies[id := copies[id] + 1];
      ready := ready + {id};
      Visited(cfg, id, next0, copies0, ready0, connected0, nextNode, copies, ready, beConnect);
    }

    /** One round of the second loop of prepareOneNode, which began at a mark. */
    method PrepareNext(id: string, nexts: seq<Option<string>>, j: int, ghost from: Mark, ghost all: Prep)
      returns (ok: bool)
      requires Valid() && 0 <= j < |nexts| && Looping(Flow(cfg), id, nexts, j, from, Now())
      requires LeadsTo(cfg, nexts, j, State(true), all)
      modifies this
      ensures Valid() && recursion >= old(recursion) && (ok <==> recursion <= 256)
      ensures ok ==> Looping(Flow(cfg), id, nexts, j + 1, from, Now())
      ensures if ok then LeadsTo(cfg, nexts, j + 1, State(true), all) else State(false) == all
      decreases 257 - recursion, 1
    {
      ok := true;
      ghost var g, mid := Flow(cfg), Now();
      if nexts[j].Some? {
        assert nexts[j].value in g[id];
        ok := PrepareOneNode(nexts[j].value);
      }
      if ok {
        LoopingNext(g, id, nexts, j, from, mid, Now());
      }
    }

    /** On success every path of the execution graph from id is no longer than the calls spent,
        and all its nodes are prepared; nothing but what id reaches has been touched. */
    method PrepareOneNode(id: string) returns (ok: bool)
      requires Valid() && id in cfg.nodes && recursion <= 256
      modifies this
      ensures Valid() && recursion > old(recursion) && (ok <==> recursion <= 256)
      ensures ok ==> Covered(Flow(cfg), ready, id, recursion - old(recursion))
      ensures ok ==> Added(Flow(cfg), id, old(Now()), Now())
      ensures State(ok) == Prepare(cfg, id, old(State(true)))
      decreases 257 - recursion, 0
    {
      ghost var before, was := Now(), State(true);
      recursion := recursion + 1;
      if recursion > 256 {
        return false;
      }
      ghost var from := Now();
      var nexts := Enter(id, from, was);
      ok := PrepareAll(id, nexts, before, from);
    }

    /** The node is entered once more; the loop over its next nodes is what is left to do. */
    method Enter(id: string, ghost from: Mark, ghost was: Prep) returns (nexts: seq<Option<string>>)
      requires Valid() && id in cfg.nodes && from == Now() && 0 < recursion <= 256
               && was == Prep(nextNode, beConnect, recursion - 1, true)
      modifies this`nextNode, this`beConnect, this`copies, this`ready
      ensures Valid() && Looping(Flow(cfg), id, nexts, 0, from, Now())
      ensures Prepare(cfg, id, was) == PrepareEach(cfg, nexts, 0, State(true))
    {
      Visit(id);
      nexts := nextNode[id];
      StartLoop(cfg, nextNode, copies, from, Now(), id);
      PrepareEntered(cfg, id, was, State(true));
    }

    /** The second loop of prepareOneNode. */
    method PrepareLoop(id: string, nexts: seq<Option<string>>, ghost from: Mark, ghost all: Prep) returns (ok: bool)
      requires Valid() && Looping(Flow(cfg), id, nexts, 0, from, Now()) && LeadsTo(cfg, nexts, 0, State(true), all)
      modifies this
      ensures Valid() && recursion >= old(recursion) && (ok <==> recursion <= 256)
      ensures ok ==>
                Looping(Flow(cfg), id, nexts, |nexts|, from, Now()) && LeadsTo(cfg, nexts, |nexts|, State(true), all)
      ensures !ok ==> State(false) == all
      decreases 257 - recursion, 2
    {
      ok := true;
      var j: nat := 0;
      ghost var start := recursion;
      while j < |nexts|
        invariant j <= |nexts| && Valid() && start <= recursion <= 256 && ok
        invariant Looping(Flow(cfg), id, nexts, j, from, Now())
        invariant LeadsTo(cfg, nexts, j, State(true), all)
      {
        ok := PrepareNext(id, nexts, j, from, all);
        if !ok {
          return;
        }
        j := j + 1;
      }
    }

    /** What the loop leaves: paths covered by the calls spent, and the state that Prepare describes. */
    method PrepareAll(id: string, nexts: seq<Option<string>>, ghost before: Mark, ghost from: Mark) returns (ok: bool)
      requires Valid() && Looping(Flow(cfg), id, nexts, 0, from, Now()) && from == before.(calls := before.calls + 1)
      modifies this
      ensures Valid() && recursion >= old(recursion) && (ok <==> recursion <= 256)
      ensures ok ==> Covered(Flow(cfg), ready, id, recursion - before.calls) && Added(Flow(cfg), id, before, Now())
      ensures State(ok) == PrepareEach(cfg, nexts, 0, old(State(true)))
      decreases 257 - recursion, 3
    {
      ghost var all := PrepareEach(cfg, nexts, 0, State(true));
      ok := PrepareLoop(id, nexts, from, all);
      if ok {
        LoopingDone(Flow(cfg), id, nexts, before, from, Now());
        LeadsToEnd(cfg, nexts, State(true), all);
      }
    }

    /** A graph whose entrance loads has no cycle that execution from the entrance could follow;
        exactly the nodes that it can follow to are connected, and each of their execution
        ports i has the target of that port at index i.  An index past the ports lies past the
        next nodes exactly where the node was prepared once, or has no execution ports. */
    method PrepareOneEntrance(entrance: string) returns (ok: bool)
      requires Valid() && recursion == 0 && ready == beConnect == {}
      modifies this
      ensures Valid()
      ensures entrance !in cfg.nodes ==> !ok
      ensures ok ==> Loaded(cfg, nextNode, beConnect, entrance)
      ensures forall n :: n in ready ==> (
                && n in cfg.nodes && n in nextNode && n in copies
                && (RefusesPast(cfg, nextNode, n) <==> copies[n] == 1 || Targets(cfg, n) == []))
      ensures entrance in cfg.nodes ==> State(ok) == Prepare(cfg, entrance, old(State(true)))
    {
      if entrance !in cfg.nodes {
        return false;
      }
      ok := PrepareOneNode(entrance);
      if ok {
        LoadedNow(cfg, nextNode, copies, Now(), entrance);
      }
      forall n | n in ready
        ensures RefusesPast(cfg, nextNode, n) <==> copies[n] == 1 || Targets(cfg, n) == []
      {
        PastPorts(cfg, nextNode, copies, ready, n);
      }
    }
  }

  /** Two ports of an entrance lead to one node, which has a single unconnected port. */
  const twice := Config(
    map["a" := Ports([], [true, true]), "b" := Ports([true], [true])], [Edge("a", 0, "b", 0), Edge("a", 1, "b", 0)])

  lemma TwiceTargets()
    ensures Targets(twice, "a") == [Some("b"), Some("b")] && Targets(twice, "b") == [None]
  {
    assert ExecOuts([true]) == 1 + ExecOuts([]) && ExecOuts([true, true]) == 1 + ExecOuts([true]);
    assert Target(twice, "a", 0) == Some("b");
    assert TargetFrom(twice, "a", 1, 0) == TargetFrom(twice, "a", 1, 1) == Some("b");
    assert TargetFrom(twice, "b", 0, 0) == TargetFrom(twice, "b", 0, 1) == TargetFrom(twice, "b", 0, 2) == None;
  }

  /** A preparation of node b of that graph: one more unconnected next node. */
  lemma PrepareLeaf(p: Prep)
    requires p.next.Keys == twice.nodes.Keys && p.calls < 256 && p.ok
    requires forall x :: x in p.next["b"] ==> x.None?
    ensures Prepare(twice, "b", p) == p.(next := p.next["b" := p.next["b"] + [None]], calls := p.calls + 1)
  {
    TwiceTargets();
    var q := Entered(twice, "b", p.(calls := p.calls + 1));
    SkipNones(twice, q.next["b"], 0, q);
  }

  lemma SkipNones(cfg: Config, nexts: seq<Option<string>>, j: nat, p: Prep)
    requires j <= |nexts| && p.next.Keys == cfg.nodes.Keys && p.calls <= 256 && p.ok
    requires forall x :: x in nexts ==> x.None?
    ensures PrepareEach(cfg, nexts, j, p) == p
    decreases |nexts| - j
  {
    if j < |nexts| {
      assert nexts[j] in nexts;
      SkipNones(cfg, nexts, j + 1, p);
    }
  }

  lemma PrepareBoth(start: Prep)
    requires start == Prep(map n | n in twice.nodes :: [], {}, 0, true)
    ensures var r := Prepare(twice, "a", start); r.ok && r.next["b"] == [None, None]
  {
    TwiceTargets();
    var two := [Some("b"), Some("b")];
    var p := Entered(twice, "a", start.(calls := 1));
    assert p.next["a"] == two;
    var q := Prepare(twice, "b", p);
    PrepareLeaf(p);
    var r := Prepare(twice, "b", q);
    PrepareLeaf(q);
    assert PrepareEach(twice, two, 2, r) == r;
    assert PrepareEach(twice, two, 1, q) == r;
    assert PrepareEach(twice, two, 0, p) == r;
  }

  /** Its load succeeds, and index 1 of node b, which has one port, is not past its next nodes. */
  method PreparedTwice() returns (loader: Loader, ok: bool)
    ensures fresh(loader) && loader.Valid() && loader.cfg == twice && ok
    ensures loader.nextNode.Keys == twice.nodes.Keys && loader.nextNode["b"] == [None, None]
    ensures Targets(twice, "b") == [None] && !RefusesPast(twice, loader.nextNode, "b")
  {
    loader := new Loader(twice);
    PrepareBoth(loader.State(true));
    ok := loader.PrepareOneEntrance("a");
    TwiceTargets();
    assert InRange(loader.nextNode["b"], 1);
  }
}

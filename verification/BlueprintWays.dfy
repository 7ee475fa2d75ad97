/**
 * How often a node of a blueprint graph is prepared (util/blueprint/graphpool.go): once if and only
 * if neither it nor a node on a way to it is the target of two execution ports within reach.
 */
module BlueprintWays {
  import opened Words
  import opened Paths
  import opened BlueprintLoad

  /** A call of prepareOneNode: that for the entrance, or round `index` of the loop of visit number
      `visit` to a node. */
  datatype Arrival = Start | From(src: string, visit: nat, index: nat)

  /** The calls that have come to each node, in order. */
  datatype Track = Track(arr: map<string, seq<Arrival>>, calls: nat, ok: bool)

  /** The loader once more, with a record of its calls. */
  ghost function Walk(cfg: Config, id: string, via: Arrival, t: Track): (r: Track)
    requires id in cfg.nodes && t.arr.Keys == cfg.nodes.Keys && t.calls <= 256 && t.ok
    ensures r.arr.Keys == cfg.nodes.Keys && r.calls > t.calls && (r.ok <==> r.calls <= 256)
    decreases 257 - t.calls, 0, 0
  {
    if t.calls == 256 then t.(calls := 257, ok := false)
    else WalkEach(cfg, id, |t.arr[id]| + 1, 0, Arrived(id, via, t))
  }

  ghost function Arrived(id: string, via: Arrival, t: Track): Track
    requires id in t.arr
  {
    t.(arr := t.arr[id := t.arr[id] + [via]], calls := t.calls + 1)
  }

  /** The next nodes at visit v. */
  function Nexts(cfg: Config, id: string, v: nat): seq<Option<string>>
    requires id in cfg.nodes
  {
    Repeat(Targets(cfg, id), v)
  }

  ghost function WalkEach(cfg: Config, id: string, v: nat, j: nat, t: Track): (r: Track)
    requires id in cfg.nodes && j <= |Nexts(cfg, id, v)| && t.arr.Keys == cfg.nodes.Keys && t.calls <= 256 && t.ok
    ensures r.arr.Keys == cfg.nodes.Keys && r.calls >= t.calls && (r.ok <==> r.calls <= 256)
    decreases 257 - t.calls, 1, |Nexts(cfg, id, v)| - j
  {
    var nexts := Nexts(cfg, id, v);
    if j == |nexts| then t
    else if nexts[j].None? || nexts[j].value !in cfg.nodes then WalkEach(cfg, id, v, j + 1, t)
    else
      var u := Walk(cfg, nexts[j].value, From(id, v, j), t);
      if u.ok then WalkEach(cfg, id, v, j + 1, u) else u
  }

  // ---- the record fits the loader ----

  ghost predicate Mirror(cfg: Config, p: Prep, t: Track) {
    && p.next.Keys == cfg.nodes.Keys == t.arr.Keys && p.calls == t.calls && p.ok == t.ok
    && forall n :: n in cfg.nodes ==> p.next[n] == Nexts(cfg, n, |t.arr[n]|)
  }

  lemma {:induction false} MirrorWalk(cfg: Config, id: string, via: Arrival, p: Prep, t: Track)
    requires id in cfg.nodes && Mirror(cfg, p, t) && t.calls <= 256 && t.ok
    ensures Mirror(cfg, Prepare(cfg, id, p), Walk(cfg, id, via, t))
    decreases 257 - t.calls, 0, 0
  {
    if t.calls < 256 {
      var q := Entered(cfg, id, p.(calls := p.calls + 1));
      MirrorEach(cfg, id, |t.arr[id]| + 1, 0, q, Arrived(id, via, t));
    }
  }

  lemma {:induction false} MirrorEach(cfg: Config, id: string, v: nat, j: nat, p: Prep, t: Track)
    requires id in cfg.nodes && j <= |Nexts(cfg, id, v)| && Mirror(cfg, p, t) && t.calls <= 256 && t.ok
    ensures Mirror(cfg, PrepareEach(cfg, Nexts(cfg, id, v), j, p), WalkEach(cfg, id, v, j, t))
    decreases 257 - t.calls, 1, |Nexts(cfg, id, v)| - j
  {
    var nexts := Nexts(cfg, id, v);
    if j < |nexts| {
      if nexts[j].None? || nexts[j].value !in cfg.nodes {
        MirrorEach(cfg, id, v, j + 1, p, t);
      } else {
        MirrorWalk(cfg, nexts[j].value, From(id, v, j), p, t);
        var q, u := Prepare(cfg, nexts[j].value, p), Walk(cfg, nexts[j].value, From(id, v, j), t);
        if u.ok {
          MirrorEach(cfg, id, v, j + 1, q, u);
        }
      }
    }
  }

  // ---- what the record says ----

  /** The call stands for a round that leads to n. */
  ghost predicate Legit(cfg: Config, t: Track, n: string, e: Arrival) {
    e.From? ==>
      && e.src in cfg.nodes && e.src in t.arr && 1 <= e.visit <= |t.arr[e.src]|
      && e.index < |Nexts(cfg, e.src, e.visit)| && Nexts(cfg, e.src, e.visit)[e.index] == Some(n)
  }

  ghost predicate AllLegit(cfg: Config, t: Track) {
    forall n, e :: n in t.arr && e in t.arr[n] ==> Legit(cfg, t, n, e)
  }

  ghost predicate NoRepeats(s: seq<Arrival>) {
    forall i, j :: 0 <= i < j < |s| ==> s[i] != s[j]
  }

  ghost predicate AllOnce(t: Track) {
    forall n :: n in t.arr ==> NoRepeats(t.arr[n])
  }

  /** Round j of a visit has been walked. */
  ghost predicate Walked(cfg: Config, t: Track, src: string, v: nat, j: nat) {
    src in cfg.nodes && j < |Nexts(cfg, src, v)| && Nexts(cfg, src, v)[j].Some? ==>
      Nexts(cfg, src, v)[j].value in t.arr && From(src, v, j) in t.arr[Nexts(cfg, src, v)[j].value]
  }

  /** All rounds of the visits between two records have been walked. */
  ghost predicate AllWalked(cfg: Config, t: Track, r: Track) {
    forall src, v: nat, j: nat {:trigger Walked(cfg, r, src, v, j)} ::
      src in t.arr && src in r.arr && |t.arr[src]| < v <= |r.arr[src]| ==> Walked(cfg, r, src, v, j)
  }

  ghost predicate Grew(t: Track, r: Track) {
    t.arr.Keys == r.arr.Keys && forall n :: n in t.arr ==> t.arr[n] <= r.arr[n]
  }

  /** A call of a visit later than those of t. */
  ghost predicate Later(t: Track, e: Arrival) {
    e.From? && e.src in t.arr && e.visit > |t.arr[e.src]|
  }

  /** The calls that are new since t: the given one, and those of later visits. */
  ghost predicate OnlyAfter(t: Track, r: Track, id: string, via: Arrival) {
    forall n, e :: n in r.arr && n in t.arr && e in r.arr[n] && e !in t.arr[n] ==>
      (n == id && e == via) || Later(t, e)
  }

  /** The calls that are new since t: those of one visit, and those of later ones. */
  ghost predicate OnlyDuring(t: Track, r: Track, id: string, v: nat) {
    forall n, e :: n in r.arr && n in t.arr && e in r.arr[n] && e !in t.arr[n] ==>
      (e.From? && e.src == id && e.visit == v) || Later(t, e)
  }

  /** The rounds of visit v of a node that have been walked are those before j. */
  ghost predicate UpTo(cfg: Config, t: Track, id: string, v: nat, j: nat) {
    && (forall n, e :: n in t.arr && e in t.arr[n] && e.From? && e.src == id && e.visit == v ==> e.index < j)
    && (forall i: nat {:trigger Walked(cfg, t, id, v, i)} :: i < j ==> Walked(cfg, t, id, v, i))
  }

  // ---- the record step by step ----

  lemma WalkedGrows(cfg: Config, t: Track, r: Track, src: string, v: nat, j: nat)
    requires Walked(cfg, t, src, v, j) && Grew(t, r)
    ensures Walked(cfg, r, src, v, j)
  {
  }

  lemma AllWalkedOn(cfg: Config, t: Track, u: Track, r: Track)
    requires Grew(t, u) && Grew(u, r) && AllWalked(cfg, t, u) && AllWalked(cfg, u, r)
    ensures Grew(t, r) && AllWalked(cfg, t, r)
  {
    forall src, v: nat, j: nat | src in t.arr && src in r.arr && |t.arr[src]| < v <= |r.arr[src]|
      ensures Walked(cfg, r, src, v, j)
    {
      if v <= |u.arr[src]| {
        assert Walked(cfg, u, src, v, j);
        WalkedGrows(cfg, u, r, src, v, j);
      }
    }
  }

  lemma DuringOn(t: Track, u: Track, r: Track, id: string, v: nat, n0: string, via: Arrival)
    requires Grew(t, u) && Grew(u, r) && OnlyAfter(t, u, n0, via) && OnlyDuring(u, r, id, v)
    requires via.From? && via.src == id && via.visit == v
    ensures OnlyDuring(t, r, id, v)
  {
    forall n, e | n in r.arr && n in t.arr && e in r.arr[n] && e !in t.arr[n]
      ensures (e.From? && e.src == id && e.visit == v) || Later(t, e)
    {
      if e !in u.arr[n] {
        assert (e.From? && e.src == id && e.visit == v) || Later(u, e);
      }
    }
  }

  lemma ArrivedTraced(cfg: Config, id: string, via: Arrival, t: Track)
    requires id in cfg.nodes && t.arr.Keys == cfg.nodes.Keys && AllLegit(cfg, t) && AllOnce(t)
    requires Legit(cfg, t, id, via) && via !in t.arr[id]
    ensures var u := Arrived(id, via, t);
            AllLegit(cfg, u) && AllOnce(u) && Grew(t, u) && UpTo(cfg, u, id, |t.arr[id]| + 1, 0)
  {
    var u := Arrived(id, via, t);
    forall n, e | n in u.arr && e in u.arr[n]
      ensures Legit(cfg, t, n, e) && Legit(cfg, u, n, e)
    {
      if e !in t.arr[n] {
        assert n == id && e == via;
      }
    }
  }

  /** The round j of a visit, by the call of the node that it leads to. */
  lemma RoundTraced(cfg: Config, id: string, v: nat, j: nat, t: Track, u: Track)
    requires id in cfg.nodes && id in t.arr && v <= |t.arr[id]| && j < |Nexts(cfg, id, v)| && Nexts(cfg, id, v)[j].Some?
    requires UpTo(cfg, t, id, v, j) && Grew(t, u)
    requires OnlyAfter(t, u, Nexts(cfg, id, v)[j].value, From(id, v, j))
    requires Nexts(cfg, id, v)[j].value in u.arr && From(id, v, j) in u.arr[Nexts(cfg, id, v)[j].value]
    ensures UpTo(cfg, u, id, v, j + 1)
  {
    forall n, e | n in u.arr && e in u.arr[n] && e.From? && e.src == id && e.visit == v
      ensures e.index < j + 1
    {
      if e !in t.arr[n] {
        assert e == From(id, v, j) || Later(t, e);
      }
    }
    forall i: nat | i < j + 1
      ensures Walked(cfg, u, id, v, i)
    {
      if i < j {
        assert Walked(cfg, t, id, v, i);
        WalkedGrows(cfg, t, u, id, v, i);
      }
    }
  }

  lemma {:induction false} WalkTraced(cfg: Config, id: string, via: Arrival, t: Track)
    requires id in cfg.nodes && t.arr.Keys == cfg.nodes.Keys && t.calls <= 256 && t.ok
    requires AllLegit(cfg, t) && AllOnce(t) && Legit(cfg, t, id, via) && via !in t.arr[id]
    ensures var r := Walk(cfg, id, via, t);
            r.ok ==> AllLegit(cfg, r) && AllOnce(r) && Grew(t, r) && OnlyAfter(t, r, id, via) && via in r.arr[id]
                     && AllWalked(cfg, t, r)
    decreases 257 - t.calls, 0, 0
  {
    if t.calls < 256 {
      var u, v := Arrived(id, via, t), |t.arr[id]| + 1;
      ArrivedTraced(cfg, id, via, t);
      EachTraced(cfg, id, v, 0, u);
      var r := WalkEach(cfg, id, v, 0, u);
      if r.ok {
        WalkDone(cfg, id, via, t, r);
      }
    }
  }

  lemma WalkDone(cfg: Config, id: string, via: Arrival, t: Track, r: Track)
    requires id in cfg.nodes && t.arr.Keys == cfg.nodes.Keys
    requires var u, v := Arrived(id, via, t), |t.arr[id]| + 1;
             && Grew(t, u) && Grew(u, r) && OnlyDuring(u, r, id, v) && AllWalked(cfg, u, r)
             && UpTo(cfg, r, id, v, |Nexts(cfg, id, v)|)
    ensures Grew(t, r) && OnlyAfter(t, r, id, via) && via in r.arr[id] && AllWalked(cfg, t, r)
  {
    var u, v := Arrived(id, via, t), |t.arr[id]| + 1;
    assert u.arr[id][|t.arr[id]|] == via && r.arr[id][|t.arr[id]|] == via;
    forall n, e | n in r.arr && n in t.arr && e in r.arr[n] && e !in t.arr[n]
      ensures (n == id && e == via) || Later(t, e)
    {
      if e !in u.arr[n] {
        assert (e.From? && e.src == id && e.visit == v) || Later(u, e);
      }
    }
    forall src, w: nat, j: nat | src in t.arr && src in r.arr && |t.arr[src]| < w <= |r.arr[src]|
      ensures Walked(cfg, r, src, w, j)
    {
      if src == id && w == v {
        assert j < |Nexts(cfg, id, v)| ==> Walked(cfg, r, id, v, j);
      } else {
        assert |u.arr[src]| < w;
      }
    }
  }

  lemma {:induction false} EachTraced(cfg: Config, id: string, v: nat, j: nat, t: Track)
    requires id in cfg.nodes && j <= |Nexts(cfg, id, v)| && t.arr.Keys == cfg.nodes.Keys && t.calls <= 256 && t.ok
    requires 1 <= v <= |t.arr[id]| && AllLegit(cfg, t) && AllOnce(t) && UpTo(cfg, t, id, v, j)
    ensures var r := WalkEach(cfg, id, v, j, t);
            r.ok ==> AllLegit(cfg, r) && AllOnce(r) && Grew(t, r) && OnlyDuring(t, r, id, v) && AllWalked(cfg, t, r)
                     && UpTo(cfg, r, id, v, |Nexts(cfg, id, v)|)
    decreases 257 - t.calls, 1, |Nexts(cfg, id, v)| - j
  {
    var nexts := Nexts(cfg, id, v);
    if j < |nexts| {
      if nexts[j].None? || nexts[j].value !in cfg.nodes {
        SkippedRound(cfg, id, v, j, t);
        EachTraced(cfg, id, v, j + 1, t);
      } else {
        var n, via := nexts[j].value, From(id, v, j);
        WalkTraced(cfg, n, via, t);
        var u := Walk(cfg, n, via, t);
        if u.ok {
          RoundTraced(cfg, id, v, j, t, u);
          EachTraced(cfg, id, v, j + 1, u);
          var r := WalkEach(cfg, id, v, j + 1, u);
          if r.ok {
            AllWalkedOn(cfg, t, u, r);
            DuringOn(t, u, r, id, v, n, via);
          }
        }
      }
    }
  }

  lemma SkippedRound(cfg: Config, id: string, v: nat, j: nat, t: Track)
    requires id in cfg.nodes && j < |Nexts(cfg, id, v)| && t.arr.Keys == cfg.nodes.Keys && UpTo(cfg, t, id, v, j)
    requires Nexts(cfg, id, v)[j].None? || Nexts(cfg, id, v)[j].value !in cfg.nodes
    ensures UpTo(cfg, t, id, v, j + 1)
  {
    if Nexts(cfg, id, v)[j].Some? {
      RepeatOnly(Targets(cfg, id), v, Nexts(cfg, id, v)[j]);
      assert false;
    }
    forall i: nat | i < j + 1
      ensures Walked(cfg, t, id, v, i)
    {
      if i < j {
        assert Walked(cfg, t, id, v, i);
      }
    }
  }

  // ---- ways in the graph ----

  /** An execution port that the entrance reaches leads to m. */
  ghost predicate Leads(cfg: Config, entrance: string, s: string, i: nat, m: string) {
    && s in cfg.nodes && Reaches(Flow(cfg), entrance, s, 0)
    && i < |Targets(cfg, s)| && Targets(cfg, s)[i] == Some(m)
  }

  ghost predicate TwoPorts(cfg: Config, entrance: string, m: string, s: string, i: nat, s': string, i': nat) {
    (s != s' || i != i') && Leads(cfg, entrance, s, i, m) && Leads(cfg, entrance, s', i', m)
  }

  /** Two execution ports that the entrance reaches lead to m. */
  ghost predicate Joined(cfg: Config, entrance: string, m: string) {
    exists s, i: nat, s', i': nat :: TwoPorts(cfg, entrance, m, s, i, s', i')
  }

  /** More than one way leads from the entrance to n: two ports lead to it, or to a node before it. */
  ghost predicate TwoWays(cfg: Config, entrance: string, n: string) {
    exists m :: Joined(cfg, entrance, m) && Reaches(Flow(cfg), m, n, 0)
  }

  /** A record of all calls of a load. */
  ghost predicate Recorded(cfg: Config, entrance: string, r: Track) {
    && r.arr.Keys == cfg.nodes.Keys && entrance in cfg.nodes && Start in r.arr[entrance]
    && AllLegit(cfg, r) && AllOnce(r)
    && (forall n :: n in r.arr && Start in r.arr[n] ==> n == entrance)
    && (forall src, v: nat, j: nat {:trigger Walked(cfg, r, src, v, j)} ::
          src in r.arr && 0 < v <= |r.arr[src]| ==> Walked(cfg, r, src, v, j))
  }

  /** A record of a load that has succeeded. */
  ghost predicate Whole(cfg: Config, entrance: string, r: Track) {
    && Recorded(cfg, entrance, r)
    && (forall n :: n in r.arr && r.arr[n] != [] && Targets(cfg, n) != [] ==> Reaches(Flow(cfg), entrance, n, 0))
    && Bounded(Flow(cfg), entrance, 256) && AcyclicFrom(Flow(cfg), entrance)
  }

  /** A port of a node that has been visited v times brings v calls to its target. */
  lemma PortArrives(cfg: Config, entrance: string, r: Track, x: string, i: nat, y: string, v: nat)
    requires Whole(cfg, entrance, r) && x in cfg.nodes && 0 < v <= |r.arr[x]|
    requires i < |Targets(cfg, x)| && Targets(cfg, x)[i] == Some(y)
    ensures y in r.arr && From(x, v, i) in r.arr[y]
  {
    RepeatAt(Targets(cfg, x), v, i);
    assert Walked(cfg, r, x, v, i);
  }

  lemma StepPort(cfg: Config, x: string, y: string) returns (i: nat)
    requires x in cfg.nodes && y in Flow(cfg)[x]
    ensures i < |Targets(cfg, x)| && Targets(cfg, x)[i] == Some(y)
  {
    assert Some(y) in Targets(cfg, x);
    i :| 0 <= i < |Targets(cfg, x)| && Targets(cfg, x)[i] == Some(y);
  }

  /** Along a path a node is visited at least once if its predecessor is, and twice if that is. */
  lemma {:induction false} PathArrives(cfg: Config, entrance: string, r: Track, p: seq<string>, k: nat)
    requires Whole(cfg, entrance, r) && Path(Flow(cfg), p) && 1 <= k <= 2 && |r.arr[p[0]]| >= k
    ensures p[|p| - 1] in r.arr && |r.arr[p[|p| - 1]]| >= k
    decreases |p|
  {
    if |p| > 1 {
      TailPath(Flow(cfg), p);
      var i := StepPort(cfg, p[0], p[1]);
      PortArrives(cfg, entrance, r, p[0], i, p[1], 1);
      if k == 2 {
        PortArrives(cfg, entrance, r, p[0], i, p[1], 2);
        TwoElements(r.arr[p[1]], From(p[0], 1, i), From(p[0], 2, i));
      }
      PathArrives(cfg, entrance, r, p[1..], k);
      assert p[1..][|p| - 2] == p[|p| - 1];
    }
  }

  lemma ReachedVisited(cfg: Config, entrance: string, r: Track, n: string)
    requires Whole(cfg, entrance, r) && Reaches(Flow(cfg), entrance, n, 0)
    ensures n in r.arr && r.arr[n] != []
  {
    var p :| PathFrom(Flow(cfg), entrance, p) && p[|p| - 1] == n && |p| > 0;
    PathArrives(cfg, entrance, r, p, 1);
  }

  lemma JoinedTwice(cfg: Config, entrance: string, r: Track, m: string)
    requires Whole(cfg, entrance, r) && Joined(cfg, entrance, m)
    ensures m in r.arr && |r.arr[m]| >= 2
  {
    var s, i: nat, s', i': nat :| TwoPorts(cfg, entrance, m, s, i, s', i');
    ReachedVisited(cfg, entrance, r, s);
    ReachedVisited(cfg, entrance, r, s');
    PortArrives(cfg, entrance, r, s, i, m, 1);
    PortArrives(cfg, entrance, r, s', i', m, 1);
    TwoElements(r.arr[m], From(s, 1, i), From(s', 1, i'));
  }

  lemma TwoElements(a: seq<Arrival>, e: Arrival, e': Arrival)
    requires e in a && e' in a && e != e'
    ensures |a| >= 2
  {
  }

  /** Two ways bring two calls. */
  lemma TwoWaysTwice(cfg: Config, entrance: string, r: Track, n: string)
    requires Whole(cfg, entrance, r) && TwoWays(cfg, entrance, n)
    ensures n in r.arr && |r.arr[n]| >= 2
  {
    var m :| Joined(cfg, entrance, m) && Reaches(Flow(cfg), m, n, 0);
    JoinedTwice(cfg, entrance, r, m);
    var p :| PathFrom(Flow(cfg), m, p) && p[|p| - 1] == n && |p| > 0;
    PathArrives(cfg, entrance, r, p, 2);
  }

  /** The port that a call from a visited node stands for. */
  lemma ArrivalPort(cfg: Config, entrance: string, r: Track, x: string, e: Arrival) returns (i: nat)
    requires Whole(cfg, entrance, r) && x in r.arr && e in r.arr[x] && e.From?
    ensures Leads(cfg, entrance, e.src, i, x) && e.src in r.arr && x in Flow(cfg)[e.src]
    ensures e.visit == 1 ==> i == e.index
  {
    assert Legit(cfg, r, x, e);
    var base := Targets(cfg, e.src);
    RepeatOnly(base, e.visit, Some(x));
    assert r.arr[e.src] != [];
    if e.visit == 1 {
      assert Repeat(base, 1) == Repeat(base, 0) + base == base;
      i := e.index;
    } else {
      i :| 0 <= i < |base| && base[i] == Some(x);
    }
    assert Some(x) in base;
  }

  lemma BackPath(g: Succ, entrance: string, s: string) returns (c: seq<string>)
    requires Closed(g) && Reaches(g, entrance, s, 0) && s in g && entrance in g[s]
    ensures PathFrom(g, entrance, c) && |c| > 1 && c[|c| - 1] == entrance
  {
    var p :| PathFrom(g, entrance, p) && p[|p| - 1] == s && |p| > 0;
    var q := [s, entrance];
    assert Step(g, q, 0);
    JoinPaths(g, p, q);
    c := p + q[1..];
  }

  /** No call comes back to the entrance. */
  lemma NotBack(cfg: Config, entrance: string, r: Track, e: Arrival)
    requires Whole(cfg, entrance, r) && e in r.arr[entrance]
    ensures e == Start
  {
    if e.From? {
      var i := ArrivalPort(cfg, entrance, r, entrance, e);
      var c := BackPath(Flow(cfg), entrance, e.src);
      assert false;
    }
  }

  lemma TwoArrivals(cfg: Config, entrance: string, r: Track, x: string, e: Arrival, e': Arrival, i: nat, i': nat)
    requires Whole(cfg, entrance, r) && x in r.arr && e in r.arr[x] && e' in r.arr[x] && e != e' && e.From? && e'.From?
    requires e.src in r.arr && (e.src != e'.src || |r.arr[e.src]| < 2)
    requires Leads(cfg, entrance, e.src, i, x) && Leads(cfg, entrance, e'.src, i', x)
    requires (e.visit == 1 ==> i == e.index) && (e'.visit == 1 ==> i' == e'.index)
    ensures Joined(cfg, entrance, x)
  {
    assert Legit(cfg, r, x, e) && Legit(cfg, r, x, e');
    assert TwoPorts(cfg, entrance, x, e.src, i, e'.src, i');
  }

  /** Two calls to x, on a path from x to n, come from two ways to n. */
  lemma {:induction false} TwiceTwoWays(cfg: Config, entrance: string, r: Track, x: string, q: seq<string>, n: string)
    requires Whole(cfg, entrance, r) && PathFrom(Flow(cfg), x, q) && q[|q| - 1] == n
    requires x in r.arr && |r.arr[x]| >= 2 && |q| <= 256
    ensures TwoWays(cfg, entrance, n)
    decreases 256 - |q|
  {
    var e, e' := r.arr[x][0], r.arr[x][1];
    assert NoRepeats(r.arr[x]);
    if e.Start? || e'.Start? {
      NotBack(cfg, entrance, r, if e.Start? then e' else e);
      assert false;
    }
    var i := ArrivalPort(cfg, entrance, r, x, e);
    var i' := ArrivalPort(cfg, entrance, r, x, e');
    if e.src == e'.src && |r.arr[e.src]| >= 2 {
      ConsPath(Flow(cfg), e.src, q);
      var longer := [e.src] + q;
      ShortWay(cfg, entrance, r, e.src, longer);
      TwiceTwoWays(cfg, entrance, r, e.src, longer, n);
    } else {
      TwoArrivals(cfg, entrance, r, x, e, e', i, i');
      assert Reaches(Flow(cfg), x, n, 0);
    }
  }

  /** A path that goes on from what the entrance reaches is short. */
  lemma ShortWay(cfg: Config, entrance: string, r: Track, s: string, q: seq<string>)
    requires Whole(cfg, entrance, r) && Reaches(Flow(cfg), entrance, s, 0) && PathFrom(Flow(cfg), s, q)
    ensures |q| <= 256
  {
    var p :| PathFrom(Flow(cfg), entrance, p) && p[|p| - 1] == s && |p| > 0;
    JoinPaths(Flow(cfg), p, q);
  }

  /** One call comes to a node if and only if one way leads to it. */
  lemma OneWayOnce(cfg: Config, entrance: string, r: Track, n: string)
    requires Whole(cfg, entrance, r) && Reaches(Flow(cfg), entrance, n, 0)
    ensures n in r.arr && r.arr[n] != [] && (|r.arr[n]| == 1 <==> !TwoWays(cfg, entrance, n))
  {
    ReachedVisited(cfg, entrance, r, n);
    if TwoWays(cfg, entrance, n) {
      TwoWaysTwice(cfg, entrance, r, n);
    } else if |r.arr[n]| >= 2 {
      assert PathFrom(Flow(cfg), n, [n]);
      TwiceTwoWays(cfg, entrance, r, n, [n], n);
    }
  }

  // ---- whole loads ----

  ghost function Unprepared(cfg: Config): Prep {
    Prep(map n | n in cfg.nodes :: [], {}, 0, true)
  }

  ghost function Untracked(cfg: Config): Track {
    Track(map n | n in cfg.nodes :: [], 0, true)
  }

  lemma RecordedFrom(cfg: Config, entrance: string, t: Track, r: Track)
    requires entrance in cfg.nodes && t.arr.Keys == cfg.nodes.Keys && (forall n :: n in t.arr ==> t.arr[n] == [])
    requires AllLegit(cfg, r) && AllOnce(r) && Grew(t, r) && OnlyAfter(t, r, entrance, Start) && AllWalked(cfg, t, r)
    requires Start in r.arr[entrance]
    ensures Recorded(cfg, entrance, r)
  {
    forall n | n in r.arr && Start in r.arr[n]
      ensures n == entrance
    {
      var e: Arrival := Start;
      assert n in t.arr && e in r.arr[n] && e !in t.arr[n];
      assert n == entrance || Later(t, e);
    }
    forall src, v: nat, j: nat | src in r.arr && 0 < v <= |r.arr[src]|
      ensures Walked(cfg, r, src, v, j)
    {
      assert |t.arr[src]| == 0;
    }
  }

  lemma LoadRecorded(cfg: Config, entrance: string, t: Track, r: Track)
    requires entrance in cfg.nodes && t == Untracked(cfg) && r == Walk(cfg, entrance, Start, t) && r.ok
    ensures Recorded(cfg, entrance, r)
  {
    assert AllLegit(cfg, t) && AllOnce(t);
    WalkTraced(cfg, entrance, Start, t);
    RecordedFrom(cfg, entrance, t, r);
  }

  lemma LoadReaches(cfg: Config, entrance: string, connected: set<string>, p: Prep, r: Track, n: string)
    requires Mirror(cfg, p, r) && Loaded(cfg, p.next, connected, entrance)
    requires n in r.arr && r.arr[n] != [] && Targets(cfg, n) != []
    ensures Reaches(Flow(cfg), entrance, n, 0)
  {
    RepeatAt(Targets(cfg, n), |r.arr[n]|, 0);
    ReachesSelf(Flow(cfg), entrance);
    assert Reaches(Flow(cfg), entrance, n, 1) ==> Reaches(Flow(cfg), entrance, n, 0);
  }

  lemma WholeLoad(cfg: Config, entrance: string, connected: set<string>, p: Prep) returns (r: Track)
    requires entrance in cfg.nodes && p == Prepare(cfg, entrance, Unprepared(cfg)) && p.ok
    requires Loaded(cfg, p.next, connected, entrance)
    ensures Whole(cfg, entrance, r) && Mirror(cfg, p, r)
  {
    r := Walk(cfg, entrance, Start, Untracked(cfg));
    MirrorWalk(cfg, entrance, Start, Unprepared(cfg), Untracked(cfg));
    LoadRecorded(cfg, entrance, Untracked(cfg), r);
    forall n | n in r.arr && r.arr[n] != [] && Targets(cfg, n) != []
      ensures Reaches(Flow(cfg), entrance, n, 0)
    {
      LoadReaches(cfg, entrance, connected, p, r, n);
    }
  }

  /** The node was prepared once exactly if one call came to it. */
  lemma OnceRefuses(cfg: Config, p: Prep, r: Track, n: string)
    requires Mirror(cfg, p, r) && n in r.arr && r.arr[n] != []
    ensures RefusesPast(cfg, p.next, n) <==> |r.arr[n]| == 1 || Targets(cfg, n) == []
  {
    var copies := map m | m in cfg.nodes :: |r.arr[m]|;
    var ready := set m | m in cfg.nodes && r.arr[m] != [];
    PastPorts(cfg, p.next, copies, ready, n);
  }

  /** In a loaded graph every index past the execution ports of a node that the entrance reaches is
      refused if and only if the node has no execution ports or one way leads to it. */
  lemma PastPortsWays(cfg: Config, entrance: string, connected: set<string>, p: Prep, n: string)
    requires entrance in cfg.nodes && p == Prepare(cfg, entrance, Unprepared(cfg)) && p.ok
    requires Loaded(cfg, p.next, connected, entrance) && Reaches(Flow(cfg), entrance, n, 0)
    ensures n in cfg.nodes && n in p.next
    ensures RefusesPast(cfg, p.next, n) <==> Targets(cfg, n) == [] || !TwoWays(cfg, entrance, n)
  {
    var r := WholeLoad(cfg, entrance, connected, p);
    OneWayOnce(cfg, entrance, r, n);
    OnceRefuses(cfg, p, r, n);
  }

  /** Loading a graph: what an index past the ports does can be told from the graph beforehand. */
  method Load(cfg: Config, entrance: string) returns (loader: Loader, ok: bool)
    ensures fresh(loader) && loader.Valid() && loader.cfg == cfg && (entrance !in cfg.nodes ==> !ok)
    ensures ok ==> Loaded(cfg, loader.nextNode, loader.beConnect, entrance)
    ensures ok ==> forall n :: Reaches(Flow(cfg), entrance, n, 0) ==> (
              && n in cfg.nodes && n in loader.nextNode
              && (RefusesPast(cfg, loader.nextNode, n) <==> Targets(cfg, n) == [] || !TwoWays(cfg, entrance, n)))
  {
    loader := new Loader(cfg);
    ghost var start := loader.State(true);
    ok := loader.PrepareOneEntrance(entrance);
    if ok {
      ghost var p, connected := loader.State(true), loader.beConnect;
      forall n | Reaches(Flow(cfg), entrance, n, 0)
        ensures n in cfg.nodes && n in p.next
        ensures RefusesPast(cfg, p.next, n) <==> Targets(cfg, n) == [] || !TwoWays(cfg, entrance, n)
      {
        PastPortsWays(cfg, entrance, connected, p, n);
      }
    }
  }
}

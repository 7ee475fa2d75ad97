/** Paths in a finite directed graph, given by the successors of each node. */
module Paths {

  /** The successors of each node. */
  type Succ = map<string, set<string>>

  ghost predicate Closed(g: Succ) {
    forall n, m :: n in g && m in g[n] ==> m in g
  }

  /** A non-empty sequence of nodes, each a successor of the one before. */
  ghost predicate Path(g: Succ, p: seq<string>) {
    && |p| >= 1 && p[0] in g
    && forall i {:trigger Step(g, p, i)} :: 0 <= i < |p| - 1 ==> Step(g, p, i)
  }

  ghost predicate Step(g: Succ, p: seq<string>, i: int)
    requires 0 <= i < |p| - 1
  {
    p[i] in g && p[i + 1] in g[p[i]]
  }

  ghost predicate PathFrom(g: Succ, n: string, p: seq<string>) {
    Path(g, p) && p[0] == n
  }

  /** Every path from n has at most b nodes. */
  ghost predicate Bounded(g: Succ, n: string, b: int) {
    forall p :: PathFrom(g, n, p) ==> |p| <= b
  }

  /** No node occurs twice on p. */
  ghost predicate Distinct(p: seq<string>) {
    forall i, j :: 0 <= i < j < |p| ==> p[i] != p[j]
  }

  /** No path from n comes back to a node. */
  ghost predicate AcyclicFrom(g: Succ, n: string) {
    forall p :: PathFrom(g, n, p) ==> Distinct(p)
  }

  lemma TailPath(g: Succ, p: seq<string>)
    requires Closed(g) && Path(g, p) && |p| >= 2
    ensures PathFrom(g, p[1], p[1..]) && p[1] in g[p[0]]
  {
    var t := p[1..];
    forall i | 0 <= i < |t| - 1
      ensures Step(g, t, i)
    {
      assert Step(g, p, i + 1);
    }
    assert Step(g, p, 0);
  }

  lemma ConsPath(g: Succ, n: string, p: seq<string>)
    requires Closed(g) && n in g && Path(g, p) && p[0] in g[n]
    ensures PathFrom(g, n, [n] + p)
  {
    var q := [n] + p;
    forall i | 0 <= i < |q| - 1
      ensures Step(g, q, i)
    {
      if i > 0 {
        assert Step(g, p, i - 1);
      }
    }
  }

  lemma {:induction false} JoinPaths(g: Succ, p: seq<string>, q: seq<string>)
    requires Closed(g) && Path(g, p) && PathFrom(g, p[|p| - 1], q)
    ensures PathFrom(g, p[0], p + q[1..])
    decreases |p|
  {
    if |p| == 1 {
      assert p + q[1..] == q;
    } else {
      TailPath(g, p);
      JoinPaths(g, p[1..], q);
      ConsPath(g, p[0], p[1..] + q[1..]);
      assert [p[0]] + (p[1..] + q[1..]) == p + q[1..];
    }
  }

  lemma {:induction false} SuffixPath(g: Succ, p: seq<string>, i: int)
    requires Closed(g) && Path(g, p) && 0 <= i < |p|
    ensures PathFrom(g, p[i], p[i..])
    decreases |p|
  {
    if i > 0 {
      TailPath(g, p);
      SuffixPath(g, p[1..], i - 1);
      assert p[1..][i - 1..] == p[i..];
    } else {
      assert p[0..] == p;
    }
  }

  lemma PrefixPath(g: Succ, p: seq<string>, i: int)
    requires Path(g, p) && 0 <= i < |p|
    ensures PathFrom(g, p[0], p[..i + 1])
  {
    forall j {:trigger Step(g, p[..i + 1], j)} | 0 <= j < i
      ensures Step(g, p[..i + 1], j)
    {
      assert Step(g, p, j);
    }
  }

  /** A cycle can be gone round any number of times. */
  lemma {:induction false} Pump(g: Succ, c: seq<string>, k: nat) returns (q: seq<string>)
    requires Closed(g) && Path(g, c) && |c| >= 2 && c[|c| - 1] == c[0]
    ensures PathFrom(g, c[0], q) && |q| > k
  {
    if k == 0 {
      q := c;
    } else {
      q := Pump(g, c, k - 1);
      JoinPaths(g, c, q);
      q := c + q[1..];
    }
  }

  /** Where paths are bounded there is no cycle. */
  lemma BoundedIsAcyclic(g: Succ, n: string, b: nat)
    requires Closed(g) && Bounded(g, n, b)
    ensures AcyclicFrom(g, n)
  {
    forall p, i, j | PathFrom(g, n, p) && 0 <= i < j < |p|
      ensures p[i] != p[j]
    {
      if p[i] == p[j] {
        PrefixPath(g, p, j);
        var upTo := p[..j + 1];
        SuffixPath(g, upTo, i);
        var q := Pump(g, upTo[i..], b);
        PrefixPath(g, p, i);
        JoinPaths(g, p[..i + 1], q);
        assert false;
      }
    }
  }

  lemma {:induction false} DistinctFits(p: seq<string>, s: set<string>)
    requires Distinct(p) && forall i :: 0 <= i < |p| ==> p[i] in s
    ensures |p| <= |s|
  {
    if |p| > 0 {
      var last := |p| - 1;
      var front := p[..last];
      assert forall i :: 0 <= i < last ==> front[i] == p[i] != p[last];
      DistinctFits(front, s - {p[last]});
    }
  }

  /** In a finite graph without cycles paths are bounded by the number of nodes. */
  lemma AcyclicIsBounded(g: Succ, n: string)
    requires Closed(g) && AcyclicFrom(g, n)
    ensures Bounded(g, n, |g.Keys|)
  {
    forall p | PathFrom(g, n, p)
      ensures |p| <= |g.Keys|
    {
      forall i | 0 <= i < |p|
        ensures p[i] in g.Keys
      {
        if i > 0 {
          assert Step(g, p, i - 1);
        }
      }
      DistinctFits(p, g.Keys);
    }
  }

  // ---- height ----

  ghost predicate IsHeight(g: Succ, n: string, h: int) {
    Bounded(g, n, h) && exists p :: PathFrom(g, n, p) && |p| == h
  }

  lemma {:induction false} HeightExists(g: Succ, n: string, b: nat)
    requires n in g && Bounded(g, n, b)
    ensures exists h :: IsHeight(g, n, h)
  {
    if p :| PathFrom(g, n, p) && |p| == b {
      assert IsHeight(g, n, b);
    } else {
      assert PathFrom(g, n, [n]);
      assert Bounded(g, n, b - 1);
      HeightExists(g, n, b - 1);
    }
  }

  /** The number of nodes on a longest path from n, where there is one. */
  ghost function Height(g: Succ, n: string): (h: nat)
    ensures (exists k :: IsHeight(g, n, k)) ==> IsHeight(g, n, h)
  {
    if k :| IsHeight(g, n, k) then
      assert k >= 0 by { var p :| PathFrom(g, n, p) && |p| == k; }
      k
    else 0
  }

  /** A successor is lower. */
  lemma HeightDrops(g: Succ, n: string, m: string, b: nat)
    requires Closed(g) && n in g && m in g[n] && Bounded(g, n, b)
    ensures Height(g, m) < Height(g, n)
  {
    HeightExists(g, n, b);
    forall p | PathFrom(g, m, p)
      ensures |p| <= b
    {
      ConsPath(g, n, p);
    }
    HeightExists(g, m, b);
    var p :| PathFrom(g, m, p) && |p| == Height(g, m);
    ConsPath(g, n, p);
  }
}

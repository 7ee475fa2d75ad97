/** The geometry of a skip list: towers of given heights standing in a row.
    Position 0 is the head. Everything here is about heights alone, so that the
    lemmas never mention the heap. */
module SkipTowers {

  ghost predicate IsNxt(hs: seq<nat>, i: nat, l: nat, r: nat) {
    && i < r <= |hs|
    && (r < |hs| ==> hs[r] > l)
    && forall k :: i < k < r ==> hs[k] <= l
  }

  lemma NxtExists(hs: seq<nat>, i: nat, l: nat)
    requires i < |hs|
    ensures exists r: nat :: IsNxt(hs, i, l, r)
    decreases |hs| - i
  {
    if i + 1 == |hs| || hs[i + 1] > l {
      assert IsNxt(hs, i, l, i + 1);
    } else {
      NxtExists(hs, i + 1, l);
      var r: nat :| IsNxt(hs, i + 1, l, r);
      assert IsNxt(hs, i, l, r);
    }
  }

  /** The first position after i whose tower is higher than level l, or |hs|. */
  ghost function Nxt(hs: seq<nat>, i: nat, l: nat): (r: nat)
    requires i < |hs|
    ensures IsNxt(hs, i, l, r)
  {
    NxtExists(hs, i, l);
    var r: nat :| IsNxt(hs, i, l, r);
    r
  }

  ghost function Inserted<T>(s: seq<T>, p: nat, x: T): seq<T>
    requires p <= |s|
  {
    s[..p] + [x] + s[p..]
  }

  ghost function Removed<T>(s: seq<T>, p: nat): seq<T>
    requires p < |s|
  {
    s[..p] + s[p + 1..]
  }

  lemma NxtUnique(hs: seq<nat>, i: nat, l: nat, r: nat)
    requires i < |hs| && IsNxt(hs, i, l, r)
    ensures Nxt(hs, i, l) == r
  {
  }

  /** How a link changes when a tower of height h is put in at position p. */
  lemma NxtInserted(hs: seq<nat>, p: nat, h: nat, i: nat, l: nat)
    requires 0 < p <= |hs| && i <= |hs|
    ensures |Inserted(hs, p, h)| == |hs| + 1
    ensures i < p ==>
      var j := Nxt(hs, i, l);
      Nxt(Inserted(hs, p, h), i, l) == if j < p then j else if l < h then p else j + 1
    ensures i == p ==> Nxt(Inserted(hs, p, h), i, l) == Nxt(hs, p - 1, l) + 1
    ensures i > p ==> Nxt(Inserted(hs, p, h), i, l) == Nxt(hs, i - 1, l) + 1
  {
    var hs' := Inserted(hs, p, h);
    assert forall k :: 0 <= k < p ==> hs'[k] == hs[k];
    assert forall k :: p < k < |hs'| ==> hs'[k] == hs[k - 1];
    if i < p {
      var j := Nxt(hs, i, l);
      NxtUnique(hs', i, l, if j < p then j else if l < h then p else j + 1);
    } else if i == p {
      NxtUnique(hs', i, l, Nxt(hs, p - 1, l) + 1);
    } else {
      NxtUnique(hs', i, l, Nxt(hs, i - 1, l) + 1);
    }
  }

  /** How a link changes when the tower at position p is taken out. */
  lemma NxtRemoved(hs: seq<nat>, p: nat, i: nat, l: nat)
    requires 0 < p < |hs| && i < |hs| - 1
    ensures |Removed(hs, p)| == |hs| - 1
    ensures i < p ==>
      var j := Nxt(hs, i, l);
      Nxt(Removed(hs, p), i, l) == if j < p then j else if j == p then Nxt(hs, p, l) - 1 else j - 1
    ensures i >= p ==> Nxt(Removed(hs, p), i, l) == Nxt(hs, i + 1, l) - 1
  {
    var hs' := Removed(hs, p);
    assert forall k :: 0 <= k < p ==> hs'[k] == hs[k];
    assert forall k :: p <= k < |hs'| ==> hs'[k] == hs[k + 1];
    if i < p {
      var j := Nxt(hs, i, l);
      NxtUnique(hs', i, l, if j < p then j else if j == p then Nxt(hs, p, l) - 1 else j - 1);
    } else {
      NxtUnique(hs', i, l, Nxt(hs, i + 1, l) - 1);
    }
  }

  /** Links inside the first p towers, after everything behind them is cut off. */
  lemma NxtTake(hs: seq<nat>, p: nat, i: nat, l: nat)
    requires i < p <= |hs|
    ensures Nxt(hs[..p], i, l) == var j := Nxt(hs, i, l); if j < p then j else p
  {
    var j := Nxt(hs, i, l);
    NxtUnique(hs[..p], i, l, if j < p then j else p);
  }

  /** Links inside the towers behind position p, renumbered behind a new head. */
  lemma NxtDrop(hs: seq<nat>, p: nat, head: nat, i: nat, l: nat)
    requires p < |hs| && i < |hs| - p
    ensures Nxt([head] + hs[p + 1..], i, l) == Nxt(hs, p + i, l) - p
  {
    var hs' := [head] + hs[p + 1..];
    assert forall k :: 0 < k < |hs'| ==> hs'[k] == hs[p + k];
    NxtUnique(hs', i, l, Nxt(hs, p + i, l) - p);
  }

  /** Two positions reaching over position p on level l have the same next tower. */
  lemma NxtOver(hs: seq<nat>, i: nat, p: nat, l: nat)
    requires i <= p < |hs| && Nxt(hs, i, l) > p
    ensures Nxt(hs, p, l) == Nxt(hs, i, l)
  {
    NxtUnique(hs, p, l, Nxt(hs, i, l));
  }

  /** q is the last tower before gap p (between towers p-1 and p) that is higher than level l. */
  ghost predicate Pred(hs: seq<nat>, p: nat, l: nat, q: nat) {
    q < p <= |hs| && hs[q] > l && Nxt(hs, q, l) >= p
  }

  /** On every level that a tower behind the head reaches, q names the predecessor of gap p. */
  ghost predicate AllPreds(hs: seq<nat>, p: nat, q: seq<nat>) {
    && (forall i :: 0 < i < |hs| ==> hs[i] <= |q|)
    && (forall l :: 0 <= l < |q| ==> Pred(hs, p, l, q[l]))
  }

  lemma PredUnique(hs: seq<nat>, p: nat, l: nat, q: nat, i: nat)
    requires Pred(hs, p, l, q) && i < p && hs[i] > l && Nxt(hs, i, l) >= p
    ensures i == q
  {
  }
}

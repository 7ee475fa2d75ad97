/** Iterators over the skip list (util/algorithms/skip/iterator.go). */
module SkipIterator {
  import opened Words
  import opened SkipList

  class Iterator<T> {
    var first: bool
    var n: Node?<T>

    constructor (first: bool, n: Node?<T>)
      ensures this.first == first && this.n == n
    {
      this.first := first;
      this.n := n;
    }

    /** The iterator stands at position `at` of the list (0 is the head), or nowhere if at < 0. */
    ghost predicate At(sl: SkipList<T>, at: int)
      reads this, sl
    {
      if at < 0 then n == null else at < |sl.nodes| && n == sl.nodes[at]
    }

    method Next(ghost sl: SkipList<T>, ghost at: int) returns (more: bool, ghost at': int)
      requires sl.Structured() && At(sl, at)
      modifies this
      ensures !first && At(sl, at') && more == (at' >= 0) && sl.Structured() && sl.contents == old(sl.contents)
      ensures at' == if old(first) then (if at < 0 then -1 else at) else if 0 <= at < sl.num then at + 1 else -1
    {
      at' := if at < 0 then -1 else at;
      if first {
        first := false;
        return n != null, at';
      }
      if n == null {
        return false, at';
      }
      assert sl.PredAt(n, at, 0, at) by { GroundPred(sl, at); }
      sl.Ground(n, at, at);
      n := n.forward[0];
      at' := if at < sl.num then at + 1 else -1;
      return n != null, at';
    }

    /** `Prev` reports no value at the head, where it stops one step before nowhere. */
    method Prev(ghost sl: SkipList<T>, ghost at: int) returns (more: bool, ghost at': int)
      requires sl.Structured() && BackLinks(sl.nodes) && At(sl, at) && (first ==> at != 0)
      modifies this
      ensures !first && At(sl, at') && more == (at' > 0)
      ensures sl.Structured() && BackLinks(sl.nodes) && sl.contents == old(sl.contents)
      ensures at' == if old(first) then (if at < 0 then -1 else at) else if at > 0 then at - 1 else -1
    {
      at' := if at < 0 then -1 else at;
      if first {
        first := false;
        return n != null, at';
      }
      if n == null {
        return false, at';
      }
      assert sl.nodes[at].preNode == if at == 0 then null else sl.nodes[at - 1];
      n := n.preNode;
      at' := at - 1;
      return n != null && n.entry.Some?, at';
    }

    method Value(ghost sl: SkipList<T>, ghost at: int) returns (v: Option<T>)
      requires sl.Structured() && At(sl, at)
      ensures sl.Structured() && At(sl, at) && sl.contents == old(sl.contents)
              && (old(BackLinks(sl.nodes)) ==> BackLinks(sl.nodes))
      ensures v == if at > 0 then Some(sl.contents[at - 1]) else None
    {
      if n == null {
        return None;
      }
      return n.entry;
    }

    /** `exhaust`: from a fresh iterator at `at`, every entry from there to the end, in order. */
    method Exhaust(ghost sl: SkipList<T>, ghost at: nat) returns (entries: seq<T>)
      requires sl.Structured() && first && 1 <= at && At(sl, at)
      modifies this
      ensures entries == sl.contents[at - 1..] && n == null
    {
      entries := [];
      var more;
      ghost var cur: int := at;
      more, cur := Next(sl, cur);
      while more
        invariant !first && At(sl, cur) && more == (cur >= 0) && (more ==> at <= cur)
        invariant entries == sl.contents[at - 1..if more then cur - 1 else sl.num]
        decreases if more then sl.num + 1 - cur else 0
      {
        var v := Value(sl, cur);
        entries := entries + [v.value];
        more, cur := Next(sl, cur);
      }
    }
  }

  lemma GroundPred<T>(sl: SkipList<T>, at: nat)
    requires sl.Structured() && at < |sl.nodes|
    ensures at < TWO64 && sl.PredAt(sl.nodes[at], at, 0, at)
  {
  }

  /** `iterAtPosition` behind `IterAtPosition`: 0-based, for every uint64. */
  method IterAtPosition<T>(sl: SkipList<T>, pos: u64) returns (it: Iterator<T>, ghost at: int)
    requires sl.Valid() && sl.num + 1 < TWO64
    ensures fresh(it) && it.At(sl, at)
    ensures if pos < sl.num then it.first && at == pos + 1 else !it.first && at == -1
  {
    var n, _, _, _ := sl.SearchByPosition(Wrap(pos + 1), [], []);
    if n == null || n.entry.None? {
      it := new Iterator<T>(false, null);
      at := -1;
    } else {
      it := new Iterator<T>(true, n);
      at := pos + 1;
    }
  }

  /** `iter` behind `Iter`: the first entry not below c. */
  method Iter<T>(sl: SkipList<T>, c: T) returns (it: Iterator<T>, ghost at: int)
    requires sl.Valid() && sl.num + 1 < TWO64 && Cut(sl.cmp, sl.contents, c)
    ensures fresh(it) && it.At(sl, at)
    ensures sl.Valid() && sl.contents == old(sl.contents) && (old(BackLinks(sl.nodes)) ==> BackLinks(sl.nodes))
    ensures var k := Below(sl.cmp, sl.contents, c);
      if k < sl.num then it.first && at == k + 1 else !it.first && at == -1
  {
    var n, pos, _, _ := sl.Search(c, [], []);
    if n == null {
      it := new Iterator<T>(false, null);
      at := -1;
    } else {
      it := new Iterator<T>(true, n);
      at := pos;
    }
  }
}

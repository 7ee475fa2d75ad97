/** Sorted contents: what the skip list's operations mean when the comparison is a total
    order on the entries in use, and whole runs of inserts and deletes. */
module SkipOrder {
  import opened Words
  import opened SkipTowers
  import opened SkipList

  /** cmp behaves like a total preorder on the elements of X. */
  ghost predicate Lawful<T>(cmp: (T, T) -> int, X: set<T>) {
    && (forall x :: x in X ==> cmp(x, x) == 0)
    && (forall x, y :: x in X && y in X ==> (cmp(x, y) < 0 <==> cmp(y, x) > 0))
    && (forall x, y, z :: x in X && y in X && z in X && cmp(x, y) < 0 && cmp(y, z) < 0 ==> cmp(x, z) < 0)
    && (forall x, y, z :: x in X && y in X && z in X && cmp(x, y) == 0 ==> (cmp(x, z) < 0 <==> cmp(y, z) < 0))
  }

  ghost predicate Before<T>(cmp: (T, T) -> int, s: seq<T>, i: nat, j: nat) {
    i < |s| && j < |s| && cmp(s[i], s[j]) < 0
  }

  /** Strictly increasing; the solver uses this only where Before is mentioned. */
  ghost predicate Sorted<T>(cmp: (T, T) -> int, s: seq<T>) {
    forall i, j {:trigger Before(cmp, s, i, j)} :: 0 <= i < j < |s| ==> Before(cmp, s, i, j)
  }

  ghost function Elems<T>(s: seq<T>): set<T> {
    set x | x in s
  }

  /** What inserting c makes of s. */
  ghost function Inserting<T>(cmp: (T, T) -> int, s: seq<T>, c: T): seq<T> {
    var k := Below(cmp, s, c);
    if k < |s| && cmp(s[k], c) == 0 then s[k := c] else Inserted(s, k, c)
  }

  /** What deleting c makes of s. */
  ghost function Deleting<T>(cmp: (T, T) -> int, s: seq<T>, c: T): seq<T> {
    var k := Below(cmp, s, c);
    if k < |s| && cmp(s[k], c) == 0 then Removed(s, k) else s
  }

  /** A sorted list can be searched for any lawful entry. */
  lemma SortedCut<T>(cmp: (T, T) -> int, s: seq<T>, c: T)
    requires Sorted(cmp, s) && Lawful(cmp, Elems(s) + {c})
    ensures Cut(cmp, s, c)
    ensures var k := Below(cmp, s, c);
      (k < |s| && cmp(s[k], c) == 0 ==> forall i :: k < i < |s| ==> cmp(c, s[i]) < 0) &&
      (k == |s| || cmp(s[k], c) != 0 ==> forall i :: k <= i < |s| ==> cmp(c, s[i]) < 0)
  {
    var X := Elems(s) + {c};
    assert forall i :: 0 <= i < |s| ==> s[i] in X;
    var k := Below(cmp, s, c);
    forall i, j | 0 <= i < j < |s| && cmp(s[j], c) < 0 ensures cmp(s[i], c) < 0 {
      assert Before(cmp, s, i, j);
    }
    forall i | k < i < |s| ensures cmp(c, s[i]) < 0 {
      assert Before(cmp, s, k, i);
    }
  }

  lemma SortedAround<T>(cmp: (T, T) -> int, s: seq<T>, k: nat, c: T)
    requires Sorted(cmp, s) && k <= |s| && (forall i :: 0 <= i < k ==> cmp(s[i], c) < 0)
    ensures (forall i :: k <= i < |s| ==> cmp(c, s[i]) < 0) ==> Sorted(cmp, Inserted(s, k, c))
    ensures k < |s| && (forall i :: k < i < |s| ==> cmp(c, s[i]) < 0) ==> Sorted(cmp, s[k := c])
  {
    var r := Inserted(s, k, c);
    if forall i :: k <= i < |s| ==> cmp(c, s[i]) < 0 {
      forall i, j | 0 <= i < j < |r| ensures Before(cmp, r, i, j) {
        if i != k && j != k { assert Before(cmp, s, if i < k then i else i - 1, if j < k then j else j - 1); }
      }
    }
    if k < |s| && (forall i :: k < i < |s| ==> cmp(c, s[i]) < 0) {
      var t := s[k := c];
      forall i, j | 0 <= i < j < |t| ensures Before(cmp, t, i, j) {
        if i != k && j != k { assert Before(cmp, s, i, j); }
      }
    }
  }

  lemma SortedRemoved<T>(cmp: (T, T) -> int, s: seq<T>, k: nat)
    requires Sorted(cmp, s)
    ensures k < |s| ==> Sorted(cmp, Removed(s, k))
  {
    if k < |s| {
      forall i, j | 0 <= i < j < |s| - 1 ensures Before(cmp, Removed(s, k), i, j) {
        assert Before(cmp, s, if i < k then i else i + 1, if j < k then j else j + 1);
      }
    }
  }

  /** In a sorted list every entry except the one Below stops at differs from c. */
  lemma Unequal<T>(cmp: (T, T) -> int, s: seq<T>, c: T, i: nat)
    requires Sorted(cmp, s) && Lawful(cmp, Elems(s) + {c}) && i < |s|
    ensures var k := Below(cmp, s, c); cmp(s[i], c) == 0 <==> i == k && cmp(s[k], c) == 0
  {
    SortedCut(cmp, s, c);
    assert s[i] in Elems(s) + {c};
  }

  /** At most one entry equals c, namely the one Below stops at. */
  ghost predicate OneEqual<T>(cmp: (T, T) -> int, s: seq<T>, c: T) {
    var k := Below(cmp, s, c);
    forall i {:trigger s[i]} :: 0 <= i < |s| && i != k ==> cmp(s[i], c) != 0
  }

  lemma SortedOneEqual<T>(cmp: (T, T) -> int, s: seq<T>, c: T)
    requires Sorted(cmp, s) && Lawful(cmp, Elems(s) + {c})
    ensures OneEqual(cmp, s, c)
  {
    forall i | 0 <= i < |s| && i != Below(cmp, s, c) ensures cmp(s[i], c) != 0 {
      Unequal(cmp, s, c, i);
    }
  }

  lemma InsertingElems<T>(cmp: (T, T) -> int, s: seq<T>, c: T, x: T)
    requires OneEqual(cmp, s, c)
    ensures x in Inserting(cmp, s, c) <==> x == c || (x in s && cmp(x, c) != 0)
  {
    var k := Below(cmp, s, c);
    var r := Inserting(cmp, s, c);
    assert r[k] == c;
    if x in s {
      var i :| 0 <= i < |s| && s[i] == x;
      if cmp(x, c) != 0 { assert x == if |r| == |s| || i < k then r[i] else r[i + 1]; }
    }
    if x in r && x != c {
      var i :| 0 <= i < |r| && r[i] == x;
      var j := if |r| == |s| || i < k then i else i - 1;
      assert s[j] == x;
    }
  }

  /** Inserting keeps the list sorted and changes its set of entries as an upsert does. */
  lemma InsertingSorted<T>(cmp: (T, T) -> int, s: seq<T>, c: T)
    requires Sorted(cmp, s) && Lawful(cmp, Elems(s) + {c})
    ensures Sorted(cmp, Inserting(cmp, s, c))
    ensures forall x :: x in Inserting(cmp, s, c) <==> x == c || (x in s && cmp(x, c) != 0)
  {
    SortedCut(cmp, s, c);
    SortedAround(cmp, s, Below(cmp, s, c), c);
    SortedOneEqual(cmp, s, c);
    forall x ensures x in Inserting(cmp, s, c) <==> x == c || (x in s && cmp(x, c) != 0) {
      InsertingElems(cmp, s, c, x);
    }
  }

  lemma DeletingElems<T>(cmp: (T, T) -> int, s: seq<T>, c: T, x: T)
    requires OneEqual(cmp, s, c)
    ensures x in Deleting(cmp, s, c) <==> x in s && cmp(x, c) != 0
  {
    var k := Below(cmp, s, c);
    var r := Deleting(cmp, s, c);
    if x in s {
      var i :| 0 <= i < |s| && s[i] == x;
      if cmp(x, c) != 0 { assert x == if |r| == |s| || i < k then r[i] else r[i - 1]; }
    }
    if x in r {
      var i :| 0 <= i < |r| && r[i] == x;
      var j := if |r| == |s| || i < k then i else i + 1;
      assert s[j] == x;
    }
  }

  /** Deleting keeps the list sorted and removes exactly the entry equal to c. */
  lemma DeletingSorted<T>(cmp: (T, T) -> int, s: seq<T>, c: T)
    requires Sorted(cmp, s) && Lawful(cmp, Elems(s) + {c})
    ensures Sorted(cmp, Deleting(cmp, s, c))
    ensures forall x :: x in Deleting(cmp, s, c) <==> x in s && cmp(x, c) != 0
  {
    SortedOneEqual(cmp, s, c);
    SortedRemoved(cmp, s, Below(cmp, s, c));
    forall x ensures x in Deleting(cmp, s, c) <==> x in s && cmp(x, c) != 0 {
      DeletingElems(cmp, s, c, x);
    }
  }

  /** A stored entry is found at its own index, so position and value look-ups are inverse. */
  lemma StoredAt<T>(cmp: (T, T) -> int, s: seq<T>, p: nat)
    requires Sorted(cmp, s) && p < |s| && cmp(s[p], s[p]) == 0
    ensures Below(cmp, s, s[p]) == p
  {
    var k := Below(cmp, s, s[p]);
    if p > 0 {
      assert Before(cmp, s, if k < p then k else p - 1, p);
    }
  }

  // ---- whole runs ----

  datatype Op<T> = Ins(entry: T, height: nat) | Del(entry: T)

  /** The sorted sequence that a run of operations stands for. */
  ghost function Replay<T>(cmp: (T, T) -> int, ops: seq<Op<T>>): (s: seq<T>)
    ensures |s| <= |ops|
  {
    if ops == [] then []
    else
      Step(cmp, Replay(cmp, ops[..|ops| - 1]), ops[|ops| - 1])
  }

  ghost function Used<T>(ops: seq<Op<T>>): set<T> {
    set op | op in ops :: op.entry
  }

  lemma {:induction false} ReplaySorted<T>(cmp: (T, T) -> int, ops: seq<Op<T>>)
    requires Lawful(cmp, Used(ops))
    ensures Sorted(cmp, Replay(cmp, ops)) && Elems(Replay(cmp, ops)) <= Used(ops)
    decreases |ops|
  {
    if ops != [] {
      var rest, op := ops[..|ops| - 1], ops[|ops| - 1];
      assert Used(rest) <= Used(ops) && op.entry in Used(ops);
      LawfulLess(cmp, Used(ops), Used(rest));
      ReplaySorted(cmp, rest);
      StepSorted(cmp, Replay(cmp, rest), op, Used(ops));
    }
  }

  lemma LawfulLess<T>(cmp: (T, T) -> int, X: set<T>, Y: set<T>)
    requires Lawful(cmp, X) && Y <= X
    ensures Lawful(cmp, Y)
  {
  }

  lemma StepSorted<T>(cmp: (T, T) -> int, s: seq<T>, op: Op<T>, X: set<T>)
    requires Lawful(cmp, X) && Sorted(cmp, s) && Elems(s) <= X && op.entry in X
    ensures Sorted(cmp, Step(cmp, s, op)) && Elems(Step(cmp, s, op)) <= X
  {
    var Y := Elems(s) + {op.entry};
    LawfulLess(cmp, X, Y);
    assert Elems(Step(cmp, s, op)) <= Y by {
      if op.Ins? { InsertingSorted(cmp, s, op.entry); } else { DeletingSorted(cmp, s, op.entry); }
    }
    if op.Ins? { InsertingSorted(cmp, s, op.entry); } else { DeletingSorted(cmp, s, op.entry); }
  }

  /** The last operation on x or an entry equal to it is operation i, and it inserts x. */
  ghost predicate LastIn<T>(cmp: (T, T) -> int, ops: seq<Op<T>>, x: T, i: nat) {
    i < |ops| && ops[i].Ins? && ops[i].entry == x && forall j :: i < j < |ops| ==> cmp(x, ops[j].entry) != 0
  }

  lemma LastStep<T>(cmp: (T, T) -> int, ops: seq<Op<T>>, x: T)
    requires ops != []
    ensures var rest, op := ops[..|ops| - 1], ops[|ops| - 1];
            (exists i: nat :: LastIn(cmp, ops, x, i)) <==>
            (op.Ins? && op.entry == x) || (cmp(x, op.entry) != 0 && exists i: nat :: LastIn(cmp, rest, x, i))
  {
    var last := |ops| - 1;
    var rest, op := ops[..last], ops[last];
    forall i: nat | i < last
      ensures LastIn(cmp, ops, x, i) <==> LastIn(cmp, rest, x, i) && cmp(x, op.entry) != 0
    {
      assert forall j :: i < j < last ==> ops[j] == rest[j];
    }
    assert LastIn(cmp, ops, x, last) <==> op.Ins? && op.entry == x;
    assert forall i: nat :: LastIn(cmp, rest, x, i) ==> i < last;
  }

  lemma StepHolds<T>(cmp: (T, T) -> int, ops: seq<Op<T>>, x: T)
    requires Lawful(cmp, Used(ops)) && ops != []
    ensures var rest, op := ops[..|ops| - 1], ops[|ops| - 1];
            && Lawful(cmp, Used(rest))
            && (x in Replay(cmp, ops) <==>
                (op.Ins? && op.entry == x) || (x in Replay(cmp, rest) && cmp(x, op.entry) != 0))
  {
    var rest, op := ops[..|ops| - 1], ops[|ops| - 1];
    assert Used(rest) <= Used(ops) && op.entry in Used(ops);
    LawfulLess(cmp, Used(ops), Used(rest));
    ReplaySorted(cmp, rest);
    LawfulLess(cmp, Used(ops), Elems(Replay(cmp, rest)) + {op.entry});
    if op.Ins? {
      InsertingSorted(cmp, Replay(cmp, rest), op.entry);
    } else {
      DeletingSorted(cmp, Replay(cmp, rest), op.entry);
    }
  }

  /** After a run exactly those entries are stored that were inserted after the last operation on an
      equal one. */
  lemma {:induction false} ReplayHolds<T>(cmp: (T, T) -> int, ops: seq<Op<T>>, x: T)
    requires Lawful(cmp, Used(ops))
    ensures x in Replay(cmp, ops) <==> exists i: nat :: LastIn(cmp, ops, x, i)
    decreases |ops|
  {
    if ops != [] {
      StepHolds(cmp, ops, x);
      ReplayHolds(cmp, ops[..|ops| - 1], x);
      LastStep(cmp, ops, x);
    }
  }

  ghost function Step<T>(cmp: (T, T) -> int, s: seq<T>, op: Op<T>): seq<T> {
    if op.Ins? then Inserting(cmp, s, op.entry) else Deleting(cmp, s, op.entry)
  }

  method RunOne<T>(sl: SkipList<T>, op: Op<T>)
    requires sl.Valid() && BackLinks(sl.nodes) && Cut(sl.cmp, sl.contents, op.entry) && sl.num + 1 < TWO64
    requires op.Ins? ==> 1 <= op.height < sl.maxLevel
    modifies sl, sl.repr
    ensures sl.Valid() && BackLinks(sl.nodes) && sl.contents == Step(sl.cmp, old(sl.contents), op)
    ensures old(sl.repr) <= sl.repr && fresh(sl.repr - old(sl.repr))
  {
    if op.Ins? {
      var _ := sl.Insert(op.entry, op.height);
    } else {
      var _ := sl.Delete(op.entry);
    }
  }

  /** Any run of inserts and deletes, with any heights, on a new skip list: the list is valid,
      doubly linked, strictly sorted and holds what the run stands for. */
  method RunAll<T>(cmp: (T, T) -> int, maxLevel: nat, ops: seq<Op<T>>) returns (sl: SkipList<T>)
    requires maxLevel in {8, 16, 32, 64} && |ops| + 1 < TWO64 && Lawful(cmp, Used(ops))
    requires forall op :: op in ops && op.Ins? ==> 1 <= op.height < maxLevel
    ensures fresh(sl) && sl.Valid() && BackLinks(sl.nodes)
    ensures sl.contents == Replay(cmp, ops) && Sorted(cmp, sl.contents)
  {
    sl := new SkipList<T>(cmp, maxLevel);
    var i := 0;
    ghost var s: seq<T> := [];
    while i < |ops|
      invariant 0 <= i <= |ops| && fresh(sl) && fresh(sl.repr) && sl.cmp == cmp && sl.maxLevel == maxLevel
      invariant sl.Valid() && BackLinks(sl.nodes) && sl.contents == s
      invariant s == Replay(cmp, ops[..i])
    {
      PrefixReady(cmp, ops, i);
      RunOne(sl, ops[i]);
      s := Step(cmp, s, ops[i]);
      i := i + 1;
    }
    assert ops[..i] == ops;
    ReplaySorted(cmp, ops);
  }

  lemma PrefixReady<T>(cmp: (T, T) -> int, ops: seq<Op<T>>, i: nat)
    requires Lawful(cmp, Used(ops)) && i < |ops|
    ensures Cut(cmp, Replay(cmp, ops[..i]), ops[i].entry) && |Replay(cmp, ops[..i])| <= i
    ensures Replay(cmp, ops[..i + 1]) == Step(cmp, Replay(cmp, ops[..i]), ops[i])
  {
    assert ops[..i + 1][..i] == ops[..i];
    assert Used(ops[..i]) <= Used(ops) && ops[i].entry in Used(ops);
    ReplaySorted(cmp, ops[..i]);
    SortedCut(cmp, Replay(cmp, ops[..i]), ops[i].entry);
  }
}

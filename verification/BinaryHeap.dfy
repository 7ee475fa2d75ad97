/** The sift operations of Go's container/heap, as functions on sequences of keyed,
    timed items. The two indexed heaps of the repository run them in place. */
module BinaryHeap {
  import opened Words

  datatype Item = Item(key: u64, time: int)

  function Parent(j: nat): nat {
    if j == 0 then 0 else (j - 1) / 2
  }

  function Swapped<T>(s: seq<T>, i: nat, j: nat): (r: seq<T>)
    requires i < |s| && j < |s|
    ensures |r| == |s| && r[i] == s[j] && r[j] == s[i]
    ensures forall k :: 0 <= k < |s| && k != i && k != j ==> r[k] == s[k]
  {
    s[i := s[j]][j := s[i]]
  }

  /** `up`. */
  function Up(s: seq<Item>, j: nat): (r: seq<Item>)
    requires j < |s|
    ensures |r| == |s| && forall k :: j < k < |s| ==> r[k] == s[k]
    decreases j
  {
    var i := Parent(j);
    if i == j || !(s[j].time < s[i].time) then s else Up(Swapped(s, i, j), i)
  }

  /** The child that `down` compares with its parent i: the earlier one. */
  function Child(s: seq<Item>, i: nat, n: nat): (j: nat)
    requires 2 * i + 1 < n <= |s|
    ensures j < n && j > 0 && Parent(j) == i
  {
    if 2 * i + 2 < n && s[2 * i + 2].time < s[2 * i + 1].time then 2 * i + 2 else 2 * i + 1
  }

  /** `down` on the first n items, and where the item ends up. */
  function Down(s: seq<Item>, i: nat, n: nat): (r: (seq<Item>, nat))
    requires i < |s| && n <= |s|
    ensures |r.0| == |s| && r.1 >= i
    ensures forall k :: n <= k < |s| ==> r.0[k] == s[k]
    ensures r.1 == i ==> r.0 == s
    decreases |s| - i
  {
    if 2 * i + 1 >= n then (s, i)
    else
      var j := Child(s, i, n);
      if !(s[j].time < s[i].time) then (s, i) else Down(Swapped(s, i, j), j, n)
  }

  // ---- heap order ----

  ghost predicate Ok(s: seq<Item>, k: nat)
    requires k < |s|
  {
    s[Parent(k)].time <= s[k].time
  }

  ghost predicate IsHeap(s: seq<Item>, n: nat) {
    n <= |s| && forall k {:trigger Ok(s, k)} :: 0 < k < n ==> Ok(s, k)
  }

  /** Heap order may fail between j and its parent only; j's children respect that parent. */
  ghost predicate BadAbove(s: seq<Item>, j: nat, n: nat) {
    && n <= |s| && j < n
    && (forall k {:trigger Ok(s, k)} :: 0 < k < n && k != j ==> Ok(s, k))
    && (forall k {:trigger s[k]} :: 0 < k < n && Parent(k) == j && j > 0 ==> s[Parent(j)].time <= s[k].time)
  }

  /** Heap order may fail around i on both sides; i's children respect i's parent. */
  ghost predicate BadAround(s: seq<Item>, i: nat, n: nat) {
    && n <= |s| && i < n
    && (forall k {:trigger Ok(s, k)} :: 0 < k < n && k != i && Parent(k) != i ==> Ok(s, k))
    && (forall k {:trigger s[k]} :: 0 < k < n && Parent(k) == i && i > 0 ==> s[Parent(i)].time <= s[k].time)
  }

  lemma {:induction false} UpHeap(s: seq<Item>, j: nat, n: nat)
    requires BadAbove(s, j, n)
    ensures IsHeap(Up(s, j), n)
    decreases j
  {
    var i := Parent(j);
    if i == j || !(s[j].time < s[i].time) {
      assert j > 0 ==> Ok(s, j);
    } else {
      var r := Swapped(s, i, j);
      forall k | 0 < k < n && k != i ensures Ok(r, k) {
        assert Ok(s, k) || k == j;
      }
      forall k | 0 < k < n && Parent(k) == i && i > 0 ensures r[Parent(i)].time <= r[k].time {
        assert Ok(s, i);
        if k != j { assert Ok(s, k); }
      }
      UpHeap(r, i, n);
    }
  }

  /** After a `down` that moved, order is restored; after one that did not, only the item's
      own parent may still be later. */
  lemma {:induction false} DownHeap(s: seq<Item>, i: nat, n: nat)
    requires BadAround(s, i, n)
    ensures Down(s, i, n).1 == i ==> BadAbove(s, i, n)
    ensures Down(s, i, n).1 > i ==> IsHeap(Down(s, i, n).0, n)
    decreases |s| - i
  {
    if 2 * i + 1 < n {
      var j := Child(s, i, n);
      if s[j].time < s[i].time {
        var r := Swapped(s, i, j);
        forall k | 0 < k < n && k != j && Parent(k) != j ensures Ok(r, k) {
          assert k == i || Parent(k) == i || Ok(s, k);
        }
        forall k | 0 < k < n && Parent(k) == j && j > 0 ensures r[Parent(j)].time <= r[k].time {
          assert Ok(s, k);
        }
        DownHeap(r, j, n);
        if Down(r, j, n).1 == j { assert Ok(r, j); }
      } else {
        forall k | 0 < k < n && k != i ensures Ok(s, k) {
          if Parent(k) == i { assert k == 2 * i + 1 || k == 2 * i + 2; }
        }
      }
    } else {
      assert forall k :: 0 < k < n ==> Parent(k) != i;
    }
  }

  /** The first item of a heap is the earliest. */
  lemma {:induction false} FirstEarliest(s: seq<Item>, n: nat, k: nat)
    requires IsHeap(s, n) && k < n
    ensures s[0].time <= s[k].time
    decreases k
  {
    if k > 0 {
      assert Ok(s, k);
      FirstEarliest(s, n, Parent(k));
    }
  }

  // ---- the same items ----

  /** r is a rearrangement of s; with distinct keys this loses nothing. */
  ghost predicate SameItems(r: seq<Item>, s: seq<Item>) {
    && |r| == |s|
    && (forall x :: x in r <==> x in s)
    && (DistinctKeys(s) ==> DistinctKeys(r))
  }

  ghost function KeyAt(s: seq<Item>, k: u64): int {
    if exists i :: 0 <= i < |s| && s[i].key == k then var i :| 0 <= i < |s| && s[i].key == k; i else -1
  }

  /** No key occurs twice, stated through an inverse so that the solver can use it cheaply. */
  ghost predicate DistinctKeys(s: seq<Item>) {
    forall i {:trigger s[i]} :: 0 <= i < |s| ==> KeyAt(s, s[i].key) == i
  }

  lemma DistinctPairs(s: seq<Item>)
    ensures DistinctKeys(s) <==> forall i, j :: 0 <= i < j < |s| ==> s[i].key != s[j].key
  {
  }

  lemma SwappedSame(s: seq<Item>, i: nat, j: nat)
    requires i < |s| && j < |s|
    ensures SameItems(Swapped(s, i, j), s)
  {
    var r := Swapped(s, i, j);
    assert forall k :: 0 <= k < |s| ==> s[k] == r[if k == i then j else if k == j then i else k];
  }

  lemma {:induction false} UpSame(s: seq<Item>, j: nat)
    requires j < |s|
    ensures SameItems(Up(s, j), s)
    decreases j
  {
    var i := Parent(j);
    if !(i == j || !(s[j].time < s[i].time)) {
      SwappedSame(s, i, j);
      UpSame(Swapped(s, i, j), i);
    }
  }

  lemma {:induction false} DownSame(s: seq<Item>, i: nat, n: nat)
    requires i < |s| && n <= |s|
    ensures SameItems(Down(s, i, n).0, s)
    decreases |s| - i
  {
    if 2 * i + 1 < n {
      var j := Child(s, i, n);
      if s[j].time < s[i].time {
        SwappedSame(s, i, j);
        DownSame(Swapped(s, i, j), j, n);
      }
    }
  }

  // ---- heap.Push, heap.Remove, heap.Pop and heap.Fix ----

  function Pushed(s: seq<Item>, x: Item): seq<Item> {
    Up(s + [x], |s|)
  }

  /** All items after `Remove` has moved item i to the end, before the end is cut off. */
  function Moved(s: seq<Item>, i: nat): (r: seq<Item>)
    requires i < |s|
    ensures |r| == |s| && r[|s| - 1] == s[i]
  {
    var n := |s| - 1;
    if n == i then s
    else
      var t := Swapped(s, i, n);
      if Down(t, i, n).1 > i then Down(t, i, n).0 else Up(t, i)
  }

  /** `Pop` does what removing the first item does. */
  function MovedFirst(s: seq<Item>): (r: seq<Item>)
    requires |s| > 0
    ensures r == Moved(s, 0)
  {
    var n := |s| - 1;
    Down(Swapped(s, 0, n), 0, n).0
  }

  function Fixed(s: seq<Item>, i: nat): (r: seq<Item>)
    requires i < |s|
  {
    var d := Down(s, i, |s|);
    if d.1 > i then d.0 else Up(s, i)
  }

  ghost predicate Heap(s: seq<Item>) {
    IsHeap(s, |s|) && DistinctKeys(s)
  }

  lemma PushedHeap(s: seq<Item>, x: Item)
    requires Heap(s) && forall y :: y in s ==> y.key != x.key
    ensures Heap(Pushed(s, x)) && |Pushed(s, x)| == |s| + 1
    ensures forall y :: y in Pushed(s, x) <==> y in s || y == x
  {
    var t := s + [x];
    forall k | 0 < k < |t| && k != |s| ensures Ok(t, k) { assert Ok(s, k); }
    UpHeap(t, |s|, |t|);
    UpSame(t, |s|);
    assert forall y :: y in t <==> y in s || y == x;
    assert DistinctKeys(t);
  }

  lemma MovedHeap(s: seq<Item>, i: nat)
    requires Heap(s) && i < |s|
    ensures SameItems(Moved(s, i), s) && IsHeap(Moved(s, i), |s| - 1)
  {
    var n := |s| - 1;
    if n == i {
      forall k | 0 < k < n ensures Ok(s, k) {}
    } else {
      var t := Swapped(s, i, n);
      SwappedSame(s, i, n);
      assert BadAround(t, i, n) by {
        forall k | 0 < k < n && k != i && Parent(k) != i ensures Ok(t, k) { assert Ok(s, k); }
        forall k | 0 < k < n && Parent(k) == i && i > 0 ensures t[Parent(i)].time <= t[k].time {
          assert Ok(s, k) && Ok(s, i);
        }
      }
      DownHeap(t, i, n);
      DownSame(t, i, n);
      if Down(t, i, n).1 == i {
        UpHeap(t, i, n);
        UpSame(t, i);
      }
    }
  }

  /** Removing item i leaves a heap of exactly the other items. */
  lemma CutHeap(s: seq<Item>, i: nat)
    requires Heap(s) && i < |s|
    ensures Heap(Moved(s, i)[..|s| - 1])
    ensures forall y :: y in Moved(s, i)[..|s| - 1] <==> y in s && y != s[i]
  {
    MovedHeap(s, i);
    var r, n := Moved(s, i), |s| - 1;
    forall k | 0 < k < n ensures Ok(r[..n], k) { assert Ok(r, k); }
    forall y ensures y in r[..n] <==> y in s && y != s[i] {
      if y in s && y != s[i] {
        assert y in r;
        var k :| 0 <= k < |r| && r[k] == y;
        assert r[..n][k] == y;
      }
      if y in r[..n] {
        var k :| 0 <= k < n && r[..n][k] == y;
        assert r[k] == y && r[k].key != r[n].key;
      }
    }
  }

  /** Re-timing item i and fixing it leaves a heap of the re-timed items. */
  lemma FixedHeap(s: seq<Item>, i: nat, x: Item)
    requires Heap(s) && i < |s| && x.key == s[i].key
    ensures Heap(Fixed(s[i := x], i))
    ensures forall y :: y in Fixed(s[i := x], i) <==> y == x || (y in s && y != s[i])
  {
    var t, n := s[i := x], |s|;
    assert BadAround(t, i, n) by {
      forall k | 0 < k < n && k != i && Parent(k) != i ensures Ok(t, k) { assert Ok(s, k); }
      forall k | 0 < k < n && Parent(k) == i && i > 0 ensures t[Parent(i)].time <= t[k].time {
        assert Ok(s, k) && Ok(s, i);
      }
    }
    DownHeap(t, i, n);
    DownSame(t, i, n);
    if Down(t, i, n).1 == i {
      UpHeap(t, i, n);
      UpSame(t, i);
    }
    assert DistinctKeys(t);
    RetimedItems(s, i, x);
  }

  lemma RetimedItems(s: seq<Item>, i: nat, x: Item)
    requires DistinctKeys(s) && i < |s|
    ensures forall y :: y in s[i := x] <==> y == x || (y in s && y != s[i])
  {
    var t := s[i := x];
    assert t[i] == x;
    forall y | y in s && y != s[i] ensures y in t {
      var k :| 0 <= k < |s| && s[k] == y;
      assert t[k] == y;
    }
    forall y | y in t && y != x ensures y in s && y != s[i] {
      var k :| 0 <= k < |t| && t[k] == y;
      assert s[k] == y && s[k].key != s[i].key;
    }
  }
}

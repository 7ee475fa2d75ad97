/** The timer heap of pending RPC calls (rpc/rpctimer.go): an array ordered as a binary heap
    and a map from sequence number to array index. */
module CallTimerHeap {
  import opened Words
  import opened BinaryHeap

  /** m gives the index of every key in s, and nothing else. */
  ghost predicate Indexed(s: seq<Item>, m: map<u64, nat>) {
    && (forall i :: 0 <= i < |s| ==> s[i].key in m && m[s[i].key] == i)
    && (forall k :: k in m ==> m[k] < |s| && s[m[k]].key == k)
  }

  lemma IndexedDistinct(s: seq<Item>, m: map<u64, nat>)
    requires Indexed(s, m)
    ensures DistinctKeys(s)
  {
  }

  /** A key is indexed exactly if it belongs to an item. */
  lemma IndexedKeys(s: seq<Item>, m: map<u64, nat>)
    requires Indexed(s, m)
    ensures forall k :: k in m <==> exists x :: x in s && x.key == k
  {
  }

  class CallTimerHeap {
    var callTimer: seq<Item>
    var mapSeqIndex: map<u64, nat>

    ghost predicate Valid()
      reads this
    {
      Heap(callTimer) && Indexed(callTimer, mapSeqIndex)
    }

    constructor ()
      ensures Valid() && callTimer == []
    {
      callTimer := [];
      mapSeqIndex := map[];
    }

    method Swap(i: nat, j: nat)
      requires i < |callTimer| && j < |callTimer| && Indexed(callTimer, mapSeqIndex)
      modifies this
      ensures callTimer == Swapped(old(callTimer), i, j) && Indexed(callTimer, mapSeqIndex)
    {
      IndexedDistinct(callTimer, mapSeqIndex);
      callTimer := callTimer[i := callTimer[j]][j := callTimer[i]];
      mapSeqIndex := mapSeqIndex[callTimer[i].key := i];
      mapSeqIndex := mapSeqIndex[callTimer[j].key := j];
    }

    /** `heap.up`. */
    method SiftUp(j0: nat)
      requires j0 < |callTimer| && Indexed(callTimer, mapSeqIndex)
      modifies this
      ensures callTimer == Up(old(callTimer), j0) && Indexed(callTimer, mapSeqIndex)
    {
      var j: nat := j0;
      while true
        invariant j < |callTimer| && Indexed(callTimer, mapSeqIndex)
        invariant Up(callTimer, j) == Up(old(callTimer), j0)
        decreases j
      {
        var i := if j == 0 then 0 else (j - 1) / 2;
        if i == j || !(callTimer[j].time < callTimer[i].time) {
          break;
        }
        Swap(i, j);
        j := i;
      }
    }

    /** `heap.down` on the first n timers. */
    method SiftDown(i0: nat, n: nat) returns (moved: bool)
      requires i0 < |callTimer| && n <= |callTimer| && Indexed(callTimer, mapSeqIndex)
      modifies this
      ensures callTimer == Down(old(callTimer), i0, n).0 && moved == (Down(old(callTimer), i0, n).1 > i0)
      ensures Indexed(callTimer, mapSeqIndex)
    {
      ghost var start := callTimer;
      var i: nat := i0;
      while true
        invariant i0 <= i < |callTimer| == |start| && Indexed(callTimer, mapSeqIndex)
        invariant Down(callTimer, i, n) == Down(start, i0, n)
        decreases |callTimer| - i
      {
        var j := 2 * i + 1;
        if j >= n {
          break;
        }
        if j + 1 < n && callTimer[j + 1].time < callTimer[j].time {
          j := j + 1;
        }
        assert j == Child(callTimer, i, n);
        if !(callTimer[j].time < callTimer[i].time) {
          break;
        }
        Swap(i, j);
        i := j;
      }
      return i > i0;
    }

    /** `Pop` of the heap interface: cut off the last timer. */
    method CutLast() returns (seqId: u64)
      requires |callTimer| > 0 && Indexed(callTimer, mapSeqIndex)
      modifies this
      ensures callTimer == old(callTimer)[..|old(callTimer)| - 1] && Indexed(callTimer, mapSeqIndex)
      ensures seqId == old(callTimer)[|old(callTimer)| - 1].key
    {
      IndexedDistinct(callTimer, mapSeqIndex);
      var l := |callTimer|;
      seqId := callTimer[l - 1].key;
      callTimer := callTimer[..l - 1];
      mapSeqIndex := mapSeqIndex - {seqId};
    }

    /** `AddTimer`; now is the clock reading. */
    method AddTimer(seqId: u64, now: int, d: int)
      requires Valid() && seqId !in mapSeqIndex
      modifies this
      ensures Valid()
      ensures forall x :: x in callTimer <==> x in old(callTimer) || x == Item(seqId, now + d)
    {
      IndexedKeys(callTimer, mapSeqIndex);
      PushedHeap(callTimer, Item(seqId, now + d));
      mapSeqIndex := mapSeqIndex[seqId := |callTimer|];
      callTimer := callTimer + [Item(seqId, now + d)];
      SiftUp(|callTimer| - 1);
    }

    /** `heap.Pop`. */
    method PopMin() returns (seqId: u64, ghost x: Item)
      requires Valid() && |callTimer| > 0
      modifies this
      ensures Valid() && x in old(callTimer) && x.key == seqId
      ensures forall y :: y in callTimer <==> y in old(callTimer) && y != x
      ensures forall y :: y in old(callTimer) ==> x.time <= y.time
    {
      x := callTimer[0];
      CutHeap(callTimer, 0);
      forall y | y in callTimer ensures x.time <= y.time {
        var k :| 0 <= k < |callTimer| && callTimer[k] == y;
        FirstEarliest(callTimer, |callTimer|, k);
      }
      var n := |callTimer| - 1;
      Swap(0, n);
      var _ := SiftDown(0, n);
      seqId := CutLast();
    }

    /** `heap.Remove`. */
    method RemoveAt(i: nat)
      requires Valid() && i < |callTimer|
      modifies this
      ensures Valid() && forall y :: y in callTimer <==> y in old(callTimer) && y != old(callTimer)[i]
    {
      CutHeap(callTimer, i);
      var n := |callTimer| - 1;
      if n != i {
        Swap(i, n);
        var moved := SiftDown(i, n);
        if !moved {
          SiftUp(i);
        }
      }
      var _ := CutLast();
    }

    /** `Cancel`: remove the timer of seq, if there is one. */
    method Cancel(seq_: u64) returns (found: bool)
      requires Valid()
      modifies this
      ensures Valid() && found == (seq_ in old(mapSeqIndex))
      ensures forall y :: y in callTimer <==> y in old(callTimer) && y.key != seq_
    {
      if seq_ !in mapSeqIndex {
        return false;
      }
      KeyOwner(seq_);
      RemoveAt(mapSeqIndex[seq_]);
      return true;
    }

    lemma KeyOwner(k: u64)
      requires Valid() && k in mapSeqIndex
      ensures forall y :: y in callTimer ==> (y.key == k <==> y == callTimer[mapSeqIndex[k]])
    {
    }

    /** `PopTimeout`: the earliest timer, if it is due; 0 stands for none. */
    method PopTimeout(now: int) returns (seqId: u64, ghost x: Item, ghost popped: bool)
      requires Valid()
      modifies this
      ensures Valid()
      ensures !popped ==> seqId == 0 && callTimer == old(callTimer) && mapSeqIndex == old(mapSeqIndex)
      ensures !popped <==> forall y :: y in old(callTimer) ==> y.time > now
      ensures popped ==>
        && x in old(callTimer) && x.key == seqId && seqId in old(mapSeqIndex) && x.time <= now
        && (forall y :: y in callTimer <==> y in old(callTimer) && y != x)
        && (forall y :: y in old(callTimer) ==> x.time <= y.time)
    {
      x := Item(0, 0);
      if |callTimer| == 0 {
        return 0, x, false;
      }
      if callTimer[0].time > now {
        forall y | y in callTimer ensures y.time > now {
          var k :| 0 <= k < |callTimer| && callTimer[k] == y;
          FirstEarliest(callTimer, |callTimer|, k);
        }
        return 0, x, false;
      }
      assert callTimer[0] in callTimer;
      seqId, x := PopMin();
      popped := true;
    }

    /** `PopFirst`: the earliest timer, due or not; 0 stands for none. */
    method PopFirst() returns (seqId: u64, ghost x: Item, ghost popped: bool)
      requires Valid()
      modifies this
      ensures Valid() && (!popped <==> old(callTimer) == [])
      ensures !popped ==> seqId == 0 && callTimer == []
      ensures popped ==>
        && x in old(callTimer) && x.key == seqId && seqId in old(mapSeqIndex)
        && (forall y :: y in callTimer <==> y in old(callTimer) && y != x)
        && (forall y :: y in old(callTimer) ==> x.time <= y.time)
    {
      x := Item(0, 0);
      if |callTimer| == 0 {
        return 0, x, false;
      }
      seqId, x := PopMin();
      popped := true;
    }
  }
}

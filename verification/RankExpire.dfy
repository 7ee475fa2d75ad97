/** The expiry heap of a leaderboard (sysservice/rankservice/RankDataExpire.go): records that
    know their own array index, found through a map by key. */
module RankExpire {
  import opened Words
  import opened BinaryHeap

  class ExpireData {
    const key: u64
    var index: int
    var refreshTimestamp: int

    constructor (key: u64, refreshTimestamp: int)
      ensures this.key == key && this.refreshTimestamp == refreshTimestamp && index == 0
    {
      this.key := key;
      this.refreshTimestamp := refreshTimestamp;
      index := 0;
    }
  }

  /** The items after the first one, the front of the heap, has been popped. */
  function Popped(v: seq<Item>): seq<Item>
    requires |v| > 0
  {
    MovedFirst(v)[..|v| - 1]
  }

  /** The front of the heap, which was refreshed longest ago, has expired. */
  predicate Due(v: seq<Item>, expireMs: int, now: int) {
    |v| > 0 && v[0].time + expireMs <= now
  }

  /** The timed keys without those of a set. */
  ghost predicate Untimed(v0: seq<Item>, v: seq<Item>, out: set<u64>) {
    forall y :: y in v <==> y in v0 && y.key !in out
  }

  /** The timed keys without those of a set, and with a new time for a key. */
  ghost predicate Retimed(v0: seq<Item>, v: seq<Item>, out: set<u64>, key: u64, ts: int) {
    forall y :: y in v <==> y == Item(key, ts) || (y in v0 && y.key != key && y.key !in out)
  }

  class RankDataHeap {
    var rankDatas: seq<ExpireData>
    var mapExpireData: map<u64, ExpireData>
    const expireMs: int

    ghost var view: seq<Item>            // keys and timestamps of rankDatas
    ghost var repr: set<ExpireData>

    /** Every record stands where it says it stands. */
    ghost predicate Placed()
      reads this, repr
    {
      && |view| == |rankDatas|
      && forall i {:trigger rankDatas[i]} :: 0 <= i < |rankDatas| ==>
           && rankDatas[i] in repr && rankDatas[i].index == i
           && rankDatas[i].key == view[i].key && rankDatas[i].refreshTimestamp == view[i].time
    }

    ghost predicate Whole()
      reads this, repr
    {
      forall x :: x in repr ==> 0 <= x.index < |rankDatas| && rankDatas[x.index] == x
    }

    /** The map finds exactly the records of the array. */
    ghost predicate Mapped()
      reads this, repr
    {
      && (forall x :: x in repr ==> x.key in mapExpireData && mapExpireData[x.key] == x)
      && (forall k :: k in mapExpireData ==> mapExpireData[k] in repr && mapExpireData[k].key == k)
    }

    ghost predicate Valid()
      reads this, repr
    {
      Placed() && Whole() && Mapped() && Heap(view)
    }

    constructor (expireMs: int)
      ensures Valid() && view == [] && repr == {} && this.expireMs == expireMs
    {
      rankDatas := [];
      mapExpireData := map[];
      this.expireMs := expireMs;
      view := [];
      repr := {};
    }

    method Swap(i: nat, j: nat)
      requires Placed() && Whole() && i < |rankDatas| && j < |rankDatas|
      modifies `rankDatas, `view, repr`index
      ensures Placed() && Whole() && view == Swapped(old(view), i, j)
    {
      var a, b := rankDatas[i], rankDatas[j];
      rankDatas := rankDatas[i := b][j := a];
      view := Swapped(view, i, j);
      rankDatas[i].index, rankDatas[j].index := i, j;
    }

    /** `heap.up`. */
    method SiftUp(j0: nat)
      requires Placed() && Whole() && j0 < |rankDatas|
      modifies `rankDatas, `view, repr`index
      ensures Placed() && Whole() && view == Up(old(view), j0)
    {
      var j: nat := j0;
      while true
        invariant Placed() && Whole() && j < |rankDatas|
        invariant Up(view, j) == Up(old(view), j0)
        decreases j
      {
        var i := if j == 0 then 0 else (j - 1) / 2;
        if i == j || !(rankDatas[j].refreshTimestamp < rankDatas[i].refreshTimestamp) {
          break;
        }
        Swap(i, j);
        j := i;
      }
    }

    /** `heap.down` on the first n records. */
    method SiftDown(i0: nat, n: nat) returns (moved: bool)
      requires Placed() && Whole() && i0 < |rankDatas| && n <= |rankDatas|
      modifies `rankDatas, `view, repr`index
      ensures Placed() && Whole()
      ensures view == Down(old(view), i0, n).0 && moved == (Down(old(view), i0, n).1 > i0)
    {
      var i: nat := i0;
      while true
        invariant Placed() && Whole() && i0 <= i < |rankDatas| == |old(view)|
        invariant Down(view, i, n) == Down(old(view), i0, n)
        decreases |rankDatas| - i
      {
        var j := 2 * i + 1;
        if j >= n {
          break;
        }
        if j + 1 < n && rankDatas[j + 1].refreshTimestamp < rankDatas[j].refreshTimestamp {
          j := j + 1;
        }
        assert j == Child(view, i, n);
        if !(rankDatas[j].refreshTimestamp < rankDatas[i].refreshTimestamp) {
          break;
        }
        Swap(i, j);
        i := j;
      }
      return i > i0;
    }

    /** `Pop` of the heap interface: cut off the last record. */
    method CutLast() returns (d: ExpireData)
      requires Placed() && Whole() && |rankDatas| > 0
      modifies `rankDatas, `view, `repr, repr`index
      ensures Placed() && Whole() && view == old(view)[..|old(view)| - 1]
      ensures d == old(rankDatas[|rankDatas| - 1]) && repr == old(repr) - {d} && d.key == old(view)[|old(view)| - 1].key
      ensures d.index == -1
    {
      var l := |rankDatas|;
      d := rankDatas[l - 1];
      rankDatas := rankDatas[..l - 1];
      view := view[..l - 1];
      repr := repr - {d};
      d.index := -1;
    }

    /** The moves of `heap.Remove`: record i comes last, the others form a heap. */
    method MoveLast(i: nat)
      requires Placed() && Whole() && i < |rankDatas|
      modifies `rankDatas, `view, repr`index
      ensures Placed() && Whole() && view == Moved(old(view), i)
    {
      var n := |rankDatas| - 1;
      if n != i {
        Swap(i, n);
        var moved := SiftDown(i, n);
        if !moved {
          SiftUp(i);
        }
      }
    }

    /** `heap.Remove`. */
    method RemoveAt(i: nat) returns (d: ExpireData)
      requires Placed() && Whole() && Heap(view) && i < |rankDatas|
      modifies `rankDatas, `view, `repr, repr`index
      ensures Placed() && Whole() && Heap(view) && d == old(rankDatas[i]) && repr == old(repr) - {d}
      ensures d.index == -1
      ensures forall y :: y in view <==> y in old(view) && y != old(view)[i]
    {
      CutHeap(view, i);
      ghost var d0 := rankDatas[i];
      MoveLast(i);
      assert view[|view| - 1] == old(view)[i];
      d := CutLast();
      assert d == d0;
    }

    /** `heap.Pop`. */
    method PopMin() returns (d: ExpireData)
      requires Placed() && Whole() && Heap(view) && |rankDatas| > 0
      modifies `rankDatas, `view, `repr, repr`index
      ensures Placed() && Whole() && Heap(view) && d == old(rankDatas[0]) && repr == old(repr) - {d}
      ensures d.index == -1
      ensures view == Popped(old(view)) && forall y :: y in view <==> y in old(view) && y != old(view)[0]
    {
      CutHeap(view, 0);
      ghost var d0 := rankDatas[0];
      var n := |rankDatas| - 1;
      Swap(0, n);
      var _ := SiftDown(0, n);
      assert view == MovedFirst(old(view)) && view[n] == old(view)[0];
      d := CutLast();
      assert d == d0;
    }

    /** The record of a key is the only item with that key. */
    lemma KeyOwner(k: u64)
      requires Valid() && k in mapExpireData
      ensures var i := mapExpireData[k].index; 0 <= i < |view| && view[i].key == k
      ensures forall y :: y in view ==> (y.key == k <==> y == view[mapExpireData[k].index])
    {
    }

    lemma KeysMapped()
      requires Placed() && Whole() && Mapped()
      ensures forall k :: k in mapExpireData <==> exists y :: y in view && y.key == k
    {
      forall k | k in mapExpireData ensures exists y :: y in view && y.key == k {
        var x := mapExpireData[k];
        assert view[x.index] in view;
      }
      forall y | y in view ensures y.key in mapExpireData {
        var i :| 0 <= i < |view| && view[i] == y;
        assert rankDatas[i] in repr;
      }
    }

    /** `PushOrRefreshExpireKey`. */
    method PushOrRefresh(key: u64, ts: int)
      requires Valid()
      modifies this, repr
      ensures Valid() && old(repr) <= repr && fresh(repr - old(repr))
      ensures Retimed(old(view), view, {}, key, ts)
      ensures mapExpireData.Keys == old(mapExpireData.Keys) + {key}
    {
      if key in mapExpireData {
        Refresh(mapExpireData[key], ts);
        return;
      }
      KeysMapped();
      PushNew(key, ts);
    }

    /** `heap.Fix`. */
    method FixAt(i: nat)
      requires Placed() && Whole() && i < |rankDatas|
      modifies `rankDatas, `view, repr`index
      ensures Placed() && Whole() && view == Fixed(old(view), i)
    {
      var moved := SiftDown(i, |rankDatas|);
      if !moved {
        SiftUp(i);
      }
    }

    /** A new time for the record at index i. */
    method Retime(i: nat, ts: int)
      requires Placed() && Whole() && Mapped() && i < |rankDatas|
      modifies `view, repr`refreshTimestamp
      ensures Placed() && Whole() && Mapped() && view == old(view)[i := Item(old(view)[i].key, ts)]
    {
      rankDatas[i].refreshTimestamp := ts;
      view := view[i := Item(view[i].key, ts)];
    }

    /** The refreshing half: re-time the record and fix the heap around it. */
    method Refresh(d: ExpireData, ts: int)
      requires Valid() && d in repr
      modifies `rankDatas, `view, repr`index, repr`refreshTimestamp
      ensures Valid()
      ensures forall y :: y in view <==> y == Item(d.key, ts) || (y in old(view) && y.key != d.key)
    {
      KeyOwner(d.key);
      var i := d.index;
      FixedHeap(view, i, Item(d.key, ts));
      Retime(i, ts);
      FixAt(i);
    }

    /** The inserting half. */
    method PushNew(key: u64, ts: int)
      requires Valid() && key !in mapExpireData && forall y :: y in view ==> y.key != key
      modifies this, repr`index
      ensures Valid() && old(repr) <= repr && fresh(repr - old(repr))
      ensures forall y :: y in view <==> y == Item(key, ts) || y in old(view)
      ensures mapExpireData.Keys == old(mapExpireData.Keys) + {key}
    {
      PushedHeap(view, Item(key, ts));
      var d := new ExpireData(key, ts);
      mapExpireData := mapExpireData[key := d];
      d.index := |rankDatas|;
      rankDatas := rankDatas + [d];
      view := view + [Item(key, ts)];
      repr := repr + {d};
      SiftUp(|rankDatas| - 1);
    }

    /** `RemoveExpireKey`. */
    method RemoveExpireKey(key: u64)
      requires Valid()
      modifies this, repr`index
      ensures Valid() && repr <= old(repr)
      ensures Untimed(old(view), view, {key})
      ensures mapExpireData.Keys == old(mapExpireData.Keys) - {key}
    {
      if key !in mapExpireData {
        KeysMapped();
        return;
      }
      KeyOwner(key);
      var d := mapExpireData[key];
      mapExpireData := mapExpireData - {key};
      var _ := RemoveAt(d.index);
    }

    /** `PopExpireKey`: the record refreshed longest ago, if it has expired; 0 stands for none. */
    method PopExpireKey(now: int) returns (key: u64, ghost x: Item, ghost popped: bool)
      requires Valid()
      modifies this, repr`index
      ensures Valid() && repr <= old(repr)
      ensures popped <==> Due(old(view), expireMs, now)
      ensures popped <==> exists y :: y in old(view) && y.time + expireMs <= now
      ensures popped ==> x == old(view)[0] && view == Popped(old(view))
      ensures !popped ==> key == 0 && view == old(view) && mapExpireData == old(mapExpireData)
      ensures popped ==>
        && x in old(view) && key == x.key && x.time + expireMs <= now
        && (forall y :: y in old(view) ==> x.time <= y.time)
        && Untimed(old(view), view, {x.key})
        && key in old(mapExpireData) && mapExpireData.Keys == old(mapExpireData.Keys) - {key}
    {
      popped := false;
      x := Item(0, 0);
      if |rankDatas| <= 0 {
        return 0, x, false;
      }
      FirstOfAll();
      assert view[0] in view;
      if rankDatas[0].refreshTimestamp + expireMs > now {
        return 0, x, false;
      }
      x, popped := view[0], true;
      key := TakeFirst();
    }

    /** The front record leaves the array and the map. */
    method TakeFirst() returns (key: u64)
      requires Valid() && |rankDatas| > 0
      modifies this, repr`index
      ensures Valid() && repr <= old(repr) && view == Popped(old(view))
      ensures key == old(view)[0].key && Untimed(old(view), view, {key})
      ensures key in old(mapExpireData) && mapExpireData.Keys == old(mapExpireData.Keys) - {key}
    {
      ghost var first := view[0].key;
      assert rankDatas[0] in repr;
      KeyOwner(first);
      var d := PopMin();
      mapExpireData := mapExpireData - {d.key};
      key := d.key;
    }

    lemma FirstOfAll()
      requires Heap(view) && |view| > 0
      ensures forall y :: y in view ==> view[0].time <= y.time
    {
      forall y | y in view ensures view[0].time <= y.time {
        var k :| 0 <= k < |view| && view[k] == y;
        FirstEarliest(view, |view|, k);
      }
    }
  }
}

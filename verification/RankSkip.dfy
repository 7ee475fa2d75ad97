/** The leaderboard (sysservice/rankservice/RankSkip.go): a key map, a skip list and an expiry
    heap over the same records, and a bounded board. */
module RankSkip {
  import opened Words
  import opened SkipList
  import opened SkipOrder
  import opened BinaryHeap
  import opened RankExpire
  import opened RankOrder

  // ---- the skip list as a board ----

  /** The list holds records of one board in strictly increasing order. */
  ghost predicate Ranked(sl: SkipList<RankData>, isDes: bool, width: nat)
    reads sl, sl.repr
  {
    && sl.Valid() && sl.cmp == RankCmp(isDes) && sl.num + 2 < TWO64
    && BackLinks(sl.nodes) && Sorted(sl.cmp, sl.contents) && OneBoard(Elems(sl.contents), width)
  }

  /** A record may join the board: right length, key not taken. */
  ghost predicate Joins(s: seq<RankData>, r: RankData, width: nat) {
    |r.sortData| == width && forall x :: x in s ==> x.key != r.key
  }

  lemma JoinReady(s: seq<RankData>, r: RankData, width: nat, isDes: bool)
    requires Sorted(RankCmp(isDes), s) && OneBoard(Elems(s), width) && Joins(s, r, width)
    ensures Cut(RankCmp(isDes), s, r)
    ensures var t := Inserting(RankCmp(isDes), s, r);
      && Sorted(RankCmp(isDes), t) && |t| == |s| + 1 && Elems(t) == Elems(s) + {r} && OneBoard(Elems(t), width)
    ensures var k := Below(RankCmp(isDes), s, r); k == |s| || RankCmp(isDes)(s[k], r) != 0
  {
    var c := RankCmp(isDes);
    assert OneBoard(Elems(s) + {r}, width);
    BoardLawful(Elems(s) + {r}, width, isDes);
    SortedCut(c, s, r);
    InsertingSorted(c, s, r);
    var k := Below(c, s, r);
    if k < |s| { CompareOrder(s[k], r, r, isDes); }
    forall x | x in s ensures c(x, r) != 0 { CompareOrder(x, r, r, isDes); }
    assert Elems(Inserting(c, s, r)) == Elems(s) + {r};
  }

  lemma LeaveReady(s: seq<RankData>, r: RankData, width: nat, isDes: bool)
    requires Sorted(RankCmp(isDes), s) && OneBoard(Elems(s), width) && r in s
    ensures Cut(RankCmp(isDes), s, r)
    ensures var t := Deleting(RankCmp(isDes), s, r);
      && Sorted(RankCmp(isDes), t) && |t| == |s| - 1 && Elems(t) == Elems(s) - {r} && OneBoard(Elems(t), width)
  {
    var c := RankCmp(isDes);
    assert Elems(s) + {r} == Elems(s);
    BoardLawful(Elems(s), width, isDes);
    SortedCut(c, s, r);
    DeletingSorted(c, s, r);
    forall x | x in s ensures c(x, r) != 0 <==> x != r { CompareOrder(x, r, r, isDes); }
    assert Elems(Deleting(c, s, r)) == Elems(s) - {r};
    var p :| 0 <= p < |s| && s[p] == r;
    CompareOrder(r, r, r, isDes);
    StoredAt(c, s, p);
  }

  /** `skipList.Insert` of a record whose key is not on the board. */
  method Join(sl: SkipList<RankData>, r: RankData, height: nat, isDes: bool, ghost width: nat)
    requires Ranked(sl, isDes, width) && Joins(sl.contents, r, width) && 1 <= height < sl.maxLevel && sl.num + 3 < TWO64
    modifies sl, sl.repr
    ensures Ranked(sl, isDes, width) && sl.contents == Inserting(RankCmp(isDes), old(sl.contents), r)
    ensures Elems(sl.contents) == Elems(old(sl.contents)) + {r} && |sl.contents| == |old(sl.contents)| + 1
    ensures old(sl.repr) <= sl.repr && fresh(sl.repr - old(sl.repr))
  {
    JoinReady(sl.contents, r, width, isDes);
    var _ := sl.Insert(r, height);
  }

  /** `skipList.Delete` of a record on the board. */
  method Leave(sl: SkipList<RankData>, r: RankData, isDes: bool, ghost width: nat)
    requires Ranked(sl, isDes, width) && r in sl.contents
    modifies sl, sl.repr
    ensures Ranked(sl, isDes, width) && sl.contents == Deleting(RankCmp(isDes), old(sl.contents), r)
    ensures Elems(sl.contents) == Elems(old(sl.contents)) - {r} && |sl.contents| == |old(sl.contents)| - 1
    ensures sl.repr == old(sl.repr)
  {
    LeaveReady(sl.contents, r, width, isDes);
    var _ := sl.Delete(r);
  }

  // ---- the three indexes ----

  const MAX_PICK_EXPIRE_NUM: nat := 128

  datatype Change = Unchanged | Added | Updated

  lemma RetimedAfter(v0: seq<Item>, v1: seq<Item>, v: seq<Item>, out: set<u64>, key: u64, ts: int)
    requires Untimed(v0, v1, out) && Retimed(v1, v, {}, key, ts)
    ensures Retimed(v0, v, out, key, ts)
  {
  }

  /** Whether a new key gets onto a board, and which record makes room for it: on a full board the
      last one does, if the new vector beats it. */
  ghost predicate Decided(isDes: bool, maxLen: u64, s: seq<RankData>, sortData: seq<i64>, added: bool,
                          evicted: Option<RankData>) {
    if maxLen == 0 || |s| < maxLen then added && evicted.None?
    else
      var last := s[|s| - 1];
      added == Better(isDes, sortData, last.sortData) && evicted == (if added then Some(last) else None)
  }

  lemma SameRecord(m: map<u64, RankData>, m': map<u64, RankData>, key: u64, r: RankData)
    requires m' == m[key := r]
    ensures m' == (m - {})[key := m'[key]] && m'[key] == r
  {
    assert m - {} == m;
  }

  /** The keys of an evicted record. */
  ghost function KeyOf(evicted: Option<RankData>): set<u64> {
    if evicted.Some? then {evicted.value.key} else {}
  }

  ghost predicate Written(r: RankData, sortData: seq<i64>, data: Option<string>, ts: int)
    reads r
  {
    r.sortData == sortData && r.data == data && r.refreshTimestamp == ts
  }

  class RankSkip {
    const isDes: bool
    const maxLen: u64
    const expireMs: int
    const skipList: SkipList<RankData>
    const rankDataExpire: RankDataHeap
    var mapRankData: map<u64, RankData>
    ghost const width: nat     // the length of every sort vector on this board

    /** The key map and the list hold the same records. */
    ghost predicate MapAgrees()
      reads this, skipList
    {
      && (forall r :: r in Elems(skipList.contents) ==> r.key in mapRankData && mapRankData[r.key] == r)
      && (forall k :: k in mapRankData ==> mapRankData[k] in Elems(skipList.contents) && mapRankData[k].key == k)
    }

    ghost predicate Listed()
      reads this, skipList, skipList.repr
    {
      Ranked(skipList, isDes, width) && skipList.maxLevel in {8, 16, 32, 64} && MapAgrees()
    }

    ghost predicate Indexed()
      reads this, skipList, skipList.repr, rankDataExpire, rankDataExpire.repr
    {
      Listed() && rankDataExpire.Valid() && rankDataExpire.expireMs == expireMs
    }

    /** All three indexes agree. */
    ghost predicate Valid()
      reads this, skipList, skipList.repr, rankDataExpire, rankDataExpire.repr
    {
      Indexed() && rankDataExpire.mapExpireData.Keys == mapRankData.Keys
    }

    constructor (isDes: bool, maxLevel: nat, maxLen: u64, expireMs: int, ghost width: nat)
      requires maxLevel in {8, 16, 32, 64}
      ensures Valid() && mapRankData == map[] && skipList.contents == [] && rankDataExpire.view == []
      ensures this.isDes == isDes && this.maxLen == maxLen && this.expireMs == expireMs && this.width == width
              && skipList.maxLevel == maxLevel
      ensures fresh(skipList) && fresh(skipList.repr) && fresh(rankDataExpire) && fresh(rankDataExpire.repr)
    {
      this.isDes := isDes;
      this.maxLen := maxLen;
      this.expireMs := expireMs;
      this.width := width;
      skipList := new SkipList<RankData>(RankCmp(isDes), maxLevel);
      rankDataExpire := new RankDataHeap(expireMs);
      mapRankData := map[];
    }

    /** Take the record of a key out of the list and the map. */
    method Drop(r: RankData)
      requires Indexed() && r in skipList.contents
      modifies this, skipList, skipList.repr
      ensures Indexed() && mapRankData == old(mapRankData) - {r.key}
      ensures skipList.contents == Deleting(RankCmp(isDes), old(skipList.contents), r)
      ensures |skipList.contents| == |old(skipList.contents)| - 1 && skipList.repr == old(skipList.repr)
    {
      Unlist(r);
    }

    method Unlist(r: RankData)
      requires Listed() && r in skipList.contents
      modifies this, skipList, skipList.repr
      ensures Listed() && mapRankData == old(mapRankData) - {r.key}
      ensures skipList.contents == Deleting(RankCmp(isDes), old(skipList.contents), r)
      ensures |skipList.contents| == |old(skipList.contents)| - 1 && skipList.repr == old(skipList.repr)
    {
      assert r in Elems(skipList.contents);
      Leave(skipList, r, isDes, width);
      mapRankData := mapRankData - {r.key};
    }

    /** Put a record whose key is not on the board into the list and the map. */
    method Put(r: RankData, height: nat)
      requires Indexed() && r.key !in mapRankData && |r.sortData| == width && 1 <= height < skipList.maxLevel
      requires skipList.num + 3 < TWO64
      modifies this, skipList, skipList.repr
      ensures Indexed() && mapRankData == old(mapRankData)[r.key := r]
      ensures skipList.contents == Inserting(RankCmp(isDes), old(skipList.contents), r)
      ensures |skipList.contents| == |old(skipList.contents)| + 1
      ensures old(skipList.repr) <= skipList.repr && fresh(skipList.repr - old(skipList.repr))
    {
      assert Joins(skipList.contents, r, width) by {
        forall x | x in skipList.contents ensures x.key != r.key { assert x in Elems(skipList.contents); }
      }
      Join(skipList, r, height, isDes, width);
      mapRankData := mapRankData[r.key := r];
    }

    /** `DeleteRankData` for one key; it does not rely on the expiry heap knowing the key. */
    method DeleteOne(key: u64) returns (removed: bool)
      requires Indexed()
      modifies this, skipList, skipList.repr, rankDataExpire, rankDataExpire.repr
      ensures Indexed() && removed == (key in old(mapRankData))
      ensures mapRankData == old(mapRankData) - {key}
      ensures rankDataExpire.mapExpireData.Keys ==
              old(rankDataExpire.mapExpireData.Keys) - (if removed then {key} else {})
      ensures forall y :: y in rankDataExpire.view <==> y in old(rankDataExpire.view) && !(removed && y.key == key)
      ensures removed ==> skipList.contents == Deleting(RankCmp(isDes), old(skipList.contents), old(mapRankData)[key])
      ensures !removed ==> skipList.contents == old(skipList.contents)
      ensures skipList.repr == old(skipList.repr) && rankDataExpire.repr <= old(rankDataExpire.repr)
    {
      if key !in mapRankData {
        return false;
      }
      Drop(mapRankData[key]);
      rankDataExpire.RemoveExpireKey(key);
      return true;
    }

    /** DeleteOne on a board whose indexes agree. */
    method RemoveKey(key: u64) returns (removed: bool)
      requires Valid()
      modifies this, skipList, skipList.repr, rankDataExpire, rankDataExpire.repr
      ensures Valid() && removed == (key in old(mapRankData)) && mapRankData == old(mapRankData) - {key}
      ensures Untimed(old(rankDataExpire.view), rankDataExpire.view, {key})
      ensures |mapRankData| == |old(mapRankData)| - (if removed then 1 else 0)
      ensures skipList.repr == old(skipList.repr) && rankDataExpire.repr <= old(rankDataExpire.repr)
    {
      ghost var m := mapRankData;
      Smaller(m, key);
      ViewKeys();
      removed := DeleteOne(key);
      assert mapRankData == m - {key};
    }

    /** The first i keys have been deleted from the records m and the timed keys v, some of them present. */
    ghost predicate Deleted(m: map<u64, RankData>, v: seq<Item>, delKeys: seq<u64>, i: nat, removed: nat)
      requires i <= |delKeys|
      reads this, skipList, skipList.repr, rankDataExpire, rankDataExpire.repr
    {
      && Valid() && mapRankData == m - Elems(delKeys[..i]) && |mapRankData| == |m| - removed
      && Untimed(v, rankDataExpire.view, Elems(delKeys[..i]))
    }

    method DeleteKey(ghost m: map<u64, RankData>, ghost v: seq<Item>, delKeys: seq<u64>, i: nat, removed: nat)
      returns (more: nat)
      requires i < |delKeys| && Deleted(m, v, delKeys, i, removed)
      modifies this, skipList, skipList.repr, rankDataExpire, rankDataExpire.repr
      ensures Deleted(m, v, delKeys, i + 1, more)
      ensures skipList.repr == old(skipList.repr) && rankDataExpire.repr <= old(rankDataExpire.repr)
    {
      ghost var m1, v1 := mapRankData, rankDataExpire.view;
      var gone := RemoveKey(delKeys[i]);
      OneFewer(m, v, delKeys, i, m1, v1, mapRankData, rankDataExpire.view);
      more := if gone then removed + 1 else removed;
    }

    /** `DeleteRankData`. */
    method DeleteRankData(delKeys: seq<u64>) returns (removed: nat)
      requires Valid()
      modifies this, skipList, skipList.repr, rankDataExpire, rankDataExpire.repr
      ensures Valid() && |mapRankData| == |old(mapRankData)| - removed
      ensures mapRankData == old(mapRankData) - Elems(delKeys)
      ensures Untimed(old(rankDataExpire.view), rankDataExpire.view, Elems(delKeys))
      ensures skipList.repr == old(skipList.repr) && rankDataExpire.repr <= old(rankDataExpire.repr)
    {
      ghost var m, v := mapRankData, rankDataExpire.view;
      removed := 0;
      var i: nat := 0;
      while i < |delKeys|
        invariant i <= |delKeys| && Deleted(m, v, delKeys, i, removed)
        invariant skipList.repr == old(skipList.repr) && rankDataExpire.repr <= old(rankDataExpire.repr)
      {
        removed := DeleteKey(m, v, delKeys, i, removed);
        i := i + 1;
      }
      assert delKeys[..i] == delKeys;
    }

    /** One round of `pickExpireKey`. Key 0 doubles as "nothing expired", so the indexes stop
        agreeing exactly when the front of the expiry heap has expired and has key 0. */
    method PickOne(now: int) returns (more: bool)
      requires Valid()
      modifies this, skipList, skipList.repr, rankDataExpire, rankDataExpire.repr
      ensures Indexed()
              && (Valid() <==> !(Due(old(rankDataExpire.view), expireMs, now) && old(rankDataExpire.view)[0].key == 0))
      ensures more == (Due(old(rankDataExpire.view), expireMs, now) && old(rankDataExpire.view)[0].key != 0)
      ensures mapRankData == if more then old(mapRankData) - {old(rankDataExpire.view)[0].key} else old(mapRankData)
      ensures !more ==> skipList.contents == old(skipList.contents)
      ensures !Due(old(rankDataExpire.view), expireMs, now) ==>
        && rankDataExpire.view == old(rankDataExpire.view)
        && forall y :: y in rankDataExpire.view ==> y.time + expireMs > now
      ensures Due(old(rankDataExpire.view), expireMs, now) ==> var x := old(rankDataExpire.view)[0];
        && rankDataExpire.view == Popped(old(rankDataExpire.view))
        && (forall y :: y in old(rankDataExpire.view) ==> x.time <= y.time)
        && Untimed(old(rankDataExpire.view), rankDataExpire.view, {x.key})
      ensures skipList.repr == old(skipList.repr) && rankDataExpire.repr <= old(rankDataExpire.repr)
    {
      ghost var x, popped;
      var key;
      key, x, popped := rankDataExpire.PopExpireKey(now);
      if key == 0 {
        return false;
      }
      more := true;
      DeletePopped(key);
    }

    /** The key has left the expiry heap already. */
    method DeletePopped(key: u64)
      requires Indexed() && key in mapRankData && rankDataExpire.mapExpireData.Keys == mapRankData.Keys - {key}
      modifies this, skipList, skipList.repr
      ensures Valid() && mapRankData == old(mapRankData) - {key} && skipList.repr == old(skipList.repr)
      ensures rankDataExpire.view == old(rankDataExpire.view) && rankDataExpire.repr == old(rankDataExpire.repr)
    {
      Drop(mapRankData[key]);
    }

    method PickRound(ghost m0: map<u64, RankData>, ghost v0: seq<Item>, ghost out: seq<Item>, clock: seq<int>, i: nat)
      returns (more: bool, ghost out': seq<Item>)
      requires Valid() && Picking(m0, v0, mapRankData, rankDataExpire.view, out, expireMs, clock)
               && i == |out| < |clock|
      modifies this, skipList, skipList.repr, rankDataExpire, rankDataExpire.repr
      ensures more ==>
                Valid() && Picking(m0, v0, mapRankData, rankDataExpire.view, out', expireMs, clock) && |out'| == i + 1
      ensures !more ==> Indexed() && Picked(m0, v0, mapRankData, rankDataExpire.view, out', expireMs, clock)
      ensures Valid() <==> Unlisted(out', 0)
      ensures skipList.repr == old(skipList.repr) && rankDataExpire.repr <= old(rankDataExpire.repr)
    {
      ghost var m, v := mapRankData, rankDataExpire.view;
      more := PickOne(clock[i]);
      PickedNext(m0, v0, m, v, out, expireMs, clock, mapRankData, rankDataExpire.view);
      out' := if Due(v, expireMs, clock[i]) then out + [v[0]] else out;
    }

    /** `pickExpireKey`; clock[i] is the reading in round i.  The indexes go on agreeing if and only
        if key 0 is not among the records that the purge pops off the expiry heap. */
    method PickExpireKey(clock: seq<int>) returns (ghost out: seq<Item>)
      requires Valid() && |clock| == MAX_PICK_EXPIRE_NUM
      modifies this, skipList, skipList.repr, rankDataExpire, rankDataExpire.repr
      ensures expireMs == 0 ==>
                out == [] && mapRankData == old(mapRankData) && rankDataExpire.view == old(rankDataExpire.view)
      ensures expireMs != 0 ==> Picked(old(mapRankData), old(rankDataExpire.view), mapRankData, rankDataExpire.view,
                                       out, expireMs, clock)
      ensures Indexed() && (Valid() <==> Unlisted(out, 0))
      ensures skipList.repr == old(skipList.repr) && rankDataExpire.repr <= old(rankDataExpire.repr)
    {
      out := [];
      if expireMs == 0 {
        return;
      }
      ghost var m0, v0 := mapRankData, rankDataExpire.view;
      PickingStart(m0, v0, expireMs, clock);
      var i: nat := 0;
      while i < MAX_PICK_EXPIRE_NUM
        invariant Valid() && Picking(m0, v0, mapRankData, rankDataExpire.view, out, expireMs, clock)
                  && i == |out| <= |clock|
        invariant skipList.repr == old(skipList.repr) && rankDataExpire.repr <= old(rankDataExpire.repr)
      {
        var more;
        more, out := PickRound(m0, v0, out, clock, i);
        if !more {
          return;
        }
        i := i + 1;
      }
      PickingEnd(m0, v0, mapRankData, rankDataExpire.view, out, expireMs, clock);
    }

    /** Every timed key is the key of a record. */
    lemma ViewKeys()
      requires Valid()
      ensures forall y :: y in rankDataExpire.view ==> y.key in mapRankData
    {
      rankDataExpire.KeysMapped();
    }

    ghost function Own(key: u64): set<RankData>
      reads this
    {
      if key in mapRankData then {mapRankData[key]} else {}
    }

    /** The fields of a record that no index depends on. */
    method WriteData(r: RankData, data: Option<string>)
      requires Valid()
      modifies r`data
      ensures Valid() && r.data == data && mapRankData == old(mapRankData)
      ensures rankDataExpire.view == old(rankDataExpire.view) && rankDataExpire.repr == old(rankDataExpire.repr)
    {
      r.data := data;
    }

    method WriteRecord(r: RankData, data: Option<string>, ts: int)
      requires Valid()
      modifies r
      ensures Valid() && r.data == data && r.refreshTimestamp == ts
    {
      r.data := data;
      r.refreshTimestamp := ts;
    }

    /** Refresh the expiry of a key on the board. */
    method Touch(key: u64, ts: int)
      requires Indexed() && key in mapRankData
      requires rankDataExpire.mapExpireData.Keys + {key} == mapRankData.Keys
      modifies rankDataExpire, rankDataExpire.repr
      ensures old(rankDataExpire.repr) <= rankDataExpire.repr && fresh(rankDataExpire.repr - old(rankDataExpire.repr))
      ensures Valid() && Retimed(old(rankDataExpire.view), rankDataExpire.view, {}, key, ts)
    {
      rankDataExpire.PushOrRefresh(key, ts);
    }

    /** What every adding or changing operation does to the expiry heap. */
    method TouchRecord(r: RankData, ts: int)
      requires Indexed() && r.key in mapRankData
      requires rankDataExpire.mapExpireData.Keys + {r.key} == mapRankData.Keys
      modifies rankDataExpire, rankDataExpire.repr
      ensures Valid() && Retimed(old(rankDataExpire.view), rankDataExpire.view, {}, r.key, ts) && r.data == old(r.data)
              && r.refreshTimestamp == old(r.refreshTimestamp)
      ensures mapRankData == old(mapRankData) && skipList.contents == old(skipList.contents)
              && skipList.repr == old(skipList.repr)
      ensures old(rankDataExpire.repr) <= rankDataExpire.repr && fresh(rankDataExpire.repr - old(rankDataExpire.repr))
    {
      Touch(r.key, ts);
    }

    /** Insert a record whose key is not on the board: list, map, expiry heap. */
    method Enter(key: u64, sortData: seq<i64>, data: Option<string>, ts: int, height: nat) returns (r: RankData)
      requires Valid() && key !in mapRankData && |sortData| == width && 1 <= height < skipList.maxLevel
      requires skipList.num + 3 < TWO64
      modifies this, skipList, skipList.repr, rankDataExpire, rankDataExpire.repr
      ensures Valid() && fresh(r) && r.key == key && r.sortData == sortData && r.data == data
              && r.refreshTimestamp == ts
      ensures mapRankData == old(mapRankData)[key := r]
      ensures skipList.contents == Inserting(RankCmp(isDes), old(skipList.contents), r)
      ensures |skipList.contents| == |old(skipList.contents)| + 1
              && Retimed(old(rankDataExpire.view), rankDataExpire.view, {}, key, ts)
      ensures old(skipList.repr) <= skipList.repr && fresh(skipList.repr - old(skipList.repr))
      ensures old(rankDataExpire.repr) <= rankDataExpire.repr && fresh(rankDataExpire.repr - old(rankDataExpire.repr))
    {
      r := new RankData(key, sortData, data, ts);
      Put(r, height);
      Touch(key, ts);
    }

    /** Enter, without what it does to the order. */
    method EnterRecord(key: u64, sortData: seq<i64>, data: Option<string>, ts: int, height: nat) returns (r: RankData)
      requires Valid() && key !in mapRankData && |sortData| == width && 1 <= height < skipList.maxLevel
      requires skipList.num + 3 < TWO64
      modifies this, skipList, skipList.repr, rankDataExpire, rankDataExpire.repr
      ensures Valid() && fresh(r) && r.sortData == sortData && r.data == data && r.refreshTimestamp == ts
      ensures Retimed(old(rankDataExpire.view), rankDataExpire.view, {}, key, ts)
      ensures mapRankData == old(mapRankData)[key := r] && |skipList.contents| == |old(skipList.contents)| + 1
      ensures old(skipList.repr) <= skipList.repr && fresh(skipList.repr - old(skipList.repr))
      ensures fresh(rankDataExpire.repr - old(rankDataExpire.repr))
    {
      r := Enter(key, sortData, data, ts, height);
    }

    /** The list and map half of Replace. */
    method Reseat(key: u64, sortData: seq<i64>, data: Option<string>, ts: int, height: nat) returns (r: RankData)
      requires Indexed() && key in mapRankData && |sortData| == width && 1 <= height < skipList.maxLevel
      requires skipList.num + 3 < TWO64
      modifies this, skipList, skipList.repr
      ensures Indexed() && fresh(r) && r.key == key && r.sortData == sortData && r.data == data
              && r.refreshTimestamp == ts
      ensures mapRankData == old(mapRankData)[key := r]
      ensures skipList.contents ==
        Inserting(RankCmp(isDes), Deleting(RankCmp(isDes), old(skipList.contents), old(mapRankData)[key]), r)
      ensures |skipList.contents| == |old(skipList.contents)|
      ensures rankDataExpire.view == old(rankDataExpire.view) && rankDataExpire.repr == old(rankDataExpire.repr)
      ensures rankDataExpire.mapExpireData == old(rankDataExpire.mapExpireData)
      ensures old(skipList.repr) <= skipList.repr && fresh(skipList.repr - old(skipList.repr))
    {
      ghost var m, s := mapRankData, skipList.contents;
      Drop(mapRankData[key]);
      assert mapRankData == m - {key};
      r := new RankData(key, sortData, data, ts);
      Rebound(m, key, r);
      Put(r, height);
    }

    /** Take the record of a key out and insert a new one for it. */
    method Replace(key: u64, sortData: seq<i64>, data: Option<string>, ts: int, height: nat) returns (r: RankData)
      requires Valid() && key in mapRankData && |sortData| == width && 1 <= height < skipList.maxLevel
      requires skipList.num + 3 < TWO64
      modifies this, skipList, skipList.repr, rankDataExpire, rankDataExpire.repr
      ensures old(skipList.repr) <= skipList.repr
      ensures fresh(skipList.repr - old(skipList.repr))
      ensures fresh(r)
      ensures Valid() && r.key == key && Written(r, sortData, data, ts)
      ensures mapRankData == old(mapRankData)[key := r]
      ensures |skipList.contents| == |old(skipList.contents)|
      ensures Retimed(old(rankDataExpire.view), rankDataExpire.view, {}, key, ts)
      ensures fresh(rankDataExpire.repr - old(rankDataExpire.repr))
    {
      ghost var m, v, e := mapRankData, rankDataExpire.view, rankDataExpire.repr;
      r := Reseat(key, sortData, data, ts, height);
      TouchReseated(key, r, ts, m, v, e);
    }

    /** The expiry half of Replace. */
    method TouchReseated(key: u64, r: RankData, ts: int, ghost m: map<u64, RankData>, ghost v: seq<Item>,
                         ghost e: set<ExpireData>)
      requires Indexed() && r.key == key && key in m && mapRankData == m[key := r]
      requires rankDataExpire.mapExpireData.Keys == m.Keys && rankDataExpire.view == v && rankDataExpire.repr == e
      modifies rankDataExpire, rankDataExpire.repr
      ensures Valid() && Retimed(v, rankDataExpire.view, {}, key, ts) && mapRankData == m[key := r]
      ensures r.data == old(r.data) && r.refreshTimestamp == old(r.refreshTimestamp)
      ensures skipList.contents == old(skipList.contents) && skipList.repr == old(skipList.repr)
      ensures fresh(rankDataExpire.repr - e)
    {
      SameKeys(m, m.Keys, key, r);
      TouchRecord(r, ts);
    }

    /** `UpdateRankData`: new data for a key on the board. */
    method UpdateRankData(key: u64, data: Option<string>, now: int) returns (ok: bool)
      requires Valid()
      modifies Own(key)`data, rankDataExpire, rankDataExpire.repr
      ensures Valid() && ok == (key in mapRankData)
      ensures ok ==>
                mapRankData[key].data == data && Retimed(old(rankDataExpire.view), rankDataExpire.view, {}, key, now)
      ensures !ok ==> rankDataExpire.view == old(rankDataExpire.view)
      ensures fresh(rankDataExpire.repr - old(rankDataExpire.repr))
    {
      if key !in mapRankData {
        return false;
      }
      SelfBound(mapRankData, key);
      WriteData(mapRankData[key], data);
      TouchRecord(mapRankData[key], now);
      return true;
    }

    /** The last record on the board. */
    lemma LastRecord(s: seq<RankData>)
      requires Sorted(RankCmp(isDes), s) && OneBoard(Elems(s), width) && |s| > 0
      ensures forall r :: r in s ==> !Better(isDes, s[|s| - 1].sortData, r.sortData)
    {
      var last := s[|s| - 1];
      forall r | r in s ensures !Better(isDes, last.sortData, r.sortData) {
        var i :| 0 <= i < |s| && s[i] == r;
        LexSign(last.sortData, r.sortData);
        BetterLex(isDes, last.sortData, r.sortData);
        assert r in Elems(s) && last in Elems(s);
        if i < |s| - 1 {
          assert Before(RankCmp(isDes), s, i, |s| - 1);
        } else {
          LexOrder(r.sortData, r.sortData, r.sortData);
        }
      }
    }

    /** `checkInsertAndReplace`: make room on a full board for a strictly better vector. */
    method CheckInsertAndReplace(sortData: seq<i64>) returns (ok: bool, ghost evicted: Option<RankData>)
      requires Valid()
      modifies this, skipList, skipList.repr, rankDataExpire, rankDataExpire.repr
      ensures Valid()
      ensures mapRankData == old(mapRankData) - KeyOf(evicted)
      ensures Untimed(old(rankDataExpire.view), rankDataExpire.view, KeyOf(evicted))
      ensures |skipList.contents| == |old(skipList.contents)| - (if evicted.Some? then 1 else 0)
      ensures evicted.None? ==>
                && mapRankData == old(mapRankData) && skipList.contents == old(skipList.contents)
                && rankDataExpire.view == old(rankDataExpire.view)
      ensures Decided(isDes, maxLen, old(skipList.contents), sortData, ok, evicted)
      ensures evicted.Some? ==> skipList.contents == Deleting(RankCmp(isDes), old(skipList.contents), evicted.value)
      ensures skipList.repr == old(skipList.repr) && rankDataExpire.repr <= old(rankDataExpire.repr)
    {
      evicted := None;
      if maxLen == 0 {
        return true, evicted;
      }
      var rankLen := skipList.num;
      if maxLen > rankLen {
        return true, evicted;
      }
      ok, evicted := ReplaceLast(sortData);
    }

    /** The comparison with the last record of a full board, which makes room if it is worse. */
    method ReplaceLast(sortData: seq<i64>) returns (ok: bool, ghost evicted: Option<RankData>)
      requires Valid() && |skipList.contents| > 0
      modifies this, skipList, skipList.repr, rankDataExpire, rankDataExpire.repr
      ensures Valid()
      ensures var last := old(skipList.contents)[|old(skipList.contents)| - 1];
              ok == Better(isDes, sortData, last.sortData) && evicted == (if ok then Some(last) else None)
      ensures !ok ==>
                && mapRankData == old(mapRankData) && skipList.contents == old(skipList.contents)
                && rankDataExpire.view == old(rankDataExpire.view)
      ensures ok ==>
        && mapRankData == old(mapRankData) - {evicted.value.key}
        && Untimed(old(rankDataExpire.view), rankDataExpire.view, {evicted.value.key})
        && skipList.contents == Deleting(RankCmp(isDes), old(skipList.contents), evicted.value)
        && |skipList.contents| == |old(skipList.contents)| - 1
      ensures skipList.repr == old(skipList.repr) && rankDataExpire.repr <= old(rankDataExpire.repr)
    {
      evicted := None;
      var lastPosData := skipList.ByPosition(skipList.num - 1);
      var last := lastPosData.value;
      assert last in Elems(skipList.contents);
      LexSign(sortData, last.sortData);
      BetterLex(isDes, sortData, last.sortData);
      var moreThanFlag := CompareMoreThan(sortData, last.sortData);
      if (isDes && moreThanFlag < 0) || (!isDes && moreThanFlag > 0) || moreThanFlag == 0 {
        return false, evicted;
      }
      Evict(last);
      return true, Some(last);
    }

    /** Remove a record from all three indexes. */
    method Evict(last: RankData)
      requires Valid() && last in skipList.contents
      modifies this, skipList, skipList.repr, rankDataExpire, rankDataExpire.repr
      ensures Valid() && mapRankData == old(mapRankData) - {last.key}
      ensures Untimed(old(rankDataExpire.view), rankDataExpire.view, {last.key})
      ensures skipList.contents == Deleting(RankCmp(isDes), old(skipList.contents), last)
      ensures |skipList.contents| == |old(skipList.contents)| - 1
      ensures skipList.repr == old(skipList.repr) && rankDataExpire.repr <= old(rankDataExpire.repr)
    {
      rankDataExpire.RemoveExpireKey(last.key);
      Drop(last);
    }

    /** New data and a new time stamp for a record that keeps its place. */
    method Rewrite(r: RankData, data: Option<string>, ts: int)
      requires Valid() && r.key in mapRankData && r == mapRankData[r.key]
      modifies r, rankDataExpire, rankDataExpire.repr
      ensures Valid() && r.data == data && r.refreshTimestamp == ts
              && Retimed(old(rankDataExpire.view), rankDataExpire.view, {}, r.key, ts)
      ensures mapRankData == old(mapRankData) && skipList.contents == old(skipList.contents)
              && skipList.repr == old(skipList.repr)
      ensures old(rankDataExpire.repr) <= rankDataExpire.repr && fresh(rankDataExpire.repr - old(rankDataExpire.repr))
    {
      SelfBound(mapRankData, r.key);
      WriteRecord(r, data, ts);
      TouchRecord(r, ts);
    }

    /** `UpsetRank` for a key on the board. */
    method UpsetExisting(key: u64, sortData: seq<i64>, data: Option<string>, ts: int, height: nat) returns (r: RankData)
      requires Valid() && key in mapRankData && |sortData| == width && 1 <= height < skipList.maxLevel
      requires skipList.num + 3 < TWO64
      modifies this, skipList, skipList.repr, rankDataExpire, rankDataExpire.repr, Own(key)
      ensures Valid() && mapRankData == old(mapRankData)[key := r] && (r == old(mapRankData[key]) || fresh(r))
      ensures r.key == key
      ensures Written(r, sortData,
                      if data.None? && old(mapRankData[key]).sortData != sortData then old(mapRankData[key].data)
                      else data,
                      ts)
      ensures |skipList.contents| == |old(skipList.contents)|
              && Retimed(old(rankDataExpire.view), rankDataExpire.view, {}, key, ts)
      ensures old(skipList.repr) <= skipList.repr && fresh(skipList.repr - old(skipList.repr))
      ensures fresh(rankDataExpire.repr - old(rankDataExpire.repr))
    {
      var rankNode := mapRankData[key];
      assert rankNode.key == key;
      SelfBound(mapRankData, key);
      if rankNode.sortData == sortData {  // CompareIsEqual, which is proved to decide this
        Rewrite(rankNode, data, ts);
        return rankNode;
      }
      var newData := if data.None? then rankNode.data else data;
      r := Replace(key, sortData, newData, ts, height);
    }

    /** `UpsetRank` for a key not on the board. */
    method UpsetNew(key: u64, sortData: seq<i64>, data: Option<string>, ts: int, height: nat)
      returns (added: bool, ghost evicted: Option<RankData>)
      requires Valid() && key !in mapRankData && |sortData| == width && 1 <= height < skipList.maxLevel
      requires skipList.num + 3 < TWO64
      modifies this, skipList, skipList.repr, rankDataExpire, rankDataExpire.repr
      ensures Valid()
      ensures old(skipList.repr) <= skipList.repr && fresh(skipList.repr - old(skipList.repr))
      ensures fresh(rankDataExpire.repr - old(rankDataExpire.repr))
      ensures Decided(isDes, maxLen, old(skipList.contents), sortData, added, evicted)
      ensures added ==> key in mapRankData && Written(mapRankData[key], sortData, data, ts) && fresh(mapRankData[key])
      ensures added ==> mapRankData == (old(mapRankData) - KeyOf(evicted))[key := mapRankData[key]]
      ensures added ==> Retimed(old(rankDataExpire.view), rankDataExpire.view, KeyOf(evicted), key, ts)
      ensures added ==> |skipList.contents| == |old(skipList.contents)| + (if evicted.Some? then 0 else 1)
      ensures !added ==>
                && mapRankData == old(mapRankData) && skipList.contents == old(skipList.contents)
                && rankDataExpire.view == old(rankDataExpire.view)
    {
      ghost var m0, v0 := mapRankData, rankDataExpire.view;
      added, evicted := CheckInsertAndReplace(sortData);
      if added {
        Admit(key, sortData, data, ts, height, m0, v0, KeyOf(evicted));
      }
    }

    /** The insertion of a new key, after a key may have gone from the records m0 and the timed keys v0. */
    method Admit(key: u64, sortData: seq<i64>, data: Option<string>, ts: int, height: nat,
                 ghost m0: map<u64, RankData>, ghost v0: seq<Item>, ghost out: set<u64>)
      requires Valid() && key !in mapRankData && |sortData| == width && 1 <= height < skipList.maxLevel
      requires skipList.num + 3 < TWO64
      requires mapRankData == m0 - out && Untimed(v0, rankDataExpire.view, out)
      modifies this, skipList, skipList.repr, rankDataExpire, rankDataExpire.repr
      ensures Valid() && key in mapRankData && fresh(mapRankData[key]) && Written(mapRankData[key], sortData, data, ts)
      ensures mapRankData == (m0 - out)[key := mapRankData[key]] && Retimed(v0, rankDataExpire.view, out, key, ts)
      ensures |skipList.contents| == |old(skipList.contents)| + 1
      ensures old(skipList.repr) <= skipList.repr && fresh(skipList.repr - old(skipList.repr))
      ensures fresh(rankDataExpire.repr - old(rankDataExpire.repr))
    {
      ghost var v1 := rankDataExpire.view;
      var r := EnterRecord(key, sortData, data, ts, height);
      assert mapRankData[key] == r;
      RetimedAfter(v0, v1, rankDataExpire.view, out, key, ts);
    }

    /** `UpsetRank`.  A key on the board is updated; a new key is refused exactly when the board is
        full and its last record is not beaten, and otherwise takes the place of the last record
        of a full board. */
    method UpsetRank(key: u64, sortData: seq<i64>, data: Option<string>, ts: int, height: nat)
      returns (change: Change, ghost evicted: Option<RankData>)
      requires Valid() && |sortData| == width && 1 <= height < skipList.maxLevel && skipList.num + 3 < TWO64
      modifies this, skipList, skipList.repr, rankDataExpire, rankDataExpire.repr, Own(key)
      ensures Valid()
      ensures old(skipList.repr) <= skipList.repr && fresh(skipList.repr - old(skipList.repr))
      ensures fresh(rankDataExpire.repr - old(rankDataExpire.repr))
      ensures change == Updated <==> key in old(mapRankData)
      ensures change == Updated ==> evicted.None? && |skipList.contents| == |old(skipList.contents)|
      ensures change != Updated ==> Decided(isDes, maxLen, old(skipList.contents), sortData, change == Added, evicted)
      ensures change == Added ==> |skipList.contents| == |old(skipList.contents)| + (if evicted.Some? then 0 else 1)
      ensures change != Unchanged ==> key in mapRankData
      ensures change == Added ==> Written(mapRankData[key], sortData, data, ts) && fresh(mapRankData[key])
      ensures change == Updated ==>
        && Written(mapRankData[key], sortData,
                   if data.None? && old(mapRankData[key]).sortData != sortData then old(mapRankData[key].data)
                   else data,
                   ts)
        && (mapRankData[key] == old(mapRankData[key]) || fresh(mapRankData[key]))
      ensures change != Unchanged ==> mapRankData == (old(mapRankData) - KeyOf(evicted))[key := mapRankData[key]]
      ensures change != Unchanged ==> Retimed(old(rankDataExpire.view), rankDataExpire.view, KeyOf(evicted), key, ts)
      ensures change == Unchanged ==>
                && mapRankData == old(mapRankData) && skipList.contents == old(skipList.contents)
                && rankDataExpire.view == old(rankDataExpire.view)
      ensures maxLen != 0 && |old(skipList.contents)| <= maxLen ==> |skipList.contents| <= maxLen
    {
      ghost var m0 := mapRankData;
      if key in mapRankData {
        var r := UpsetExisting(key, sortData, data, ts, height);
        SameRecord(m0, mapRankData, key, r);
        return Updated, None;
      }
      var added;
      added, evicted := UpsetNew(key, sortData, data, ts, height);
      change := if added then Added else Unchanged;
    }

    /** `InsertDataOnNonExistent`: no bound is checked here. */
    method InsertDataOnNonExistent(change: IncreaseRankData, now: int, height: nat) returns (ok: bool)
      requires Valid() && change.key !in mapRankData && change.Positions()
      requires change.insertOnNonExistent ==> |change.initSortData| == width
      requires 1 <= height < skipList.maxLevel && skipList.num + 3 < TWO64
      modifies this, skipList, skipList.repr, rankDataExpire, rankDataExpire.repr
      ensures Valid() && ok == (change.insertOnNonExistent && InRange(change.sets, width))
      ensures !ok ==>
                && mapRankData == old(mapRankData) && skipList.contents == old(skipList.contents)
                && rankDataExpire.view == old(rankDataExpire.view)
      ensures ok ==> change.key in mapRankData && mapRankData == old(mapRankData)[change.key := mapRankData[change.key]]
      ensures ok ==> Written(mapRankData[change.key], NewVector(change.initSortData, change), change.initData, now)
      ensures ok ==> Retimed(old(rankDataExpire.view), rankDataExpire.view, {}, change.key, now)
      ensures ok ==> fresh(mapRankData[change.key])
      ensures fresh(skipList.repr - old(skipList.repr)) && fresh(rankDataExpire.repr - old(rankDataExpire.repr))
    {
      if !change.insertOnNonExistent {
        return false;
      }
      var sortData := Increase(change.initSortData, change.increase);
      var fits;
      sortData, fits := SetOrRefuse(sortData, change.sets);
      if !fits {
        return false;
      }
      NewVectorLength(change.initSortData, change);
      var r := Enter(change.key, sortData, change.initData, now, height);
      return true;
    }

    /** `ChangeExtendData`: a record whose vector may change is taken out and put back. */
    method ChangeExtendData(change: IncreaseRankData, now: int, height: nat) returns (ok: bool)
      requires Valid() && change.Positions()
      requires change.insertOnNonExistent && change.key !in mapRankData ==> |change.initSortData| == width
      requires 1 <= height < skipList.maxLevel && skipList.num + 3 < TWO64
      modifies this, skipList, skipList.repr, rankDataExpire, rankDataExpire.repr
      ensures Valid()
      ensures change.key in old(mapRankData) ==> ok
      ensures change.key !in old(mapRankData) ==> ok == (change.insertOnNonExistent && InRange(change.sets, width))
      ensures ok ==>
                change.key in mapRankData && Retimed(old(rankDataExpire.view), rankDataExpire.view, {}, change.key, now)
      ensures ok ==> mapRankData == old(mapRankData)[change.key := mapRankData[change.key]]
      ensures ok ==>
        var before := if change.key in old(mapRankData) then old(mapRankData)[change.key].sortData
                      else change.initSortData;
        mapRankData[change.key].sortData == NewVector(before, change)
      ensures ok ==>
        mapRankData[change.key].data == if change.key in old(mapRankData) then old(mapRankData[change.key].data)
                                        else change.initData
      ensures !ok ==>
                && mapRankData == old(mapRankData) && skipList.contents == old(skipList.contents)
                && rankDataExpire.view == old(rankDataExpire.view)
      ensures ok ==> fresh(mapRankData[change.key]) || mapRankData[change.key] in old(mapRankData.Values)
      ensures fresh(skipList.repr - old(skipList.repr)) && fresh(rankDataExpire.repr - old(rankDataExpire.repr))
    {
      if change.key !in mapRankData {
        ok := InsertDataOnNonExistent(change, now, height);
        return;
      }
      ghost var m := mapRankData;
      SelfBound(m, change.key);
      var rankNode := mapRankData[change.key];
      NewVectorLength(rankNode.sortData, change);
      if Changes(rankNode.sortData, change) {
        var r := Replace(change.key, NewVector(rankNode.sortData, change), rankNode.data, now, height);
      } else {
        Unchanging(rankNode.sortData, change);
        TouchRecord(rankNode, now);
      }
      return true;
    }
  }

  // ---- vectors of change requests ----

  /** One entry of SetSortAndExtendData. */
  datatype SetData = SetData(isSort: bool, pos: int, data: i64)

  datatype IncreaseRankData = IncreaseRankData(key: u64, increase: seq<i64>, sets: seq<SetData>,
                                               insertOnNonExistent: bool, initData: Option<string>,
                                               initSortData: seq<i64>)
  {
    /** A negative position would crash the service. */
    ghost predicate Positions() {
      forall i :: 0 <= i < |sets| ==> sets[i].pos >= 0
    }
  }

  ghost predicate InRange(sets: seq<SetData>, width: nat) {
    forall i :: 0 <= i < |sets| && sets[i].isSort ==> sets[i].pos < width
  }

  function Increased(v: seq<i64>, inc: seq<i64>): (r: seq<i64>)
    ensures |r| == |v|
    ensures forall i :: 0 <= i < |v| ==> r[i] == if i < |inc| then Signed((v[i] as int) + (inc[i] as int)) else v[i]
  {
    seq(|v|, i requires 0 <= i < |v| => if i < |inc| then Signed((v[i] as int) + (inc[i] as int)) else v[i])
  }

  function Overwritten(v: seq<i64>, sets: seq<SetData>): (r: seq<i64>)
    ensures |r| == |v|
    ensures (forall i :: 0 <= i < |sets| ==> !sets[i].isSort) ==> r == v
    decreases |sets|
  {
    if sets == [] then v
    else
      var w := Overwritten(v, sets[..|sets| - 1]);
      var d := sets[|sets| - 1];
      if d.isSort && 0 <= d.pos < |w| then w[d.pos := d.data] else w
  }

  function NewVector(v: seq<i64>, change: IncreaseRankData): seq<i64> {
    Overwritten(Increased(v, change.increase), change.sets)
  }

  /** The loop that adds the increases. */
  method Increase(v: seq<i64>, inc: seq<i64>) returns (r: seq<i64>)
    ensures r == Increased(v, inc)
  {
    r := v;
    for i := 0 to Min(|inc|, |v|)
      invariant |r| == |v|
      invariant forall j :: 0 <= j < |v| ==> r[j] == if j < i then Increased(v, inc)[j] else v[j]
    {
      r := r[i := Signed((r[i] as int) + (inc[i] as int))];
    }
  }

  /** The loop that sets positions of a record to be inserted: one past the end refuses the record. */
  method SetOrRefuse(v: seq<i64>, sets: seq<SetData>) returns (r: seq<i64>, ok: bool)
    requires forall i :: 0 <= i < |sets| ==> sets[i].pos >= 0
    ensures ok <==> InRange(sets, |v|)
    ensures ok ==> r == Overwritten(v, sets)
  {
    r := v;
    for i := 0 to |sets|
      invariant |r| == |v| && r == Overwritten(v, sets[..i])
      invariant forall j :: 0 <= j < i && sets[j].isSort ==> sets[j].pos < |v|
    {
      var d := sets[i];
      if d.isSort {
        if d.pos >= |r| {
          return r, false;
        }
        r := r[d.pos := d.data];
      }
      assert sets[..i + 1][..i] == sets[..i];
    }
    assert sets[..|sets|] == sets;
    ok := true;
  }

  /** Set request number k writes position i. */
  predicate SetsAt(sets: seq<SetData>, k: int, i: int) {
    0 <= k < |sets| && sets[k].isSort && sets[k].pos == i
  }

  /** The value at a position is that of the last set request for it, or the old one increased with
      int64 wrap-around where there is none. */
  lemma {:induction false} NewVectorAt(v: seq<i64>, change: IncreaseRankData, i: nat)
    requires i < |v|
    ensures |NewVector(v, change)| == |v|
    ensures forall k {:trigger SetsAt(change.sets, k, i)} ::
              SetsAt(change.sets, k, i) && (forall l :: k < l < |change.sets| ==> !SetsAt(change.sets, l, i)) ==>
              NewVector(v, change)[i] == change.sets[k].data
    ensures (forall k :: !SetsAt(change.sets, k, i)) ==>
              var more := (v[i] as int) + if i < |change.increase| then change.increase[i] as int else 0;
              (NewVector(v, change)[i] as int - more) % TWO64 == 0
  {
    OverwrittenAt(Increased(v, change.increase), change.sets, i);
    assert (v[i] as int) % TWO64 == (v[i] as int) % TWO64;
  }

  lemma {:induction false} OverwrittenAt(v: seq<i64>, sets: seq<SetData>, i: nat)
    requires i < |v|
    ensures forall k {:trigger SetsAt(sets, k, i)} ::
              SetsAt(sets, k, i) && (forall l :: k < l < |sets| ==> !SetsAt(sets, l, i)) ==>
              Overwritten(v, sets)[i] == sets[k].data
    ensures (forall k :: !SetsAt(sets, k, i)) ==> Overwritten(v, sets)[i] == v[i]
    decreases |sets|
  {
    if sets != [] {
      var last := |sets| - 1;
      var front := sets[..last];
      OverwrittenAt(v, front, i);
      if !SetsAt(sets, last, i) {
        forall k | SetsAt(sets, k, i) && (forall l :: k < l < |sets| ==> !SetsAt(sets, l, i))
          ensures Overwritten(v, sets)[i] == sets[k].data
        {
          assert SetsAt(front, k, i);
          forall l | k < l < |front|
            ensures !SetsAt(front, l, i)
          {
            assert !SetsAt(sets, l, i);
          }
        }
        if forall k :: !SetsAt(sets, k, i) {
          forall k
            ensures !SetsAt(front, k, i)
          {
            assert !SetsAt(sets, k, i);
          }
        }
      }
    }
  }

  lemma NewVectorLength(v: seq<i64>, change: IncreaseRankData)
    ensures |NewVector(v, change)| == |v|
  {
  }

  /** The test for a change that `ChangeExtendData` makes first. */
  predicate Changes(v: seq<i64>, change: IncreaseRankData) {
    || (exists i :: 0 <= i < |change.increase| && i < |v| && change.increase[i] != 0)
    || (exists i :: 0 <= i < |change.sets| && change.sets[i].isSort)
  }

  /** The test misses no change of the vector. */
  lemma Unchanging(v: seq<i64>, change: IncreaseRankData)
    requires !Changes(v, change)
    ensures NewVector(v, change) == v
  {
    assert Increased(v, change.increase) == v;
  }

  /** What the rounds of a purge from the i-th on pop off the expiry heap: its front while that has
      expired, up to a key 0, which ends the purge. */
  ghost function Popping(v: seq<Item>, expireMs: int, clock: seq<int>, i: nat): seq<Item>
    decreases |clock| - i
  {
    if i >= |clock| || !Due(v, expireMs, clock[i]) then []
    else if v[0].key == 0 then [v[0]]
    else [v[0]] + Popping(Popped(v), expireMs, clock, i + 1)
  }

  /** From keys m0 and timed keys v0 to m and v, the records `out` were popped: each had expired by
      its clock reading, and they went in the order of their last refresh; exactly they have left
      the expiry heap, and all of them but key 0 the board. */
  ghost predicate Purged(m0: map<u64, RankData>, v0: seq<Item>, m: map<u64, RankData>, v: seq<Item>,
                         out: seq<Item>, expireMs: int, clock: seq<int>)
  {
    PurgedInOrder(v0, v, out, expireMs, clock) && PurgedExactly(m0, v0, m, v, out)
  }

  ghost predicate PurgedInOrder(v0: seq<Item>, v: seq<Item>, out: seq<Item>, expireMs: int, clock: seq<int>) {
    && |out| <= |clock| && (forall i :: 0 <= i < |out| ==> out[i] in v0 && out[i].time + expireMs <= clock[i])
    && (forall i, j :: 0 <= i < j < |out| ==> out[i].time <= out[j].time)
    && (out != [] ==> forall y :: y in v ==> out[|out| - 1].time <= y.time)
  }

  ghost predicate PurgedExactly(m0: map<u64, RankData>, v0: seq<Item>, m: map<u64, RankData>, v: seq<Item>,
                                out: seq<Item>) {
    && (forall y :: y in v <==> y in v0 && Unlisted(out, y.key))
    && (forall k :: k in m <==> k in m0 && (k == 0 || Unlisted(out, k)))
    && (forall k :: k in m ==> m[k] == m0[k])
  }

  ghost predicate Unlisted(out: seq<Item>, k: u64) {
    forall i :: 0 <= i < |out| ==> out[i].key != k
  }

  lemma UnlistedMore(out: seq<Item>, x: Item)
    ensures forall k :: Unlisted(out + [x], k) <==> Unlisted(out, k) && k != x.key
  {
    forall k ensures Unlisted(out + [x], k) <==> Unlisted(out, k) && k != x.key {
      var o := out + [x];
      assert o[|out|] == x && forall i :: 0 <= i < |out| ==> o[i] == out[i];
    }
  }

  lemma PurgedMore(m0: map<u64, RankData>, v0: seq<Item>, m: map<u64, RankData>, v: seq<Item>,
                   out: seq<Item>, expireMs: int, clock: seq<int>, x: Item, v': seq<Item>)
    requires Purged(m0, v0, m, v, out, expireMs, clock) && |out| < |clock|
    requires x in v && x.time + expireMs <= clock[|out|] && (forall y :: y in v ==> x.time <= y.time)
    requires forall y :: y in v' <==> y in v && y.key != x.key
    ensures Purged(m0, v0, if x.key == 0 then m else m - {x.key}, v', out + [x], expireMs, clock)
  {
    assert x in v0;
    InOrderMore(v0, v, out, expireMs, clock, x, v');
    ExactlyMore(m0, v0, m, v, out, x, v');
  }

  lemma InOrderMore(v0: seq<Item>, v: seq<Item>, out: seq<Item>, expireMs: int, clock: seq<int>, x: Item, v': seq<Item>)
    requires PurgedInOrder(v0, v, out, expireMs, clock) && |out| < |clock|
    requires x in v && x in v0 && x.time + expireMs <= clock[|out|] && (forall y :: y in v ==> x.time <= y.time)
    requires forall y :: y in v' ==> y in v
    ensures PurgedInOrder(v0, v', out + [x], expireMs, clock)
  {
  }

  lemma ExactlyMore(m0: map<u64, RankData>, v0: seq<Item>, m: map<u64, RankData>, v: seq<Item>, out: seq<Item>, x: Item,
                    v': seq<Item>)
    requires PurgedExactly(m0, v0, m, v, out) && forall y :: y in v' <==> y in v && y.key != x.key
    ensures PurgedExactly(m0, v0, if x.key == 0 then m else m - {x.key}, v', out + [x])
  {
    UnlistedMore(out, x);
  }

  /** A purge that has popped `out` so far and goes on. */
  ghost predicate Picking(m0: map<u64, RankData>, v0: seq<Item>, m: map<u64, RankData>, v: seq<Item>,
                          out: seq<Item>, expireMs: int, clock: seq<int>)
  {
    && Purged(m0, v0, m, v, out, expireMs, clock) && Unlisted(out, 0)
    && Popping(v0, expireMs, clock, 0) == out + Popping(v, expireMs, clock, |out|)
  }

  /** A purge that is over: unless it met key 0 or used up its rounds, nothing expired is left. */
  ghost predicate Picked(m0: map<u64, RankData>, v0: seq<Item>, m: map<u64, RankData>, v: seq<Item>,
                         out: seq<Item>, expireMs: int, clock: seq<int>)
  {
    && Purged(m0, v0, m, v, out, expireMs, clock) && out == Popping(v0, expireMs, clock, 0)
    && (Unlisted(out, 0) && |out| < |clock| ==> forall y :: y in v ==> y.time + expireMs > clock[|out|])
  }

  lemma PickingStart(m: map<u64, RankData>, v: seq<Item>, expireMs: int, clock: seq<int>)
    ensures Picking(m, v, m, v, [], expireMs, clock)
  {
  }

  lemma PickingEnd(m0: map<u64, RankData>, v0: seq<Item>, m: map<u64, RankData>, v: seq<Item>,
                   out: seq<Item>, expireMs: int, clock: seq<int>)
    requires Picking(m0, v0, m, v, out, expireMs, clock) && |out| == |clock|
    ensures Picked(m0, v0, m, v, out, expireMs, clock)
  {
  }

  lemma PoppingNext(v0: seq<Item>, v: seq<Item>, out: seq<Item>, expireMs: int, clock: seq<int>)
    requires Popping(v0, expireMs, clock, 0) == out + Popping(v, expireMs, clock, |out|)
    requires |out| < |clock| && Due(v, expireMs, clock[|out|])
    ensures Popping(v0, expireMs, clock, 0) ==
      out + [v[0]] + if v[0].key == 0 then [] else Popping(Popped(v), expireMs, clock, |out| + 1)
  {
    if v[0].key == 0 {
      assert out + [v[0]] + [] == out + [v[0]];
    } else {
      var rest := Popping(Popped(v), expireMs, clock, |out| + 1);
      assert out + ([v[0]] + rest) == out + [v[0]] + rest;
    }
  }

  lemma UnlistedAt(out: seq<Item>, x: Item, k: u64)
    ensures Unlisted(out + [x], k) <==> Unlisted(out, k) && k != x.key
  {
    UnlistedMore(out, x);
  }

  /** The state after a round in which the front of the expiry heap was due. */
  ghost predicate AfterDue(m: map<u64, RankData>, v: seq<Item>, m': map<u64, RankData>, v': seq<Item>)
    requires |v| > 0
  {
    && v' == Popped(v) && (forall y :: y in v ==> v[0].time <= y.time)
    && (forall y :: y in v' <==> y in v && y.key != v[0].key)
    && m' == if v[0].key == 0 then m else m - {v[0].key}
  }

  lemma PickedDue(m0: map<u64, RankData>, v0: seq<Item>, m: map<u64, RankData>, v: seq<Item>,
                  out: seq<Item>, expireMs: int, clock: seq<int>, m': map<u64, RankData>, v': seq<Item>)
    requires Picking(m0, v0, m, v, out, expireMs, clock) && |out| < |clock|
    requires Due(v, expireMs, clock[|out|]) && AfterDue(m, v, m', v')
    ensures Purged(m0, v0, m', v', out + [v[0]], expireMs, clock)
    ensures Unlisted(out + [v[0]], 0) <==> v[0].key != 0
    ensures Popping(v0, expireMs, clock, 0) ==
      out + [v[0]] + if v[0].key == 0 then [] else Popping(v', expireMs, clock, |out| + 1)
  {
    PurgedMore(m0, v0, m, v, out, expireMs, clock, v[0], v');
    UnlistedAt(out, v[0], 0);
    PoppingNext(v0, v, out, expireMs, clock);
  }

  lemma PickedNext(m0: map<u64, RankData>, v0: seq<Item>, m: map<u64, RankData>, v: seq<Item>,
                   out: seq<Item>, expireMs: int, clock: seq<int>, m': map<u64, RankData>, v': seq<Item>)
    requires Picking(m0, v0, m, v, out, expireMs, clock) && |out| < |clock|
    requires Due(v, expireMs, clock[|out|]) ==> AfterDue(m, v, m', v')
    requires !Due(v, expireMs, clock[|out|]) ==>
               v' == v && m' == m && forall y :: y in v ==> y.time + expireMs > clock[|out|]
    ensures if !Due(v, expireMs, clock[|out|]) then Picked(m0, v0, m', v', out, expireMs, clock)
            else if v[0].key == 0 then
              Picked(m0, v0, m', v', out + [v[0]], expireMs, clock) && !Unlisted(out + [v[0]], 0)
            else Picking(m0, v0, m', v', out + [v[0]], expireMs, clock)
  {
    if Due(v, expireMs, clock[|out|]) {
      PickedDue(m0, v0, m, v, out, expireMs, clock, m', v');
      assert out + [v[0]] + [] == out + [v[0]];
    } else {
      assert out + [] == out;
    }
  }

  /** On a board without key 0 no purge meets it. */
  lemma NoZeroKey(m0: map<u64, RankData>, v0: seq<Item>, m: map<u64, RankData>, v: seq<Item>,
                  out: seq<Item>, expireMs: int, clock: seq<int>)
    requires Purged(m0, v0, m, v, out, expireMs, clock) && (forall y :: y in v0 ==> y.key in m0) && 0 !in m0
    ensures Unlisted(out, 0)
  {
  }

  lemma OneFewer(m0: map<u64, RankData>, v0: seq<Item>, keys: seq<u64>, i: nat,
                 m: map<u64, RankData>, v: seq<Item>, m': map<u64, RankData>, v': seq<Item>)
    requires i < |keys| && m == m0 - Elems(keys[..i]) && Untimed(v0, v, Elems(keys[..i]))
    requires m' == m - {keys[i]} && Untimed(v, v', {keys[i]})
    ensures m' == m0 - Elems(keys[..i + 1]) && Untimed(v0, v', Elems(keys[..i + 1]))
  {
    assert keys[..i + 1] == keys[..i] + [keys[i]];
    assert Elems(keys[..i + 1]) == Elems(keys[..i]) + {keys[i]};
  }

  lemma SameKeys(m: map<u64, RankData>, keys: set<u64>, k: u64, r: RankData)
    requires k in m && keys == m.Keys
    ensures k in m[k := r] && keys + {k} == m[k := r].Keys
  {
  }

  lemma SelfBound(m: map<u64, RankData>, k: u64)
    requires k in m
    ensures m[k := m[k]] == m && m.Keys + {k} == m.Keys
  {
  }

  lemma Rebound(m: map<u64, RankData>, k: u64, r: RankData)
    ensures (m - {k})[k := r] == m[k := r]
  {
  }

  lemma Smaller(m: map<u64, RankData>, k: u64)
    ensures |m - {k}| == |m| - (if k in m then 1 else 0)
  {
    assert (m - {k}).Keys == m.Keys - {k};
    assert |(m - {k}).Keys| == |m.Keys| - (if k in m then 1 else 0);
  }
}

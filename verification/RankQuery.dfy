/** Rank queries (sysservice/rankservice/RankSkip.go). */
module RankQuery {
  import opened Words
  import opened SkipList
  import opened SkipOrder
  import opened SkipIterator
  import opened BinaryHeap
  import opened RankOrder
  import opened RankExpire
  import opened RankSkip

  /** One entry of the answer: a record and its 1-based rank. */
  datatype RankPos = RankPos(record: RankData, rank: int)

  /** The 0-based place of the record of a key. */
  ghost predicate StandsAt(rs: RankSkip, key: u64, p: nat)
    reads rs, rs.skipList
  {
    p < |rs.skipList.contents| && key in rs.mapRankData && rs.skipList.contents[p] == rs.mapRankData[key]
  }

  /** Every key on the board stands at one place, and a search for its record finds it there. */
  lemma PlaceOf(rs: RankSkip, key: u64) returns (p: nat)
    requires rs.Indexed() && key in rs.mapRankData
    ensures StandsAt(rs, key, p) && Found(rs, key, p)
  {
    var s, r := rs.skipList.contents, rs.mapRankData[key];
    assert r in Elems(s);
    p :| 0 <= p < |s| && s[p] == r;
    LeaveReady(s, r, rs.width, rs.isDes);
    StoredAt(rs.skipList.cmp, s, p);
  }

  /** What a purge has done: with an expiry time it has popped the records `out`, and otherwise nothing. */
  ghost predicate AfterPurge(expireMs: int, m: map<u64, RankData>, v: seq<Item>, m': map<u64, RankData>, v': seq<Item>,
                             clock: seq<int>, out: seq<Item>)
  {
    if expireMs == 0 then out == [] && m' == m && v' == v else Picked(m, v, m', v', out, expireMs, clock)
  }

  method Purge(rs: RankSkip, clock: seq<int>) returns (ghost out: seq<Item>)
    requires rs.Valid() && |clock| == MAX_PICK_EXPIRE_NUM
    modifies rs, rs.skipList, rs.skipList.repr, rs.rankDataExpire, rs.rankDataExpire.repr
    ensures rs.Indexed() && (rs.Valid() <==> Unlisted(out, 0))
    ensures AfterPurge(rs.expireMs, old(rs.mapRankData), old(rs.rankDataExpire.view), rs.mapRankData,
                       rs.rankDataExpire.view, clock, out)
    ensures forall k :: k in rs.mapRankData ==> k in old(rs.mapRankData) && rs.mapRankData[k] == old(rs.mapRankData)[k]
  {
    out := rs.PickExpireKey(clock);
  }

  /** One more than the number of records before the given one. */
  ghost function RankIn(isDes: bool, s: seq<RankData>, r: RankData): int {
    Below(RankCmp(isDes), s, r) + 1
  }

  /** For a key on the board that is its place. */
  lemma RankIsPlace(rs: RankSkip, key: u64)
    requires rs.Indexed() && key in rs.mapRankData
    ensures var rank := RankIn(rs.isDes, rs.skipList.contents, rs.mapRankData[key]);
            rank >= 1 && StandsAt(rs, key, rank - 1)
  {
    var p := PlaceOf(rs, key);
  }

  /** A record that was released and reset. */
  ghost predicate Blank(r: RankData)
    reads r
  {
    r.key == 0 && r.sortData == [] && r.data == None && r.refreshTimestamp == 0
  }

  /** A blank record compares equal to no other key by its vector, so its key 0 puts it before all
      others in the ascending mode and behind them in the descending one. */
  lemma BlankCut(isDes: bool, s: seq<RankData>, r: RankData)
    requires r.key == 0 && r.sortData == [] && (isDes ==> forall x :: x in s ==> x.key != 0)
    ensures Cut(RankCmp(isDes), s, r) && Below(RankCmp(isDes), s, r) == if isDes then |s| else 0
  {
    var c, k := RankCmp(isDes), Below(RankCmp(isDes), s, r);
    forall i | 0 <= i < |s|
      ensures c(s[i], r) < 0 <==> isDes
    {
      assert s[i] in s;
    }
    assert k < |s| ==> c(s[k], r) >= 0;
    assert k > 0 ==> c(s[0], r) < 0;
  }

  /** The search for a record of the board, or for a blank one. */
  method IndexOf(rs: RankSkip, r: RankData) returns (index: int)
    requires rs.Indexed() && Cut(RankCmp(rs.isDes), rs.skipList.contents, r)
    ensures rs.Indexed() && rs.Valid() == old(rs.Valid()) && rs.mapRankData == old(rs.mapRankData)
    ensures rs.skipList.contents == old(rs.skipList.contents) && rs.rankDataExpire.view == old(rs.rankDataExpire.view)
    ensures var k := Below(RankCmp(rs.isDes), rs.skipList.contents, r);
            index == if k < |rs.skipList.contents| then k else 0
  {
    var _, at := rs.skipList.GetWithPosition(r);
    index := at;
  }

  /** The rank of a key on the board. */
  method RankOf(rs: RankSkip, key: u64) returns (rank: int)
    requires rs.Indexed() && key in rs.mapRankData
    ensures rs.Indexed() && rs.Valid() == old(rs.Valid()) && rs.mapRankData == old(rs.mapRankData)
    ensures rs.skipList.contents == old(rs.skipList.contents) && rs.rankDataExpire.view == old(rs.rankDataExpire.view)
    ensures rank == RankIn(rs.isDes, rs.skipList.contents, rs.mapRankData[key])
  {
    ghost var p := PlaceOf(rs, key);
    var index := IndexOf(rs, rs.mapRankData[key]);
    rank := index + 1;
  }

  /** The rank of a blank record: 1.  On a descending board with key 0, to which it compares equal
      out of order, where the search ends depends on the heights of the nodes. */
  method RankOfBlank(rs: RankSkip) returns (r: RankData, rank: int)
    requires rs.Indexed()
    ensures rs.Indexed() && rs.Valid() == old(rs.Valid()) && rs.mapRankData == old(rs.mapRankData)
    ensures rs.skipList.contents == old(rs.skipList.contents) && rs.rankDataExpire.view == old(rs.rankDataExpire.view)
    ensures Blank(r) && (!rs.isDes || 0 !in rs.mapRankData ==> rank == 1)
  {
    r := new RankData(0, [], None, 0);
    if rs.isDes && 0 in rs.mapRankData {
      rank := *;
      return;
    }
    NoZero(rs);
    BlankCut(rs.isDes, rs.skipList.contents, r);
    var index := IndexOf(rs, r);
    rank := index + 1;
  }

  lemma NoZero(rs: RankSkip)
    requires rs.Indexed()
    ensures 0 !in rs.mapRankData ==> forall x :: x in rs.skipList.contents ==> x.key != 0
  {
    forall x | x in rs.skipList.contents
      ensures x.key in rs.mapRankData
    {
      assert x in Elems(rs.skipList.contents);
    }
  }

  /** `GetRankNodeData`: the record is looked up, the board purged, and the record ranked.  A record
      that the purge takes out is reset before it is ranked and returned. */
  method RankOfKey(rs: RankSkip, key: u64, clock: seq<int>)
    returns (r: Option<RankData>, rank: int, ghost out: seq<Item>)
    requires rs.Valid() && |clock| == MAX_PICK_EXPIRE_NUM
    modifies rs, rs.skipList, rs.skipList.repr, rs.rankDataExpire, rs.rankDataExpire.repr
    ensures rs.Indexed() && (rs.Valid() <==> Unlisted(out, 0))
    ensures r.Some? <==> key in old(rs.mapRankData)
    ensures r.None? ==> rank == 0 && out == [] && rs.mapRankData == old(rs.mapRankData)
    ensures r.Some? ==> AfterPurge(rs.expireMs, old(rs.mapRankData), old(rs.rankDataExpire.view), rs.mapRankData,
                                   rs.rankDataExpire.view, clock, out)
    ensures r.Some? && key in rs.mapRankData ==>
              r.value == rs.mapRankData[key] && rank == RankIn(rs.isDes, rs.skipList.contents, r.value)
    ensures r.Some? && key !in rs.mapRankData ==> Blank(r.value) && (!rs.isDes || 0 !in rs.mapRankData ==> rank == 1)
  {
    if key !in rs.mapRankData {
      return None, 0, [];
    }
    out := Purge(rs, clock);
    var found;
    found, rank := RankPurged(rs, key);
    r := Some(found);
  }

  /** What is left of the record of a key after the purge, and its rank. */
  method RankPurged(rs: RankSkip, key: u64) returns (r: RankData, rank: int)
    requires rs.Indexed()
    ensures rs.Indexed() && rs.Valid() == old(rs.Valid()) && rs.mapRankData == old(rs.mapRankData)
    ensures rs.skipList.contents == old(rs.skipList.contents) && rs.rankDataExpire.view == old(rs.rankDataExpire.view)
    ensures key in rs.mapRankData ==>
              r == rs.mapRankData[key] && rank == RankIn(rs.isDes, rs.skipList.contents, r)
    ensures key !in rs.mapRankData ==> Blank(r) && (!rs.isDes || 0 !in rs.mapRankData ==> rank == 1)
  {
    if key in rs.mapRankData {
      r := rs.mapRankData[key];
      rank := RankOf(rs, key);
      return;
    }
    r, rank := RankOfBlank(rs);
  }

  lemma OnlyOneGoes(m: map<u64, RankData>, v: seq<Item>, m': map<u64, RankData>, v': seq<Item>, clock: seq<int>,
                    out: seq<Item>)
    requires AfterPurge(1, m, v, m', v', clock, out) && |clock| > 0 && (forall i :: 0 <= i < |clock| ==> clock[i] == 1)
    requires m.Keys == {1} && Retimed([], v, {}, 1, 0)
    ensures m' == map[] && Unlisted(out, 0)
  {
    var only := Item(1, 0);
    assert forall i :: 0 <= i < |out| ==> out[i] == only;
    assert only in v' <==> Unlisted(out, 1);
    assert out[0].key == 1;
    assert 1 !in m';
  }

  /** Key 1 is on the board when it is asked for; since it has expired the answer is a blank record
      at rank 1 of an empty board. */
  method ExpiredAnswer() returns (rs: RankSkip, r: Option<RankData>, rank: int)
    ensures rs.Valid() && rs.mapRankData == map[] && r.Some? && Blank(r.value) && rank == 1
  {
    rs := new RankSkip(false, 8, 0, 1, 1);
    var ok := rs.ChangeExtendData(IncreaseRankData(1, [], [], true, None, [5]), 0, 1);
    r, rank := AskExpired(rs);
  }

  method AskExpired(rs: RankSkip) returns (r: Option<RankData>, rank: int)
    requires rs.Valid() && !rs.isDes && rs.expireMs == 1
    requires rs.mapRankData.Keys == {1} && Retimed([], rs.rankDataExpire.view, {}, 1, 0)
    modifies rs, rs.skipList, rs.skipList.repr, rs.rankDataExpire, rs.rankDataExpire.repr
    ensures rs.Valid() && rs.mapRankData == map[] && r.Some? && Blank(r.value) && rank == 1
  {
    ghost var m, v := rs.mapRankData, rs.rankDataExpire.view;
    var clock := seq(MAX_PICK_EXPIRE_NUM, _ => 1);
    ghost var out;
    r, rank, out := RankOfKey(rs, 1, clock);
    OnlyOneGoes(m, v, rs.mapRankData, rs.rankDataExpire.view, clock, out);
  }

  /** The look-up of `GetRankNodeDataByRank`: rank 0 wraps to a position past the end. */
  method AtRank(rs: RankSkip, rank: u64) returns (r: Option<RankData>)
    requires rs.Indexed()
    ensures rs.Indexed() && rs.Valid() == old(rs.Valid()) && rs.mapRankData == old(rs.mapRankData)
    ensures rs.skipList.contents == old(rs.skipList.contents) && rs.rankDataExpire.view == old(rs.rankDataExpire.view)
    ensures r == if 1 <= rank <= |rs.skipList.contents| then Some(rs.skipList.contents[rank - 1]) else None
  {
    r := rs.skipList.ByPosition(Wrap(rank as int - 1));
  }

  /** `GetRankNodeDataByRank`: the board is purged first. */
  method ByRank(rs: RankSkip, rank: u64, clock: seq<int>) returns (r: Option<RankData>, ghost out: seq<Item>)
    requires rs.Valid() && |clock| == MAX_PICK_EXPIRE_NUM
    modifies rs, rs.skipList, rs.skipList.repr, rs.rankDataExpire, rs.rankDataExpire.repr
    ensures rs.Indexed() && (rs.Valid() <==> Unlisted(out, 0))
    ensures AfterPurge(rs.expireMs, old(rs.mapRankData), old(rs.rankDataExpire.view), rs.mapRankData,
                       rs.rankDataExpire.view, clock, out)
    ensures r == if 1 <= rank <= |rs.skipList.contents| then Some(rs.skipList.contents[rank - 1]) else None
  {
    out := Purge(rs, clock);
    r := AtRank(rs, rank);
  }

  /** res lists the entries of s from p on, with their ranks. */
  ghost predicate ListsNext(s: seq<RankData>, p: nat, res: seq<RankPos>) {
    p + |res| <= |s| && forall i :: 0 <= i < |res| ==> res[i] == RankPos(s[p + i], p + i + 1)
  }

  /** res lists the entries of s from p backwards, with their ranks. */
  ghost predicate ListsPrev(s: seq<RankData>, p: nat, res: seq<RankPos>) {
    |res| <= p + 1 <= |s| && forall i :: 0 <= i < |res| ==> res[i] == RankPos(s[p - i], p - i + 1)
  }

  /** The loop of `GetRankKeyNextToLimit`. */
  method CollectNext(sl: SkipList<RankData>, it: Iterator<RankData>, p: u64, count: nat, ghost at0: int)
    returns (res: seq<RankPos>)
    requires sl.Structured() && it.first && p < |sl.contents| && at0 == p + 1 && it.At(sl, at0)
    modifies it
    ensures ListsNext(sl.contents, p, res) && (|res| == count || (|res| < count && p + |res| == |sl.contents|))
  {
    ghost var s, at := sl.contents, at0;
    res := [];
    var more;
    more, at := it.Next(sl, at);
    while more && |res| < count
      invariant sl.Structured() && sl.contents == s
      invariant !it.first && it.At(sl, at) && more == (at >= 0) && |res| <= count && ListsNext(s, p, res)
      invariant at == if p + |res| < |s| then p + |res| + 1 else -1
      decreases count - |res|
    {
      var v := it.Value(sl, at);
      res := res + [RankPos(v.value, p + |res| + 1)];
      more, at := it.Next(sl, at);
    }
  }

  /** The loop of `GetRankKeyPrevToLimit`. */
  method CollectPrev(sl: SkipList<RankData>, it: Iterator<RankData>, p: u64, count: nat, ghost at0: int)
    returns (res: seq<RankPos>)
    requires sl.Structured() && BackLinks(sl.nodes) && it.first && p < |sl.contents| && at0 == p + 1 && it.At(sl, at0)
    modifies it
    ensures ListsPrev(sl.contents, p, res) && (|res| == count || (|res| < count && |res| == p + 1))
  {
    ghost var s, at := sl.contents, at0;
    res := [];
    var more;
    more, at := it.Prev(sl, at);
    while more && |res| < count
      invariant sl.Structured() && BackLinks(sl.nodes) && sl.contents == s
      invariant !it.first && it.At(sl, at) && more == (at > 0) && |res| <= count && ListsPrev(s, p, res)
      invariant at == p + 1 - |res|
      decreases count - |res|
    {
      var v := it.Value(sl, at);
      res := res + [RankPos(v.value, p - |res| + 1)];
      more, at := it.Prev(sl, at);
    }
  }

  /** The position of a key and an iterator that starts there. */
  method StartAt(rs: RankSkip, key: u64) returns (it: Iterator<RankData>, rankPos: u64, ghost p: nat)
    requires rs.Valid() && key in rs.mapRankData
    ensures StandsAt(rs, key, p) && rankPos == p && rs.skipList.Structured() && BackLinks(rs.skipList.nodes)
    ensures fresh(it) && it.first && it.At(rs.skipList, p + 1)
    ensures rs.mapRankData == old(rs.mapRankData) && rs.skipList.contents == old(rs.skipList.contents)
  {
    p := PlaceOf(rs, key);
    rankPos := PositionOf(rs, key, p);
    ghost var at;
    it, at := Iter(rs.skipList, rs.mapRankData[key]);
  }

  method PositionOf(rs: RankSkip, key: u64, ghost p: nat) returns (at: u64)
    requires rs.Valid() && StandsAt(rs, key, p) && Found(rs, key, p)
    ensures rs.Valid() && rs.mapRankData == old(rs.mapRankData) && rs.skipList.contents == old(rs.skipList.contents)
    ensures at == p && StandsAt(rs, key, p) && Found(rs, key, p)
  {
    var _, found := rs.skipList.GetWithPosition(rs.mapRankData[key]);
    at := found;
  }

  /** A search for the record of the key ends at p. */
  ghost predicate Found(rs: RankSkip, key: u64, p: nat)
    reads rs, rs.skipList
  {
    && key in rs.mapRankData && Cut(rs.skipList.cmp, rs.skipList.contents, rs.mapRankData[key])
    && Below(rs.skipList.cmp, rs.skipList.contents, rs.mapRankData[key]) == p
  }

  /** `GetRankKeyNextToLimit`: the record of the key and those behind it; none for a missing key, which
      includes every key of an empty board. */
  method KeyNextToLimit(rs: RankSkip, key: u64, count: nat) returns (r: Option<seq<RankPos>>, ghost p: nat)
    requires rs.Valid()
    ensures r.None? <==> key !in rs.mapRankData
    ensures r.Some? ==> StandsAt(rs, key, p) && ListsNext(rs.skipList.contents, p, r.value)
    ensures r.Some? ==> var res := r.value; |res| == count || (|res| < count && p + |res| == |rs.skipList.contents|)
  {
    if key !in rs.mapRankData {
      return None, 0;
    }
    var it, rankPos;
    it, rankPos, p := StartAt(rs, key);
    var res := CollectNext(rs.skipList, it, rankPos, count, p + 1);
    r := Some(res);
  }

  /** `GetRankKeyPrevToLimit`: the record of the key and those before it; none for a missing key. */
  method KeyPrevToLimit(rs: RankSkip, key: u64, count: nat) returns (r: Option<seq<RankPos>>, ghost p: nat)
    requires rs.Valid()
    ensures r.None? <==> key !in rs.mapRankData
    ensures r.Some? ==> StandsAt(rs, key, p) && ListsPrev(rs.skipList.contents, p, r.value)
    ensures r.Some? ==> var res := r.value; |res| == count || (|res| < count && |res| == p + 1)
  {
    if key !in rs.mapRankData {
      return None, 0;
    }
    var it, rankPos;
    it, rankPos, p := StartAt(rs, key);
    var res := CollectPrev(rs.skipList, it, rankPos, count, p + 1);
    r := Some(res);
  }
}

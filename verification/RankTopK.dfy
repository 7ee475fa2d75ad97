/** Streaming top-k: first-time keys fed through UpsetRank into a bounded board. */
module RankTopK {
  import opened Words
  import opened SkipList
  import opened SkipOrder
  import opened RankOrder
  import opened RankSkip

  datatype Entry = Entry(key: u64, sortData: seq<i64>, data: Option<string>, ts: int, height: nat)

  /** No vector in `lost` ranks strictly better than a vector kept on the board. */
  ghost predicate BestKept(isDes: bool, lost: seq<seq<int>>, kept: map<u64, RankData>) {
    forall v, k :: v in lost && k in kept ==> !Better(isDes, v, kept[k].sortData)
  }

  /** Each of the first n entries is on the board or among the lost vectors. */
  ghost predicate Accounted(es: seq<Entry>, n: nat, lost: seq<seq<int>>, kept: map<u64, RankData>)
    requires n <= |es|
  {
    forall i :: 0 <= i < n ==>
      (es[i].key in kept && kept[es[i].key].sortData == es[i].sortData) || es[i].sortData in lost
  }

  ghost predicate AllWide(lost: seq<seq<int>>, kept: map<u64, RankData>, width: nat) {
    (forall v :: v in lost ==> |v| == width) && (forall k :: k in kept ==> |kept[k].sortData| == width)
  }

  lemma BetterOrder(isDes: bool, a: seq<int>, b: seq<int>, c: seq<int>)
    requires |a| == |b| == |c|
    ensures !Better(isDes, a, b) && !Better(isDes, b, c) ==> !Better(isDes, a, c)
    ensures Better(isDes, a, b) ==> !Better(isDes, b, a)
  {
    LexSign(a, b);
    LexSign(b, c);
    LexSign(a, c);
    LexOrder(a, b, c);
    LexOrder(c, b, a);
    BetterLex(isDes, a, b);
    BetterLex(isDes, b, c);
    BetterLex(isDes, a, c);
    BetterLex(isDes, b, a);
  }

  /** A rejected vector is no better than the worst kept one, hence than any. */
  lemma RejectedStep(isDes: bool, lost: seq<seq<int>>, kept: map<u64, RankData>, v: seq<int>, last: seq<int>,
                     width: nat)
    requires BestKept(isDes, lost, kept) && AllWide(lost, kept, width) && |v| == |last| == width
    requires !Better(isDes, v, last) && forall k :: k in kept ==> !Better(isDes, last, kept[k].sortData)
    ensures BestKept(isDes, lost + [v], kept) && AllWide(lost + [v], kept, width)
  {
    forall k | k in kept ensures !Better(isDes, v, kept[k].sortData) {
      BetterOrder(isDes, v, last, kept[k].sortData);
    }
  }

  /** The evicted record is no better than the rest, nor than the newcomer that beat it. */
  lemma EvictedStep(isDes: bool, lost: seq<seq<int>>, kept: map<u64, RankData>, r: RankData, out: RankData, width: nat)
    requires BestKept(isDes, lost, kept) && AllWide(lost, kept, width)
    requires out.key in kept && kept[out.key] == out && |r.sortData| == width && Better(isDes, r.sortData, out.sortData)
    requires forall k :: k in kept ==> !Better(isDes, out.sortData, kept[k].sortData)
    ensures var kept' := (kept - {out.key})[r.key := r];
      BestKept(isDes, lost + [out.sortData], kept') && AllWide(lost + [out.sortData], kept', width)
  {
    forall v | v in lost ensures !Better(isDes, v, r.sortData) {
      BetterOrder(isDes, r.sortData, out.sortData, out.sortData);
      BetterOrder(isDes, v, out.sortData, r.sortData);
    }
    BetterOrder(isDes, r.sortData, out.sortData, out.sortData);
  }

  lemma AccountedLose(es: seq<Entry>, n: nat, lost: seq<seq<int>>, kept: map<u64, RankData>)
    requires n < |es| && Accounted(es, n, lost, kept)
    ensures Accounted(es, n + 1, lost + [es[n].sortData], kept)
  {
  }

  lemma AccountedKeep(es: seq<Entry>, n: nat, lost: seq<seq<int>>, kept: map<u64, RankData>, r: RankData)
    requires n < |es| && Accounted(es, n, lost, kept) && r.key == es[n].key && r.sortData == es[n].sortData
    requires forall i :: 0 <= i < n ==> es[i].key != es[n].key
    ensures Accounted(es, n + 1, lost, kept[r.key := r])
  {
  }

  lemma AccountedEvict(es: seq<Entry>, n: nat, lost: seq<seq<int>>, kept: map<u64, RankData>, r: RankData,
                       out: RankData)
    requires n < |es| && Accounted(es, n, lost, kept) && r.key == es[n].key && r.sortData == es[n].sortData
    requires forall i :: 0 <= i < n ==> es[i].key != es[n].key
    requires out.key in kept && kept[out.key] == out
    ensures Accounted(es, n + 1, lost + [out.sortData], (kept - {out.key})[r.key := r])
  {
  }

  ghost predicate Fair(isDes: bool, lost: seq<seq<int>>, kept: map<u64, RankData>, width: nat, es: seq<Entry>, n: nat) {
    && n <= |es| && BestKept(isDes, lost, kept) && AllWide(lost, kept, width)
    && Accounted(es, n, lost, kept) && Fed(es, n, kept)
  }

  /** Every record on the board is one of the entries fed. */
  ghost predicate Fed(es: seq<Entry>, n: nat, kept: map<u64, RankData>) {
    n <= |es| && forall k :: k in kept ==> FedBy(es, n, k, kept[k].sortData)
  }

  ghost predicate FedBy(es: seq<Entry>, n: nat, k: u64, v: seq<int>)
    requires n <= |es|
  {
    exists i :: 0 <= i < n && es[i].key == k && es[i].sortData == v
  }

  lemma FedMore(es: seq<Entry>, n: nat, kept: map<u64, RankData>, kept': map<u64, RankData>)
    requires Fed(es, n, kept) && n < |es|
    requires forall k :: k in kept' ==>
               (k in kept && kept'[k] == kept[k]) || (k == es[n].key && kept'[k].sortData == es[n].sortData)
    ensures Fed(es, n + 1, kept')
  {
    forall k | k in kept'
      ensures FedBy(es, n + 1, k, kept'[k].sortData)
    {
      if k in kept && kept'[k] == kept[k] {
        assert FedBy(es, n, k, kept[k].sortData);
        var i :| 0 <= i < n && es[i].key == k && es[i].sortData == kept[k].sortData;
      }
    }
  }

  lemma BestKeptMore(isDes: bool, kept: map<u64, RankData>, width: nat, r: RankData)
    requires AllWide([], kept, width) && |r.sortData| == width
    ensures BestKept(isDes, [], kept[r.key := r]) && AllWide([], kept[r.key := r], width)
  {
  }

  ghost function NextLost(lost: seq<seq<int>>, e: Entry, added: bool, evicted: Option<RankData>): seq<seq<int>> {
    if !added then lost + [e.sortData] else if evicted.Some? then lost + [evicted.value.sortData] else lost
  }

  /** last is the worst record kept. */
  ghost predicate Worst(isDes: bool, kept: map<u64, RankData>, width: nat, last: RankData) {
    && last.key in kept && kept[last.key] == last && |last.sortData| == width
    && forall k :: k in kept ==> !Better(isDes, last.sortData, kept[k].sortData)
  }

  /** What UpsetRank makes of a board for a first-time key, as values. */
  ghost predicate Upset(isDes: bool, kept: map<u64, RankData>, width: nat, full: bool, e: Entry,
                        added: bool, evicted: Option<RankData>, kept': map<u64, RankData>)
  {
    && (!full ==> added && evicted.None?)
    && (!added ==>
          && evicted.None? && kept' == kept
          && exists k ::
               k in kept && Worst(isDes, kept, width, kept[k]) && !Better(isDes, e.sortData, kept[k].sortData))
    && (added ==> e.key in kept' && kept'[e.key].sortData == e.sortData && kept'[e.key].key == e.key)
    && (added && evicted.None? ==> !full && kept' == kept[e.key := kept'[e.key]])
    && (evicted.Some? ==>
          && added && kept' == (kept - {evicted.value.key})[e.key := kept'[e.key]]
          && Worst(isDes, kept, width, evicted.value) && Better(isDes, e.sortData, evicted.value.sortData))
  }

  lemma FairRejected(isDes: bool, lost: seq<seq<int>>, kept: map<u64, RankData>, width: nat, es: seq<Entry>, n: nat,
                     last: RankData)
    requires Fair(isDes, lost, kept, width, es, n) && n < |es| && |es[n].sortData| == width
    requires Worst(isDes, kept, width, last) && !Better(isDes, es[n].sortData, last.sortData)
    ensures Fair(isDes, lost + [es[n].sortData], kept, width, es, n + 1)
  {
    FedMore(es, n, kept, kept);
    RejectedStep(isDes, lost, kept, es[n].sortData, last.sortData, width);
    AccountedLose(es, n, lost, kept);
  }

  lemma FairEvicted(isDes: bool, lost: seq<seq<int>>, kept: map<u64, RankData>, width: nat, es: seq<Entry>, n: nat,
                    r: RankData, out: RankData)
    requires Fair(isDes, lost, kept, width, es, n) && n < |es| && |es[n].sortData| == width
    requires forall i :: 0 <= i < n ==> es[i].key != es[n].key
    requires r.key == es[n].key && r.sortData == es[n].sortData
    requires Worst(isDes, kept, width, out) && Better(isDes, es[n].sortData, out.sortData)
    ensures Fair(isDes, lost + [out.sortData], (kept - {out.key})[r.key := r], width, es, n + 1)
  {
    FedMore(es, n, kept, (kept - {out.key})[r.key := r]);
    EvictedStep(isDes, lost, kept, r, out, width);
    AccountedEvict(es, n, lost, kept, r, out);
  }

  lemma FairAdded(isDes: bool, kept: map<u64, RankData>, width: nat, es: seq<Entry>, n: nat, r: RankData)
    requires Fair(isDes, [], kept, width, es, n) && n < |es| && |es[n].sortData| == width
    requires forall i :: 0 <= i < n ==> es[i].key != es[n].key
    requires r.key == es[n].key && r.sortData == es[n].sortData
    ensures Fair(isDes, [], kept[r.key := r], width, es, n + 1)
  {
    FedMore(es, n, kept, kept[r.key := r]);
    AccountedKeep(es, n, [], kept, r);
    BestKeptMore(isDes, kept, width, r);
  }

  lemma FairStep(isDes: bool, lost: seq<seq<int>>, kept: map<u64, RankData>, width: nat, es: seq<Entry>, n: nat,
                 full: bool, added: bool, evicted: Option<RankData>, kept': map<u64, RankData>)
    requires Fair(isDes, lost, kept, width, es, n) && n < |es| && |es[n].sortData| == width
    requires forall i :: 0 <= i < n ==> es[i].key != es[n].key
    requires Upset(isDes, kept, width, full, es[n], added, evicted, kept') && (lost != [] ==> full)
    ensures Fair(isDes, NextLost(lost, es[n], added, evicted), kept', width, es, n + 1)
  {
    if !added {
      var k :| k in kept && Worst(isDes, kept, width, kept[k]) && !Better(isDes, es[n].sortData, kept[k].sortData);
      FairRejected(isDes, lost, kept, width, es, n, kept[k]);
    } else if evicted.Some? {
      FairEvicted(isDes, lost, kept, width, es, n, kept'[es[n].key], evicted.value);
    } else {
      FairAdded(isDes, kept, width, es, n, kept'[es[n].key]);
    }
  }

  lemma DecidedUpset(isDes: bool, maxLen: u64, kept: map<u64, RankData>, width: nat, s: seq<RankData>, e: Entry,
                     added: bool, evicted: Option<RankData>, kept': map<u64, RankData>)
    requires maxLen > 0 && (s != [] ==> Worst(isDes, kept, width, s[|s| - 1]))
    requires Decided(isDes, maxLen, s, e.sortData, added, evicted)
    requires !added ==> kept' == kept
    requires added ==> e.key in kept' && kept'[e.key].sortData == e.sortData && kept'[e.key].key == e.key
    requires added ==> kept' == (kept - KeyOf(evicted))[e.key := kept'[e.key]]
    ensures Upset(isDes, kept, width, |s| >= maxLen, e, added, evicted, kept')
  {
    if !added {
      assert kept[s[|s| - 1].key] == s[|s| - 1];
    } else if evicted.None? {
      assert kept - {} == kept;
    }
  }

  method OfferTo(rs: RankSkip, e: Entry, ghost kept: map<u64, RankData>, ghost s: seq<RankData>)
    returns (added: bool, ghost evicted: Option<RankData>)
    requires rs.Valid() && rs.maxLen > 0 && rs.skipList.num + 3 < TWO64 && e.key !in rs.mapRankData
    requires |e.sortData| == rs.width && 1 <= e.height < rs.skipList.maxLevel
    requires kept == rs.mapRankData && s == rs.skipList.contents
             && (s != [] ==> Worst(rs.isDes, kept, rs.width, s[|s| - 1]))
    modifies rs, rs.skipList, rs.skipList.repr, rs.rankDataExpire, rs.rankDataExpire.repr
    ensures rs.Valid() && |rs.skipList.contents| == |s| + if added && evicted.None? then 1 else 0
    ensures Upset(rs.isDes, kept, rs.width, |s| >= rs.maxLen, e, added, evicted, rs.mapRankData)
    ensures fresh(rs.skipList.repr - old(rs.skipList.repr))
            && fresh(rs.rankDataExpire.repr - old(rs.rankDataExpire.repr))
  {
    var change;
    change, evicted := rs.UpsetRank(e.key, e.sortData, e.data, e.ts, e.height);
    added := change == Added;
    DecidedUpset(rs.isDes, rs.maxLen, kept, rs.width, s, e, added, evicted, rs.mapRankData);
  }

  /** One entry through UpsetRank. */
  method Offer(rs: RankSkip, e: Entry) returns (added: bool, ghost evicted: Option<RankData>)
    requires rs.Valid() && rs.maxLen > 0 && rs.skipList.num + 3 < TWO64 && e.key !in rs.mapRankData
    requires |e.sortData| == rs.width && 1 <= e.height < rs.skipList.maxLevel
    modifies rs, rs.skipList, rs.skipList.repr, rs.rankDataExpire, rs.rankDataExpire.repr
    ensures rs.Valid() && |rs.skipList.contents| == |old(rs.skipList.contents)| + if added
            && evicted.None? then 1 else 0
    ensures Upset(rs.isDes, old(rs.mapRankData), rs.width, |old(rs.skipList.contents)| >= rs.maxLen, e, added, evicted,
                  rs.mapRankData)
    ensures fresh(rs.skipList.repr - old(rs.skipList.repr))
            && fresh(rs.rankDataExpire.repr - old(rs.rankDataExpire.repr))
  {
    if rs.skipList.num > 0 {
      LastIsWorst(rs);
    }
    added, evicted := OfferTo(rs, e, rs.mapRankData, rs.skipList.contents);
  }

  /** The board after n entries. */
  ghost predicate Board(rs: RankSkip, es: seq<Entry>, n: nat, lost: seq<seq<int>>)
    reads rs, rs.skipList, rs.skipList.repr, rs.rankDataExpire, rs.rankDataExpire.repr
  {
    && rs.Valid() && rs.maxLen > 0 && Fair(rs.isDes, lost, rs.mapRankData, rs.width, es, n)
    && |rs.skipList.contents| == (if n < rs.maxLen then n else rs.maxLen)
    && (lost != [] ==> |rs.skipList.contents| == rs.maxLen)
  }

  /** The n-th entry can be offered. */
  ghost predicate Offerable(rs: RankSkip, es: seq<Entry>, n: nat) {
    && n < |es| && |es| + 3 < TWO64 && |es[n].sortData| == rs.width && 1 <= es[n].height < rs.skipList.maxLevel
    && forall i :: 0 <= i < n ==> es[i].key != es[n].key
  }

  lemma FirstTime(isDes: bool, lost: seq<seq<int>>, kept: map<u64, RankData>, width: nat, es: seq<Entry>, n: nat)
    requires Fair(isDes, lost, kept, width, es, n) && n < |es| && forall i :: 0 <= i < n ==> es[i].key != es[n].key
    ensures es[n].key !in kept
  {
  }

  method FeedOne(rs: RankSkip, es: seq<Entry>, n: nat, ghost lost: seq<seq<int>>)
    returns (added: bool, ghost lost': seq<seq<int>>)
    requires Board(rs, es, n, lost) && Offerable(rs, es, n)
    modifies rs, rs.skipList, rs.skipList.repr, rs.rankDataExpire, rs.rankDataExpire.repr
    ensures Board(rs, es, n + 1, lost')
    ensures fresh(rs.skipList.repr - old(rs.skipList.repr))
            && fresh(rs.rankDataExpire.repr - old(rs.rankDataExpire.repr))
  {
    ghost var kept, s := rs.mapRankData, rs.skipList.contents;
    FirstTime(rs.isDes, lost, kept, rs.width, es, n);
    ghost var evicted;
    added, evicted := Offer(rs, es[n]);
    FairStep(rs.isDes, lost, kept, rs.width, es, n, |s| >= rs.maxLen, added, evicted, rs.mapRankData);
    lost' := NextLost(lost, es[n], added, evicted);
  }

  /** The entries from the n-th on. */
  method FeedFrom(rs: RankSkip, es: seq<Entry>, n: nat, ghost lost: seq<seq<int>>) returns (ghost lost': seq<seq<int>>)
    requires n <= |es| && Board(rs, es, n, lost) && forall i :: n <= i < |es| ==> Offerable(rs, es, i)
    modifies rs, rs.skipList, rs.skipList.repr, rs.rankDataExpire, rs.rankDataExpire.repr
    ensures Board(rs, es, |es|, lost')
    decreases |es| - n
  {
    if n == |es| {
      return lost;
    }
    var added;
    ghost var more;
    added, more := FeedOne(rs, es, n, lost);
    lost' := FeedFrom(rs, es, n + 1, more);
  }

  /** Streaming top-k: any number of first-time keys offered to an empty board leaves min(maxLen, n)
      records, and none of the lost ones was better than a kept one. */
  method FeedAll(rs: RankSkip, es: seq<Entry>) returns (ghost lost: seq<seq<int>>)
    requires rs.Valid() && rs.maxLen > 0 && rs.mapRankData == map[] && rs.skipList.contents == []
    requires forall n :: 0 <= n < |es| ==> Offerable(rs, es, n)
    modifies rs, rs.skipList, rs.skipList.repr, rs.rankDataExpire, rs.rankDataExpire.repr
    ensures rs.Valid() && |rs.skipList.contents| == if |es| < rs.maxLen then |es| else rs.maxLen
    ensures BestKept(rs.isDes, lost, rs.mapRankData) && Accounted(es, |es|, lost, rs.mapRankData)
            && Fed(es, |es|, rs.mapRankData)
  {
    lost := FeedFrom(rs, es, 0, []);
  }

  lemma LastIsWorst(rs: RankSkip)
    requires rs.Valid() && |rs.skipList.contents| > 0
    ensures Worst(rs.isDes, rs.mapRankData, rs.width, rs.skipList.contents[|rs.skipList.contents| - 1])
  {
    var s := rs.skipList.contents;
    rs.LastRecord(s);
    assert s[|s| - 1] in Elems(s);
    forall k | k in rs.mapRankData ensures !Better(rs.isDes, s[|s| - 1].sortData, rs.mapRankData[k].sortData) {
      assert rs.mapRankData[k] in Elems(s);
    }
  }
}

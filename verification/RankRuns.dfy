/** Whole runs of a leaderboard: any sequence of its operations on a board that starts empty. */
module RankRuns {
  import opened Words
  import opened SkipList
  import opened SkipOrder
  import opened BinaryHeap
  import opened RankExpire
  import opened RankOrder
  import opened RankSkip

  datatype Op =
    | Upset(key: u64, sortData: seq<i64>, data: Option<string>, ts: int, height: nat)
    | ChangeExtend(change: IncreaseRankData, now: int, height: nat)
    | UpdateData(key: u64, data: Option<string>, now: int)
    | Delete(keys: seq<u64>)
    | Purge(clock: seq<int>)

  /** Non-zero keys, vectors to insert of the board's length, set positions in range, possible heights. */
  ghost predicate Accepted(op: Op, width: nat, maxLevel: nat) {
    match op
    case Upset(key, sortData, _, _, height) => key != 0 && |sortData| == width && 1 <= height < maxLevel
    case ChangeExtend(change, _, height) =>
      && change.key != 0 && change.Positions() && 1 <= height < maxLevel
      && (change.insertOnNonExistent ==> |change.initSortData| == width)
    case Purge(clock) => |clock| == MAX_PICK_EXPIRE_NUM
    case _ => true
  }

  // ---- sizes ----

  lemma {:induction false} SortedSize<T>(cmp: (T, T) -> int, s: seq<T>)
    requires Sorted(cmp, s) && forall i :: 0 <= i < |s| ==> cmp(s[i], s[i]) == 0
    ensures |Elems(s)| == |s|
  {
    if s != [] {
      var last := |s| - 1;
      var front := s[..last];
      forall i, j | 0 <= i < j < |front|
        ensures Before(cmp, front, i, j)
      {
        assert Before(cmp, s, i, j);
      }
      SortedSize(cmp, front);
      forall i | 0 <= i < last
        ensures s[i] != s[last]
      {
        assert Before(cmp, s, i, last);
      }
      assert Elems(s) == Elems(front) + {s[last]};
    }
  }

  lemma {:induction false} KeysEnough(X: set<RankData>, m: map<u64, RankData>)
    requires forall r :: r in X ==> r.key in m && m[r.key] == r
    ensures |X| <= |m|
  {
    if r :| r in X {
      var m' := m - {r.key};
      KeysEnough(X - {r}, m');
      assert m'.Keys == m.Keys - {r.key};
      assert |m'.Keys| == |m'| && |m.Keys| == |m|;
    }
  }

  /** The list is no longer than the key map. */
  lemma ListFits(rs: RankSkip)
    requires rs.Valid()
    ensures rs.skipList.num <= |rs.mapRankData|
  {
    var s := rs.skipList.contents;
    forall i | 0 <= i < |s|
      ensures RankCmp(rs.isDes)(s[i], s[i]) == 0
    {
    }
    SortedSize(RankCmp(rs.isDes), s);
    KeysEnough(Elems(s), rs.mapRankData);
  }

  lemma {:induction false} Subset(a: set<u64>, b: set<u64>)
    requires a <= b
    ensures |a| <= |b|
  {
    if x :| x in a {
      Subset(a - {x}, b - {x});
    }
  }

  /** At most one key more. */
  lemma OneMore(m: map<u64, RankData>, m': map<u64, RankData>, key: u64)
    requires m'.Keys <= m.Keys + {key}
    ensures |m'| <= |m| + 1
  {
    Subset(m'.Keys, m.Keys + {key});
    assert |m'| == |m'.Keys| && |m| == |m.Keys|;
  }

  lemma OneNew(m: map<u64, RankData>, kept: map<u64, RankData>, m': map<u64, RankData>, key: u64)
    requires key in m' && m' == kept[key := m'[key]]
    requires forall k :: k in kept ==> k in m && kept[k] == m[k]
    ensures m'.Keys <= m.Keys + {key} && m'.Values <= m.Values + {m'[key]}
  {
  }

  // ---- what operations do, on values ----

  /** The vectors by key, the keys in the order of the list, and the timed keys of the expiry heap. */
  datatype Snap = Snap(vectors: map<u64, seq<i64>>, order: seq<u64>, times: seq<Item>)

  /** Key k with vector v ranks before key l with vector w. */
  ghost predicate InFront(isDes: bool, v: seq<i64>, k: u64, w: seq<i64>, l: u64) {
    Better(isDes, v, w) || (!Better(isDes, w, v) && if isDes then k > l else k < l)
  }

  ghost predicate Ahead(isDes: bool, a: Snap, i: int, j: int) {
    && 0 <= i < |a.order| && 0 <= j < |a.order| && a.order[i] in a.vectors && a.order[j] in a.vectors
    && InFront(isDes, a.vectors[a.order[i]], a.order[i], a.vectors[a.order[j]], a.order[j])
  }

  ghost function TimedKeys(times: seq<Item>): set<u64> {
    if times == [] then {} else TimedKeys(times[1..]) + {times[0].key}
  }

  lemma {:induction false} TimedKey(times: seq<Item>, k: u64)
    ensures k in TimedKeys(times) <==> exists y :: y in times && y.key == k
  {
    if times != [] {
      TimedKey(times[1..], k);
      assert forall y :: y in times <==> y == times[0] || y in times[1..];
      assert times[0] in times;
    }
  }

  /** The keys are ranked strictly, and the three indexes hold the same keys. */
  ghost predicate Agreeing(isDes: bool, a: Snap) {
    && (forall k :: k in a.order <==> k in a.vectors) && a.vectors.Keys == TimedKeys(a.times)
    && forall i, j {:trigger Ahead(isDes, a, i, j)} :: 0 <= i < j < |a.order| ==> Ahead(isDes, a, i, j)
  }

  /** The settings of a board. */
  datatype Setup = Setup(isDes: bool, maxLen: u64, expireMs: int)

  ghost predicate Same(a: Snap, b: Snap) {
    b.vectors == a.vectors && b.times == a.times
  }

  /** The given vector for a key, timed anew, and some keys gone. */
  ghost predicate Stored(key: u64, vector: seq<i64>, ts: int, out: set<u64>, a: Snap, b: Snap) {
    b.vectors == (a.vectors - out)[key := vector] && Retimed(a.times, b.times, out, key, ts)
  }

  /** An upset of a new key is refused when the board is full and its last vector is not beaten;
      otherwise the last key of a full board goes. */
  ghost predicate UpsetDoes(c: Setup, key: u64, vector: seq<i64>, ts: int, a: Snap, b: Snap) {
    if key in a.vectors || c.maxLen == 0 || |a.order| < c.maxLen then Stored(key, vector, ts, {}, a, b)
    else
      var last := a.order[|a.order| - 1];
      && last in a.vectors
      && if Better(c.isDes, vector, a.vectors[last]) then Stored(key, vector, ts, {last}, a, b) else Same(a, b)
  }

  ghost predicate ChangeDoes(change: IncreaseRankData, width: nat, now: int, a: Snap, b: Snap) {
    if change.key in a.vectors then Stored(change.key, NewVector(a.vectors[change.key], change), now, {}, a, b)
    else if change.insertOnNonExistent && InRange(change.sets, width)
      then Stored(change.key, NewVector(change.initSortData, change), now, {}, a, b)
    else Same(a, b)
  }

  ghost predicate UpdateDoes(key: u64, now: int, a: Snap, b: Snap) {
    && b.vectors == a.vectors
    && if key in a.vectors then Retimed(a.times, b.times, {}, key, now) else b.times == a.times
  }

  ghost predicate DeleteDoes(keys: seq<u64>, a: Snap, b: Snap) {
    b.vectors == a.vectors - Elems(keys) && Untimed(a.times, b.times, Elems(keys))
  }

  /** A purge takes out expired keys in the order of their last refresh, until none is left or the
      rounds are used up. */
  ghost predicate PurgeDoes(c: Setup, clock: seq<int>, a: Snap, b: Snap) {
    if c.expireMs == 0 then Same(a, b)
    else
      var out := Popping(a.times, c.expireMs, clock, 0);
      && b.vectors == a.vectors - TimedKeys(out) && Untimed(a.times, b.times, TimedKeys(out))
      && PurgedInOrder(a.times, b.times, out, c.expireMs, clock)
      && (|out| < |clock| ==> forall y :: y in b.times ==> y.time + c.expireMs > clock[|out|])
  }

  ghost predicate OpDoes(c: Setup, width: nat, op: Op, a: Snap, b: Snap) {
    if op.Upset? then UpsetDoes(c, op.key, op.sortData, op.ts, a, b)
    else if op.ChangeExtend? then ChangeDoes(op.change, width, op.now, a, b)
    else if op.UpdateData? then UpdateDoes(op.key, op.now, a, b)
    else if op.Delete? then DeleteDoes(op.keys, a, b)
    else PurgeDoes(c, op.clock, a, b)
  }

  /** A board and the data of its records. */
  datatype State = State(board: Snap, data: map<u64, Option<string>>)

  /** The operation writes the data of a key, if it keeps or puts the key on the board. */
  ghost predicate Writes(op: Op, k: u64) {
    || (op.Upset? && op.key == k) || (op.ChangeExtend? && op.change.key == k) || (op.UpdateData? && op.key == k)
  }

  /** The data that the operation writes: an upset that changes the vector and brings no data keeps
      the old ones, and a change of the vector keeps them always. */
  ghost function NewData(op: Op, a: State, k: u64): Option<string>
    requires Writes(op, k)
  {
    var had := k in a.board.vectors && k in a.data;
    if op.Upset? then if had && op.data.None? && a.board.vectors[k] != op.sortData then a.data[k] else op.data
    else if op.ChangeExtend? then if had then a.data[k] else op.change.initData
    else op.data
  }

  ghost predicate DataAt(op: Op, a: State, b: State, k: u64) {
    && k in b.data
    && if Writes(op, k) then b.data[k] == NewData(op, a, k) else k in a.data && b.data[k] == a.data[k]
  }

  /** Exactly the keys on the board have data, and only the key written has new ones. */
  ghost predicate DataDoes(op: Op, a: State, b: State) {
    && b.data.Keys == b.board.vectors.Keys
    && forall k :: k in b.board.vectors ==> DataAt(op, a, b, k)
  }

  ghost predicate StepDoes(c: Setup, width: nat, op: Op, a: State, b: State) {
    OpDoes(c, width, op, a.board, b.board) && DataDoes(op, a, b)
  }

  /** The boards of a run so far, from a to z: each operation has made of the board before one that
      agrees and has the vectors, times and data it should. */
  ghost predicate Linked(c: Setup, width: nat, ops: seq<Op>, snaps: seq<State>, a: State, z: State) {
    var n := |snaps| - 1;
    && 0 <= n <= |ops| && snaps[n] == z && Agreeing(c.isDes, z.board)
    && if n == 0 then a == z
       else StepDoes(c, width, ops[n - 1], snaps[n - 1], z) && Linked(c, width, ops, snaps[..n], a, snaps[n - 1])
  }

  lemma {:induction false} LinkedNext(c: Setup, width: nat, ops: seq<Op>, snaps: seq<State>, a: State, y: State,
                                      z: State)
    requires Linked(c, width, ops, snaps, a, y) && |snaps| <= |ops|
    requires StepDoes(c, width, ops[|snaps| - 1], y, z) && Agreeing(c.isDes, z.board)
    ensures Linked(c, width, ops, snaps + [z], a, z)
  {
    var all := snaps + [z];
    assert all[..|snaps|] == snaps && all[|snaps|] == z && all[|snaps| - 1] == y;
  }

  /** Each board of a run agrees, and each operation has done what it should. */
  lemma {:induction false} LinkedAt(c: Setup, width: nat, ops: seq<Op>, snaps: seq<State>, a: State, z: State, k: nat)
    requires Linked(c, width, ops, snaps, a, z) && k < |snaps|
    ensures snaps[0] == a && snaps[|snaps| - 1] == z && Agreeing(c.isDes, snaps[k].board)
    ensures k < |snaps| - 1 ==> StepDoes(c, width, ops[k], snaps[k], snaps[k + 1])
  {
    var n := |snaps| - 1;
    if n > 0 {
      LinkedAt(c, width, ops, snaps[..n], a, snaps[n - 1], if k < n then k else 0);
    }
  }

  // ---- the values of a board ----

  ghost function Vectors(m: map<u64, RankData>): map<u64, seq<i64>> {
    map k | k in m :: m[k].sortData
  }

  ghost function Keys(s: seq<RankData>): seq<u64> {
    seq(|s|, i requires 0 <= i < |s| => s[i].key)
  }

  ghost function SetupOf(rs: RankSkip): Setup {
    Setup(rs.isDes, rs.maxLen, rs.expireMs)
  }

  ghost function SnapOf(rs: RankSkip): Snap
    reads rs, rs.skipList, rs.rankDataExpire
  {
    Snap(Vectors(rs.mapRankData), Keys(rs.skipList.contents), rs.rankDataExpire.view)
  }

  ghost function DataOf(m: map<u64, RankData>): map<u64, Option<string>>
    reads m.Values
  {
    map k | k in m :: m[k].data
  }

  ghost predicate Keyed(m: map<u64, RankData>) {
    forall k :: k in m ==> m[k].key == k
  }

  /** Records still have the data that were noted of them. */
  ghost predicate HasData(noted: map<RankData, Option<string>>)
    reads noted.Keys
  {
    forall x {:trigger x.data} :: x in noted ==> x.data == noted[x]
  }

  /** The data of all records but that of a key. */
  ghost function Noted(m: map<u64, RankData>, key: u64): (noted: map<RankData, Option<string>>)
    requires Keyed(m)
    reads m.Values
    ensures HasData(noted) && forall x :: x in noted ==> x.key in m && m[x.key] == x && x.key != key
    ensures forall k :: k in m && k != key ==> m[k] in noted && noted[m[k]] == m[k].data
  {
    map x | x in m.Values && x.key != key :: x.data
  }

  /** The data noted are those of m by key. */
  ghost predicate NotedAs(m: map<u64, RankData>, noted: map<RankData, Option<string>>, d: map<u64, Option<string>>,
                          key: u64) {
    d.Keys == m.Keys && forall k :: k in m && k != key ==> m[k] in noted && noted[m[k]] == d[k]
  }

  lemma NoteAll(rs: RankSkip, key: u64) returns (noted: map<RankData, Option<string>>)
    requires rs.Indexed()
    ensures HasData(noted) && noted.Keys !! rs.Own(key) && NotedAs(rs.mapRankData, noted, DataOf(rs.mapRankData), key)
  {
    assert Keyed(rs.mapRankData);
    noted := Noted(rs.mapRankData, key);
  }

  /** From kept data to what an operation does to the data of a board. */
  lemma DataTo(op: Op, a: Snap, b: Snap, m: map<u64, RankData>, d: map<u64, Option<string>>, m': map<u64, RankData>,
               key: u64, noted: map<RankData, Option<string>>)
    requires a.vectors == Vectors(m) && b.vectors == Vectors(m') && NotedAs(m, noted, d, key) && HasData(noted)
    requires forall k :: k in m' && k != key ==> k in m && m'[k] == m[k]
    requires forall k :: k in m' && Writes(op, k) ==> k == key
    requires key in m' ==>
               if Writes(op, key) then m'[key].data == NewData(op, State(a, d), key)
               else key in d && m'[key].data == d[key]
    ensures DataDoes(op, State(a, d), State(b, DataOf(m')))
  {
    forall k | k in b.vectors
      ensures DataAt(op, State(a, d), State(b, DataOf(m')), k)
    {
      if k != key {
        assert m'[k] == m[k] && m[k] in noted && m[k].data == d[k];
      }
    }
  }

  ghost function StateOf(rs: RankSkip): State
    reads rs, rs.skipList, rs.rankDataExpire, rs.mapRankData.Values
  {
    State(SnapOf(rs), DataOf(rs.mapRankData))
  }

  lemma VectorsFewer(m: map<u64, RankData>, out: set<u64>)
    ensures Vectors(m - out) == Vectors(m) - out
  {
  }

  lemma VectorsStored(m: map<u64, RankData>, out: set<u64>, key: u64, m': map<u64, RankData>)
    requires key in m' && m' == (m - out)[key := m'[key]]
    ensures Vectors(m') == (Vectors(m) - out)[key := m'[key].sortData]
  {
  }

  lemma KeysAhead(isDes: bool, m: map<u64, RankData>, s: seq<RankData>, times: seq<Item>, i: int, j: int)
    requires Sorted(RankCmp(isDes), s) && 0 <= i < j < |s|
    requires forall r :: r in Elems(s) ==> r.key in m && m[r.key] == r
    ensures Ahead(isDes, Snap(Vectors(m), Keys(s), times), i, j)
  {
    assert Before(RankCmp(isDes), s, i, j);
    assert s[i] in Elems(s) && s[j] in Elems(s);
    LexSign(s[i].sortData, s[j].sortData);
    BetterLex(isDes, s[i].sortData, s[j].sortData);
    BetterLex(isDes, s[j].sortData, s[i].sortData);
  }

  /** The indexes of a valid board agree as values. */
  lemma ValidAgrees(rs: RankSkip)
    requires rs.Valid()
    ensures Agreeing(rs.isDes, SnapOf(rs))
  {
    var m, s, v := rs.mapRankData, rs.skipList.contents, rs.rankDataExpire.view;
    SameKeys(m, s);
    TimesKeys(rs.rankDataExpire);
    forall i, j | 0 <= i < j < |s|
      ensures Ahead(rs.isDes, SnapOf(rs), i, j)
    {
      KeysAhead(rs.isDes, m, s, v, i, j);
    }
  }

  lemma SameKeys(m: map<u64, RankData>, s: seq<RankData>)
    requires forall r :: r in Elems(s) ==> r.key in m && m[r.key] == r
    requires forall k :: k in m ==> m[k] in Elems(s) && m[k].key == k
    ensures forall k :: k in Keys(s) <==> k in m
  {
    forall k | k in m.Keys
      ensures k in Keys(s)
    {
      var i :| 0 <= i < |s| && s[i] == m[k];
      assert Keys(s)[i] == k;
    }
    forall i | 0 <= i < |s|
      ensures Keys(s)[i] in m
    {
      assert s[i] in Elems(s);
    }
  }

  lemma TimesKeys(heap: RankDataHeap)
    requires heap.Valid()
    ensures TimedKeys(heap.view) == heap.mapExpireData.Keys
  {
    heap.KeysMapped();
    forall k
      ensures k in TimedKeys(heap.view) <==> k in heap.mapExpireData
    {
      TimedKey(heap.view, k);
    }
  }

  // ---- runs ----

  /** A board that a run can go on with. */
  ghost predicate Running(rs: RankSkip)
    reads rs, rs.skipList, rs.skipList.repr, rs.rankDataExpire, rs.rankDataExpire.repr
  {
    rs.Valid() && 0 !in rs.mapRankData
  }

  /** What an operation leaves on the board is new or was there before. */
  twostate predicate Grown(rs: RankSkip)
    reads rs, rs.skipList, rs.rankDataExpire
  {
    && fresh(rs.skipList.repr - old(rs.skipList.repr)) && fresh(rs.rankDataExpire.repr - old(rs.rankDataExpire.repr))
    && fresh(rs.mapRankData.Values - old(rs.mapRankData.Values))
  }

  method DoUpset(rs: RankSkip, op: Op)
    requires op.Upset? && Accepted(op, rs.width, rs.skipList.maxLevel) && Running(rs) && |rs.mapRankData| + 3 < TWO64
    modifies rs, rs.skipList, rs.skipList.repr, rs.rankDataExpire, rs.rankDataExpire.repr, rs.mapRankData.Values
    ensures Running(rs) && Grown(rs) && |rs.mapRankData| <= |old(rs.mapRankData)| + 1
    ensures UpsetDoes(SetupOf(rs), op.key, op.sortData, op.ts, old(SnapOf(rs)), SnapOf(rs))
    ensures DataDoes(op, old(StateOf(rs)), StateOf(rs))
  {
    ghost var m := rs.mapRankData;
    ListFits(rs);
    DoUpsetFits(rs, op);
    OneMore(m, rs.mapRankData, op.key);
  }

  /** What UpsetRank says about records and times. */
  ghost predicate Upsets(c: Setup, key: u64, vector: seq<i64>, ts: int, m: map<u64, RankData>, s: seq<RankData>,
                         v: seq<Item>,
                         m': map<u64, RankData>, v': seq<Item>, change: Change, evicted: Option<RankData>)
  {
    && (change == Updated <==> key in m) && (change == Updated ==> evicted.None?)
    && (change != Updated ==> Decided(c.isDes, c.maxLen, s, vector, change == Added, evicted))
    && (change != Unchanged ==>
          && key in m' && m' == (m - KeyOf(evicted))[key := m'[key]] && m'[key].sortData == vector
          && Retimed(v, v', KeyOf(evicted), key, ts))
    && (change == Unchanged ==> m' == m && v' == v)
  }

  lemma UpsetDecided(c: Setup, key: u64, vector: seq<i64>, ts: int, m: map<u64, RankData>, s: seq<RankData>,
                     v: seq<Item>,
                     m': map<u64, RankData>, s': seq<RankData>, v': seq<Item>, change: Change,
                     evicted: Option<RankData>)
    requires forall r :: r in Elems(s) ==> r.key in m && m[r.key] == r
    requires Upsets(c, key, vector, ts, m, s, v, m', v', change, evicted)
    ensures UpsetDoes(c, key, vector, ts, Snap(Vectors(m), Keys(s), v), Snap(Vectors(m'), Keys(s'), v'))
  {
    if change != Unchanged {
      VectorsStored(m, KeyOf(evicted), key, m');
    }
    if key !in m && c.maxLen != 0 && |s| >= c.maxLen {
      var last := s[|s| - 1];
      assert last in Elems(s) && Keys(s)[|s| - 1] == last.key;
    }
  }

  lemma UpsetRecords(c: Setup, key: u64, vector: seq<i64>, ts: int, m: map<u64, RankData>, s: seq<RankData>,
                     v: seq<Item>,
                     m': map<u64, RankData>, v': seq<Item>, change: Change, evicted: Option<RankData>)
    requires Upsets(c, key, vector, ts, m, s, v, m', v', change, evicted)
    ensures m'.Keys <= m.Keys + {key}
    ensures change == Unchanged ==> m'.Values - m.Values == {}
    ensures change != Unchanged ==> m'.Values - m.Values <= {m'[key]} - (if key in m then {m[key]} else {})
  {
    if change != Unchanged {
      OneNew(m, m - KeyOf(evicted), m', key);
    }
  }

  /** UpsetRank with its effect as values; records other than that of the key keep their data. */
  method UpsetOn(rs: RankSkip, op: Op, ghost m: map<u64, RankData>, ghost s: seq<RankData>, ghost v: seq<Item>,
                 ghost noted: map<RankData, Option<string>>, ghost had: Option<string>)
    returns (change: Change, ghost evicted: Option<RankData>)
    requires op.Upset? && Accepted(op, rs.width, rs.skipList.maxLevel) && rs.Valid() && rs.skipList.num + 3 < TWO64
    requires m == rs.mapRankData && s == rs.skipList.contents && v == rs.rankDataExpire.view
    requires HasData(noted) && noted.Keys !! rs.Own(op.key) && (op.key in m ==> m[op.key].data == had)
    modifies rs, rs.skipList, rs.skipList.repr, rs.rankDataExpire, rs.rankDataExpire.repr, rs.Own(op.key)
    ensures fresh(rs.skipList.repr - old(rs.skipList.repr))
            && fresh(rs.rankDataExpire.repr - old(rs.rankDataExpire.repr))
    ensures rs.Valid() && Upsets(SetupOf(rs), op.key, op.sortData, op.ts, m, s, v, rs.mapRankData,
                                 rs.rankDataExpire.view, change, evicted)
    ensures change != Unchanged ==>
              fresh(rs.mapRankData[op.key]) || (op.key in m && rs.mapRankData[op.key] == m[op.key])
    ensures HasData(noted)
    ensures change != Unchanged ==>
              rs.mapRankData[op.key].data ==
              if op.key in m && op.data.None? && m[op.key].sortData != op.sortData then had else op.data
  {
    change, evicted := rs.UpsetRank(op.key, op.sortData, op.data, op.ts, op.height);
  }

  method UpsetKeyed(rs: RankSkip, op: Op, ghost m: map<u64, RankData>, ghost s: seq<RankData>, ghost v: seq<Item>,
                    ghost noted: map<RankData, Option<string>>, ghost had: Option<string>)
    returns (change: Change, ghost evicted: Option<RankData>)
    requires op.Upset? && Accepted(op, rs.width, rs.skipList.maxLevel) && Running(rs) && rs.skipList.num + 3 < TWO64
    requires m == rs.mapRankData && s == rs.skipList.contents && v == rs.rankDataExpire.view
    requires HasData(noted) && noted.Keys !! rs.Own(op.key) && (op.key in m ==> m[op.key].data == had)
    modifies rs, rs.skipList, rs.skipList.repr, rs.rankDataExpire, rs.rankDataExpire.repr, rs.mapRankData.Values
    ensures fresh(rs.skipList.repr - old(rs.skipList.repr))
            && fresh(rs.rankDataExpire.repr - old(rs.rankDataExpire.repr))
    ensures fresh(rs.mapRankData.Values - m.Values)
    ensures rs.Valid() && rs.mapRankData.Keys <= m.Keys + {op.key}
    ensures Upsets(SetupOf(rs), op.key, op.sortData, op.ts, m, s, v, rs.mapRankData, rs.rankDataExpire.view, change,
                   evicted)
    ensures HasData(noted)
    ensures change != Unchanged ==>
              rs.mapRankData[op.key].data ==
              if op.key in m && op.data.None? && m[op.key].sortData != op.sortData then had else op.data
  {
    change, evicted := UpsetOn(rs, op, m, s, v, noted, had);
    UpsetRecords(SetupOf(rs), op.key, op.sortData, op.ts, m, s, v, rs.mapRankData, rs.rankDataExpire.view, change,
                 evicted);
  }

  lemma UpsetData(c: Setup, op: Op, m: map<u64, RankData>, s: seq<RankData>, v: seq<Item>, m': map<u64, RankData>,
                  s': seq<RankData>, v': seq<Item>, change: Change, evicted: Option<RankData>,
                  d: map<u64, Option<string>>, noted: map<RankData, Option<string>>, had: Option<string>)
    requires op.Upset? && Upsets(c, op.key, op.sortData, op.ts, m, s, v, m', v', change, evicted)
    requires NotedAs(m, noted, d, op.key) && HasData(noted) && (op.key in m ==> d[op.key] == had)
    requires change != Unchanged ==>
               m'[op.key].data == if op.key in m && op.data.None? && m[op.key].sortData != op.sortData then had
                                  else op.data
    ensures DataDoes(op, State(Snap(Vectors(m), Keys(s), v), d), State(Snap(Vectors(m'), Keys(s'), v'), DataOf(m')))
  {
    DataTo(op, Snap(Vectors(m), Keys(s), v), Snap(Vectors(m'), Keys(s'), v'), m, d, m', op.key, noted);
  }

  /** The whole effect of an upset, as values. */
  method UpsetValues(rs: RankSkip, op: Op, ghost m: map<u64, RankData>, ghost s: seq<RankData>, ghost v: seq<Item>,
                     ghost d: map<u64, Option<string>>, ghost noted: map<RankData, Option<string>>)
    requires op.Upset? && Accepted(op, rs.width, rs.skipList.maxLevel) && Running(rs) && rs.skipList.num + 3 < TWO64
    requires m == rs.mapRankData && s == rs.skipList.contents && v == rs.rankDataExpire.view && d == DataOf(m)
    requires HasData(noted) && noted.Keys !! rs.Own(op.key) && NotedAs(m, noted, d, op.key)
    requires forall r :: r in Elems(s) ==> r.key in m && m[r.key] == r
    modifies rs, rs.skipList, rs.skipList.repr, rs.rankDataExpire, rs.rankDataExpire.repr, rs.mapRankData.Values
    ensures fresh(rs.skipList.repr - old(rs.skipList.repr))
            && fresh(rs.rankDataExpire.repr - old(rs.rankDataExpire.repr))
    ensures fresh(rs.mapRankData.Values - m.Values)
    ensures rs.Valid() && rs.mapRankData.Keys <= m.Keys + {op.key}
    ensures UpsetDoes(SetupOf(rs), op.key, op.sortData, op.ts, Snap(Vectors(m), Keys(s), v), SnapOf(rs))
    ensures DataDoes(op, State(Snap(Vectors(m), Keys(s), v), d), StateOf(rs))
  {
    ghost var had := if op.key in m then d[op.key] else None;
    ghost var evicted;
    var change;
    change, evicted := UpsetKeyed(rs, op, m, s, v, noted, had);
    UpsetDecided(SetupOf(rs), op.key, op.sortData, op.ts, m, s, v, rs.mapRankData, rs.skipList.contents,
                 rs.rankDataExpire.view, change, evicted);
    UpsetData(SetupOf(rs), op, m, s, v, rs.mapRankData, rs.skipList.contents, rs.rankDataExpire.view, change, evicted,
              d, noted, had);
  }

  method DoUpsetFits(rs: RankSkip, op: Op)
    requires op.Upset? && Accepted(op, rs.width, rs.skipList.maxLevel) && Running(rs) && rs.skipList.num + 3 < TWO64
    modifies rs, rs.skipList, rs.skipList.repr, rs.rankDataExpire, rs.rankDataExpire.repr, rs.mapRankData.Values
    ensures Running(rs) && Grown(rs) && rs.mapRankData.Keys <= old(rs.mapRankData.Keys) + {op.key}
    ensures UpsetDoes(SetupOf(rs), op.key, op.sortData, op.ts, old(SnapOf(rs)), SnapOf(rs))
    ensures DataDoes(op, old(StateOf(rs)), StateOf(rs))
  {
    ghost var m, s, v := rs.mapRankData, rs.skipList.contents, rs.rankDataExpire.view;
    ghost var noted := NoteAll(rs, op.key);
    UpsetValues(rs, op, m, s, v, DataOf(m), noted);
  }

  /** What ChangeExtendData says about records and times. */
  ghost predicate ChangesTo(change: IncreaseRankData, width: nat, now: int, m: map<u64, RankData>, v: seq<Item>,
                            m': map<u64, RankData>, v': seq<Item>, ok: bool)
  {
    && (change.key in m ==> ok)
    && (change.key !in m ==> ok == (change.insertOnNonExistent && InRange(change.sets, width)))
    && (ok ==>
          && change.key in m' && m' == m[change.key := m'[change.key]]
          && m'[change.key].sortData ==
             NewVector(if change.key in m then m[change.key].sortData else change.initSortData, change)
          && Retimed(v, v', {}, change.key, now))
    && (!ok ==> m' == m && v' == v)
  }

  lemma ChangeDecided(change: IncreaseRankData, width: nat, now: int, m: map<u64, RankData>, s: seq<RankData>,
                      v: seq<Item>, m': map<u64, RankData>, s': seq<RankData>, v': seq<Item>, ok: bool)
    requires ChangesTo(change, width, now, m, v, m', v', ok)
    ensures ChangeDoes(change, width, now, Snap(Vectors(m), Keys(s), v), Snap(Vectors(m'), Keys(s'), v'))
  {
    if ok {
      SameRecord(m, m', change.key, m'[change.key]);
      VectorsStored(m, {}, change.key, m');
    }
  }

  /** ChangeExtendData with its effect as values; no record that was there changes its data. */
  method ChangeOn(rs: RankSkip, op: Op, ghost m: map<u64, RankData>, ghost v: seq<Item>,
                  ghost noted: map<RankData, Option<string>>, ghost had: Option<string>) returns (ok: bool)
    requires op.ChangeExtend? && Accepted(op, rs.width, rs.skipList.maxLevel) && rs.Valid()
    requires rs.skipList.num + 3 < TWO64 && m == rs.mapRankData && v == rs.rankDataExpire.view
    requires HasData(noted) && (op.change.key in m ==> m[op.change.key].data == had)
    modifies rs, rs.skipList, rs.skipList.repr, rs.rankDataExpire, rs.rankDataExpire.repr
    ensures fresh(rs.skipList.repr - old(rs.skipList.repr))
            && fresh(rs.rankDataExpire.repr - old(rs.rankDataExpire.repr))
    ensures rs.Valid() && ChangesTo(op.change, rs.width, op.now, m, v, rs.mapRankData, rs.rankDataExpire.view, ok)
    ensures ok ==> fresh(rs.mapRankData[op.change.key]) || rs.mapRankData[op.change.key] in m.Values
    ensures HasData(noted)
    ensures ok ==> rs.mapRankData[op.change.key].data == if op.change.key in m then had else op.change.initData
  {
    ok := rs.ChangeExtendData(op.change, op.now, op.height);
  }

  lemma ChangeRecords(change: IncreaseRankData, width: nat, now: int, m: map<u64, RankData>, v: seq<Item>,
                      m': map<u64, RankData>, v': seq<Item>, ok: bool)
    requires ChangesTo(change, width, now, m, v, m', v', ok)
    ensures m'.Keys <= m.Keys + {change.key}
    ensures if ok then m'.Values - m.Values <= {m'[change.key]} else m'.Values - m.Values == {}
  {
  }

  method ChangeKeyed(rs: RankSkip, op: Op, ghost m: map<u64, RankData>, ghost v: seq<Item>,
                     ghost noted: map<RankData, Option<string>>, ghost had: Option<string>) returns (ok: bool)
    requires op.ChangeExtend? && Accepted(op, rs.width, rs.skipList.maxLevel) && rs.Valid()
    requires rs.skipList.num + 3 < TWO64 && m == rs.mapRankData && v == rs.rankDataExpire.view
    requires HasData(noted) && (op.change.key in m ==> m[op.change.key].data == had)
    modifies rs, rs.skipList, rs.skipList.repr, rs.rankDataExpire, rs.rankDataExpire.repr
    ensures fresh(rs.skipList.repr - old(rs.skipList.repr))
            && fresh(rs.rankDataExpire.repr - old(rs.rankDataExpire.repr))
    ensures fresh(rs.mapRankData.Values - m.Values)
    ensures rs.Valid() && rs.mapRankData.Keys <= m.Keys + {op.change.key}
    ensures ChangesTo(op.change, rs.width, op.now, m, v, rs.mapRankData, rs.rankDataExpire.view, ok)
    ensures HasData(noted)
    ensures ok ==> rs.mapRankData[op.change.key].data == if op.change.key in m then had else op.change.initData
  {
    ok := ChangeOn(rs, op, m, v, noted, had);
    ChangeRecords(op.change, rs.width, op.now, m, v, rs.mapRankData, rs.rankDataExpire.view, ok);
  }

  lemma ChangeData(op: Op, width: nat, m: map<u64, RankData>, s: seq<RankData>, v: seq<Item>, m': map<u64, RankData>,
                   s': seq<RankData>, v': seq<Item>, ok: bool, d: map<u64, Option<string>>,
                   noted: map<RankData, Option<string>>, had: Option<string>)
    requires op.ChangeExtend? && ChangesTo(op.change, width, op.now, m, v, m', v', ok)
    requires NotedAs(m, noted, d, op.change.key) && HasData(noted) && (op.change.key in m ==> d[op.change.key] == had)
    requires ok ==> m'[op.change.key].data == if op.change.key in m then had else op.change.initData
    ensures DataDoes(op, State(Snap(Vectors(m), Keys(s), v), d), State(Snap(Vectors(m'), Keys(s'), v'), DataOf(m')))
  {
    DataTo(op, Snap(Vectors(m), Keys(s), v), Snap(Vectors(m'), Keys(s'), v'), m, d, m', op.change.key, noted);
  }

  /** The whole effect of a change, as values. */
  method ChangeValues(rs: RankSkip, op: Op, ghost m: map<u64, RankData>, ghost s: seq<RankData>, ghost v: seq<Item>,
                      ghost d: map<u64, Option<string>>, ghost noted: map<RankData, Option<string>>) returns (ok: bool)
    requires op.ChangeExtend? && Accepted(op, rs.width, rs.skipList.maxLevel) && rs.Valid()
    requires rs.skipList.num + 3 < TWO64
    requires m == rs.mapRankData && s == rs.skipList.contents && v == rs.rankDataExpire.view && d == DataOf(m)
    requires HasData(noted) && NotedAs(m, noted, d, op.change.key)
    modifies rs, rs.skipList, rs.skipList.repr, rs.rankDataExpire, rs.rankDataExpire.repr
    ensures fresh(rs.skipList.repr - old(rs.skipList.repr))
            && fresh(rs.rankDataExpire.repr - old(rs.rankDataExpire.repr))
    ensures rs.Valid() && (0 !in m ==> 0 !in rs.mapRankData)
    ensures rs.mapRankData.Keys <= m.Keys + {op.change.key} && fresh(rs.mapRankData.Values - m.Values)
    ensures ChangeDoes(op.change, rs.width, op.now, Snap(Vectors(m), Keys(s), v), SnapOf(rs))
    ensures DataDoes(op, State(Snap(Vectors(m), Keys(s), v), d), StateOf(rs))
  {
    ghost var had := if op.change.key in m then d[op.change.key] else None;
    ok := ChangeKeyed(rs, op, m, v, noted, had);
    ChangeDecided(op.change, rs.width, op.now, m, s, v, rs.mapRankData, rs.skipList.contents, rs.rankDataExpire.view,
                  ok);
    ChangeData(op, rs.width, m, s, v, rs.mapRankData, rs.skipList.contents, rs.rankDataExpire.view, ok, d, noted, had);
  }

  method DoChangeFits(rs: RankSkip, op: Op)
    requires op.ChangeExtend? && Accepted(op, rs.width, rs.skipList.maxLevel) && Running(rs)
    requires rs.skipList.num + 3 < TWO64
    modifies rs, rs.skipList, rs.skipList.repr, rs.rankDataExpire, rs.rankDataExpire.repr
    ensures Running(rs) && Grown(rs) && rs.mapRankData.Keys <= old(rs.mapRankData.Keys) + {op.change.key}
    ensures ChangeDoes(op.change, rs.width, op.now, old(SnapOf(rs)), SnapOf(rs))
    ensures DataDoes(op, old(StateOf(rs)), StateOf(rs))
  {
    ghost var m, s, v := rs.mapRankData, rs.skipList.contents, rs.rankDataExpire.view;
    ghost var noted := NoteAll(rs, op.change.key);
    var ok := ChangeValues(rs, op, m, s, v, DataOf(m), noted);
  }

  method DoChange(rs: RankSkip, op: Op)
    requires op.ChangeExtend? && Accepted(op, rs.width, rs.skipList.maxLevel) && Running(rs)
    requires |rs.mapRankData| + 3 < TWO64
    modifies rs, rs.skipList, rs.skipList.repr, rs.rankDataExpire, rs.rankDataExpire.repr
    ensures Running(rs) && Grown(rs) && |rs.mapRankData| <= |old(rs.mapRankData)| + 1
    ensures ChangeDoes(op.change, rs.width, op.now, old(SnapOf(rs)), SnapOf(rs))
    ensures DataDoes(op, old(StateOf(rs)), StateOf(rs))
  {
    ghost var m := rs.mapRankData;
    ListFits(rs);
    DoChangeFits(rs, op);
    OneMore(m, rs.mapRankData, op.change.key);
  }

  /** UpdateRankData; records other than that of the key keep their data. */
  method UpdateOn(rs: RankSkip, op: Op, ghost noted: map<RankData, Option<string>>)
    requires op.UpdateData? && Running(rs) && HasData(noted) && noted.Keys !! rs.Own(op.key)
    modifies rs.Own(op.key), rs.rankDataExpire, rs.rankDataExpire.repr
    ensures Running(rs) && rs.mapRankData == old(rs.mapRankData) && rs.skipList.contents == old(rs.skipList.contents)
    ensures fresh(rs.rankDataExpire.repr - old(rs.rankDataExpire.repr)) && rs.skipList.repr == old(rs.skipList.repr)
    ensures UpdateDoes(op.key, op.now, old(SnapOf(rs)), SnapOf(rs))
    ensures HasData(noted) && (op.key in rs.mapRankData ==> rs.mapRankData[op.key].data == op.data)
  {
    var _ := rs.UpdateRankData(op.key, op.data, op.now);
  }

  method DoUpdate(rs: RankSkip, op: Op)
    requires op.UpdateData? && Running(rs)
    modifies rs.mapRankData.Values, rs.rankDataExpire, rs.rankDataExpire.repr
    ensures Running(rs) && Grown(rs) && rs.mapRankData == old(rs.mapRankData)
    ensures UpdateDoes(op.key, op.now, old(SnapOf(rs)), SnapOf(rs))
    ensures DataDoes(op, old(StateOf(rs)), StateOf(rs))
  {
    ghost var m, a, d := rs.mapRankData, SnapOf(rs), DataOf(rs.mapRankData);
    ghost var noted := NoteAll(rs, op.key);
    UpdateOn(rs, op, noted);
    DataTo(op, a, SnapOf(rs), m, d, m, op.key, noted);
  }

  /** DeleteRankData; no record changes its data. */
  method DeleteOn(rs: RankSkip, op: Op, ghost noted: map<RankData, Option<string>>)
    requires op.Delete? && Running(rs) && HasData(noted)
    modifies rs, rs.skipList, rs.skipList.repr, rs.rankDataExpire, rs.rankDataExpire.repr
    ensures Running(rs) && Grown(rs) && |rs.mapRankData| <= |old(rs.mapRankData)|
    ensures Fewer(old(rs.mapRankData), old(rs.rankDataExpire.view), rs.mapRankData, rs.rankDataExpire.view, op.keys)
    ensures HasData(noted)
  {
    var _ := rs.DeleteRankData(op.keys);
  }

  ghost predicate Fewer(m: map<u64, RankData>, v: seq<Item>, m': map<u64, RankData>, v': seq<Item>, keys: seq<u64>) {
    m' == m - Elems(keys) && Untimed(v, v', Elems(keys))
  }

  lemma DeleteData(op: Op, m: map<u64, RankData>, s: seq<RankData>, v: seq<Item>, m': map<u64, RankData>,
                   s': seq<RankData>, v': seq<Item>, d: map<u64, Option<string>>, noted: map<RankData, Option<string>>)
    requires op.Delete? && Fewer(m, v, m', v', op.keys) && 0 !in m && NotedAs(m, noted, d, 0) && HasData(noted)
    ensures DeleteDoes(op.keys, Snap(Vectors(m), Keys(s), v), Snap(Vectors(m'), Keys(s'), v'))
    ensures DataDoes(op, State(Snap(Vectors(m), Keys(s), v), d), State(Snap(Vectors(m'), Keys(s'), v'), DataOf(m')))
  {
    VectorsFewer(m, Elems(op.keys));
    DataTo(op, Snap(Vectors(m), Keys(s), v), Snap(Vectors(m'), Keys(s'), v'), m, d, m', 0, noted);
  }

  method DoDelete(rs: RankSkip, op: Op)
    requires op.Delete? && Running(rs)
    modifies rs, rs.skipList, rs.skipList.repr, rs.rankDataExpire, rs.rankDataExpire.repr
    ensures Running(rs) && Grown(rs) && |rs.mapRankData| <= |old(rs.mapRankData)|
    ensures DeleteDoes(op.keys, old(SnapOf(rs)), SnapOf(rs))
    ensures DataDoes(op, old(StateOf(rs)), StateOf(rs))
  {
    ghost var m, s, v, d := rs.mapRankData, rs.skipList.contents, rs.rankDataExpire.view, DataOf(rs.mapRankData);
    ghost var noted := NoteAll(rs, 0);
    DeleteOn(rs, op, noted);
    DeleteData(op, m, s, v, rs.mapRankData, rs.skipList.contents, rs.rankDataExpire.view, d, noted);
  }

  lemma UnlistedKeys(out: seq<Item>)
    ensures forall k :: Unlisted(out, k) <==> k !in TimedKeys(out)
  {
    forall k
      ensures Unlisted(out, k) <==> k !in TimedKeys(out)
    {
      TimedKey(out, k);
      if !Unlisted(out, k) {
        var i :| 0 <= i < |out| && out[i].key == k;
        assert out[i] in out;
      }
    }
  }

  lemma PurgeGone(c: Setup, clock: seq<int>, m: map<u64, RankData>, s: seq<RankData>, v: seq<Item>,
                  m': map<u64, RankData>, s': seq<RankData>, v': seq<Item>, out: seq<Item>)
    requires c.expireMs != 0 && Picked(m, v, m', v', out, c.expireMs, clock) && (forall y :: y in v ==> y.key in m)
             && 0 !in m
    ensures Unlisted(out, 0) && m'.Keys <= m.Keys && m'.Values <= m.Values
    ensures PurgeDoes(c, clock, Snap(Vectors(m), Keys(s), v), Snap(Vectors(m'), Keys(s'), v'))
  {
    NoZeroKey(m, v, m', v', out, c.expireMs, clock);
    UnlistedKeys(out);
    assert m' == m - TimedKeys(out);
    VectorsFewer(m, TimedKeys(out));
  }

  /** The purge; no record changes its data. */
  method PurgeOn(rs: RankSkip, op: Op, ghost noted: map<RankData, Option<string>>)
    requires op.Purge? && Accepted(op, rs.width, rs.skipList.maxLevel) && Running(rs) && HasData(noted)
    modifies rs, rs.skipList, rs.skipList.repr, rs.rankDataExpire, rs.rankDataExpire.repr
    ensures Running(rs) && Grown(rs) && |rs.mapRankData| <= |old(rs.mapRankData)| && HasData(noted)
    ensures forall k :: k in rs.mapRankData ==> k in old(rs.mapRankData) && rs.mapRankData[k] == old(rs.mapRankData)[k]
    ensures PurgeDoes(SetupOf(rs), op.clock, old(SnapOf(rs)), SnapOf(rs))
  {
    ghost var m, s, v := rs.mapRankData, rs.skipList.contents, rs.rankDataExpire.view;
    rs.ViewKeys();
    ghost var out := rs.PickExpireKey(op.clock);
    if rs.expireMs != 0 {
      PurgeGone(SetupOf(rs), op.clock, m, s, v, rs.mapRankData, rs.skipList.contents, rs.rankDataExpire.view, out);
      Subset(rs.mapRankData.Keys, m.Keys);
    }
  }

  method DoPurge(rs: RankSkip, op: Op)
    requires op.Purge? && Accepted(op, rs.width, rs.skipList.maxLevel) && Running(rs)
    modifies rs, rs.skipList, rs.skipList.repr, rs.rankDataExpire, rs.rankDataExpire.repr
    ensures Running(rs) && Grown(rs) && |rs.mapRankData| <= |old(rs.mapRankData)|
    ensures PurgeDoes(SetupOf(rs), op.clock, old(SnapOf(rs)), SnapOf(rs))
    ensures DataDoes(op, old(StateOf(rs)), StateOf(rs))
  {
    ghost var m, a, d := rs.mapRankData, SnapOf(rs), DataOf(rs.mapRankData);
    ghost var noted := NoteAll(rs, 0);
    PurgeOn(rs, op, noted);
    DataTo(op, a, SnapOf(rs), m, d, rs.mapRankData, 0, noted);
  }

  /** A board that the next operation of a run can be applied to, with the boards of the run so far. */
  ghost predicate Ready(rs: RankSkip, ops: seq<Op>, before: seq<State>, a: State)
    reads rs, rs.skipList, rs.skipList.repr, rs.rankDataExpire, rs.rankDataExpire.repr, rs.mapRankData.Values
  {
    && Running(rs) && |ops| + 3 < TWO64 && |rs.mapRankData| < |before| <= |ops|
    && Accepted(ops[|before| - 1], rs.width, rs.skipList.maxLevel)
    && Linked(SetupOf(rs), rs.width, ops, before, a, StateOf(rs))
  }

  lemma Extended(rs: RankSkip, ops: seq<Op>, before: seq<State>, a: State, y: State)
    requires rs.Valid() && 0 < |before| <= |ops| && Linked(SetupOf(rs), rs.width, ops, before, a, y)
    requires StepDoes(SetupOf(rs), rs.width, ops[|before| - 1], y, StateOf(rs))
    ensures Linked(SetupOf(rs), rs.width, ops, before + [StateOf(rs)], a, StateOf(rs))
  {
    ValidAgrees(rs);
    LinkedNext(SetupOf(rs), rs.width, ops, before, a, y, StateOf(rs));
  }

  method NextUpset(rs: RankSkip, ops: seq<Op>, op: Op, ghost before: seq<State>, ghost a: State)
    returns (ghost snaps: seq<State>)
    requires Ready(rs, ops, before, a) && op == ops[|before| - 1] && op.Upset?
    modifies rs, rs.skipList, rs.skipList.repr, rs.rankDataExpire, rs.rankDataExpire.repr, rs.mapRankData.Values
    ensures Running(rs) && Grown(rs) && |rs.mapRankData| <= |before|
    ensures |snaps| == |before| + 1 && Linked(SetupOf(rs), rs.width, ops, snaps, a, StateOf(rs))
  {
    ghost var y := StateOf(rs);
    DoUpset(rs, op);
    Extended(rs, ops, before, a, y);
    snaps := before + [StateOf(rs)];
  }

  method NextChange(rs: RankSkip, ops: seq<Op>, op: Op, ghost before: seq<State>, ghost a: State)
    returns (ghost snaps: seq<State>)
    requires Ready(rs, ops, before, a) && op == ops[|before| - 1] && op.ChangeExtend?
    modifies rs, rs.skipList, rs.skipList.repr, rs.rankDataExpire, rs.rankDataExpire.repr, rs.mapRankData.Values
    ensures Running(rs) && Grown(rs) && |rs.mapRankData| <= |before|
    ensures |snaps| == |before| + 1 && Linked(SetupOf(rs), rs.width, ops, snaps, a, StateOf(rs))
  {
    ghost var y := StateOf(rs);
    DoChange(rs, op);
    Extended(rs, ops, before, a, y);
    snaps := before + [StateOf(rs)];
  }

  method NextUpdate(rs: RankSkip, ops: seq<Op>, op: Op, ghost before: seq<State>, ghost a: State)
    returns (ghost snaps: seq<State>)
    requires Ready(rs, ops, before, a) && op == ops[|before| - 1] && op.UpdateData?
    modifies rs, rs.skipList, rs.skipList.repr, rs.rankDataExpire, rs.rankDataExpire.repr, rs.mapRankData.Values
    ensures Running(rs) && Grown(rs) && |rs.mapRankData| <= |before|
    ensures |snaps| == |before| + 1 && Linked(SetupOf(rs), rs.width, ops, snaps, a, StateOf(rs))
  {
    ghost var y := StateOf(rs);
    DoUpdate(rs, op);
    Extended(rs, ops, before, a, y);
    snaps := before + [StateOf(rs)];
  }

  method NextDelete(rs: RankSkip, ops: seq<Op>, op: Op, ghost before: seq<State>, ghost a: State)
    returns (ghost snaps: seq<State>)
    requires Ready(rs, ops, before, a) && op == ops[|before| - 1] && op.Delete?
    modifies rs, rs.skipList, rs.skipList.repr, rs.rankDataExpire, rs.rankDataExpire.repr, rs.mapRankData.Values
    ensures Running(rs) && Grown(rs) && |rs.mapRankData| <= |before|
    ensures |snaps| == |before| + 1 && Linked(SetupOf(rs), rs.width, ops, snaps, a, StateOf(rs))
  {
    ghost var y := StateOf(rs);
    DoDelete(rs, op);
    Extended(rs, ops, before, a, y);
    snaps := before + [StateOf(rs)];
  }

  method NextPurge(rs: RankSkip, ops: seq<Op>, op: Op, ghost before: seq<State>, ghost a: State)
    returns (ghost snaps: seq<State>)
    requires Ready(rs, ops, before, a) && op == ops[|before| - 1] && op.Purge?
    modifies rs, rs.skipList, rs.skipList.repr, rs.rankDataExpire, rs.rankDataExpire.repr, rs.mapRankData.Values
    ensures Running(rs) && Grown(rs) && |rs.mapRankData| <= |before|
    ensures |snaps| == |before| + 1 && Linked(SetupOf(rs), rs.width, ops, snaps, a, StateOf(rs))
  {
    ghost var y := StateOf(rs);
    DoPurge(rs, op);
    Extended(rs, ops, before, a, y);
    snaps := before + [StateOf(rs)];
  }

  method ApplyNext(rs: RankSkip, ops: seq<Op>, ghost before: seq<State>, ghost a: State, i: nat)
    returns (ghost snaps: seq<State>)
    requires Ready(rs, ops, before, a) && i == |before| - 1
    modifies rs, rs.skipList, rs.skipList.repr, rs.rankDataExpire, rs.rankDataExpire.repr, rs.mapRankData.Values
    ensures Running(rs) && Grown(rs) && |rs.mapRankData| <= |before|
    ensures |snaps| == |before| + 1 && Linked(SetupOf(rs), rs.width, ops, snaps, a, StateOf(rs))
  {
    match ops[i]
    case Upset(_, _, _, _, _) => snaps := NextUpset(rs, ops, ops[i], before, a);
    case ChangeExtend(_, _, _) => snaps := NextChange(rs, ops, ops[i], before, a);
    case UpdateData(_, _, _) => snaps := NextUpdate(rs, ops, ops[i], before, a);
    case Delete(_) => snaps := NextDelete(rs, ops, ops[i], before, a);
    case Purge(_) => snaps := NextPurge(rs, ops, ops[i], before, a);
  }

  method ApplyFrom(rs: RankSkip, ops: seq<Op>, i: nat, ghost before: seq<State>, ghost a: State)
    returns (ghost snaps: seq<State>)
    requires i <= |ops| && |ops| + 3 < TWO64 && Running(rs) && |rs.mapRankData| <= i
    requires forall k :: i <= k < |ops| ==> Accepted(ops[k], rs.width, rs.skipList.maxLevel)
    requires |before| == i + 1 && Linked(SetupOf(rs), rs.width, ops, before, a, StateOf(rs))
    modifies rs, rs.skipList, rs.skipList.repr, rs.rankDataExpire, rs.rankDataExpire.repr, rs.mapRankData.Values
    ensures Running(rs) && |snaps| == |ops| + 1 && Linked(SetupOf(rs), rs.width, ops, snaps, a, StateOf(rs))
    decreases |ops| - i
  {
    if i == |ops| {
      return before;
    }
    snaps := ApplyNext(rs, ops, before, a, i);
    snaps := ApplyFrom(rs, ops, i + 1, snaps, a);
  }

  /** In every run from an empty board, with every choice of heights and every clock, after each
      operation the key map, the list and the expiry heap hold the same keys, ranked strictly,
      and each operation has done to vectors and times what it should. */
  method RunAll(isDes: bool, maxLevel: nat, maxLen: u64, expireMs: int, ghost width: nat, ops: seq<Op>)
    returns (rs: RankSkip, ghost snaps: seq<State>)
    requires maxLevel in {8, 16, 32, 64} && |ops| + 3 < TWO64
    requires forall k :: 0 <= k < |ops| ==> Accepted(ops[k], width, maxLevel)
    ensures rs.Valid() && SetupOf(rs) == Setup(isDes, maxLen, expireMs) && rs.width == width
    ensures |snaps| == |ops| + 1
            && Linked(SetupOf(rs), width, ops, snaps, State(Snap(map[], [], []), map[]), StateOf(rs))
  {
    rs := new RankSkip(isDes, maxLevel, maxLen, expireMs, width);
    ghost var none := StateOf(rs);
    assert none == State(Snap(map[], [], []), map[]);
    ValidAgrees(rs);
    snaps := ApplyFrom(rs, ops, 0, [none], none);
  }

  // ---- key 0 ----

  lemma OnlyItem(v: seq<Item>, key: u64, ts: int)
    requires Retimed([], v, {}, key, ts)
    ensures |v| > 0 && v[0] == Item(key, ts)
  {
    assert Item(key, ts) in v;
    assert v[0] in v;
  }

  /** A board that holds key 0 can lose the agreement of its indexes: the purge takes the expired
      record out of the expiry heap and leaves it in the list and the map. */
  method ZeroKeyStuck() returns (rs: RankSkip)
    ensures rs.Indexed() && !rs.Valid() && 0 in rs.mapRankData
  {
    rs := new RankSkip(false, 8, 0, 1, 1);
    var ok := rs.ChangeExtendData(IncreaseRankData(0, [], [], true, None, [5]), 0, 1);
    PurgeZero(rs);
  }

  method PurgeZero(rs: RankSkip)
    requires rs.Valid() && rs.expireMs == 1 && 0 in rs.mapRankData && Retimed([], rs.rankDataExpire.view, {}, 0, 0)
    modifies rs, rs.skipList, rs.skipList.repr, rs.rankDataExpire, rs.rankDataExpire.repr
    ensures rs.Indexed() && !rs.Valid() && 0 in rs.mapRankData
  {
    ghost var v := rs.rankDataExpire.view;
    OnlyItem(v, 0, 0);
    var clock := seq(MAX_PICK_EXPIRE_NUM, _ => 1);
    ghost var out := rs.PickExpireKey(clock);
    assert out == [v[0]];
  }
}

/** Leaderboard records and their order (sysservice/rankservice/RankData.go, RankFunc.go). */
module RankOrder {
  import opened Words
  import opened SkipOrder

  class RankData {
    const key: u64
    const sortData: seq<i64>
    var data: Option<string>
    var refreshTimestamp: int

    constructor (key: u64, sortData: seq<i64>, data: Option<string>, refreshTimestamp: int)
      ensures this.key == key && this.sortData == sortData && this.data == data
      ensures this.refreshTimestamp == refreshTimestamp
    {
      this.key := key;
      this.sortData := sortData;
      this.data := data;
      this.refreshTimestamp := refreshTimestamp;
    }
  }

  /** Lexicographic comparison of the common prefix: 1, -1 or 0. */
  function Lex(a: seq<int>, b: seq<int>): (r: int)
    ensures r in {-1, 0, 1}
  {
    if a == [] || b == [] then 0
    else if a[0] > b[0] then 1
    else if a[0] < b[0] then -1
    else Lex(a[1..], b[1..])
  }

  /** i is the first index at which a and b differ, and a has the larger value there. */
  ghost predicate AboveAt(a: seq<int>, b: seq<int>, i: nat) {
    i < |a| && i < |b| && a[..i] == b[..i] && a[i] > b[i]
  }

  ghost predicate Above(a: seq<int>, b: seq<int>) {
    exists i: nat :: AboveAt(a, b, i)
  }

  lemma AboveOnce(a: seq<int>, b: seq<int>, i: nat, j: nat)
    requires AboveAt(a, b, i)
    ensures !AboveAt(b, a, j)
  {
    if j < i {
      assert a[..i][j] == a[j] && b[..i][j] == b[j];
    } else if i < j <= |a| && j <= |b| {
      assert a[..j][i] == a[i] && b[..j][i] == b[i];
    }
  }

  /** The comparison is decided at the first index at which the vectors differ. */
  lemma {:induction false} LexMeaning(a: seq<int>, b: seq<int>)
    ensures (Lex(a, b) == 1 <==> Above(a, b)) && (Lex(a, b) == -1 <==> Above(b, a))
    ensures Lex(a, b) in {-1, 0, 1} && (Lex(a, b) == 0 <==> !Above(a, b) && !Above(b, a))
  {
    if a != [] && b != [] {
      if a[0] > b[0] {
        assert AboveAt(a, b, 0);
        forall j: nat ensures !AboveAt(b, a, j) { AboveOnce(a, b, 0, j); }
      } else if a[0] < b[0] {
        assert AboveAt(b, a, 0);
        forall j: nat ensures !AboveAt(a, b, j) { AboveOnce(b, a, 0, j); }
      } else {
        LexMeaning(a[1..], b[1..]);
        AboveTail(a, b);
        AboveTail(b, a);
      }
    }
  }

  lemma AboveTail(a: seq<int>, b: seq<int>)
    requires a != [] && b != [] && a[0] == b[0]
    ensures Above(a, b) <==> Above(a[1..], b[1..])
  {
    forall i: nat | AboveAt(a[1..], b[1..], i)
      ensures AboveAt(a, b, i + 1)
    {
      assert a[..i + 1] == [a[0]] + a[1..][..i] && b[..i + 1] == [b[0]] + b[1..][..i];
    }
    forall i: nat | AboveAt(a, b, i)
      ensures i > 0 && AboveAt(a[1..], b[1..], i - 1)
    {
      assert a[1..][..i - 1] == a[..i][1..] && b[1..][..i - 1] == b[..i][1..];
    }
  }

  /** `compareMoreThan`: the sign of the first difference. */
  method CompareMoreThan(first: seq<int>, second: seq<int>) returns (r: int)
    ensures r == 1 <==> exists i: nat :: AboveAt(first, second, i)
    ensures r == -1 <==> exists i: nat :: AboveAt(second, first, i)
    ensures r in {-1, 0, 1} && r == Lex(first, second)
  {
    LexMeaning(first, second);
    var minLen := |first|;
    if |first| > |second| {
      minLen := |second|;
    }
    for i := 0 to minLen
      invariant Lex(first[i..], second[i..]) == Lex(first, second)
    {
      if first[i] > second[i] {
        return 1;
      }
      if first[i] < second[i] {
        return -1;
      }
    }
    return 0;
  }

  /** `compareIsEqual`. */
  method CompareIsEqual(first: seq<int>, second: seq<int>) returns (r: bool)
    ensures r == (first == second)
  {
    if |first| != |second| {
      return false;
    }
    var i := |first| - 1;
    while i >= 0
      invariant -1 <= i < |first| && forall k :: i < k < |first| ==> first[k] == second[k]
    {
      if first[i] != second[i] {
        return false;
      }
      i := i - 1;
    }
    return true;
  }

  /** a ranks strictly better than b: at the first difference it has the larger value on a descending
      board, and the smaller one on an ascending board. */
  ghost predicate Better(isDes: bool, a: seq<int>, b: seq<int>) {
    if isDes then Above(a, b) else Above(b, a)
  }

  lemma BetterLex(isDes: bool, a: seq<int>, b: seq<int>)
    ensures Better(isDes, a, b) <==> if isDes then Lex(a, b) > 0 else Lex(a, b) < 0
  {
    LexMeaning(a, b);
  }

  /** `ascCompare`. */
  function AscCompare(p: RankData, other: RankData): int {
    if other.key == p.key then 0
    else
      var f := Lex(p.sortData, other.sortData);
      if f == 0 then (if p.key > other.key then 1 else -1) else f
  }

  /** `desCompare`. */
  function DesCompare(p: RankData, other: RankData): int {
    if other.key == p.key then 0
    else
      var f := Lex(other.sortData, p.sortData);
      if f == 0 then (if p.key > other.key then -1 else 1) else f
  }

  function RankCmp(isDes: bool): (RankData, RankData) -> int {
    if isDes then DesCompare else AscCompare
  }

  /** A record stands before another one if its vector is better, or equally good and its key smaller,
      or larger on a descending board. */
  lemma RankCmpMeaning(isDes: bool, p: RankData, q: RankData)
    ensures RankCmp(isDes)(p, q) == 0 <==> p.key == q.key
    ensures RankCmp(isDes)(p, q) < 0 <==>
            && p.key != q.key
            && (|| Better(isDes, p.sortData, q.sortData)
                || (!Better(isDes, q.sortData, p.sortData) && if isDes then p.key > q.key else p.key < q.key))
  {
    LexSign(p.sortData, q.sortData);
    BetterLex(isDes, p.sortData, q.sortData);
    BetterLex(isDes, q.sortData, p.sortData);
  }

  lemma {:induction false} LexSign(a: seq<int>, b: seq<int>)
    ensures Lex(a, b) == -Lex(b, a)
  {
    if a != [] && b != [] && a[0] == b[0] { LexSign(a[1..], b[1..]); }
  }

  /** On vectors of one length the order is total and transitive. */
  lemma {:induction false} LexOrder(a: seq<int>, b: seq<int>, c: seq<int>)
    requires |a| == |b| == |c|
    ensures Lex(a, b) == 0 <==> a == b
    ensures Lex(a, b) <= 0 && Lex(b, c) <= 0 ==> Lex(a, c) <= 0
    ensures Lex(a, b) <= 0 && Lex(b, c) <= 0 && (Lex(a, b) < 0 || Lex(b, c) < 0) ==> Lex(a, c) < 0
  {
    if a != [] {
      LexOrder(a[1..], b[1..], c[1..]);
      assert a[0] == b[0] && a[1..] == b[1..] ==> a == [b[0]] + b[1..] == b;
    }
  }

  /** Records that can stand on one board: distinct keys, vectors of one length. */
  ghost predicate OneBoard(X: set<RankData>, width: nat) {
    forall x :: x in X ==> |x.sortData| == width && Owner(X, x.key) == Some(x)
  }

  /** Some record of X with key k. */
  ghost function Owner(X: set<RankData>, k: u64): Option<RankData> {
    if exists x :: x in X && x.key == k then var x :| x in X && x.key == k; Some(x) else None
  }

  lemma CompareOrder(x: RankData, y: RankData, z: RankData, isDes: bool)
    requires |x.sortData| == |y.sortData| == |z.sortData|
    requires x.key == y.key ==> x == y
    requires y.key == z.key ==> y == z
    requires x.key == z.key ==> x == z
    ensures var c := RankCmp(isDes);
      && c(x, x) == 0 && (c(x, y) < 0 <==> c(y, x) > 0)
      && (c(x, y) < 0 && c(y, z) < 0 ==> c(x, z) < 0)
      && (c(x, y) == 0 ==> x == y)
  {
    LexSign(x.sortData, y.sortData);
    LexSign(y.sortData, z.sortData);
    LexSign(x.sortData, z.sortData);
    LexOrder(x.sortData, y.sortData, z.sortData);
    LexOrder(z.sortData, y.sortData, x.sortData);
  }

  /** The comparison of either mode is a total order on the records of one board. */
  lemma BoardLawful(X: set<RankData>, width: nat, isDes: bool)
    requires OneBoard(X, width)
    ensures Lawful(RankCmp(isDes), X)
  {
    var c := RankCmp(isDes);
    forall x | x in X ensures c(x, x) == 0 {}
    forall x, y | x in X && y in X ensures c(x, y) < 0 <==> c(y, x) > 0 {
      CompareOrder(x, y, y, isDes);
    }
    forall x, y, z | x in X && y in X && z in X && c(x, y) < 0 && c(y, z) < 0 ensures c(x, z) < 0 {
      CompareOrder(x, y, z, isDes);
    }
    forall x, y, z | x in X && y in X && z in X && c(x, y) == 0 ensures c(x, z) < 0 <==> c(y, z) < 0 {
      CompareOrder(x, y, z, isDes);
    }
  }
}

/** The text functions that the cron parser relies on: splitting at a character and decimal numbers. */
module CronText {
  import opened Words

  // ---- splitting ----

  /** strings.Split with a separator of one character; the empty string has one empty part. */
  function Split(s: string, c: char): (parts: seq<string>)
    ensures |parts| >= 1
  {
    if s == "" then [""] else
    var rest := Split(s[1..], c);
    if s[0] == c then [""] + rest else [[s[0]] + rest[0]] + rest[1..]
  }

  function Join(parts: seq<string>, c: char): string
    requires |parts| >= 1
  {
    if |parts| == 1 then parts[0] else parts[0] + [c] + Join(parts[1..], c)
  }

  lemma {:induction false} JoinSplit(s: string, c: char)
    ensures Join(Split(s, c), c) == s
    ensures forall k :: 0 <= k < |Split(s, c)| ==> c !in Split(s, c)[k]
  {
    if s != "" {
      JoinSplit(s[1..], c);
      var rest := Split(s[1..], c);
      assert s == [s[0]] + s[1..];
      if s[0] == c {
        assert Split(s, c)[1..] == rest;
      } else if |rest| > 1 {
        assert Split(s, c)[1..] == rest[1..];
      }
    }
  }

  lemma {:induction false} SplitFirst(p: string, t: string, c: char)
    requires c !in p
    ensures Split(p, c) == [p]
    ensures Split(p + [c] + t, c) == [p] + Split(t, c)
  {
    if p == "" {
      assert (p + [c] + t)[1..] == t;
    } else {
      SplitFirst(p[1..], t, c);
      assert (p + [c] + t)[1..] == p[1..] + [c] + t;
      assert p == [p[0]] + p[1..];
    }
  }

  /** Splitting undoes joining and joining undoes splitting. */
  lemma {:induction false} SplitJoin(parts: seq<string>, c: char)
    requires |parts| >= 1 && forall k :: 0 <= k < |parts| ==> c !in parts[k]
    ensures Split(Join(parts, c), c) == parts
  {
    if |parts| == 1 {
      SplitFirst(parts[0], "", c);
      assert parts == [parts[0]];
    } else {
      SplitJoin(parts[1..], c);
      SplitFirst(parts[0], Join(parts[1..], c), c);
      assert parts == [parts[0]] + parts[1..];
    }
  }

  // ---- numbers ----

  const INT_MAX: int := 0x7FFF_FFFF_FFFF_FFFF

  predicate IsDigit(c: char) {
    '0' <= c <= '9'
  }

  predicate AllDigits(s: string) {
    s != "" && forall i :: 0 <= i < |s| ==> IsDigit(s[i])
  }

  function DigitsValue(s: string): (v: nat)
    requires forall i :: 0 <= i < |s| ==> IsDigit(s[i])
  {
    if s == "" then 0 else
    assert IsDigit(s[|s| - 1]);
    10 * DigitsValue(s[..|s| - 1]) + (s[|s| - 1] as int - '0' as int)
  }

  /** strconv.Atoi on a 64-bit platform. */
  function Atoi(s: string): Option<int> {
    var digits := if s != "" && (s[0] == '-' || s[0] == '+') then s[1..] else s;
    if !AllDigits(digits) then None
    else
      var v: int := DigitsValue(digits);
      if s[0] == '-' then (if v <= INT_MAX + 1 then Some(-v) else None)
      else if v <= INT_MAX then Some(v) else None
  }

  function Decimal(n: nat): (s: string)
    ensures AllDigits(s)
  {
    var last := ['0' + (n % 10) as char];
    if n < 10 then last else Decimal(n / 10) + last
  }

  lemma {:induction false} DecimalValue(n: nat)
    ensures DigitsValue(Decimal(n)) == n
  {
    var s := Decimal(n);
    if n >= 10 {
      DecimalValue(n / 10);
      assert s[..|s| - 1] == Decimal(n / 10);
    } else {
      assert s[..|s| - 1] == "";
    }
  }

  /** Atoi reads back every decimal numeral that fits. */
  lemma AtoiDecimal(n: nat)
    ensures Atoi(Decimal(n)) == if n <= INT_MAX then Some(n) else None
  {
    DecimalValue(n);
    assert IsDigit(Decimal(n)[0]);
  }

  lemma {:induction false} LeadingZero(s: string)
    requires AllDigits(s)
    ensures AllDigits("0" + s) && DigitsValue("0" + s) == DigitsValue(s)
    decreases |s|
  {
    var t := "0" + s;
    assert t[|t| - 1] == s[|s| - 1] && t[..|t| - 1] == "0" + s[..|s| - 1];
    if |s| > 1 {
      LeadingZero(s[..|s| - 1]);
    } else {
      assert s[..0] == "" && "0" + s[..0] == "0" && "0"[..0] == "";
    }
  }

  /** A numeral may have a sign. */
  lemma AtoiSigned(n: int)
    requires n >= 0
    ensures Atoi("-" + Decimal(n)) == if n <= INT_MAX + 1 then Some(-n) else None
    ensures Atoi("+" + Decimal(n)) == if n <= INT_MAX then Some(n) else None
  {
    DecimalValue(n);
    assert ("-" + Decimal(n))[1..] == Decimal(n) && ("+" + Decimal(n))[1..] == Decimal(n);
  }

  /** Leading zeros count for nothing. */
  lemma AtoiZero(s: string)
    requires AllDigits(s)
    ensures Atoi("0" + s) == Atoi(s)
  {
    LeadingZero(s);
    assert IsDigit(s[0]);
  }

  /** A number contains no separator. */
  lemma AtoiPlain(s: string)
    requires Atoi(s).Some?
    ensures s != "" && '/' !in s && ',' !in s
  {
    var digits := if s[0] == '-' || s[0] == '+' then s[1..] else s;
    assert AllDigits(digits);
    forall i | 0 <= i < |s|
      ensures s[i] == '-' || s[i] == '+' || IsDigit(s[i])
    {
      if i > 0 && digits != s {
        assert s[i] == digits[i - 1];
      }
    }
  }

  // ---- fields between white space ----

  /** White space as `unicode.IsSpace` has it. */
  predicate IsSpace(c: char) {
    || c in "\t\n\U{0B}\U{0C}\r \U{85}\U{A0}\U{1680}\U{2028}\U{2029}\U{202F}\U{205F}\U{3000}"
    || '\U{2000}' <= c <= '\U{200A}'
  }

  /** The length of the leading part of s whose characters all are, or all are not, white space. */
  function Lead(s: string, space: bool): (n: nat)
    ensures n <= |s| && (forall i :: 0 <= i < n ==> IsSpace(s[i]) == space) && (n < |s| ==> IsSpace(s[n]) != space)
  {
    if s == [] || IsSpace(s[0]) != space then 0 else 1 + Lead(s[1..], space)
  }

  lemma {:induction false} LeadIs(s: string, space: bool, n: nat)
    requires n <= |s| && (forall i :: 0 <= i < n ==> IsSpace(s[i]) == space) && (n < |s| ==> IsSpace(s[n]) != space)
    ensures Lead(s, space) == n
  {
    if n > 0 {
      LeadIs(s[1..], space, n - 1);
    }
  }

  /** `strings.Fields`: the words between runs of white space. */
  function Fields(s: string): (fields: seq<string>)
    decreases |s|
  {
    var t := s[Lead(s, true)..];
    if t == [] then []
    else
      var n := Lead(t, false);
      [t[..n]] + Fields(t[n..])
  }

  predicate IsWord(w: string) {
    w != [] && forall i :: 0 <= i < |w| ==> !IsSpace(w[i])
  }

  predicate IsGap(g: string) {
    forall i :: 0 <= i < |g| ==> IsSpace(g[i])
  }

  /** The words with the gaps before, between and after them. */
  function Spread(gaps: seq<string>, words: seq<string>): string
    requires |gaps| == |words| + 1
  {
    if words == [] then gaps[0] else gaps[0] + words[0] + Spread(gaps[1..], words[1..])
  }

  /** Gaps of white space, those between words not empty. */
  predicate AreGaps(gaps: seq<string>, first: bool) {
    forall i :: 0 <= i < |gaps| ==> IsGap(gaps[i]) && ((i > 0 || !first) && i < |gaps| - 1 ==> gaps[i] != [])
  }

  /** However words are spread, their fields are the words. */
  lemma {:induction false} FieldsSpread(gaps: seq<string>, words: seq<string>, first: bool)
    requires |gaps| == |words| + 1 && AreGaps(gaps, first) && forall i :: 0 <= i < |words| ==> IsWord(words[i])
    ensures Fields(Spread(gaps, words)) == words
    decreases |words|
  {
    var s, g := Spread(gaps, words), gaps[0];
    if words == [] {
      LeadIs(s, true, |s|);
    } else {
      var w, rest := words[0], Spread(gaps[1..], words[1..]);
      assert s == g + (w + rest);
      LeadIs(s, true, |g|);
      var t := s[|g|..];
      assert t == w + rest;
      RestGap(gaps[1..], words[1..]);
      LeadIs(t, false, |w|);
      assert t[..|w|] == w && t[|w|..] == rest;
      FieldsSpread(gaps[1..], words[1..], false);
    }
  }

  /** What follows a word is empty or begins with white space. */
  lemma RestGap(gaps: seq<string>, words: seq<string>)
    requires |gaps| == |words| + 1 && AreGaps(gaps, false)
    ensures var rest := Spread(gaps, words); rest == [] || IsSpace(rest[0])
  {
    assert IsGap(gaps[0]);
  }

  lemma GapsCons(g: string, more: seq<string>, first: bool)
    requires IsGap(g) && AreGaps(more, false) && (first || g != [] || more == [])
    ensures AreGaps([g] + more, first)
  {
    forall i | 0 <= i < |more| + 1
      ensures var gaps := [g] + more; IsGap(gaps[i]) && ((i > 0 || !first) && i < |gaps| - 1 ==> gaps[i] != [])
    {
      if i > 0 {
        assert IsGap(more[i - 1]);
      }
    }
  }

  lemma SpreadCons(g: string, w: string, gaps: seq<string>, words: seq<string>)
    requires |gaps| == |words| + 1
    ensures Spread([g] + gaps, [w] + words) == g + w + Spread(gaps, words)
  {
    assert ([g] + gaps)[1..] == gaps && ([w] + words)[1..] == words;
  }

  /** Every text is its fields spread with some gaps. */
  lemma {:induction false} SpreadFields(s: string, first: bool) returns (gaps: seq<string>)
    requires first || s == [] || IsSpace(s[0])
    ensures |gaps| == |Fields(s)| + 1 && AreGaps(gaps, first) && Spread(gaps, Fields(s)) == s
    ensures forall i :: 0 <= i < |Fields(s)| ==> IsWord(Fields(s)[i])
    decreases |s|
  {
    var k := Lead(s, true);
    var g, t := s[..k], s[k..];
    if t == [] {
      gaps := [s];
    } else {
      var n := Lead(t, false);
      var w, rest := t[..n], t[n..];
      var more := SpreadFields(rest, false);
      gaps := [g] + more;
      SpreadStep(s, k, n);
      FieldsStep(s, k, n);
      GapsCons(g, more, first);
      SpreadCons(g, w, more, Fields(rest));
    }
  }

  lemma FieldsStep(s: string, k: nat, n: nat)
    requires k == Lead(s, true) < |s| && n == Lead(s[k..], false)
    ensures Fields(s) == [s[k..][..n]] + Fields(s[k..][n..])
  {
  }

  lemma SpreadStep(s: string, k: nat, n: nat)
    requires k == Lead(s, true) < |s| && n == Lead(s[k..], false)
    ensures n > 0 && IsWord(s[k..][..n]) && IsGap(s[..k])
    ensures s[..k] + s[k..][..n] + s[k..][n..] == s && |s[k..][n..]| < |s|
    ensures s[k..][n..] == [] || IsSpace(s[k..][n..][0])
    ensures s != [] && IsSpace(s[0]) ==> s[..k] != []
  {
    var t := s[k..];
    assert t[0] == s[k];
    assert s[..k] + t[..n] + t[n..] == s[..k] + t;
  }
}

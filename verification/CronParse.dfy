/**
 * Parsing of cron expressions (util/timer/cronexpr.go).  A 64-bit mask is written as the set of
 * its one bits.
 */
module CronParse {
  import opened Words
  import opened CronText
  import CronNext

  datatype Error = TooManySlashes | TooManyHyphens | InvalidRange | OutOfRange | InvalidIncrement | WrongFieldCount

  datatype Result<T> = Ok(value: T) | Err(error: Error)

  /** One comma term: every incr-th number from start to end. */
  datatype Term = Term(start: int, end: int, incr: int)

  /** The k-th number of the progression from a in steps of b. */
  function Prog(a: int, b: int, k: int): int {
    a + k * b
  }

  ghost predicate Contains(t: Term, i: int) {
    i <= t.end && exists k :: k >= 0 && Prog(t.start, t.incr, k) == i
  }

  predicate InBounds(t: Term, min: int, max: int) {
    min <= t.start <= t.end <= max && 1 <= t.incr <= INT_MAX
  }

  // ---- one term ----

  function ParseRange(parts: seq<string>, stepped: bool, min: int, max: int): Result<(int, int)>
    requires |parts| >= 1
  {
    if |parts| > 2 then Err(TooManyHyphens)
    else if parts[0] == "*" then
      if |parts| != 1 then Err(InvalidRange) else Ok((min, max))
    else
      var start := Atoi(parts[0]);
      if start.None? then Err(InvalidRange)
      else if |parts| == 1 then Ok((start.value, if stepped then max else start.value))
      else
        var end := Atoi(parts[1]);
        if end.None? then Err(InvalidRange) else Ok((start.value, end.value))
  }

  function ParseTerm(text: string, min: int, max: int): (r: Result<Term>)
    ensures r.Ok? ==> InBounds(r.value, min, max)
  {
    var rangeAndIncr := Split(text, '/');
    if |rangeAndIncr| > 2 then Err(TooManySlashes) else
    var range := ParseRange(Split(rangeAndIncr[0], '-'), |rangeAndIncr| == 2, min, max);
    if range.Err? then Err(range.error) else
    var (start, end) := range.value;
    if start > end then Err(InvalidRange)
    else if start < min || end > max then Err(OutOfRange)
    else if |rangeAndIncr| == 1 then Ok(Term(start, end, 1))
    else
      var incr := Atoi(rangeAndIncr[1]);
      if incr.None? || incr.value <= 0 then Err(InvalidIncrement) else Ok(Term(start, end, incr.value))
  }

  // ---- the documented grammar ----

  /** The six forms of a term, with the numbers as they are spelled. */
  datatype Form =
    | Star
    | Num(a: string)
    | Range(a: string, b: string)
    | StarStep(n: string)
    | NumStep(a: string, n: string)
    | RangeStep(a: string, b: string, n: string)

  function Spell(f: Form): string {
    match f
    case Star => "*"
    case Num(a) => a
    case Range(a, b) => a + "-" + b
    case StarStep(n) => "*/" + n
    case NumStep(a, n) => a + "/" + n
    case RangeStep(a, b, n) => a + "-" + b + "/" + n
  }

  predicate Bound(s: string) {
    Atoi(s).Some? && '-' !in s
  }

  predicate WellFormed(f: Form) {
    match f
    case Star => true
    case Num(a) => Bound(a)
    case Range(a, b) => Bound(a) && Bound(b)
    case StarStep(n) => Atoi(n).Some?
    case NumStep(a, n) => Bound(a) && Atoi(n).Some?
    case RangeStep(a, b, n) => Bound(a) && Bound(b) && Atoi(n).Some?
  }

  function Meaning(f: Form, min: int, max: int): Term
    requires WellFormed(f)
  {
    match f
    case Star => Term(min, max, 1)
    case Num(a) => Term(Atoi(a).value, Atoi(a).value, 1)
    case Range(a, b) => Term(Atoi(a).value, Atoi(b).value, 1)
    case StarStep(n) => Term(min, max, Atoi(n).value)
    case NumStep(a, n) => Term(Atoi(a).value, max, Atoi(n).value)
    case RangeStep(a, b, n) => Term(Atoi(a).value, Atoi(b).value, Atoi(n).value)
  }

  lemma SplitOne(p: string, c: char)
    requires c !in p
    ensures Split(p, c) == [p]
  {
    SplitFirst(p, "", c);
  }

  lemma SplitTwo(p: string, q: string, c: char)
    requires c !in p && c !in q
    ensures Split(p + [c] + q, c) == [p, q]
  {
    SplitFirst(p, q, c);
    SplitFirst(q, "", c);
  }

  /** The part of a form before its slash. */
  function SpellRange(f: Form): string {
    match f
    case Star => "*"
    case StarStep(_) => "*"
    case Num(a) => a
    case NumStep(a, _) => a
    case Range(a, b) => a + "-" + b
    case RangeStep(a, b, _) => a + "-" + b
  }

  lemma SplitRange(f: Form)
    requires WellFormed(f)
    ensures '/' !in SpellRange(f)
    ensures Split(SpellRange(f), '-') ==
            if f.Star? || f.StarStep? then ["*"] else if f.Num? || f.NumStep? then [f.a] else [f.a, f.b]
  {
    if f.Star? || f.StarStep? {
      SplitOne("*", '-');
    } else {
      AtoiPlain(f.a);
      if f.Num? || f.NumStep? {
        SplitOne(f.a, '-');
      } else {
        AtoiPlain(f.b);
        SplitTwo(f.a, f.b, '-');
      }
    }
  }

  predicate Stepped(f: Form) {
    f.StarStep? || f.NumStep? || f.RangeStep?
  }

  lemma ParseSpelledRange(f: Form, min: int, max: int)
    requires WellFormed(f)
    ensures var t := Meaning(f, min, max);
            ParseRange(Split(SpellRange(f), '-'), Stepped(f), min, max) == Ok((t.start, t.end))
  {
    SplitRange(f);
    if !f.Star? && !f.StarStep? {
      AtoiPlain(f.a);
      assert Atoi("*") == None;
      assert f.a != "*";
    }
  }

  lemma SplitSpelled(f: Form)
    requires WellFormed(f)
    ensures Split(Spell(f), '/') == if Stepped(f) then [SpellRange(f), f.n] else [SpellRange(f)]
  {
    SplitRange(f);
    var r := SpellRange(f);
    if Stepped(f) {
      AtoiPlain(f.n);
      assert Spell(f) == r + ['/'] + f.n;
      SplitTwo(r, f.n, '/');
    } else {
      SplitOne(r, '/');
    }
  }

  /** A spelled form is read as its meaning, or refused when that is out of bounds. */
  lemma ParseSpelled(f: Form, min: int, max: int)
    requires WellFormed(f)
    ensures var t := Meaning(f, min, max);
            if InBounds(t, min, max) then ParseTerm(Spell(f), min, max) == Ok(t) else ParseTerm(Spell(f), min, max).Err?
  {
    ParseSpelledRange(f, min, max);
    SplitSpelled(f);
  }

  /** The form of an accepted text. */
  function FormOf(text: string): Form {
    var p := Split(text, '/');
    var q := Split(p[0], '-');
    if |p| == 1 then
      if q[0] == "*" then Star else if |q| == 1 then Num(q[0]) else Range(q[0], q[1])
    else if q[0] == "*" then StarStep(p[1]) else if |q| == 1 then NumStep(q[0], p[1]) else RangeStep(q[0], q[1], p[1])
  }

  /** Every accepted text is one of the six forms. */
  lemma AcceptedIsForm(text: string, min: int, max: int)
    requires ParseTerm(text, min, max).Ok?
    ensures var f := FormOf(text);
            WellFormed(f) && Spell(f) == text
  {
    var p := Split(text, '/');
    var q := Split(p[0], '-');
    JoinSplit(text, '/');
    JoinSplit(p[0], '-');
    assert p[0] == if |q| == 1 then q[0] else q[0] + "-" + q[1] by {
      if |q| == 2 { assert Join(q[1..], '-') == q[1]; }
    }
    assert text == if |p| == 1 then p[0] else p[0] + "/" + p[1] by {
      if |p| == 2 { assert Join(p[1..], '/') == p[1]; }
    }
    assert '-' !in q[0];
    if |q| == 2 { assert '-' !in q[1]; }
  }

  /** A term is accepted with value t exactly when it spells one of the six documented forms and
      that form means t within the bounds of the field. */
  lemma Grammar(text: string, min: int, max: int, t: Term)
    ensures ParseTerm(text, min, max) == Ok(t) <==>
            exists f :: WellFormed(f) && Spell(f) == text && Meaning(f, min, max) == t && InBounds(t, min, max)
  {
    if ParseTerm(text, min, max) == Ok(t) {
      AcceptedIsForm(text, min, max);
      ParseSpelled(FormOf(text), min, max);
    }
    forall f | WellFormed(f) && Spell(f) == text && Meaning(f, min, max) == t && InBounds(t, min, max)
      ensures ParseTerm(text, min, max) == Ok(t)
    {
      ParseSpelled(f, min, max);
    }
  }

  // ---- masks ----

  /** All ones shifted left by k. */
  function Ones(k: int): (m: set<int>)
    ensures forall i :: i in m <==> 0 <= i < 64 && k <= i
  {
    set i: int {:trigger Bit(i)} | 0 <= i < 64 && k <= i
  }

  function Not(m: set<int>): set<int> {
    set i | 0 <= i < 64 && i !in m
  }

  /** 1 << uint(i); the bit falls off for i outside the word. */
  function Bit(i: int): set<int> {
    if 0 <= i < 64 then {i} else {}
  }

  /** Addition of Go's int. */
  function Add64(a: int, b: int): int {
    (a + b + INT_MAX + 1) % TWO64 - INT_MAX - 1
  }

  ghost function Members(t: Term): set<int> {
    set i | 0 <= i < 64 && Contains(t, i)
  }

  /** A step so large that the loop variable overflows after the first number. */
  predicate Overflows(t: Term) {
    t.start + t.incr > INT_MAX
  }

  /** Two overflowing steps together lead this much back. */
  function Back(t: Term): int {
    2 * (t.incr - INT_MAX - 1)
  }

  /** What the loop then sets: numbers downwards from start. */
  ghost function Descending(t: Term): set<int> {
    set i | 0 <= i < 64 && Contains(Term(t.start, 63, Back(t)), i)
  }

  /** The bits that a term contributes. */
  ghost function TermBits(t: Term): set<int> {
    if Overflows(t) then Descending(t) else Members(t)
  }

  lemma ProgMono(a: int, b: int, k: int, n: int)
    requires k <= n
    ensures b >= 0 ==> Prog(a, b, k) <= Prog(a, b, n)
    ensures b <= 0 ==> Prog(a, b, k) >= Prog(a, b, n)
  {
    assert Prog(a, b, n) == Prog(a, b, k) + (n - k) * b;
  }

  lemma ProgNext(a: int, b: int, k: int)
    ensures Prog(a, b, 0) == a && Prog(a, b, k + 1) == Prog(a, b, k) + b
  {
  }

  /** The start alone, when the second number of the progression is outside. */
  lemma OnlyStart(t: Term)
    requires 0 <= t.start < 64 && t.start <= t.end
    requires (t.incr > 0 && t.start + t.incr > t.end) || t.start + t.incr < 0
    ensures forall i :: 0 <= i < 64 && Contains(t, i) <==> i == t.start
  {
    ProgNext(t.start, t.incr, 0);
    forall k | k >= 1
      ensures Prog(t.start, t.incr, k) > t.end || Prog(t.start, t.incr, k) < 0
    {
      ProgMono(t.start, t.incr, 1, k);
    }
  }

  /** A term sets exactly the bits of the numbers that it contains if and only if two steps from
      its start do not go round the word. */
  lemma TermMeaning(t: Term)
    requires InBounds(t, 0, 63)
    ensures TermBits(t) == Members(t) <==> t.start + 2 * t.incr < TWO64
  {
    if Overflows(t) {
      OnlyStart(t);
      var down := Term(t.start, 63, Back(t));
      if t.start + Back(t) >= 0 {
        ProgNext(t.start, Back(t), 0);
        assert Prog(t.start, Back(t), 1) == t.start + Back(t);
        assert Contains(down, t.start + Back(t));
        assert t.start + Back(t) in Descending(t) && t.start + Back(t) !in Members(t);
      } else {
        OnlyStart(down);
      }
    }
  }

  /** Such a step: in a field of minutes, 5/9223372036854775807 also fires at minute 3. */
  lemma OverflowExample()
    ensures ParseTerm(Spell(NumStep(Decimal(5), Decimal(INT_MAX))), 0, 59) == Ok(Term(5, 59, INT_MAX))
    ensures 3 in TermBits(Term(5, 59, INT_MAX)) && 3 !in Members(Term(5, 59, INT_MAX))
  {
    var t := Term(5, 59, INT_MAX);
    AtoiDecimal(5);
    AtoiDecimal(INT_MAX);
    ParseSpelled(NumStep(Decimal(5), Decimal(INT_MAX)), 0, 59);
    OnlyStart(t);
    assert Prog(5, Back(t), 1) == 3;
  }

  // ---- the loop over one term ----

  /** j is one of the first k numbers of a progression. */
  ghost predicate Hit(a: int, b: int, k: int, j: int) {
    0 <= j < 64 && exists n :: 0 <= n < k && Prog(a, b, n) == j
  }

  ghost predicate Collected(a: int, b: int, k: int, m: set<int>) {
    k >= 0 && forall j :: j in m <==> Hit(a, b, k, j)
  }

  lemma Collect(a: int, b: int, k: int, m: set<int>)
    requires Collected(a, b, k, m)
    ensures Collected(a, b, k + 1, m + Bit(Prog(a, b, k)))
  {
    forall j | Hit(a, b, k + 1, j)
      ensures j in m + Bit(Prog(a, b, k))
    {
      var n :| 0 <= n < k + 1 && Prog(a, b, n) == j;
      if n < k {
        assert Hit(a, b, k, j);
      }
    }
  }

  /** Where the overflowing loop stands: at a number of the downward progression, at its
      overflowed successor, or past the end. */
  datatype Phase = Small | Wrapped | Over

  ghost predicate Looping(t: Term, i: int, m: set<int>, k: int, ph: Phase) {
    if !Overflows(t) then
      && ph == Small && Collected(t.start, t.incr, k, m) && i == Prog(t.start, t.incr, k) >= t.start
      && forall n :: 0 <= n < k ==> Prog(t.start, t.incr, n) <= t.end
    else
      var s := Prog(t.start, Back(t), k);
      && Collected(t.start, Back(t), k, m)
      && s <= t.start
      && match ph
         case Small => i == s && t.incr - INT_MAX - 1 <= s
         case Wrapped => i == s - t.incr && t.incr - INT_MAX - 1 <= s
         case Over => s < 0 && i > t.end
  }

  ghost function Remaining(t: Term, i: int, ph: Phase): int {
    if !Overflows(t) then t.end - i + 1
    else match ph
         case Small => 2 * (i + 64) + 1
         case Wrapped => 2 * (i + t.incr + 64) + 2
         case Over => 0
  }

  lemma AddWraps(a: int, b: int)
    requires -INT_MAX - 1 <= a <= INT_MAX && 0 <= b <= INT_MAX
    ensures Add64(a, b) == if a + b <= INT_MAX then a + b else a + b - TWO64
  {
  }

  lemma LoopStep(t: Term, i: int, m: set<int>, k: int, ph: Phase) returns (k': int, ph': Phase)
    requires InBounds(t, 0, 63) && Looping(t, i, m, k, ph) && i <= t.end
    ensures Looping(t, Add64(i, t.incr), m + Bit(i), k', ph')
    ensures Remaining(t, i, ph) > 0 && Remaining(t, Add64(i, t.incr), ph') < Remaining(t, i, ph)
  {
    AddWraps(i, t.incr);
    if !Overflows(t) {
      Collect(t.start, t.incr, k, m);
      ProgNext(t.start, t.incr, k);
      if k >= 1 {
        ProgMono(t.start, t.incr, 1, k);
      }
      k', ph' := k + 1, Small;
    } else if ph == Small {
      Collect(t.start, Back(t), k, m);
      ProgNext(t.start, Back(t), k);
      k', ph' := k + 1, if i >= INT_MAX + 1 - t.incr then Wrapped else Over;
    } else {
      k', ph' := k, Small;
      assert Bit(i) == {};
    }
  }

  lemma LoopDone(t: Term, i: int, m: set<int>, k: int, ph: Phase)
    requires InBounds(t, 0, 63) && Looping(t, i, m, k, ph) && i > t.end
    ensures m == TermBits(t)
  {
    forall n | n >= k
      ensures Overflows(t) ==> Prog(t.start, Back(t), n) < 0
      ensures !Overflows(t) ==> Prog(t.start, t.incr, n) > t.end
    {
      if Overflows(t) { ProgMono(t.start, Back(t), k, n); } else { ProgMono(t.start, t.incr, k, n); }
    }
    if Overflows(t) {
      forall j | Hit(t.start, Back(t), k, j)
        ensures Contains(Term(t.start, 63, Back(t)), j)
      {
      }
    } else {
      forall j | Hit(t.start, t.incr, k, j)
        ensures Contains(t, j)
      {
      }
    }
  }

  /** The bits of a term with a step: with Go's wrapping addition the loop still ends. */
  method StepLoop(t: Term) returns (m: set<int>)
    requires InBounds(t, 0, 63)
    ensures m == TermBits(t)
  {
    m := {};
    var i := t.start;
    ghost var k, ph := 0, Small;
    ProgNext(t.start, t.incr, 0);
    ProgNext(t.start, Back(t), 0);
    while i <= t.end
      invariant Looping(t, i, m, k, ph)
      decreases Remaining(t, i, ph)
    {
      k, ph := LoopStep(t, i, m, k, ph);
      m := m + Bit(i);
      i := Add64(i, t.incr);
    }
    LoopDone(t, i, m, k, ph);
  }

  lemma EveryNumber(t: Term)
    requires InBounds(t, 0, 63) && t.incr == 1
    ensures TermBits(t) == Not(Ones(t.end + 1)) * Ones(t.start)
  {
    forall i | t.start <= i <= t.end
      ensures Contains(t, i)
    {
      assert Prog(t.start, 1, i - t.start) == i;
    }
    forall k | k >= 0
      ensures Prog(t.start, t.incr, k) >= t.start
    {
    }
  }

  // ---- fields and expressions ----

  ghost predicate Accepted(texts: seq<string>, min: int, max: int) {
    forall k :: 0 <= k < |texts| ==> ParseTerm(texts[k], min, max).Ok?
  }

  /** The term sets bit i. */
  ghost predicate Sets(text: string, min: int, max: int, i: int) {
    var term := ParseTerm(text, min, max);
    term.Ok? && i in TermBits(term.value)
  }

  ghost predicate SomeSets(texts: seq<string>, min: int, max: int, i: int) {
    exists k :: 0 <= k < |texts| && Sets(texts[k], min, max, i)
  }

  ghost predicate Union(texts: seq<string>, min: int, max: int, m: set<int>) {
    forall i :: i in m <==> SomeSets(texts, min, max, i)
  }

  lemma SomeSnoc(texts: seq<string>, text: string, min: int, max: int, i: int)
    ensures SomeSets(texts + [text], min, max, i) <==> SomeSets(texts, min, max, i) || Sets(text, min, max, i)
  {
    var all := texts + [text];
    if SomeSets(texts, min, max, i) {
      var k :| 0 <= k < |texts| && Sets(texts[k], min, max, i);
      assert all[k] == texts[k];
    }
    if Sets(text, min, max, i) {
      assert all[|texts|] == text;
    }
  }

  lemma UnionSnoc(texts: seq<string>, k: int, min: int, max: int, before: set<int>, bits: set<int>)
    requires 0 <= k < |texts| && Union(texts[..k], min, max, before)
    requires forall i :: i in bits <==> Sets(texts[k], min, max, i)
    ensures Union(texts[..k + 1], min, max, before + bits)
  {
    assert texts[..k + 1] == texts[..k] + [texts[k]];
    forall i
      ensures SomeSets(texts[..k + 1], min, max, i) <==> SomeSets(texts[..k], min, max, i) || i in bits
    {
      SomeSnoc(texts[..k], texts[k], min, max, i);
    }
  }

  method ParseOneTerm(text: string, min: int, max: int) returns (r: Result<set<int>>)
    requires 0 <= min <= max < 64
    ensures r.Ok? ==> ParseTerm(text, min, max).Ok? && forall i :: i in r.value <==> Sets(text, min, max, i)
    ensures r.Err? ==> ParseTerm(text, min, max) == Err(r.error)
  {
    var term := ParseTerm(text, min, max);
    if term.Err? {
      return Err(term.error);
    }
    var t := term.value;
    var bits;
    if t.incr == 1 {
      EveryNumber(t);
      bits := Not(Ones(t.end + 1)) * Ones(t.start);
    } else {
      bits := StepLoop(t);
    }
    r := Ok(bits);
  }

  lemma AcceptedSnoc(texts: seq<string>, k: int, min: int, max: int)
    requires 0 <= k < |texts| && Accepted(texts[..k], min, max) && ParseTerm(texts[k], min, max).Ok?
    ensures Accepted(texts[..k + 1], min, max)
  {
    var more := texts[..k + 1];
    forall n | 0 <= n < |more|
      ensures ParseTerm(more[n], min, max).Ok?
    {
      assert n < k ==> more[n] == texts[..k][n];
    }
  }

  /** The error of the first term that is refused. */
  ghost predicate FirstError(texts: seq<string>, min: int, max: int, e: Error) {
    exists k :: 0 <= k < |texts| && Accepted(texts[..k], min, max) && ParseTerm(texts[k], min, max) == Err(e)
  }

  method ParseCronField(field: string, min: int, max: int) returns (r: Result<set<int>>)
    requires 0 <= min <= max < 64
    ensures r.Ok? ==> Accepted(Split(field, ','), min, max) && Union(Split(field, ','), min, max, r.value)
    ensures r.Err? ==> FirstError(Split(field, ','), min, max, r.error)
  {
    var fields := Split(field, ',');
    var mask: set<int> := {};
    for k := 0 to |fields|
      invariant Accepted(fields[..k], min, max) && Union(fields[..k], min, max, mask)
    {
      var term := ParseOneTerm(fields[k], min, max);
      if term.Err? {
        return Err(term.error);
      }
      AcceptedSnoc(fields, k, min, max);
      UnionSnoc(fields, k, min, max, mask, term.value);
      mask := mask + term.value;
    }
    assert fields[..|fields|] == fields;
    r := Ok(mask);
  }

  /** Bit i is set if and only if some comma term contains i, when no term's step goes round the word. */
  lemma FieldMeaning(texts: seq<string>, min: int, max: int, m: set<int>, i: int)
    requires 0 <= min <= max < 64 && Accepted(texts, min, max) && Union(texts, min, max, m)
    requires forall k :: 0 <= k < |texts| ==> var t := ParseTerm(texts[k], min, max).value;
                                              t.start + 2 * t.incr < TWO64
    ensures i in m <==>
            && min <= i <= max
            && exists k :: 0 <= k < |texts| && Contains(ParseTerm(texts[k], min, max).value, i)
  {
    forall k | 0 <= k < |texts|
      ensures Sets(texts[k], min, max, i) <==> min <= i <= max && Contains(ParseTerm(texts[k], min, max).value, i)
    {
      var t := ParseTerm(texts[k], min, max).value;
      TermMeaning(t);
      forall n | n >= 0
        ensures Prog(t.start, t.incr, n) >= t.start
      {
        ProgMono(t.start, t.incr, 0, n);
      }
    }
  }

  ghost predicate Reads(field: string, min: int, max: int, m: set<int>) {
    Accepted(Split(field, ','), min, max) && Union(Split(field, ','), min, max, m)
  }

  ghost predicate Refused(field: string, min: int, max: int, e: Error) {
    FirstError(Split(field, ','), min, max, e)
  }

  /** Six fields; the seconds may be left out and are then 0. */
  function Padded(fields: seq<string>): (f: seq<string>)
    ensures |fields| == 5 ==> |f| == 6 && f[0] == "0" && forall i :: 0 <= i < 5 ==> f[i + 1] == fields[i]
    ensures |fields| != 5 ==> f == fields
  {
    if |fields| == 5 then ["0"] + fields else fields
  }

  /** The expression is split at white space; each mask is that of its field within the field's own
      bounds, or some field is refused. */
  method NewCronExpr(expr: string) returns (r: Result<CronNext.CronExpr>)
    ensures |Padded(Fields(expr))| != 6 ==> r == Err(WrongFieldCount)
    ensures |Padded(Fields(expr))| == 6 ==>
              var f := Padded(Fields(expr));
              if r.Ok? then
                var e := r.value;
                && Reads(f[0], 0, 59, e.sec) && Reads(f[1], 0, 59, e.min) && Reads(f[2], 0, 23, e.hour)
                && Reads(f[3], 1, 31, e.dom) && Reads(f[4], 1, 12, e.month) && Reads(f[5], 0, 6, e.dow)
              else
                || Refused(f[0], 0, 59, r.error) || Refused(f[1], 0, 59, r.error) || Refused(f[2], 0, 23, r.error)
                || Refused(f[3], 1, 31, r.error) || Refused(f[4], 1, 12, r.error) || Refused(f[5], 0, 6, r.error)
  {
    r := ParseFields(Fields(expr));
  }

  method ParseFields(fields: seq<string>) returns (r: Result<CronNext.CronExpr>)
    ensures |Padded(fields)| != 6 ==> r == Err(WrongFieldCount)
    ensures |Padded(fields)| == 6 ==>
              var f := Padded(fields);
              if r.Ok? then
                var e := r.value;
                && Reads(f[0], 0, 59, e.sec) && Reads(f[1], 0, 59, e.min) && Reads(f[2], 0, 23, e.hour)
                && Reads(f[3], 1, 31, e.dom) && Reads(f[4], 1, 12, e.month) && Reads(f[5], 0, 6, e.dow)
              else
                || Refused(f[0], 0, 59, r.error) || Refused(f[1], 0, 59, r.error) || Refused(f[2], 0, 23, r.error)
                || Refused(f[3], 1, 31, r.error) || Refused(f[4], 1, 12, r.error) || Refused(f[5], 0, 6, r.error)
  {
    if |fields| != 5 && |fields| != 6 {
      return Err(WrongFieldCount);
    }
    var f := Padded(fields);
    var sec := ParseCronField(f[0], 0, 59);
    if sec.Err? { return Err(sec.error); }
    var min := ParseCronField(f[1], 0, 59);
    if min.Err? { return Err(min.error); }
    var hour := ParseCronField(f[2], 0, 23);
    if hour.Err? { return Err(hour.error); }
    var dom := ParseCronField(f[3], 1, 31);
    if dom.Err? { return Err(dom.error); }
    var month := ParseCronField(f[4], 1, 12);
    if month.Err? { return Err(month.error); }
    var dow := ParseCronField(f[5], 0, 6);
    if dow.Err? { return Err(dow.error); }
    r := Ok(CronNext.CronExpr(sec.value, min.value, hour.value, dom.value, month.value, dow.value));
  }
}

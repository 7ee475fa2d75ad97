/** From the text of a cron expression to the next second that its text means (util/timer/cronexpr.go). */
module CronSchedule {
  import opened Words
  import opened CronText
  import opened CronTime
  import CronNext
  import opened CronParse

  /** Some comma term of the field contains i. */
  ghost predicate Names(field: string, min: int, max: int, i: int) {
    var texts := Split(field, ',');
    exists k :: 0 <= k < |texts| && Named(texts[k], min, max, i)
  }

  ghost predicate Named(text: string, min: int, max: int, i: int) {
    var term := ParseTerm(text, min, max);
    min <= i <= max && term.Ok? && Contains(term.value, i)
  }

  /** The field names every number within its bounds. */
  ghost predicate Unrestricted(field: string, min: int, max: int) {
    forall i :: min <= i <= max ==> Names(field, min, max, i)
  }

  /** No step of the field is so large that the loop over it goes round the word. */
  ghost predicate SmallSteps(field: string, min: int, max: int) {
    var texts := Split(field, ',');
    forall k :: 0 <= k < |texts| && ParseTerm(texts[k], min, max).Ok? ==> SmallStep(ParseTerm(texts[k], min, max).value)
  }

  ghost predicate SmallStep(t: Term) {
    t.start + 2 * t.incr < TWO64
  }

  /** The mask of a field holds exactly the numbers that its text names. */
  lemma MaskNames(field: string, min: int, max: int, m: set<int>, i: int)
    requires 0 <= min <= max < 64 && Reads(field, min, max, m) && SmallSteps(field, min, max)
    ensures (i in m <==> Names(field, min, max, i)) && (i in m ==> min <= i <= max)
  {
    var texts := Split(field, ',');
    forall k | 0 <= k < |texts|
      ensures var t := ParseTerm(texts[k], min, max).value; t.start + 2 * t.incr < TWO64
    {
      assert SmallStep(ParseTerm(texts[k], min, max).value);
    }
    FieldMeaning(texts, min, max, m, i);
    if i in m {
      var k :| 0 <= k < |texts| && Contains(ParseTerm(texts[k], min, max).value, i);
      assert Named(texts[k], min, max, i);
    }
  }

  lemma MaskFull(field: string, min: int, max: int, m: set<int>, all: set<int>)
    requires 0 <= min <= max < 64 && Reads(field, min, max, m) && SmallSteps(field, min, max)
    requires forall i :: i in all <==> min <= i <= max
    ensures m == all <==> Unrestricted(field, min, max)
  {
    if m == all {
      forall i | min <= i <= max
        ensures Names(field, min, max, i)
      {
        assert i in all;
        MaskNames(field, min, max, m, i);
      }
    } else if Unrestricted(field, min, max) {
      forall i
        ensures i in m <==> i in all
      {
        assert i in all ==> Names(field, min, max, i);
        MaskNames(field, min, max, m, i);
      }
      assert false;
    }
  }

  /** The text of six fields means t: two restricted day fields are alternatives. */
  ghost predicate Means(f: seq<string>, t: Time)
    requires |f| == 6 && Valid(t)
  {
    && Names(f[0], 0, 59, t.sec) && Names(f[1], 0, 59, t.min) && Names(f[2], 0, 23, t.hour)
    && Names(f[4], 1, 12, t.month)
    && var byMonth, byWeek := Names(f[3], 1, 31, t.day), Names(f[5], 0, 6, Weekday(t));
       if !Unrestricted(f[3], 1, 31) && !Unrestricted(f[5], 0, 6) then byMonth || byWeek else byMonth && byWeek
  }

  ghost predicate AllSmall(f: seq<string>)
    requires |f| == 6
  {
    && SmallSteps(f[0], 0, 59) && SmallSteps(f[1], 0, 59) && SmallSteps(f[2], 0, 23)
    && SmallSteps(f[3], 1, 31) && SmallSteps(f[4], 1, 12) && SmallSteps(f[5], 0, 6)
  }

  ghost predicate ReadsAll(f: seq<string>, e: CronNext.CronExpr)
    requires |f| == 6
  {
    && Reads(f[0], 0, 59, e.sec) && Reads(f[1], 0, 59, e.min) && Reads(f[2], 0, 23, e.hour)
    && Reads(f[3], 1, 31, e.dom) && Reads(f[4], 1, 12, e.month) && Reads(f[5], 0, 6, e.dow)
  }

  /** The first refused term of some field has this error. */
  ghost predicate RefusesSome(f: seq<string>, e: Error)
    requires |f| == 6
  {
    || Refused(f[0], 0, 59, e) || Refused(f[1], 0, 59, e) || Refused(f[2], 0, 23, e)
    || Refused(f[3], 1, 31, e) || Refused(f[4], 1, 12, e) || Refused(f[5], 0, 6, e)
  }

  /** A parsed expression matches exactly the seconds that its text means. */
  lemma MatchesMeaning(f: seq<string>, e: CronNext.CronExpr, t: Time)
    requires |f| == 6 && ReadsAll(f, e) && AllSmall(f) && Valid(t)
    ensures CronNext.Matches(e, t) <==> Means(f, t)
  {
    MaskNames(f[0], 0, 59, e.sec, t.sec);
    MaskNames(f[1], 0, 59, e.min, t.min);
    MaskNames(f[2], 0, 23, e.hour, t.hour);
    MaskNames(f[3], 1, 31, e.dom, t.day);
    MaskNames(f[4], 1, 12, e.month, t.month);
    MaskNames(f[5], 0, 6, e.dow, Weekday(t));
    MaskFull(f[3], 1, 31, e.dom, CronNext.EVERY_DAY);
    MaskFull(f[5], 0, 6, e.dow, CronNext.EVERY_WEEKDAY);
    CronNext.DayRule(e, t);
  }

  /** The first second after t0 that the text means; none exactly when it means no second up to the
      end of the year after that of the upcoming second. */
  ghost predicate IsNext(f: seq<string>, t0: Time, r: Option<Time>)
    requires |f| == 6 && Valid(t0)
  {
    && (r.Some? ==> Valid(r.value) && Lt(t0, r.value) && Means(f, r.value))
    && (r.Some? ==> forall u :: Valid(u) && Lt(t0, u) && Means(f, u) ==> !Lt(u, r.value))
    && (r.None? <==> forall u :: Valid(u) && Lt(t0, u) && u.year <= AddSecond(t0).year + 1 ==> !Means(f, u))
  }

  /** `NewCronExpr` followed by `Next`. */
  method NextOf(expr: string, t0: Time) returns (r: Result<Option<Time>>)
    requires Valid(t0)
    ensures |Padded(Fields(expr))| != 6 ==> r == Err(WrongFieldCount)
    ensures |Padded(Fields(expr))| == 6 && r.Err? ==> RefusesSome(Padded(Fields(expr)), r.error)
    ensures |Padded(Fields(expr))| == 6 && r.Ok? && AllSmall(Padded(Fields(expr))) ==>
              IsNext(Padded(Fields(expr)), t0, r.value)
  {
    var e := NewCronExpr(expr);
    if e.Err? {
      return Err(e.error);
    }
    var t := CronNext.Next(e.value, t0);
    ghost var f := Padded(Fields(expr));
    if AllSmall(f) {
      forall u | Valid(u)
        ensures CronNext.Matches(e.value, u) <==> Means(f, u)
      {
        MatchesMeaning(f, e.value, u);
      }
    }
    r := Ok(t);
  }
}

/**
 * The search for the next time that a cron expression fires (util/timer/cronexpr.go).
 * A 64-bit mask is written as the set of its one bits.
 */
module CronNext {
  import opened Words
  import opened CronTime

  datatype CronExpr = CronExpr(sec: set<int>, min: set<int>, hour: set<int>,
                               dom: set<int>, month: set<int>, dow: set<int>)

  const EVERY_DAY: set<int> := set d | 1 <= d <= 31

  const EVERY_WEEKDAY: set<int> := set d | 0 <= d <= 6

  predicate MatchDay(e: CronExpr, t: Time)
    requires Valid(t)
  {
    if e.dom == EVERY_DAY then Weekday(t) in e.dow
    else if e.dow == EVERY_WEEKDAY then t.day in e.dom
    else Weekday(t) in e.dow || t.day in e.dom
  }

  /** The rule of the POSIX crontab utility: two restricted day fields are alternatives, and
      an unrestricted one leaves the decision to the other. */
  lemma DayRule(e: CronExpr, t: Time)
    requires Valid(t)
    ensures var byMonth, byWeek := t.day in e.dom, Weekday(t) in e.dow;
            MatchDay(e, t) == if e.dom != EVERY_DAY && e.dow != EVERY_WEEKDAY then byMonth || byWeek
                              else byMonth && byWeek
  {
    assert t.day in EVERY_DAY && Weekday(t) in EVERY_WEEKDAY;
  }

  /** All six fields accept t. */
  predicate Matches(e: CronExpr, t: Time)
    requires Valid(t)
  {
    t.month in e.month && MatchDay(e, t) && t.hour in e.hour && t.min in e.min && t.sec in e.sec
  }

  /** No second from a up to but excluding b matches. */
  ghost predicate NoMatch(e: CronExpr, a: Time, b: Time) {
    forall u {:trigger Matches(e, u)} :: Valid(u) && !Lt(u, a) && Lt(u, b) ==> !Matches(e, u)
  }

  /** Once the search has moved, all units below the first mismatching one are at their start. */
  predicate Aligned(e: CronExpr, t: Time)
    requires Valid(t)
  {
    && (t.month !in e.month ==> t == MonthStart(t))
    && (!MatchDay(e, t) ==> t == DayStart(t))
    && (t.hour !in e.hour ==> t.min == 0 && t.sec == 0)
    && (t.min !in e.min ==> t.sec == 0)
  }

  /** What holds throughout the search that began at second a. */
  ghost predicate Searching(e: CronExpr, a: Time, t: Time, moved: bool) {
    Valid(t) && NoMatch(e, a, t) && (moved ==> Aligned(e, t))
  }

  /** What one field's loop gives: it either stays or moves forward, and asks for another round
      exactly when the unit above it has changed. */
  ghost predicate Advanced(t: Time, r: Time, again: bool) {
    (r == t || Lt(t, r)) && (if again then Lt(t, r) else r.year == t.year)
  }

  // ---- one step of each loop ----

  /** A block [t, r) of mismatching seconds extends the searched stretch. */
  lemma Extend(e: CronExpr, a: Time, t: Time, s: Time, r: Time)
    requires NoMatch(e, a, t) && !Lt(t, s) && NoMatch(e, s, r)
    ensures NoMatch(e, a, r)
  {
  }

  lemma StepMonth(e: CronExpr, a: Time, was: Time, t: Time)
    requires Valid(t) && t.month !in e.month && t == MonthStart(t)
    requires NoMatch(e, a, was) && Valid(was) && t == MonthStart(was)
    ensures Searching(e, a, AddMonth(t), true) && Lt(was, AddMonth(t))
  {
    assert NoMatch(e, t, AddMonth(t));
    Extend(e, a, was, t, AddMonth(t));
  }

  lemma StepDay(e: CronExpr, a: Time, was: Time, t: Time)
    requires Valid(t) && !MatchDay(e, t) && t == DayStart(t) && t.month in e.month
    requires NoMatch(e, a, was) && Valid(was) && t == DayStart(was)
    ensures Searching(e, a, AddDay(t), true) && Lt(was, AddDay(t))
    ensures AddDay(t).day != 1 ==> AddDay(t) == t.(day := t.day + 1)
  {
    assert NoMatch(e, t, AddDay(t));
    Extend(e, a, was, t, AddDay(t));
  }

  lemma StepHour(e: CronExpr, a: Time, was: Time, t: Time)
    requires Valid(t) && t.hour !in e.hour && t.min == t.sec == 0 && t.month in e.month && MatchDay(e, t)
    requires NoMatch(e, a, was) && Valid(was) && t == was.(min := 0, sec := 0)
    ensures Searching(e, a, AddHour(t), true) && Lt(was, AddHour(t))
  {
    assert NoMatch(e, t, AddHour(t));
    Extend(e, a, was, t, AddHour(t));
  }

  lemma StepMinute(e: CronExpr, a: Time, was: Time, t: Time)
    requires Valid(t) && t.min !in e.min && t.sec == 0 && t.month in e.month && MatchDay(e, t) && t.hour in e.hour
    requires NoMatch(e, a, was) && Valid(was) && t == was.(sec := 0)
    ensures Searching(e, a, AddMinute(t), true) && Lt(was, AddMinute(t))
  {
    assert NoMatch(e, t, AddMinute(t));
    Extend(e, a, was, t, AddMinute(t));
  }

  lemma StepSecond(e: CronExpr, t: Time)
    requires Valid(t) && t.sec !in e.sec && t.month in e.month && MatchDay(e, t) && t.hour in e.hour && t.min in e.min
    ensures Valid(AddSecond(t)) && NoMatch(e, t, AddSecond(t)) && Aligned(e, AddSecond(t))
  {
  }

  // ---- the five loops ----

  method Months(e: CronExpr, t0: Time, moved0: bool, ghost a: Time) returns (t: Time, moved: bool, again: bool)
    requires Searching(e, a, t0, moved0)
    ensures Searching(e, a, t, moved) && Advanced(t0, t, again)
    ensures !again ==> t.month in e.month
  {
    t, moved := t0, moved0;
    while t.month !in e.month
      invariant Searching(e, a, t, moved) && Advanced(t0, t, false)
      decreases 12 - t.month
    {
      ghost var was := t;
      if !moved {
        moved := true;
        t := MonthStart(t);
      }
      StepMonth(e, a, was, t);
      t := AddMonth(t);
      if t.month == 1 {
        return t, moved, true;
      }
    }
    again := false;
  }

  method Days(e: CronExpr, t0: Time, moved0: bool, ghost a: Time) returns (t: Time, moved: bool, again: bool)
    requires Searching(e, a, t0, moved0) && t0.month in e.month
    ensures Searching(e, a, t, moved) && Advanced(t0, t, again)
    ensures !again ==> t.month in e.month && MatchDay(e, t)
  {
    t, moved := t0, moved0;
    while !MatchDay(e, t)
      invariant Searching(e, a, t, moved) && Advanced(t0, t, false) && t.month in e.month
      decreases 31 - t.day
    {
      ghost var was := t;
      if !moved {
        moved := true;
        t := DayStart(t);
      }
      StepDay(e, a, was, t);
      t := AddDay(t);
      if t.day == 1 {
        return t, moved, true;
      }
    }
    again := false;
  }

  method Hours(e: CronExpr, t0: Time, moved0: bool, ghost a: Time) returns (t: Time, moved: bool, again: bool)
    requires Searching(e, a, t0, moved0) && t0.month in e.month && MatchDay(e, t0)
    ensures Searching(e, a, t, moved) && Advanced(t0, t, again)
    ensures !again ==> t.month in e.month && MatchDay(e, t) && t.hour in e.hour
  {
    t, moved := t0, moved0;
    while t.hour !in e.hour
      invariant Searching(e, a, t, moved) && Advanced(t0, t, false) && t.month in e.month && MatchDay(e, t)
      decreases 23 - t.hour
    {
      ghost var was := t;
      if !moved {
        moved := true;
        t := t.(min := 0, sec := 0);
      }
      StepHour(e, a, was, t);
      t := AddHour(t);
      if t.hour == 0 {
        return t, moved, true;
      }
    }
    again := false;
  }

  method Minutes(e: CronExpr, t0: Time, moved0: bool, ghost a: Time) returns (t: Time, moved: bool, again: bool)
    requires Searching(e, a, t0, moved0) && t0.month in e.month && MatchDay(e, t0) && t0.hour in e.hour
    ensures Searching(e, a, t, moved) && Advanced(t0, t, again)
    ensures !again ==> t.month in e.month && MatchDay(e, t) && t.hour in e.hour && t.min in e.min
  {
    t, moved := t0, moved0;
    while t.min !in e.min
      invariant Searching(e, a, t, moved) && Advanced(t0, t, false)
      invariant t.month in e.month && MatchDay(e, t) && t.hour in e.hour
      decreases 59 - t.min
    {
      ghost var was := t;
      if !moved {
        moved := true;
        t := t.(sec := 0);
      }
      StepMinute(e, a, was, t);
      t := AddMinute(t);
      if t.min == 0 {
        return t, moved, true;
      }
    }
    again := false;
  }

  method Seconds(e: CronExpr, t0: Time, moved0: bool, ghost a: Time) returns (t: Time, moved: bool, again: bool)
    requires Searching(e, a, t0, moved0)
    requires t0.month in e.month && MatchDay(e, t0) && t0.hour in e.hour && t0.min in e.min
    ensures Searching(e, a, t, moved) && Advanced(t0, t, again)
    ensures !again ==> Matches(e, t)
  {
    t, moved := t0, moved0;
    while t.sec !in e.sec
      invariant Searching(e, a, t, moved) && Advanced(t0, t, false)
      invariant t.month in e.month && MatchDay(e, t) && t.hour in e.hour && t.min in e.min
      decreases 59 - t.sec
    {
      moved := true;
      StepSecond(e, t);
      Extend(e, a, t, t, AddSecond(t));
      t := AddSecond(t);
      if t.sec == 0 {
        return t, moved, true;
      }
    }
    again := false;
  }

  /** One pass over all fields, from the label that the loops jump back to. */
  method Round(e: CronExpr, t0: Time, moved0: bool, ghost a: Time) returns (t: Time, moved: bool, again: bool)
    requires Searching(e, a, t0, moved0)
    ensures Searching(e, a, t, moved) && Advanced(t0, t, again)
    ensures !again ==> Matches(e, t)
  {
    t, moved, again := Months(e, t0, moved0, a);
    if again { return; }
    t, moved, again := Days(e, t, moved, a);
    if again { return; }
    t, moved, again := Hours(e, t, moved, a);
    if again { return; }
    t, moved, again := Minutes(e, t, moved, a);
    if again { return; }
    t, moved, again := Seconds(e, t, moved, a);
  }

  /** The upcoming second is the least one after t0. */
  lemma Upcoming(t0: Time)
    requires Valid(t0)
    ensures Valid(AddSecond(t0)) && Lt(t0, AddSecond(t0))
    ensures forall u :: Valid(u) ==> (Lt(t0, u) <==> !Lt(u, AddSecond(t0)))
  {
    forall u | Valid(u)
      ensures Lt(t0, u) <==> !Lt(u, AddSecond(t0))
    {
      NextSecond(t0, u);
    }
    NextSecond(t0, t0);
  }

  /** The first second after t0 that matches; none exactly when no second does up to the end of
      the year after the year of the upcoming second. */
  method Next(e: CronExpr, t0: Time) returns (r: Option<Time>)
    requires Valid(t0)
    ensures r.Some? ==> Valid(r.value) && Lt(t0, r.value) && Matches(e, r.value)
                        && r.value.year <= AddSecond(t0).year + 1
    ensures r.Some? ==> forall u :: Valid(u) && Lt(t0, u) && Matches(e, u) ==> !Lt(u, r.value)
    ensures r.None? <==> forall u :: Valid(u) && Lt(t0, u) && u.year <= AddSecond(t0).year + 1 ==> !Matches(e, u)
  {
    Upcoming(t0);
    var t := AddSecond(t0);
    ghost var a := t;
    var year := t.year;
    var moved := false;
    while t.year <= year + 1
      invariant Searching(e, a, t, moved) && !Lt(t, a)
      decreases year + 2 - t.year, 12 - t.month, 31 - t.day, 23 - t.hour, 59 - t.min, 59 - t.sec
    {
      var again;
      t, moved, again := Round(e, t, moved, a);
      if !again {
        return Some(t);
      }
    }
    r := None;
  }
}

/** Matching a cron against wall-clock time, and the minute-by-minute scheduler. */
module Scheduler {
  import opened Wrappers
  import opened CronField
  import opened CronText
  import opened CronGrammar
  import opened Sorting

  datatype Wall = Wall(minute: int, hour: int, day: int, month: int, weekday: int)

  predicate ValidWall(w: Wall) {
    0 <= w.minute <= 59 && 0 <= w.hour <= 23 && 1 <= w.day <= 31 && 1 <= w.month <= 12 && 0 <= w.weekday <= 6
  }

  /** matches: a day field counts as a wildcard when its list has full length. */
  predicate Matches(c: Cron, w: Wall) {
    if w.minute !in c.minute then false
    else if w.hour !in c.hour then false
    else if w.month !in c.month then false
    else
      var domMatch, dowMatch := w.day in c.dom, w.weekday in c.dow;
      var domWildcard, dowWildcard := |c.dom| == 31, |c.dow| == 7;
      if !domWildcard && !dowWildcard then domMatch || dowMatch else domMatch && dowMatch
  }

  // ---- what it means ----

  ghost predicate Proper(s: seq<int>, lo: int, hi: int) {
    Increasing(s) && forall x :: x in s ==> lo <= x <= hi
  }

  ghost predicate ProperCron(c: Cron) {
    Proper(c.minute, 0, 59) && Proper(c.hour, 0, 23) && Proper(c.dom, 1, 31) && Proper(c.month, 1, 12) && Proper(c.dow, 0, 6)
  }

  /** Only a step of nearly 2^63 can wrap, and then the second value is negative. */
  lemma WrappedStepsGoNegative(i: int, end: int, step: int)
    requires Steppable(i, end, step) && 0 <= i <= end && Last(i, end, step) + step > MAX_INT
    ensures exists x :: x in Steps(i, end, step) && x < 0
  {
    ModUnique(end - i, 0, end - i, step);
    var n := Wrap(i + step);
    assert Steps(i, end, step) == [i] + Steps(n, end, step);
    assert Steps(n, end, step)[0] == n && n in Steps(n, end, step);
    assert n in Steps(i, end, step) && n < 0;
  }

  lemma WrappedFieldGoesNegative(s: string, form: Form, lo: int, hi: int)
    requires Bounds(lo, hi) && Spells(s, form) && Fits(form, lo, hi) && !StepsStayInRange(form, lo, hi)
    ensures ParseField(s, lo, hi).Ok? && exists x :: x in ParseField(s, lo, hi).value && x < 0
  {
    var toks :| SpelledWith(s, form, toks);
    match form
    case Every(k) =>
      ParsesEvery(s, lo, hi, k, toks[0]);
      WrappedStepsGoNegative(lo, hi, k);
    case RangeEvery(a, b, k) =>
      ParsesRangeEvery(s, lo, hi, a, b, k, toks[0], toks[1], toks[2]);
      WrappedStepsGoNegative(a, b, k);
  }

  /** A parsed field is strictly increasing and in bounds exactly when no step of its loop leaves 64 bits. */
  lemma ParsedFieldIsProper(s: string, form: Form, lo: int, hi: int)
    requires Bounds(lo, hi) && Spells(s, form) && Fits(form, lo, hi)
    ensures ParseField(s, lo, hi).Ok?
    ensures Proper(ParseField(s, lo, hi).value, lo, hi) <==> StepsStayInRange(form, lo, hi)
  {
    ParseMeansForm(s, form, lo, hi);
    var r := ParseField(s, lo, hi).value;
    if StepsStayInRange(form, lo, hi) {
      forall x | x in r
        ensures lo <= x <= hi
      {
        assert Denotes(form, lo, hi, x);
      }
    } else {
      WrappedFieldGoesNegative(s, form, lo, hi);
    }
  }

  /** The field spells some form whose steps stay within 64 bits. */
  ghost predicate StepsFine(s: string, lo: int, hi: int) {
    exists form :: Spells(s, form) && Fits(form, lo, hi) && StepsStayInRange(form, lo, hi)
  }

  lemma FieldIsProperExactly(s: string, lo: int, hi: int)
    requires Bounds(lo, hi) && ParseField(s, lo, hi).Ok?
    ensures Proper(ParseField(s, lo, hi).value, lo, hi) <==> StepsFine(s, lo, hi)
  {
    ParsesExactlyTheForms(s, lo, hi);
    var form :| Spells(s, form) && Fits(form, lo, hi);
    ParsedFieldIsProper(s, form, lo, hi);
    if StepsFine(s, lo, hi) {
      var fine :| Spells(s, fine) && Fits(fine, lo, hi) && StepsStayInRange(fine, lo, hi);
      ParsedFieldIsProper(s, fine, lo, hi);
    }
  }

  ghost predicate AllStepsFine(expr: string) {
    var p := Fields(expr);
    && |p| == 5 && StepsFine(p[0], 0, 59) && StepsFine(p[1], 0, 23) && StepsFine(p[2], 1, 31)
    && StepsFine(p[3], 1, 12) && StepsFine(p[4], 0, 6)
  }

  /** A parsed expression has five proper fields exactly when none of its steps leaves 64 bits. */
  lemma ParsedExprIsProper(expr: string)
    requires ParseExpr(expr).Ok?
    ensures ProperCron(ParseExpr(expr).value) <==> AllStepsFine(expr)
  {
    var p := Fields(expr);
    FieldIsProperExactly(p[0], 0, 59);
    FieldIsProperExactly(p[1], 0, 23);
    FieldIsProperExactly(p[2], 1, 31);
    FieldIsProperExactly(p[3], 1, 12);
    FieldIsProperExactly(p[4], 0, 6);
  }

  lemma {:induction false} ProperPositions(s: seq<int>, lo: int, hi: int, i: nat)
    requires Proper(s, lo, hi) && i < |s|
    ensures lo + i <= s[i] <= hi - (|s| - 1 - i)
    ensures lo <= s[0] && s[|s| - 1] <= hi
  {
    assert s[0] in s && s[|s| - 1] in s;
    Climb(s, 0, i);
    Climb(s, i, |s| - 1);
  }

  lemma {:induction false} Climb(s: seq<int>, i: nat, j: nat)
    requires Increasing(s) && i <= j < |s|
    ensures s[i] + (j - i) <= s[j]
    decreases j - i
  {
    if i < j {
      Climb(s, i, j - 1);
    }
  }

  ghost predicate Full(s: seq<int>, lo: int, hi: int) {
    forall x :: lo <= x <= hi ==> x in s
  }

  lemma {:induction false} FullPositions(s: seq<int>, lo: int, hi: int, i: nat)
    requires Proper(s, lo, hi) && Full(s, lo, hi) && lo + i <= hi
    ensures i < |s| && s[i] == lo + i
  {
    if i > 0 {
      FullPositions(s, lo, hi, i - 1);
    }
    assert lo + i in s;
    var j :| 0 <= j < |s| && s[j] == lo + i;
    ProperPositions(s, lo, hi, j);
    if j < i {
      FullPositions(s, lo, hi, j);
    }
  }

  /** Pigeonhole: a proper list has full length exactly when it holds every value of its range. */
  lemma LengthTestIsFullness(s: seq<int>, lo: int, hi: int)
    requires Proper(s, lo, hi) && lo <= hi
    ensures |s| == hi - lo + 1 <==> Full(s, lo, hi)
  {
    if |s| == hi - lo + 1 {
      forall x | lo <= x <= hi
        ensures x in s
      {
        ProperPositions(s, lo, hi, x - lo);
        assert s[x - lo] == x;
      }
    }
    if Full(s, lo, hi) {
      FullPositions(s, lo, hi, hi - lo);
      ProperPositions(s, lo, hi, 0);
    }
  }

  /** The day rule: the union when both fields are restricted, otherwise the restricted one alone. */
  ghost predicate DayFires(c: Cron, w: Wall) {
    if !Full(c.dom, 1, 31) && !Full(c.dow, 0, 6) then w.day in c.dom || w.weekday in c.dow
    else if !Full(c.dom, 1, 31) then w.day in c.dom
    else if !Full(c.dow, 0, 6) then w.weekday in c.dow
    else true
  }

  /** For proper crons the length tests decide exactly the day rule; only the five sets matter. */
  lemma MatchesIsDayRule(c: Cron, w: Wall)
    requires ProperCron(c) && ValidWall(w)
    ensures Matches(c, w) <==> w.minute in c.minute && w.hour in c.hour && w.month in c.month && DayFires(c, w)
  {
    LengthTestIsFullness(c.dom, 1, 31);
    LengthTestIsFullness(c.dow, 0, 6);
  }

  /** So any accepted expression without a huge step fires by the day rule. */
  lemma ParsedExprMatchesByDayRule(expr: string, w: Wall)
    requires ParseExpr(expr).Ok? && AllStepsFine(expr) && ValidWall(w)
    ensures
      var c := ParseExpr(expr).value;
      Matches(c, w) <==> w.minute in c.minute && w.hour in c.hour && w.month in c.month && DayFires(c, w)
  {
    ParsedExprIsProper(expr);
    MatchesIsDayRule(ParseExpr(expr).value, w);
  }

  // ---- the scheduler ----

  /** A tick: the instant in seconds since the zero time, whether the parent context is live, the cron installed then. */
  datatype Tick = Tick(now: int, live: bool, cron: Cron)

  function MinuteOf(now: int): int { now / 60 }

  /** The instant lies in the m-th minute. */
  ghost predicate Within(now: int, m: int) {
    60 * m <= now < 60 * m + 60
  }

  lemma MinuteIs(now: int, m: int)
    ensures Within(now, m) <==> MinuteOf(now) == m
  {
  }

  /** `clock` gives the wall-clock fields of an instant. */
  predicate Fires(clock: int -> Wall, last: int, t: Tick) {
    MinuteOf(t.now) > last && Matches(t.cron, clock(t.now)) && t.live
  }

  function NextLast(last: int, t: Tick): int {
    if MinuteOf(t.now) > last then MinuteOf(t.now) else last
  }

  /** The minutes in which a backup is attempted. */
  function Fired(clock: int -> Wall, last: int, ticks: seq<Tick>): seq<int>
    decreases |ticks|
  {
    if ticks == [] then []
    else (if Fires(clock, last, ticks[0]) then [MinuteOf(ticks[0].now)] else [])
         + Fired(clock, NextLast(last, ticks[0]), ticks[1..])
  }

  lemma FiredStep(clock: int -> Wall, last: int, ticks: seq<Tick>, i: nat, fired: seq<int>)
    requires i < |ticks|
    ensures fired + Fired(clock, last, ticks[i..]) ==
      (if Fires(clock, last, ticks[i]) then fired + [MinuteOf(ticks[i].now)] else fired)
      + Fired(clock, NextLast(last, ticks[i]), ticks[i + 1..])
  {
    assert ticks[i..][0] == ticks[i] && ticks[i..][1..] == ticks[i + 1..];
  }

  class SchedulerState {
    var expr: string
    var cron: Cron
    var last: int

    constructor (expr: string, cron: Cron)
      ensures this.expr == expr && this.cron == cron && last == 0
    {
      this.expr, this.cron, last := expr, cron, 0;
    }

    method MaybeFire(clock: int -> Wall, now: int, live: bool) returns (fired: bool)
      modifies this`last
      ensures fired == Fires(clock, old(last), Tick(now, live, cron))
      ensures last == NextLast(old(last), Tick(now, live, cron))
      ensures fired <==> now >= 60 * (old(last) + 1) && Matches(cron, clock(now)) && live
      ensures if now >= 60 * (old(last) + 1) then Within(now, last) else last == old(last)
    {
      var minute := MinuteOf(now);
      if !(minute > last) {
        return false;
      }
      if !Matches(cron, clock(now)) {
        last := minute;
        return false;
      }
      last := minute;
      if !live {
        return false;
      }
      return true;
    }

    /** A bad expression is refused and the installed one stays. */
    method ReloadCron(newExpr: string) returns (err: Option<CronField.Error>)
      modifies this`expr, this`cron
      ensures err.None? <==> ParseExpr(newExpr).Ok?
      ensures err.None? ==> expr == newExpr && ParseExpr(newExpr) == Ok(cron)
      ensures err.Some? ==> expr == old(expr) && cron == old(cron)
    {
      var c := ParseCron(newExpr);
      if c.Err? {
        return Some(c.error);
      }
      cron := c.value;
      expr := newExpr;
      return None;
    }

    /** The loop of Run: one MaybeFire per tick of the ticker; `crons` are those installed meanwhile. */
    method Run(clock: int -> Wall, ticks: seq<Tick>) returns (fired: seq<int>)
      modifies this
      ensures fired == Fired(clock, old(last), ticks)
      ensures last >= old(last) && forall i :: 0 <= i < |ticks| ==> ticks[i].now < 60 * (last + 1)
      ensures last == old(last) || exists i :: 0 <= i < |ticks| && Within(ticks[i].now, last)
    {
      fired := [];
      for i := 0 to |ticks|
        invariant last >= old(last) && forall j :: 0 <= j < i ==> ticks[j].now < 60 * (last + 1)
        invariant last == old(last) || exists j :: 0 <= j < i && Within(ticks[j].now, last)
        invariant fired + Fired(clock, last, ticks[i..]) == Fired(clock, old(last), ticks)
      {
        cron := ticks[i].cron;
        FiredStep(clock, last, ticks, i, fired);
        var f := MaybeFire(clock, ticks[i].now, ticks[i].live);
        if f {
          fired := fired + [MinuteOf(ticks[i].now)];
        }
      }
      assert ticks[|ticks|..] == [];
    }
  }

  lemma IncreasingCons(x: int, s: seq<int>)
    requires Increasing(s) && forall y :: y in s ==> y > x
    ensures Increasing([x] + s)
  {
    assert forall j :: 0 <= j < |s| ==> s[j] in s;
  }

  /** Whatever the ticks do, even step back, no minute fires twice and the fired minutes increase. */
  lemma {:induction false} FiredMinutesIncrease(clock: int -> Wall, last: int, ticks: seq<Tick>)
    ensures Increasing(Fired(clock, last, ticks))
    ensures forall m :: m in Fired(clock, last, ticks) ==> m > last
    decreases |ticks|
  {
    if ticks != [] {
      var next := NextLast(last, ticks[0]);
      FiredMinutesIncrease(clock, next, ticks[1..]);
      if Fires(clock, last, ticks[0]) {
        IncreasingCons(next, Fired(clock, next, ticks[1..]));
      }
    }
  }

  ghost predicate NonDecreasing(ticks: seq<Tick>) {
    forall i, j :: 0 <= i < j < |ticks| ==> ticks[i].now <= ticks[j].now
  }

  /** The first tick of minute m, when the scheduler starts after `last`. */
  ghost predicate FirstTickOf(ticks: seq<Tick>, last: int, m: int, i: nat)
  {
    i < |ticks| && Within(ticks[i].now, m) && m > last && (forall j :: 0 <= j < i ==> !Within(ticks[j].now, m))
  }

  lemma DivMonotone(x: int, y: int)
    requires x <= y
    ensures MinuteOf(x) <= MinuteOf(y)
  {
  }

  ghost predicate MatchesFirst(clock: int -> Wall, ticks: seq<Tick>, last: int, m: int, i: nat) {
    FirstTickOf(ticks, last, m, i) && Matches(ticks[i].cron, clock(ticks[i].now))
  }

  /** With time going forward a backup is attempted exactly in the minutes whose first tick matches the cron of that tick. */
  lemma {:induction false} FiresAtFirstTick(clock: int -> Wall, last: int, ticks: seq<Tick>, m: int)
    requires NonDecreasing(ticks) && (forall i :: 0 <= i < |ticks| ==> ticks[i].live)
    ensures m in Fired(clock, last, ticks) <==> exists i: nat :: MatchesFirst(clock, ticks, last, m, i)
    decreases |ticks|
  {
    if ticks != [] {
      var t, rest, next := ticks[0], ticks[1..], NextLast(last, ticks[0]);
      MinuteIs(t.now, m);
      if m == MinuteOf(t.now) {
        FiredMinutesIncrease(clock, next, rest);
        assert m !in Fired(clock, next, rest);
        assert Fires(clock, last, t) ==> MatchesFirst(clock, ticks, last, m, 0);
      } else {
        FiresAtFirstTick(clock, next, rest, m);
        LaterMinutes(ticks, last, m);
        forall i: nat | MatchesFirst(clock, rest, next, m, i)
          ensures MatchesFirst(clock, ticks, last, m, i + 1)
        {
          assert rest[i] == ticks[i + 1];
        }
        forall i: nat | MatchesFirst(clock, ticks, last, m, i)
          ensures i > 0 && MatchesFirst(clock, rest, next, m, i - 1)
        {
          assert i > 0 && rest[i - 1] == ticks[i];
        }
      }
    }
  }

  /** Dropping the first tick does not change which tick is the first of another minute. */
  lemma LaterMinutes(ticks: seq<Tick>, last: int, m: int)
    requires ticks != [] && NonDecreasing(ticks) && !Within(ticks[0].now, m)
    ensures forall i: nat :: FirstTickOf(ticks[1..], NextLast(last, ticks[0]), m, i) ==> FirstTickOf(ticks, last, m, i + 1)
    ensures forall i: nat :: FirstTickOf(ticks, last, m, i) ==>
      i > 0 && FirstTickOf(ticks[1..], NextLast(last, ticks[0]), m, i - 1)
  {
    forall i: nat | FirstTickOf(ticks[1..], NextLast(last, ticks[0]), m, i)
      ensures FirstTickOf(ticks, last, m, i + 1)
    {
      forall j | 0 <= j < i + 1
        ensures !Within(ticks[j].now, m)
      {
        if j > 0 {
          assert ticks[1..][j - 1] == ticks[j];
        }
      }
    }
    forall i: nat | FirstTickOf(ticks, last, m, i)
      ensures i > 0 && FirstTickOf(ticks[1..], NextLast(last, ticks[0]), m, i - 1)
    {
      assert i > 0;
      DivMonotone(ticks[0].now, ticks[i].now);
      MinuteIs(ticks[i].now, m);
      forall j | 0 <= j < i - 1
        ensures !Within(ticks[1..][j].now, m)
      {
        assert ticks[1..][j] == ticks[j + 1];
      }
    }
  }

  // ---- how often a day fires ----

  function CountFrom(s: seq<int>, b: int): nat
    decreases |s|
  {
    if s == [] then 0 else (if s[0] >= b then 1 else 0) + CountFrom(s[1..], b)
  }

  lemma {:induction false} CountFromStep(s: seq<int>, b: int)
    requires Increasing(s)
    ensures CountFrom(s, b) == (if b in s then 1 else 0) + CountFrom(s, b + 1)
    decreases |s|
  {
    if s != [] {
      assert Increasing(s[1..]);
      CountFromStep(s[1..], b);
      assert b in s <==> b == s[0] || b in s[1..];
    }
  }

  lemma {:induction false} CountFromEnds(s: seq<int>, b: int)
    ensures (forall x :: x in s ==> x >= b) ==> CountFrom(s, b) == |s|
    ensures (forall x :: x in s ==> x < b) ==> CountFrom(s, b) == 0
    decreases |s|
  {
    if s != [] {
      assert s[0] in s && forall x :: x in s[1..] ==> x in s;
      CountFromEnds(s[1..], b);
    }
  }

  /** One live tick a minute from minute `k` of a day to its end, the same cron throughout, on a clock that shows the day. */
  ghost predicate RestOfDay(clock: int -> Wall, c: Cron, midnight: int, ticks: seq<Tick>, k: nat) {
    && k <= 1440 && |ticks| == 1440 - k
    && forall i :: 0 <= i < |ticks| ==>
         && Within(ticks[i].now, midnight + k + i) && ticks[i].live && ticks[i].cron == c
         && ValidWall(clock(ticks[i].now))
         && clock(ticks[i].now).minute == (k + i) % 60 && clock(ticks[i].now).hour == (k + i) / 60
  }

  /** How many of the minutes from `k` on are in the minute and hour lists. */
  function Due(c: Cron, k: nat): nat {
    (if k / 60 in c.hour then CountFrom(c.minute, k % 60) else 0) + |c.minute| * CountFrom(c.hour, k / 60 + 1)
  }

  lemma MinuteAdvance(k: nat)
    ensures k % 60 < 59 ==> (k + 1) / 60 == k / 60 && (k + 1) % 60 == k % 60 + 1
    ensures k % 60 == 59 ==> (k + 1) / 60 == k / 60 + 1 && (k + 1) % 60 == 0
  {
  }

  lemma DueStep(c: Cron, k: nat)
    requires ProperCron(c)
    ensures Due(c, k) == (if k / 60 in c.hour && k % 60 in c.minute then 1 else 0) + Due(c, k + 1)
  {
    MinuteAdvance(k);
    CountFromStep(c.minute, k % 60);
    if k % 60 == 59 {
      CountFromStep(c.hour, k / 60 + 1);
      CountFromEnds(c.minute, 60);
      CountFromEnds(c.minute, 0);
      var n, later := |c.minute|, CountFrom(c.hour, k / 60 + 2);
      OneMoreHour(n, later);
    }
  }

  lemma OneMoreHour(n: nat, later: nat)
    ensures n * (1 + later) == n + n * later
  {
  }

  lemma {:induction false} RestFires(clock: int -> Wall, c: Cron, midnight: int, last: int, ticks: seq<Tick>, k: nat)
    requires ProperCron(c) && Full(c.dom, 1, 31) && Full(c.month, 1, 12) && Full(c.dow, 0, 6)
    requires RestOfDay(clock, c, midnight, ticks, k) && last < midnight + k
    ensures |Fired(clock, last, ticks)| == Due(c, k)
    decreases |ticks|
  {
    if ticks == [] {
      CountFromEnds(c.hour, 25);
      assert Due(c, k) == 0;
    } else {
      MinuteIs(ticks[0].now, midnight + k);
      DueStep(c, k);
      MatchesIsDayRule(c, clock(ticks[0].now));
      assert RestOfDay(clock, c, midnight, ticks[1..], k + 1);
      RestFires(clock, c, midnight, NextLast(last, ticks[0]), ticks[1..], k + 1);
    }
  }

  lemma DueAtMidnight(c: Cron)
    requires ProperCron(c)
    ensures Due(c, 0) == |c.minute| * |c.hour|
  {
    CountFromStep(c.hour, 0);
    CountFromEnds(c.hour, 0);
    CountFromEnds(c.minute, 0);
    var n, later := |c.minute|, CountFrom(c.hour, 1);
    OneMoreHour(n, later);
    assert Due(c, 0) == (if 0 in c.hour then n else 0) + n * later;
  }

  /** With wildcard day and month fields a day of one tick a minute fires |minute| * |hour| times. */
  lemma DayFiresMinutesTimesHours(clock: int -> Wall, c: Cron, midnight: int, last: int, ticks: seq<Tick>)
    requires ProperCron(c) && Full(c.dom, 1, 31) && Full(c.month, 1, 12) && Full(c.dow, 0, 6)
    requires RestOfDay(clock, c, midnight, ticks, 0) && last < midnight
    ensures |Fired(clock, last, ticks)| == |c.minute| * |c.hour|
  {
    RestFires(clock, c, midnight, last, ticks, 0);
    DueAtMidnight(c);
  }
}

/**
 parseCronField: one field of a cron expression.  Integers are 64 bits wide; the only place
 where that shows is the loop `i += step`, which can wrap for a huge step.
 */
module CronField {
  import opened Wrappers
  import opened CronText
  import opened Sorting

  datatype Error =
    | FieldEmpty | BadStep
    | RangeShape | RangeStartNotInt | RangeEndNotInt | RangeStartOut | RangeEndOut | RangeReversed
    | ListNotInt | ListOut
    | FieldCount

  // ---- the stepping loop ----

  /** A 64-bit sum of two values whose exact sum is at least MIN_INT. */
  function Wrap(n: int): int {
    if n > MAX_INT then n - 0x1_0000_0000_0000_0000 else n
  }

  /** The loop variable stays small, or has just wrapped and is about to come back. */
  predicate Steppable(i: int, end: int, step: int) {
    && 0 <= end < 0x1000_0000_0000_0000 && 1 <= step <= MAX_INT && i <= MAX_INT
    && if step + end <= MAX_INT then i >= 0
       else i >= -end - 1 || -end - 1 <= i + step <= end
  }

  function Rank(i: int, end: int, step: int): nat
    requires Steppable(i, end, step)
  {
    if i > end then 0
    else if step + end <= MAX_INT then end - i + 1
    else if i >= -end - 1 then 2 * (i + end + 1) + 1
    else 2 * (i + step + end + 1) + 2
  }

  /** for i := start; i <= end; i += step { append(i) } */
  function Steps(i: int, end: int, step: int): seq<int>
    requires Steppable(i, end, step)
    decreases Rank(i, end, step)
  {
    if i > end then [] else [i] + Steps(Wrap(i + step), end, step)
  }

  /** The same values without a word size. */
  function Progression(i: int, end: int, step: int): seq<int>
    requires step >= 1
    decreases if i > end then 0 else end - i + 1
  {
    if i > end then [] else [i] + Progression(i + step, end, step)
  }

  lemma MulAtLeast(k: int, step: int)
    requires k >= 1 && step >= 1
    ensures k * step >= step
  {
    assert k * step == (k - 1) * step + step;
  }

  lemma ModUnique(x: int, q: int, r: int, step: int)
    requires step >= 1 && 0 <= r < step && x == q * step + r
    ensures x % step == r
  {
    var d, r' := q - x / step, x % step;
    assert d * step == q * step - (x / step) * step;
    assert d * step == r' - r;
    assert (-d) * step == -(d * step);
    if d >= 1 {
      MulAtLeast(d, step);
    } else if d <= -1 {
      MulAtLeast(-d, step);
    }
  }

  lemma ModStep(x: int, step: int)
    requires step >= 1
    ensures (x - step) % step == x % step
  {
    var q := x / step;
    assert (q - 1) * step == q * step - step;
    ModUnique(x - step, q - 1, x % step, step);
  }

  /** The last value not above end. */
  function Last(i: int, end: int, step: int): int
    requires step >= 1
  {
    end - (end - i) % step
  }

  /** The loop yields the intended values exactly when the step after the last one stays within 64 bits. */
  lemma {:induction false} StepsAreProgressionExactly(i: int, end: int, step: int)
    requires Steppable(i, end, step) && 0 <= i <= end
    ensures Steps(i, end, step) == Progression(i, end, step) <==> Last(i, end, step) + step <= MAX_INT
    decreases end - i
  {
    if i + step <= end {
      StepsAreProgressionExactly(i + step, end, step);
      ModStep(end - i, step);
      SameTails(i, Steps(i + step, end, step), Progression(i + step, end, step));
    } else {
      ModUnique(end - i, 0, end - i, step);
      LastStep(i, end, step);
    }
  }

  lemma SameTails(i: int, a: seq<int>, b: seq<int>)
    ensures [i] + a == [i] + b <==> a == b
  {
    assert ([i] + a)[1..] == a && ([i] + b)[1..] == b;
  }

  lemma LastStep(i: int, end: int, step: int)
    requires Steppable(i, end, step) && 0 <= i <= end < i + step
    ensures Progression(i, end, step) == [i]
    ensures Steps(i, end, step) == [i] <==> i + step <= MAX_INT
  {
    var n := Wrap(i + step);
    assert Steps(i, end, step) == [i] + Steps(n, end, step);
    if i + step > MAX_INT {
      assert n <= end;
      assert Steps(n, end, step) == [n] + Steps(Wrap(n + step), end, step);
      assert |Steps(i, end, step)| >= 2;
    }
  }

  ghost predicate Increasing(s: seq<int>) {
    forall i, j :: 0 <= i < j < |s| ==> s[i] < s[j]
  }

  lemma {:induction false} ProgressionMembers(i: int, end: int, step: int, x: int)
    requires step >= 1
    ensures x in Progression(i, end, step) <==> i <= x <= end && (x - i) % step == 0
    decreases if i > end then 0 else end - i + 1
  {
    if i <= end {
      ProgressionMembers(i + step, end, step, x);
      ModStep(x - i, step);
      if i < x < i + step {
        ModUnique(x - i, 0, x - i, step);
      }
      if x == i {
        ModUnique(0, 0, 0, step);
      }
    }
  }

  lemma {:induction false} ProgressionIncreases(i: int, end: int, step: int)
    requires step >= 1
    ensures Increasing(Progression(i, end, step))
    ensures forall x :: x in Progression(i, end, step) ==> i <= x <= end
    decreases if i > end then 0 else end - i + 1
  {
    if i <= end {
      ProgressionIncreases(i + step, end, step);
      var rest := Progression(i + step, end, step);
      assert forall j :: 0 <= j < |rest| ==> rest[j] in rest;
    }
  }

  // ---- the parser as a function ----

  function ParseRange(s: string, lo: int, hi: int): Result<(int, int), Error> {
    var dash := Index(s, '-');
    if dash == -1 then Err(RangeShape) else RangeOf(Atoi(s[..dash]), Atoi(s[dash + 1..]), lo, hi)
  }

  function RangeOf(a: Option<int>, b: Option<int>, lo: int, hi: int): Result<(int, int), Error> {
    if a.None? then Err(RangeStartNotInt)
    else if b.None? then Err(RangeEndNotInt)
    else if a.value < lo || a.value > hi then Err(RangeStartOut)
    else if b.value < lo || b.value > hi then Err(RangeEndOut)
    else if a.value > b.value then Err(RangeReversed)
    else Ok((a.value, b.value))
  }

  function FirstListError(parts: seq<string>, lo: int, hi: int): Option<Error> {
    if parts == [] then None
    else
      var n := Atoi(parts[0]);
      if n.None? then Some(ListNotInt)
      else if n.value < lo || n.value > hi then Some(ListOut)
      else FirstListError(parts[1..], lo, hi)
  }

  /** The distinct values of a list, in order of first appearance. */
  function Distinct(parts: seq<string>): seq<int> {
    if parts == [] then []
    else
      var front, n := Distinct(parts[..|parts| - 1]), Atoi(parts[|parts| - 1]);
      if n.Some? && n.value !in front then front + [n.value] else front
  }

  predicate Less(x: int, y: int) { x < y }

  /** The bounds ParseCron passes are far below this limit. */
  predicate Bounds(lo: int, hi: int) {
    0 <= lo <= hi < 0x1000_0000_0000_0000
  }

  function ParseStep(s: string, slash: nat, lo: int, hi: int): Result<seq<int>, Error>
    requires Bounds(lo, hi) && slash < |s|
  {
    var step := Atoi(s[slash + 1..]);
    if step.None? || step.value <= 0 then Err(BadStep)
    else if s[..slash] == "*" then Ok(Steps(lo, hi, step.value))
    else match ParseRange(s[..slash], lo, hi)
      case Err(e) => Err(e)
      case Ok(r) => Ok(Steps(r.0, r.1, step.value))
  }

  function ExpandRange(r: Result<(int, int), Error>): Result<seq<int>, Error> {
    match r
    case Err(e) => Err(e)
    case Ok(range) => Ok(Progression(range.0, range.1, 1))
  }

  function ListOf(parts: seq<string>, lo: int, hi: int): Result<seq<int>, Error> {
    var e := FirstListError(parts, lo, hi);
    if e.Some? then Err(e.value) else Ok(Sort(Less, Distinct(parts)))
  }

  function ParseField(s: string, lo: int, hi: int): Result<seq<int>, Error>
    requires Bounds(lo, hi)
  {
    if s == "" then Err(FieldEmpty)
    else if s == "*" then Ok(Progression(lo, hi, 1))
    else if Index(s, '/') != -1 then ParseStep(s, Index(s, '/'), lo, hi)
    else if Index(s, '-') > 0 then ExpandRange(ParseRange(s, lo, hi))
    else ListOf(Split(s, ','), lo, hi)
  }

  // ---- the code ----

  method StepLoop(start: int, end: int, step: int) returns (result: seq<int>)
    requires Steppable(start, end, step)
    ensures result == Steps(start, end, step)
  {
    result := [];
    var i := start;
    while i <= end
      invariant Steppable(i, end, step)
      invariant result + Steps(i, end, step) == Steps(start, end, step)
      decreases Rank(i, end, step)
    {
      result := result + [i];
      i := Wrap(i + step);
    }
  }

  method CountLoop(lo: int, hi: int) returns (result: seq<int>)
    ensures result == Progression(lo, hi, 1)
  {
    result := [];
    var i := lo;
    while i <= hi
      invariant result + Progression(i, hi, 1) == Progression(lo, hi, 1)
      decreases hi - i + 1
    {
      result := result + [i];
      i := i + 1;
    }
  }

  /** "*" followed by a step, or a range followed by a step. */
  method ParseStepField(s: string, slash: nat, lo: int, hi: int) returns (r: Result<seq<int>, Error>)
    requires Bounds(lo, hi) && slash < |s|
    ensures r == ParseStep(s, slash, lo, hi)
  {
    var step := Atoi(s[slash + 1..]);
    if step.None? || step.value <= 0 {
      return Err(BadStep);
    }
    var start, end := lo, hi;
    if s[..slash] != "*" {
      var range := ParseRange(s[..slash], lo, hi);
      if range.Err? {
        return Err(range.error);
      }
      start, end := range.value.0, range.value.1;
    }
    var result := StepLoop(start, end, step.value);
    return Ok(result);
  }

  method ParseRangeField(s: string, lo: int, hi: int) returns (r: Result<seq<int>, Error>)
    ensures r == ExpandRange(ParseRange(s, lo, hi))
  {
    var range := ParseRange(s, lo, hi);
    if range.Err? {
      return Err(range.error);
    }
    var result := CountLoop(range.value.0, range.value.1);
    return Ok(result);
  }

  method ParseCronField(s: string, lo: int, hi: int) returns (r: Result<seq<int>, Error>)
    requires Bounds(lo, hi)
    ensures r == ParseField(s, lo, hi)
  {
    if s == "" {
      return Err(FieldEmpty);
    }
    if s == "*" {
      var result := CountLoop(lo, hi);
      return Ok(result);
    }
    var slash := Index(s, '/');
    if slash != -1 {
      r := ParseStepField(s, slash, lo, hi);
      return;
    }
    if Index(s, '-') > 0 {
      r := ParseRangeField(s, lo, hi);
      return;
    }
    r := ParseList(Split(s, ','), lo, hi);
  }

  method ParseList(parts: seq<string>, lo: int, hi: int) returns (r: Result<seq<int>, Error>)
    ensures r == ListOf(parts, lo, hi)
  {
    var result: seq<int> := [];
    var seen: set<int> := {};
    for k := 0 to |parts|
      invariant FirstListError(parts, lo, hi) == FirstListError(parts[k..], lo, hi)
      invariant result == Distinct(parts[..k]) && seen == set x | x in result
    {
      assert parts[k..][0] == parts[k] && parts[k..][1..] == parts[k + 1..];
      assert parts[..k + 1][..k] == parts[..k];
      var n := Atoi(parts[k]);
      if n.None? {
        return Err(ListNotInt);
      }
      if n.value < lo || n.value > hi {
        return Err(ListOut);
      }
      if n.value !in seen {
        seen := seen + {n.value};
        result := result + [n.value];
      }
    }
    assert parts[|parts|..] == [] && parts[..|parts|] == parts;
    return Ok(Sort(Less, result));
  }
}

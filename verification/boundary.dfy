/**
 * The boundary calculator: `DateBinner.getNext` and its per-unit helpers.
 *
 * Every branch of the source has one shape: capture a calendar field value and the UTC
 * offset, start from a (possibly truncated) instant, and step forward while both still
 * equal what was captured. The result is the first stepped instant where either differs.
 */
module Boundary {
  import opened Wrappers
  import opened Errors
  import opened Time

  /** One step of a scan: a fixed number of milliseconds, or one local calendar unit. */
  datatype Step = Fixed(ms: int) | PlusDay | PlusMonth | PlusYear

  /** The field value and offset captured before the loop starts. */
  datatype Baseline = Baseline(field: Field, value: int, offset: int)

  /** What a branch of `getNext` compares against, how it steps, and where it starts. */
  datatype Plan = Plan(base: Baseline, step: Step, start: int)

  function Advance(z: Zone, s: Step, t: int): int
  {
    match s
    case Fixed(ms) => t + ms
    case PlusDay => z.plusDay(t)
    case PlusMonth => z.cal.plusMonth(t)
    case PlusYear => z.cal.plusYear(t)
  }

  /** The instant reached from `t` after `j` steps. */
  function Iterate(z: Zone, s: Step, t: int, j: nat): int
    decreases j
  {
    if j == 0 then t else Iterate(z, s, Advance(z, s, t), j - 1)
  }

  /** The loop condition: neither the field nor the offset has changed. */
  predicate Same(z: Zone, b: Baseline, t: int)
  {
    FieldOf(z, b.field, t) == b.value && z.offset(t) == b.offset
  }

  /** The `k`-th step is the first at which the loop condition fails. */
  predicate FirstChange(z: Zone, p: Plan, k: nat)
  {
    && !Same(z, p.base, Iterate(z, p.step, p.start, k))
    && forall j :: 0 <= j < k ==> Same(z, p.base, Iterate(z, p.step, p.start, j))
  }

  /** `r` is the instant at which the loop of plan `p` exits. */
  ghost predicate IsBoundary(z: Zone, p: Plan, r: int)
  {
    exists k: nat :: r == Iterate(z, p.step, p.start, k) && FirstChange(z, p, k)
  }

  /**
   * The number of steps the loop takes from `t`, if it exits within `budget` steps;
   * `None` exactly when the condition still holds after all of them.
   */
  function ScanCount(z: Zone, b: Baseline, s: Step, t: int, budget: nat): (r: Option<nat>)
    ensures r.Some? ==> r.value <= budget && FirstChange(z, Plan(b, s, t), r.value)
    ensures r.None? ==> forall j :: 0 <= j <= budget ==> Same(z, b, Iterate(z, s, t, j))
    decreases budget
  {
    if !Same(z, b, t) then Some(0)
    else if budget == 0 then None
    else
      match ScanCount(z, b, s, Advance(z, s, t), budget - 1)
      case None => None
      case Some(k) => Some(k + 1)
  }

  /** Runs a plan for at most `budget` steps. */
  function Run(z: Zone, p: Plan, budget: nat): (r: Option<int>)
    ensures r.Some? ==> IsBoundary(z, p, r.value)
    ensures r.None? ==> forall j :: 0 <= j <= budget ==> Same(z, p.base, Iterate(z, p.step, p.start, j))
  {
    match ScanCount(z, p.base, p.step, p.start, budget)
    case None => None
    case Some(k) => Some(Iterate(z, p.step, p.start, k))
  }

  lemma {:induction false} IterateFixed(z: Zone, d: int, t: int, j: nat)
    ensures Iterate(z, Fixed(d), t, j) == t + j * d
    decreases j
  {
    if j > 0 {
      IterateFixed(z, d, t + d, j - 1);
    }
  }

  // ----- the per-unit plans (getNextHour, getNextMinute, getNextSecond, getNextMillisecond
  // ----- and the three inline branches of getNext)

  /** `getNextHour`: hour of day, quarter-hour steps from `t` itself (no truncation). */
  function HourPlan(z: Zone, t: int): Plan
  {
    Plan(Baseline(HourOfDay, FieldOf(z, HourOfDay, t), z.offset(t)), Fixed(MillisPerQuarterHour), t)
  }

  /** `getNextMinute`: minute of hour of `t`, one-minute steps from `t` truncated to the minute. */
  function MinutePlan(z: Zone, t: int): Plan
  {
    Plan(Baseline(MinuteOfHour, FieldOf(z, MinuteOfHour, t), z.offset(t)), Fixed(MillisPerMinute),
         Floor(z, MillisPerMinute, t))
  }

  /** `getNextSecond`: second of minute of `t`, one-second steps from `t` truncated to the second. */
  function SecondPlan(z: Zone, t: int): Plan
  {
    Plan(Baseline(SecondOfMinute, FieldOf(z, SecondOfMinute, t), z.offset(t)), Fixed(MillisPerSecond),
         Floor(z, MillisPerSecond, t))
  }

  /** `getNextMillisecond`: milli of second, one-millisecond steps from `t`. */
  function MilliPlan(z: Zone, t: int): Plan
  {
    Plan(Baseline(MilliOfSecond, FieldOf(z, MilliOfSecond, t), z.offset(t)), Fixed(1), t)
  }

  /**
   * The table of `getNext`: which plan each unit uses. Day, month and year scans compare
   * the caller's field and offset of the truncated start, not of `t`.
   */
  function ScanPlan(z: Zone, u: Unit, f: Field, t: int): (p: Option<Plan>)
    ensures p.Some? <==> u in {Millis, Seconds, Minutes, Hours, Days, Months, Years}
  {
    match u
    case Hours => Some(HourPlan(z, t))
    case Minutes => Some(MinutePlan(z, t))
    case Seconds => Some(SecondPlan(z, t))
    case Millis => Some(MilliPlan(z, t))
    case Days =>
      var s := Truncate(z, Days, t).value;
      Some(Plan(Baseline(f, FieldOf(z, f, s), z.offset(s)), PlusDay, s))
    case Months =>
      var s := z.cal.startOfMonth(t);
      Some(Plan(Baseline(f, FieldOf(z, f, s), z.offset(s)), PlusMonth, s))
    case Years =>
      var s := z.cal.startOfYear(t);
      Some(Plan(Baseline(f, FieldOf(z, f, s), z.offset(s)), PlusYear, s))
    case _ => None
  }

  // ----- why the sub-day scans always stop

  /** If the offset is unchanged an hour later, the hour of day has changed. */
  lemma {:induction false} HourChanges(z: Zone, t: int)
    requires z.offset(t + MillisPerHour) == z.offset(t)
    ensures FieldOf(z, HourOfDay, t + MillisPerHour) != FieldOf(z, HourOfDay, t)
  {
  }

  /** If the offset is unchanged a minute later, the minute of the hour has changed. */
  lemma {:induction false} MinuteChanges(z: Zone, t: int)
    requires z.offset(t + MillisPerMinute) == z.offset(t)
    ensures FieldOf(z, MinuteOfHour, t + MillisPerMinute) != FieldOf(z, MinuteOfHour, t)
  {
  }

  /** If the offset is unchanged a second later, the second of the minute has changed. */
  lemma {:induction false} SecondChanges(z: Zone, t: int)
    requires z.offset(t + MillisPerSecond) == z.offset(t)
    ensures FieldOf(z, SecondOfMinute, t + MillisPerSecond) != FieldOf(z, SecondOfMinute, t)
  {
  }

  lemma {:induction false} HourScanStops(z: Zone, t: int)
    ensures ScanCount(z, HourPlan(z, t).base, Fixed(MillisPerQuarterHour), t, 4).Some?
  {
    var p := HourPlan(z, t);
    if ScanCount(z, p.base, p.step, t, 4).None? {
      assert Same(z, p.base, Iterate(z, p.step, t, 4));
      IterateFixed(z, MillisPerQuarterHour, t, 4);
      HourChanges(z, t);
      assert false;
    }
  }

  lemma {:induction false} MinuteScanStops(z: Zone, t: int)
    ensures ScanCount(z, MinutePlan(z, t).base, Fixed(MillisPerMinute), MinutePlan(z, t).start, 1).Some?
  {
    var p := MinutePlan(z, t);
    if ScanCount(z, p.base, p.step, p.start, 1).None? {
      assert Same(z, p.base, Iterate(z, p.step, p.start, 0));
      assert Same(z, p.base, Iterate(z, p.step, p.start, 1));
      MinuteChanges(z, p.start);
      assert false;
    }
  }

  lemma {:induction false} SecondScanStops(z: Zone, t: int)
    ensures ScanCount(z, SecondPlan(z, t).base, Fixed(MillisPerSecond), SecondPlan(z, t).start, 1).Some?
  {
    var p := SecondPlan(z, t);
    if ScanCount(z, p.base, p.step, p.start, 1).None? {
      assert Same(z, p.base, Iterate(z, p.step, p.start, 0));
      assert Same(z, p.base, Iterate(z, p.step, p.start, 1));
      SecondChanges(z, p.start);
      assert false;
    }
  }

  lemma {:induction false} MilliScanStops(z: Zone, t: int)
    ensures ScanCount(z, MilliPlan(z, t).base, Fixed(1), t, 1).Some?
  {
    var p := MilliPlan(z, t);
    if ScanCount(z, p.base, p.step, t, 1).None? {
      assert false;
    }
  }

  // ----- the public helpers of DateBinner

  /** `getNextHour`: the first quarter-hour step at which the hour or the offset changes. */
  function NextHour(z: Zone, t: int): (r: int)
    ensures IsBoundary(z, HourPlan(z, t), r)
    ensures t < r <= t + MillisPerHour
    ensures (r - t) % MillisPerQuarterHour == 0
  {
    HourScanStops(z, t);
    var k := ScanCount(z, HourPlan(z, t).base, Fixed(MillisPerQuarterHour), t, 4).value;
    IterateFixed(z, MillisPerQuarterHour, t, k);
    Iterate(z, Fixed(MillisPerQuarterHour), t, k)
  }

  /**
   * `getNextMinute`: the first whole minute after the truncated start at which the
   * minute or the offset differs from those of `t`. It is later than `t` unless the
   * offset changes between the truncated start and `t`.
   */
  function NextMinute(z: Zone, t: int): (r: int)
    ensures IsBoundary(z, MinutePlan(z, t), r)
    ensures Floor(z, MillisPerMinute, t) <= r <= Floor(z, MillisPerMinute, t) + MillisPerMinute
    ensures z.offset(Floor(z, MillisPerMinute, t)) == z.offset(t) ==> t < r
  {
    var p := MinutePlan(z, t);
    MinuteScanStops(z, t);
    var k := ScanCount(z, p.base, p.step, p.start, 1).value;
    IterateFixed(z, MillisPerMinute, p.start, k);
    Iterate(z, p.step, p.start, k)
  }

  /** `getNextSecond`: as `NextMinute`, for the second of the minute. */
  function NextSecond(z: Zone, t: int): (r: int)
    ensures IsBoundary(z, SecondPlan(z, t), r)
    ensures Floor(z, MillisPerSecond, t) <= r <= Floor(z, MillisPerSecond, t) + MillisPerSecond
    ensures z.offset(Floor(z, MillisPerSecond, t)) == z.offset(t) ==> t < r
  {
    var p := SecondPlan(z, t);
    SecondScanStops(z, t);
    var k := ScanCount(z, p.base, p.step, p.start, 1).value;
    IterateFixed(z, MillisPerSecond, p.start, k);
    Iterate(z, p.step, p.start, k)
  }

  /** `getNextMillisecond`: always the very next millisecond. */
  function NextMillisecond(z: Zone, t: int): (r: int)
    ensures IsBoundary(z, MilliPlan(z, t), r)
    ensures r == t + 1
  {
    var p := MilliPlan(z, t);
    MilliScanStops(z, t);
    var k := ScanCount(z, p.base, p.step, t, 1).value;
    IterateFixed(z, 1, t, k);
    Iterate(z, p.step, t, k)
  }

  /**
   * `getNext`: the next boundary of unit `u` after `t`. An unsupported unit fails (the
   * source returns null); a month or year scan on the epoch day fails (its `get` throws);
   * a day, month or year scan that has not stopped after `fuel` steps fails too (the
   * source would keep looping). Sub-day units always succeed.
   */
  function GetNext(z: Zone, u: Unit, f: Field, t: int, fuel: nat): (r: Result<int, Failure>)
    ensures r == Failure(UnsupportedUnit) <==> ScanPlan(z, u, f, t).None?
    ensures r == Failure(NotIntField) <==> u in {Months, Years} && f == EpochDay
    ensures r.Success? ==> IsBoundary(z, ScanPlan(z, u, f, t).value, r.value)
    ensures r == Failure(ScanExhausted) ==>
      && u in {Days, Months, Years}
      && var p := ScanPlan(z, u, f, t).value;
         forall j :: 0 <= j <= fuel ==> Same(z, p.base, Iterate(z, p.step, p.start, j))
    ensures u in {Millis, Seconds, Minutes, Hours} ==> r.Success?
  {
    match u
    case Hours => Success(NextHour(z, t))
    case Minutes => Success(NextMinute(z, t))
    case Seconds => Success(NextSecond(z, t))
    case Millis => Success(NextMillisecond(z, t))
    case Months | Years | Days =>
      if u != Days && f == EpochDay then Failure(NotIntField)
      else (match Run(z, ScanPlan(z, u, f, t).value, fuel)
       case None => Failure(ScanExhausted)
       case Some(n) => Success(n))
    case _ => Failure(UnsupportedUnit)
  }
}

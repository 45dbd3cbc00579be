/**
 * Instants, zones and calendar fields.
 *
 * An instant is a count of milliseconds since the epoch. A zone maps each instant to the
 * UTC offset in force then; the local wall-clock time is the instant plus that offset.
 * Time-of-day fields and the epoch day are computed from the local time; the month and
 * year arithmetic of the civil calendar is left abstract in a `Calendar` record.
 */
module Time {
  import opened Wrappers

  const MillisPerSecond: int := 1000
  const MillisPerMinute: int := 60000
  const MillisPerQuarterHour: int := 900000
  const MillisPerHour: int := 3600000
  const MillisPerHalfDay: int := 43200000
  const MillisPerDay: int := 86400000

  /** Java's ChronoUnit. */
  datatype Unit =
    | Nanos | Micros | Millis | Seconds | Minutes | Hours | HalfDays | Days
    | Weeks | Months | Years | Decades | Centuries | Millennia | Eras | Forever

  /**
   * The ChronoField values that are modelled: those of the default chain, of the tests,
   * and of the day, month and year scans. The binner reads whatever field a level names;
   * other fields are not modelled.
   */
  datatype Field =
    | MilliOfSecond | SecondOfMinute | SecondOfDay | MinuteOfHour | HourOfDay
    | EpochDay | MonthOfYear | Year

  /**
   * Civil-calendar arithmetic that is not modelled: the month and year of an instant,
   * the start of its month (`with(firstDayOfMonth()).truncatedTo(DAYS)`) and year, and
   * adding one month or one year in local time.
   */
  datatype Calendar = Calendar(
    monthOfYear: int -> int,
    year: int -> int,
    startOfMonth: int -> int,
    plusMonth: int -> int,
    startOfYear: int -> int,
    plusYear: int -> int)

  /**
   * A time zone: the UTC offset (in milliseconds) in force at each instant; the instant
   * `ZonedDateTime.ofLocal` gives a local time when the preferred offset is not valid for
   * it (the only valid offset, the earlier of two in an overlap, or in a gap the local
   * time moved forward by the gap's length); adding one local day (`plus(1, DAYS)`); and
   * the calendar.
   */
  datatype Zone = Zone(offset: int -> int, ofLocal: int -> int, plusDay: int -> int, cal: Calendar)

  /** The zone `Z`: offset zero everywhere, so a local day is exactly 86 400 000 ms. */
  function Utc(cal: Calendar): Zone
  {
    Zone(t => 0, l => l, t => t + MillisPerDay, cal)
  }

  /** Local wall-clock milliseconds at instant `t`. */
  function Local(z: Zone, t: int): int
  {
    t + z.offset(t)
  }

  /** `ZonedDateTime.getLong(field)` at instant `t` (floor division and floor modulus). */
  function FieldOf(z: Zone, f: Field, t: int): int
  {
    match f
    case MilliOfSecond => Local(z, t) % MillisPerSecond
    case SecondOfMinute => (Local(z, t) / MillisPerSecond) % 60
    case SecondOfDay => (Local(z, t) / MillisPerSecond) % 86400
    case MinuteOfHour => (Local(z, t) / MillisPerMinute) % 60
    case HourOfDay => (Local(z, t) / MillisPerHour) % 24
    case EpochDay => Local(z, t) / MillisPerDay
    case MonthOfYear => z.cal.monthOfYear(t)
    case Year => z.cal.year(t)
  }

  /**
   * The length of a unit that `truncatedTo` accepts. Java refuses units longer than a
   * day; instants here carry no sub-millisecond part, so nanos and micros truncate to
   * the instant itself.
   */
  function TruncationLength(u: Unit): (r: Option<int>)
    ensures r.Some? ==> 0 < r.value <= MillisPerDay && MillisPerDay % r.value == 0
    ensures r.Some? <==> u in {Nanos, Micros, Millis, Seconds, Minutes, Hours, HalfDays, Days}
  {
    match u
    case Nanos => Some(1)
    case Micros => Some(1)
    case Millis => Some(1)
    case Seconds => Some(MillisPerSecond)
    case Minutes => Some(MillisPerMinute)
    case Hours => Some(MillisPerHour)
    case HalfDays => Some(MillisPerHalfDay)
    case Days => Some(MillisPerDay)
    case _ => None
  }

  /**
   * The instant whose local time is the local time of `t` rounded down to a multiple of
   * `len`, keeping the offset in force at `t`.
   */
  function Floor(z: Zone, len: int, t: int): (r: int)
    requires 0 < len
    ensures r <= t < r + len
    ensures Local(z, t) - (t - r) == (Local(z, t) / len) * len
  {
    t - Local(z, t) % len
  }

  /**
   * `ZonedDateTime.ofLocal(local, zone, preferred)`: the preferred offset when it is valid
   * for the local time, and otherwise the zone's own resolution.
   */
  function Resolve(z: Zone, local: int, preferred: int): (r: int)
    ensures z.offset(local - preferred) == preferred ==> Local(z, r) == local && z.offset(r) == preferred
    ensures z.offset(local - preferred) != preferred ==> r == z.ofLocal(local)
  {
    if z.offset(local - preferred) == preferred then local - preferred else z.ofLocal(local)
  }

  /**
   * `ZonedDateTime.truncatedTo(u)`: the local time rounded down to the unit, resolved with
   * the offset of `t` preferred; `None` where Java throws for a unit longer than a day.
   * When that offset is still in force at the rounded-down local time, the result is at
   * most `t` and less than one unit before it; otherwise it is the zone's resolution of
   * the rounded-down local time, which in a gap lies after `t`.
   */
  function Truncate(z: Zone, u: Unit, t: int): (r: Option<int>)
    ensures r.Some? <==> TruncationLength(u).Some?
    ensures r.Some? ==>
      var len := TruncationLength(u).value;
      var s := Floor(z, len, t);
      && (z.offset(s) == z.offset(t) ==> r.value == s && r.value <= t < r.value + len)
      && (z.offset(s) != z.offset(t) ==> r.value == z.ofLocal((Local(z, t) / len) * len))
  {
    match TruncationLength(u)
    case None => None
    case Some(len) =>
      var s := Floor(z, len, t);
      assert (Local(z, t) / len) * len - z.offset(t) == s;
      Some(Resolve(z, (Local(z, t) / len) * len, z.offset(t)))
  }

  /**
   * Where the offsets are whole units and the offset in force at `t` already held at the
   * start of `t`'s UTC unit, truncation keeps that offset: it is the UTC rounding down.
   */
  lemma {:induction false} TruncationKeepsOffset(z: Zone, u: Unit, t: int)
    requires TruncationLength(u).Some?
    requires var len := TruncationLength(u).value;
      z.offset(t) % len == 0 && z.offset(t - t % len) == z.offset(t)
    ensures var len := TruncationLength(u).value;
      Truncate(z, u, t) == Some(Floor(z, len, t)) && Floor(z, len, t) == t - t % len
  {
    var len := TruncationLength(u).value;
    var o := z.offset(t);
    ModShift(t, o, len);
    assert Local(z, t) % len == t % len;
  }

  /**
   * On the day New York springs forward (10 March 2024), noon local time truncated to
   * the day is midnight at the zone's standard offset, 05:00 UTC, and not the instant an
   * hour earlier that keeping noon's daylight offset would give.
   */
  lemma {:induction false} EasternSpringDay(z: Zone)
    requires z.offset(1710086400000) == -14400000 && z.offset(1710043200000) == -18000000
    requires z.ofLocal(1710028800000) == 1710046800000
    ensures Floor(z, MillisPerDay, 1710086400000) == 1710043200000
    ensures Truncate(z, Days, 1710086400000) == Some(1710046800000)
  {
    assert Local(z, 1710086400000) == 1710072000000;
    assert Local(z, 1710086400000) % MillisPerDay == 43200000;
    assert (Local(z, 1710086400000) / MillisPerDay) * MillisPerDay == 1710028800000;
  }

  /** Adding a multiple of `len` keeps the remainder. */
  lemma {:induction false} ModShift(t: int, o: int, len: int)
    requires 0 < len && o % len == 0
    ensures (t + o) % len == t % len
  {
    var q := o / len;
    assert o == len * q;
    var a := t / len;
    assert t == len * a + t % len;
    assert t + o == len * (a + q) + t % len;
    ModUnique(t + o, len, a + q, t % len);
  }

  /** The remainder is the only one in range. */
  lemma {:induction false} ModUnique(x: int, len: int, q: int, m: int)
    requires 0 < len && 0 <= m < len && x == len * q + m
    ensures x % len == m
  {
    var q' := x / len;
    assert x == len * q' + x % len;
    if q' > q {
      assert len * q' >= len * (q + 1) by { MulMonoRight(len, q + 1, q'); }
    } else if q' < q {
      assert len * q >= len * (q' + 1) by { MulMonoRight(len, q' + 1, q); }
    }
  }

  lemma {:induction false} MulMonoRight(c: int, a: int, b: int)
    requires a <= b && c >= 0
    ensures c * a <= c * b
  {
    assert c * b - c * a == c * (b - a);
  }
}

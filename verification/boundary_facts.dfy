/**
 * Facts about the boundary calculator: the boundary it returns is unique, an offset
 * change is itself a boundary, the zone `Z` day/month/year steps, and the daylight-saving
 * fixtures of the test suite restated over any zone with the same offsets.
 */
module BoundaryFacts {
  import opened Wrappers
  import opened Errors
  import opened Time
  import opened Boundary

  /** The loop exits at only one step. */
  lemma {:induction false} FirstChangeUnique(z: Zone, p: Plan, k1: nat, k2: nat)
    requires FirstChange(z, p, k1) && FirstChange(z, p, k2)
    ensures k1 == k2
  {
  }

  /**
   * A change of UTC offset a quarter hour after `t` ends the hour bin there, whether or
   * not the hour of day rolled over (the 45-minute shifts of Pacific/Chatham).
   */
  lemma {:induction false} OffsetShiftEndsHour(z: Zone, t: int)
    requires z.offset(t + MillisPerQuarterHour) != z.offset(t)
    ensures NextHour(z, t) == t + MillisPerQuarterHour
  {
    var p := HourPlan(z, t);
    var r := NextHour(z, t);
    var k: nat :| r == Iterate(z, p.step, p.start, k) && FirstChange(z, p, k);
    IterateFixed(z, MillisPerQuarterHour, t, 1);
    assert !Same(z, p.base, Iterate(z, p.step, p.start, 1));
    assert FirstChange(z, p, 1);
    FirstChangeUnique(z, p, k, 1);
  }

  /** From the top of a local hour with no offset change within the hour, the hour bin is one hour long. */
  lemma {:induction false} WholeHour(z: Zone, t: int)
    requires Local(z, t) % MillisPerHour == 0
    requires forall j :: 1 <= j <= 4 ==> z.offset(t + j * MillisPerQuarterHour) == z.offset(t)
    ensures NextHour(z, t) == t + MillisPerHour
  {
    var p := HourPlan(z, t);
    var r := NextHour(z, t);
    var k: nat :| r == Iterate(z, p.step, p.start, k) && FirstChange(z, p, k);
    forall j | 0 <= j <= 4
      ensures Iterate(z, p.step, p.start, j) == t + j * MillisPerQuarterHour
    {
      IterateFixed(z, MillisPerQuarterHour, t, j);
    }
    forall j | 0 <= j < 4
      ensures Same(z, p.base, Iterate(z, p.step, p.start, j))
    {
      if j > 0 {
        assert z.offset(t + j * MillisPerQuarterHour) == z.offset(t);
      }
      HourOfDayWithin(Local(z, t), j * MillisPerQuarterHour);
    }
    assert z.offset(t + 4 * MillisPerQuarterHour) == z.offset(t);
    HourOfDayWithin(Local(z, t), 0);
    assert !Same(z, p.base, Iterate(z, p.step, p.start, 4));
    assert FirstChange(z, p, 4);
    FirstChangeUnique(z, p, k, 4);
  }

  /** Within a local hour that starts on the hour the hour of day stays; an hour on, it moves. */
  lemma {:induction false} HourOfDayWithin(l: int, d: int)
    requires l % MillisPerHour == 0 && 0 <= d < MillisPerHour
    ensures ((l + d) / MillisPerHour) % 24 == (l / MillisPerHour) % 24
    ensures ((l + MillisPerHour) / MillisPerHour) % 24 != (l / MillisPerHour) % 24
  {
    var q := l / MillisPerHour;
    assert l == MillisPerHour * q;
    assert (l + d) / MillisPerHour == q;
    assert (l + MillisPerHour) / MillisPerHour == q + 1;
  }

  /** Test fixture: Pacific/Chatham at 03:30 +13:45, the offset drops to +12:45 at 03:45. */
  lemma {:induction false} ChathamDaylightEnd(z: Zone)
    requires z.offset(1712411100000) == 49500000
    requires z.offset(1712411100000 + MillisPerQuarterHour) == 45900000
    ensures FieldOf(z, HourOfDay, 1712411100000) == 3
    ensures FieldOf(z, HourOfDay, NextHour(z, 1712411100000)) == 2
  {
    OffsetShiftEndsHour(z, 1712411100000);
  }

  /** Test fixture: Pacific/Chatham at 02:30 +12:45, the offset rises to +13:45 at 02:45. */
  lemma {:induction false} ChathamDaylightStart(z: Zone)
    requires z.offset(1727531100000) == 45900000
    requires z.offset(1727531100000 + MillisPerQuarterHour) == 49500000
    ensures FieldOf(z, HourOfDay, 1727531100000) == 2
    ensures FieldOf(z, HourOfDay, NextHour(z, 1727531100000)) == 3
  {
    OffsetShiftEndsHour(z, 1727531100000);
  }

  /** Test fixture: US/Eastern at 01:45 -05:00, clocks jump to 03:00 -04:00. */
  lemma {:induction false} EasternDaylightStart(z: Zone)
    requires z.offset(1710053100000) == -18000000
    requires z.offset(1710053100000 + MillisPerQuarterHour) == -14400000
    ensures FieldOf(z, HourOfDay, 1710053100000) == 1
    ensures FieldOf(z, HourOfDay, NextHour(z, 1710053100000)) == 3
  {
    OffsetShiftEndsHour(z, 1710053100000);
  }

  /** Test fixture: US/Eastern at 01:45 -04:00, clocks fall back to 01:00 -05:00. */
  lemma {:induction false} EasternDaylightEnd(z: Zone)
    requires z.offset(1730612700000) == -14400000
    requires z.offset(1730612700000 + MillisPerQuarterHour) == -18000000
    ensures FieldOf(z, HourOfDay, 1730612700000) == 1
    ensures FieldOf(z, HourOfDay, NextHour(z, 1730612700000)) == 1
  {
    OffsetShiftEndsHour(z, 1730612700000);
  }

  /**
   * The minute boundary is the next whole local minute, or the truncated start itself
   * when the offset in force there differs from the one at `t`.
   */
  lemma {:induction false} NextMinuteExact(z: Zone, t: int)
    ensures var s := Floor(z, MillisPerMinute, t);
      NextMinute(z, t) == if z.offset(s) == z.offset(t) then s + MillisPerMinute else s
  {
    var p := MinutePlan(z, t);
    var k: nat :| NextMinute(z, t) == Iterate(z, p.step, p.start, k) && FirstChange(z, p, k);
    IterateFixed(z, MillisPerMinute, p.start, k);
    if z.offset(p.start) == z.offset(t) {
      assert Same(z, p.base, Iterate(z, p.step, p.start, 0));
    } else {
      assert FirstChange(z, p, 0);
      FirstChangeUnique(z, p, k, 0);
    }
  }

  /** As `NextMinuteExact`, for the second boundary. */
  lemma {:induction false} NextSecondExact(z: Zone, t: int)
    ensures var s := Floor(z, MillisPerSecond, t);
      NextSecond(z, t) == if z.offset(s) == z.offset(t) then s + MillisPerSecond else s
  {
    var p := SecondPlan(z, t);
    var k: nat :| NextSecond(z, t) == Iterate(z, p.step, p.start, k) && FirstChange(z, p, k);
    IterateFixed(z, MillisPerSecond, p.start, k);
    if z.offset(p.start) == z.offset(t) {
      assert Same(z, p.base, Iterate(z, p.step, p.start, 0));
    } else {
      assert FirstChange(z, p, 0);
      FirstChangeUnique(z, p, k, 0);
    }
  }

  /**
   * Test fixture, Pacific/Chatham: one minute before each shift, the next boundary is the
   * shift, with the hour moved as the shift moves it and the smaller fields one further
   * on.
   */
  lemma {:induction false} MinuteShiftChatham(chatham: Zone, fuel: nat)
    requires chatham.offset(1712411940000) == 49500000 && chatham.offset(1712412000000) == 45900000
    requires chatham.offset(1727531940000) == 45900000 && chatham.offset(1727532000000) == 49500000
    ensures var t, r := 1712411940000, GetNext(chatham, Minutes, MinuteOfHour, 1712411940000, fuel).value;
      FieldOf(chatham, HourOfDay, r) == FieldOf(chatham, HourOfDay, t) - 1
      && FieldOf(chatham, MinuteOfHour, r) == (FieldOf(chatham, MinuteOfHour, t) + 1) % 60
    ensures var t, r := 1727531940000, GetNext(chatham, Minutes, MinuteOfHour, 1727531940000, fuel).value;
      FieldOf(chatham, HourOfDay, r) == FieldOf(chatham, HourOfDay, t) + 1
      && FieldOf(chatham, MinuteOfHour, r) == (FieldOf(chatham, MinuteOfHour, t) + 1) % 60
  {
    NextMinuteExact(chatham, 1712411940000);
    assert Local(chatham, 1712411940000) == 1712461440000 && Local(chatham, 1712412000000) == 1712457900000;
    NextMinuteExact(chatham, 1727531940000);
    assert Local(chatham, 1727531940000) == 1727577840000 && Local(chatham, 1727532000000) == 1727581500000;
  }

  /**
   * Test fixture, US/Eastern: one minute before each shift, the next boundary is the
   * shift, with the hour moved as the shift moves it and the smaller fields one further
   * on.
   */
  lemma {:induction false} MinuteShiftEastern(eastern: Zone, fuel: nat)
    requires eastern.offset(1710053940000) == -18000000 && eastern.offset(1710054000000) == -14400000
    requires eastern.offset(1730613540000) == -14400000 && eastern.offset(1730613600000) == -18000000
    ensures var t, r := 1710053940000, GetNext(eastern, Minutes, MinuteOfHour, 1710053940000, fuel).value;
      FieldOf(eastern, HourOfDay, r) == FieldOf(eastern, HourOfDay, t) + 2
      && FieldOf(eastern, MinuteOfHour, r) == (FieldOf(eastern, MinuteOfHour, t) + 1) % 60
    ensures var t, r := 1730613540000, GetNext(eastern, Minutes, MinuteOfHour, 1730613540000, fuel).value;
      FieldOf(eastern, HourOfDay, r) == FieldOf(eastern, HourOfDay, t)
      && FieldOf(eastern, MinuteOfHour, r) == (FieldOf(eastern, MinuteOfHour, t) + 1) % 60
  {
    NextMinuteExact(eastern, 1710053940000);
    assert Local(eastern, 1710053940000) == 1710035940000 && Local(eastern, 1710054000000) == 1710039600000;
    NextMinuteExact(eastern, 1730613540000);
    assert Local(eastern, 1730613540000) == 1730599140000 && Local(eastern, 1730613600000) == 1730595600000;
  }

  /**
   * Test fixture, Pacific/Chatham: one second before each shift, the next boundary is the
   * shift, with the hour moved as the shift moves it and the smaller fields one further
   * on. The test passes the second-of-day field, which the second scan ignores.
   */
  lemma {:induction false} SecondShiftChatham(chatham: Zone, fuel: nat)
    requires chatham.offset(1712411999000) == 49500000 && chatham.offset(1712412000000) == 45900000
    requires chatham.offset(1727531999000) == 45900000 && chatham.offset(1727532000000) == 49500000
    ensures var t, r := 1712411999000, GetNext(chatham, Seconds, SecondOfDay, 1712411999000, fuel).value;
      FieldOf(chatham, HourOfDay, r) == FieldOf(chatham, HourOfDay, t) - 1
      && FieldOf(chatham, MinuteOfHour, r) == (FieldOf(chatham, MinuteOfHour, t) + 1) % 60
      && FieldOf(chatham, SecondOfMinute, r) == (FieldOf(chatham, SecondOfMinute, t) + 1) % 60
    ensures var t, r := 1727531999000, GetNext(chatham, Seconds, SecondOfDay, 1727531999000, fuel).value;
      FieldOf(chatham, HourOfDay, r) == FieldOf(chatham, HourOfDay, t) + 1
      && FieldOf(chatham, MinuteOfHour, r) == (FieldOf(chatham, MinuteOfHour, t) + 1) % 60
      && FieldOf(chatham, SecondOfMinute, r) == (FieldOf(chatham, SecondOfMinute, t) + 1) % 60
  {
    NextSecondExact(chatham, 1712411999000);
    assert Local(chatham, 1712411999000) == 1712461499000 && Local(chatham, 1712412000000) == 1712457900000;
    NextSecondExact(chatham, 1727531999000);
    assert Local(chatham, 1727531999000) == 1727577899000 && Local(chatham, 1727532000000) == 1727581500000;
  }

  /**
   * Test fixture, US/Eastern: one second before each shift, the next boundary is the
   * shift, with the hour moved as the shift moves it and the smaller fields one further
   * on. The test passes the second-of-day field, which the second scan ignores.
   */
  lemma {:induction false} SecondShiftEastern(eastern: Zone, fuel: nat)
    requires eastern.offset(1710053999000) == -18000000 && eastern.offset(1710054000000) == -14400000
    requires eastern.offset(1730613599000) == -14400000 && eastern.offset(1730613600000) == -18000000
    ensures var t, r := 1710053999000, GetNext(eastern, Seconds, SecondOfDay, 1710053999000, fuel).value;
      FieldOf(eastern, HourOfDay, r) == FieldOf(eastern, HourOfDay, t) + 2
      && FieldOf(eastern, MinuteOfHour, r) == (FieldOf(eastern, MinuteOfHour, t) + 1) % 60
      && FieldOf(eastern, SecondOfMinute, r) == (FieldOf(eastern, SecondOfMinute, t) + 1) % 60
    ensures var t, r := 1730613599000, GetNext(eastern, Seconds, SecondOfDay, 1730613599000, fuel).value;
      FieldOf(eastern, HourOfDay, r) == FieldOf(eastern, HourOfDay, t)
      && FieldOf(eastern, MinuteOfHour, r) == (FieldOf(eastern, MinuteOfHour, t) + 1) % 60
      && FieldOf(eastern, SecondOfMinute, r) == (FieldOf(eastern, SecondOfMinute, t) + 1) % 60
  {
    NextSecondExact(eastern, 1710053999000);
    assert Local(eastern, 1710053999000) == 1710035999000 && Local(eastern, 1710054000000) == 1710039600000;
    NextSecondExact(eastern, 1730613599000);
    assert Local(eastern, 1730613599000) == 1730599199000 && Local(eastern, 1730613600000) == 1730595600000;
  }

  /**
   * Test fixture, Pacific/Chatham: one millisecond before each shift, the next boundary is
   * the shift, with the hour moved as the shift moves it and the smaller fields one
   * further on.
   */
  lemma {:induction false} MilliShiftChatham(chatham: Zone, fuel: nat)
    requires chatham.offset(1712411999999) == 49500000 && chatham.offset(1712412000000) == 45900000
    requires chatham.offset(1727531999999) == 45900000 && chatham.offset(1727532000000) == 49500000
    ensures var t, r := 1712411999999, GetNext(chatham, Millis, MilliOfSecond, 1712411999999, fuel).value;
      FieldOf(chatham, HourOfDay, r) == FieldOf(chatham, HourOfDay, t) - 1
      && FieldOf(chatham, MinuteOfHour, r) == (FieldOf(chatham, MinuteOfHour, t) + 1) % 60
      && FieldOf(chatham, SecondOfMinute, r) == (FieldOf(chatham, SecondOfMinute, t) + 1) % 60
      && FieldOf(chatham, MilliOfSecond, r) == (FieldOf(chatham, MilliOfSecond, t) + 1) % 1000
    ensures var t, r := 1727531999999, GetNext(chatham, Millis, MilliOfSecond, 1727531999999, fuel).value;
      FieldOf(chatham, HourOfDay, r) == FieldOf(chatham, HourOfDay, t) + 1
      && FieldOf(chatham, MinuteOfHour, r) == (FieldOf(chatham, MinuteOfHour, t) + 1) % 60
      && FieldOf(chatham, SecondOfMinute, r) == (FieldOf(chatham, SecondOfMinute, t) + 1) % 60
      && FieldOf(chatham, MilliOfSecond, r) == (FieldOf(chatham, MilliOfSecond, t) + 1) % 1000
  {
    assert Local(chatham, 1712411999999) == 1712461499999 && Local(chatham, 1712412000000) == 1712457900000;
    assert Local(chatham, 1727531999999) == 1727577899999 && Local(chatham, 1727532000000) == 1727581500000;
  }

  /**
   * Test fixture, US/Eastern: one millisecond before each shift, the next boundary is the
   * shift, with the hour moved as the shift moves it and the smaller fields one further
   * on.
   */
  lemma {:induction false} MilliShiftEastern(eastern: Zone, fuel: nat)
    requires eastern.offset(1710053999999) == -18000000 && eastern.offset(1710054000000) == -14400000
    requires eastern.offset(1730613599999) == -14400000 && eastern.offset(1730613600000) == -18000000
    ensures var t, r := 1710053999999, GetNext(eastern, Millis, MilliOfSecond, 1710053999999, fuel).value;
      FieldOf(eastern, HourOfDay, r) == FieldOf(eastern, HourOfDay, t) + 2
      && FieldOf(eastern, MinuteOfHour, r) == (FieldOf(eastern, MinuteOfHour, t) + 1) % 60
      && FieldOf(eastern, SecondOfMinute, r) == (FieldOf(eastern, SecondOfMinute, t) + 1) % 60
      && FieldOf(eastern, MilliOfSecond, r) == (FieldOf(eastern, MilliOfSecond, t) + 1) % 1000
    ensures var t, r := 1730613599999, GetNext(eastern, Millis, MilliOfSecond, 1730613599999, fuel).value;
      FieldOf(eastern, HourOfDay, r) == FieldOf(eastern, HourOfDay, t)
      && FieldOf(eastern, MinuteOfHour, r) == (FieldOf(eastern, MinuteOfHour, t) + 1) % 60
      && FieldOf(eastern, SecondOfMinute, r) == (FieldOf(eastern, SecondOfMinute, t) + 1) % 60
      && FieldOf(eastern, MilliOfSecond, r) == (FieldOf(eastern, MilliOfSecond, t) + 1) % 1000
  {
    assert Local(eastern, 1710053999999) == 1710035999999 && Local(eastern, 1710054000000) == 1710039600000;
    assert Local(eastern, 1730613599999) == 1730599199999 && Local(eastern, 1730613600000) == 1730595600000;
  }

  /** In zone `Z`, the day boundary after `t` is the next UTC midnight: the epoch day grows by one. */
  lemma {:induction false} UtcNextDay(cal: Calendar, t: int, fuel: nat)
    requires fuel >= 1
    ensures GetNext(Utc(cal), Days, EpochDay, t, fuel) == Success(t - t % MillisPerDay + MillisPerDay)
    ensures FieldOf(Utc(cal), EpochDay, t - t % MillisPerDay + MillisPerDay) == FieldOf(Utc(cal), EpochDay, t) + 1
  {
    var z := Utc(cal);
    var p := ScanPlan(z, Days, EpochDay, t).value;
    var s := t - t % MillisPerDay;
    assert p.start == s && p.step == PlusDay;
    assert Advance(z, PlusDay, s) == s + MillisPerDay;
    assert !Same(z, p.base, s + MillisPerDay);
    assert ScanCount(z, p.base, PlusDay, s + MillisPerDay, fuel - 1) == Some(0);
    assert ScanCount(z, p.base, PlusDay, s, fuel) == Some(1);
  }

  /** A calendar whose month arithmetic behaves like the civil calendar at `t`. */
  predicate MonthLawsAt(cal: Calendar, t: int)
  {
    && 1 <= cal.monthOfYear(t) <= 12
    && cal.monthOfYear(cal.startOfMonth(t)) == cal.monthOfYear(t)
    && cal.monthOfYear(cal.plusMonth(cal.startOfMonth(t))) == cal.monthOfYear(t) % 12 + 1
  }

  /** In zone `Z`, the month boundary is one month after the month start; December wraps to January. */
  lemma {:induction false} UtcNextMonth(cal: Calendar, t: int, fuel: nat)
    requires fuel >= 1 && MonthLawsAt(cal, t)
    ensures GetNext(Utc(cal), Months, MonthOfYear, t, fuel) == Success(cal.plusMonth(cal.startOfMonth(t)))
    ensures cal.monthOfYear(t) == 12 ==> cal.monthOfYear(cal.plusMonth(cal.startOfMonth(t))) == 1
    ensures cal.monthOfYear(t) < 12 ==> cal.monthOfYear(cal.plusMonth(cal.startOfMonth(t))) == cal.monthOfYear(t) + 1
  {
    var z := Utc(cal);
    var p := ScanPlan(z, Months, MonthOfYear, t).value;
    var s := cal.startOfMonth(t);
    assert p.start == s && p.step == PlusMonth;
    assert !Same(z, p.base, cal.plusMonth(s));
    assert ScanCount(z, p.base, PlusMonth, cal.plusMonth(s), fuel - 1) == Some(0);
    assert ScanCount(z, p.base, PlusMonth, s, fuel) == Some(1);
  }

  /** In zone `Z`, the year boundary is one year after the year start: the year grows by one. */
  lemma {:induction false} UtcNextYear(cal: Calendar, t: int, fuel: nat)
    requires fuel >= 1
    requires cal.year(cal.startOfYear(t)) == cal.year(t)
    requires cal.year(cal.plusYear(cal.startOfYear(t))) == cal.year(t) + 1
    ensures GetNext(Utc(cal), Years, Year, t, fuel) == Success(cal.plusYear(cal.startOfYear(t)))
  {
    var z := Utc(cal);
    var p := ScanPlan(z, Years, Year, t).value;
    var s := cal.startOfYear(t);
    assert p.start == s && p.step == PlusYear;
    assert !Same(z, p.base, cal.plusYear(s));
    assert ScanCount(z, p.base, PlusYear, cal.plusYear(s), fuel - 1) == Some(0);
    assert ScanCount(z, p.base, PlusYear, s, fuel) == Some(1);
  }
}

/**
 * The binner in zone `Z`: the layout always succeeds for sub-day units and for days on
 * the epoch-day field, day bins are exactly one UTC day long, and the seven-day fixture
 * of the test suite gets eight bins, the first seven holding 24 hourly records each.
 */
module BinnerFacts {
  import opened Wrappers
  import opened Time
  import opened Boundary
  import opened BoundaryFacts
  import opened Bins
  import opened Binner
  import opened Placement

  /** In zone `Z` every sub-day boundary is later than the instant it starts from. */
  lemma {:induction false} UtcSubDayProgress(cal: Calendar, u: Unit, f: Field, t: int, fuel: nat)
    requires u in {Millis, Seconds, Minutes, Hours}
    ensures GetNext(Utc(cal), u, f, t, fuel).Success?
    ensures GetNext(Utc(cal), u, f, t, fuel).value > t
  {
    var z := Utc(cal);
    assert z.offset(Floor(z, MillisPerMinute, t)) == z.offset(t);
    assert z.offset(Floor(z, MillisPerSecond, t)) == z.offset(t);
  }

  lemma {:induction false} UtcLayoutFromSucceeds<T>(cal: Calendar, u: Unit, f: Field, cur: int, last: int, fuel: nat)
    requires u in {Millis, Seconds, Minutes, Hours} || (u == Days && f == EpochDay && fuel >= 1)
    ensures LayoutFrom<T>(Utc(cal), u, f, cur, last, fuel).Success?
    decreases if cur <= last then last - cur + 1 else 0
  {
    if cur <= last {
      if u == Days {
        UtcNextDay(cal, cur, fuel);
      } else {
        UtcSubDayProgress(cal, u, f, cur, fuel);
      }
      var next := GetNext(Utc(cal), u, f, cur, fuel).value;
      UtcLayoutFromSucceeds<T>(cal, u, f, next, last, fuel);
    }
  }

  /**
   * In zone `Z` the constructor never fails for milliseconds, seconds, minutes and
   * hours, nor for days binned on the epoch day.
   */
  lemma {:induction false} UtcLayoutSucceeds<T>(rule: StartRule, cal: Calendar, u: Unit, f: Field, startMs: int, endMs: int, fuel: nat)
    requires u in {Millis, Seconds, Minutes, Hours} || (u == Days && f == EpochDay && fuel >= 1)
    ensures Layout<T>(rule, Utc(cal), u, f, startMs, endMs, fuel).Success?
  {
    UtcLayoutFromSucceeds<T>(cal, u, f, FirstStart(rule, Utc(cal), u, startMs).value, endMs, fuel);
  }

  /**
   * In zone `Z` truncation is the UTC rounding down, so it never passes the instant and
   * both start rules give the same first bin start.
   */
  lemma {:induction false} UtcStart(rule: StartRule, cal: Calendar, u: Unit, t: int)
    requires TruncationLength(u).Some?
    ensures var len := TruncationLength(u).value;
      && Truncate(Utc(cal), u, t) == Some(t - t % len)
      && FirstStart(rule, Utc(cal), u, t) == Truncate(Utc(cal), u, t)
  {
    TruncationKeepsOffset(Utc(cal), u, t);
  }

  lemma {:induction false} UtcDaysFrom<T>(cal: Calendar, cur: int, last: int, fuel: nat)
    requires cur % MillisPerDay == 0 && fuel >= 1
    ensures var r := LayoutFrom<T>(Utc(cal), Days, EpochDay, cur, last, fuel);
      && r.Success?
      && |r.value| == (if cur <= last then (last - cur) / MillisPerDay + 1 else 0)
      && forall k :: 0 <= k < |r.value| ==>
           r.value[k].startMs == cur + k * MillisPerDay && r.value[k].endMs == r.value[k].startMs + MillisPerDay
    decreases if cur <= last then last - cur + 1 else 0
  {
    if cur <= last {
      UtcNextDay(cal, cur, fuel);
      var next := cur + MillisPerDay;
      UtcDaysFrom<T>(cal, next, last, fuel);
      var rest := LayoutFrom<T>(Utc(cal), Days, EpochDay, next, last, fuel).value;
      var r := LayoutFrom<T>(Utc(cal), Days, EpochDay, cur, last, fuel).value;
      assert r == [NewBin(Days, FieldOf(Utc(cal), EpochDay, cur), cur, next)] + rest;
      forall k | 0 < k < |r|
        ensures r[k].startMs == cur + k * MillisPerDay && r[k].endMs == r[k].startMs + MillisPerDay
      {
        assert r[k] == rest[k - 1];
      }
    }
  }

  /**
   * Day bins in zone `Z` from a midnight start: one per UTC day up to and including the
   * day holding the end instant, each exactly one UTC day long.
   */
  lemma {:induction false} UtcDayLayout<T>(cal: Calendar, startMs: int, endMs: int, fuel: nat)
    requires startMs % MillisPerDay == 0 && startMs <= endMs && fuel >= 1
    ensures var r := Layout<T>(Truncated, Utc(cal), Days, EpochDay, startMs, endMs, fuel);
      && r.Success?
      && |r.value| == (endMs - startMs) / MillisPerDay + 1
      && forall k :: 0 <= k < |r.value| ==>
           r.value[k].startMs == startMs + k * MillisPerDay && r.value[k].endMs == r.value[k].startMs + MillisPerDay
  {
    assert Truncate(Utc(cal), Days, startMs) == Some(startMs);
    UtcDaysFrom<T>(cal, startMs, endMs, fuel);
  }

  /** Over sorted records, the records of an interval are the slice of indices it selects. */
  lemma {:induction false} WithinSlice<T>(records: seq<T>, ts: T -> int, lo: int, hi: int, a: int, b: int)
    requires 0 <= a <= b <= |records|
    requires forall j :: 0 <= j < |records| ==> (lo <= ts(records[j]) < hi <==> a <= j < b)
    ensures Within(records, ts, lo, hi) == records[a..b]
    decreases |records|
  {
    if |records| > 0 {
      var n := |records| - 1;
      var pre := records[..n];
      var a', b' := if a < n then a else n, if b < n then b else n;
      WithinSlice(pre, ts, lo, hi, a', b');
      if a <= n < b {
        assert records[a..b] == pre[a'..b'] + [records[n]];
      } else {
        assert records[a..b] == pre[a'..b'];
      }
    }
  }

  /** The test's records: one per hour for seven days from `startMs`. */
  function HourlyRecords(startMs: int): (r: seq<int>)
    ensures |r| == 168
    ensures forall j :: 0 <= j < 168 ==> r[j] == startMs + j * MillisPerHour
  {
    seq(168, j => startMs + j * MillisPerHour)
  }

  /** The test's records are their own timestamps. */
  function Stamp(t: int): int
  {
    t
  }

  /** Seven days from a midnight: eight day bins, bin `k` being day `k` after the start. */
  lemma {:induction false} SevenDayLayout(cal: Calendar, startMs: int, fuel: nat)
    requires startMs % MillisPerDay == 0 && fuel >= 1
    ensures var r := Layout<int>(Truncated, Utc(cal), Days, EpochDay, startMs, startMs + 7 * MillisPerDay, fuel);
      && r.Success? && |r.value| == 8
      && forall k :: 0 <= k < 8 ==>
           r.value[k].startMs == startMs + k * MillisPerDay && r.value[k].endMs == r.value[k].startMs + MillisPerDay
  {
    var endMs := startMs + 7 * MillisPerDay;
    UtcDayLayout<int>(cal, startMs, endMs, fuel);
    assert (endMs - startMs) / MillisPerDay == 7;
  }

  /** Bin `k` of the seven-day layout is UTC day `k` after the start. */
  lemma {:induction false} SevenDayBin(cal: Calendar, startMs: int, fuel: nat, k: int)
    requires startMs % MillisPerDay == 0 && fuel >= 1 && 0 <= k < 8
    ensures var r := Layout<int>(Truncated, Utc(cal), Days, EpochDay, startMs, startMs + 7 * MillisPerDay, fuel);
      && r.Success? && |r.value| == 8
      && r.value[k].startMs == startMs + k * MillisPerDay
      && r.value[k].endMs == startMs + k * MillisPerDay + MillisPerDay
  {
    SevenDayLayout(cal, startMs, fuel);
  }

  /** Day `k` after the start holds hourly records `24k` to `24k + 23`, and day 7 none. */
  lemma {:induction false} HourlyWithinDay(startMs: int, k: int)
    requires 0 <= k < 8
    ensures var lo := startMs + k * MillisPerDay;
      Within(HourlyRecords(startMs), Stamp, lo, lo + MillisPerDay)
        == HourlyRecords(startMs)[(if k < 7 then 24 * k else 168)..(if k < 7 then 24 * k + 24 else 168)]
  {
    var lo := startMs + k * MillisPerDay;
    var a := if k < 7 then 24 * k else 168;
    var b := if k < 7 then 24 * k + 24 else 168;
    WithinSlice(HourlyRecords(startMs), Stamp, lo, lo + MillisPerDay, a, b);
  }

  /**
   * Eight fresh tiling bins, bin `k` spanning day `k` after the start: bin `k` receives
   * hourly records `24k` to `24k + 23`, and day 7 none.
   */
  lemma {:induction false} DayPlaced(bins: seq<TemporalBin<int>>, startMs: int, k: int)
    requires |bins| == 8 && Tiling(bins) && Fresh(bins) && 0 <= k < 8
    requires bins[k].startMs == startMs + k * MillisPerDay && bins[k].endMs == startMs + k * MillisPerDay + MillisPerDay
    ensures PlaceAll(bins, HourlyRecords(startMs), Stamp).bins[k].records
      == HourlyRecords(startMs)[(if k < 7 then 24 * k else 168)..(if k < 7 then 24 * k + 24 else 168)]
  {
    var records := HourlyRecords(startMs);
    assert Sorted(records, Stamp);
    PlacedAt(bins, records, Stamp, k);
    HourlyWithinDay(startMs, k);
  }

  /** Day `k` of the seven-day layout receives hourly records `24k` to `24k + 23`, day 7 none. */
  lemma {:induction false} SevenDayPlaced(cal: Calendar, startMs: int, fuel: nat, k: int)
    requires startMs % MillisPerDay == 0 && fuel >= 1 && 0 <= k < 8
    ensures var r := Layout<int>(Truncated, Utc(cal), Days, EpochDay, startMs, startMs + 7 * MillisPerDay, fuel);
      && r.Success? && |r.value| == 8
      && PlaceAll(r.value, HourlyRecords(startMs), Stamp).bins[k].records
           == HourlyRecords(startMs)[(if k < 7 then 24 * k else 168)..(if k < 7 then 24 * k + 24 else 168)]
  {
    SevenDayBin(cal, startMs, fuel, k);
    var bins := Layout<int>(Truncated, Utc(cal), Days, EpochDay, startMs, startMs + 7 * MillisPerDay, fuel).value;
    assert Fresh(bins);
    DayPlaced(bins, startMs, k);
  }

  /**
   * Test fixture: seven UTC days from a midnight give eight day bins (the end instant is
   * a midnight and gets its own bin); 168 hourly records fill the first seven with 24
   * records each, in order, and leave the eighth empty.
   */
  lemma {:induction false} SevenDayFixture(cal: Calendar, startMs: int, fuel: nat)
    requires startMs % MillisPerDay == 0 && fuel >= 1
    ensures var r := Layout<int>(Truncated, Utc(cal), Days, EpochDay, startMs, startMs + 7 * MillisPerDay, fuel);
      && r.Success? && |r.value| == 8
      && var placed := PlaceAll(r.value, HourlyRecords(startMs), Stamp).bins;
         && (forall k :: 0 <= k < 7 ==> placed[k].records == HourlyRecords(startMs)[24 * k..24 * k + 24])
         && placed[7].records == []
  {
    SevenDayPlaced(cal, startMs, fuel, 7);
    forall k | 0 <= k < 7
      ensures PlaceAll(Layout<int>(Truncated, Utc(cal), Days, EpochDay, startMs, startMs + 7 * MillisPerDay, fuel).value,
                HourlyRecords(startMs), Stamp).bins[k].records == HourlyRecords(startMs)[24 * k..24 * k + 24]
    {
      SevenDayPlaced(cal, startMs, fuel, k);
    }
  }
}

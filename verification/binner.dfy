/**
 * `DateBinner`: the constructor that lays out bins over a time range, and
 * `placeRecords`, which drops pre-sorted records into them in one forward pass.
 */
module Binner {
  import opened Wrappers
  import opened Errors
  import opened Time
  import opened Boundary
  import opened Bins

  /**
   * What every bin laid out for unit `u` and field `f` satisfies: no records yet, the
   * anchor's field value, and an end that is the boundary `getNext` gives for its start.
   */
  predicate LaidOut<T>(z: Zone, u: Unit, f: Field, fuel: nat, bins: seq<TemporalBin<T>>)
  {
    forall i :: 0 <= i < |bins| ==>
      && bins[i].unit == u
      && bins[i].records == []
      && bins[i].value == FieldOf(z, f, bins[i].startMs)
      && GetNext(z, u, f, bins[i].startMs, fuel) == Success(bins[i].endMs)
  }

  /**
   * The bins run from `first` up to the bin holding `last`: the first starts at
   * `first`, none starts after `last`, and the last one ends after `last`.
   */
  predicate Spans<T>(bins: seq<TemporalBin<T>>, first: int, last: int)
  {
    && (|bins| > 0 <==> first <= last)
    && (|bins| > 0 ==> bins[0].startMs == first && last < bins[|bins| - 1].endMs)
    && forall i :: 0 <= i < |bins| ==> bins[i].startMs <= last
  }

  /** The constructor's loop, from the current bin start `cur` on. */
  function LayoutFrom<T>(z: Zone, u: Unit, f: Field, cur: int, last: int, fuel: nat)
    : (r: Result<seq<TemporalBin<T>>, Failure>)
    ensures r.Success? ==> Tiling(r.value) && LaidOut(z, u, f, fuel, r.value) && Spans(r.value, cur, last)
    ensures r.Failure? ==> r.error in {UnsupportedUnit, NotIntField, ScanExhausted, NoProgress}
    decreases if cur <= last then last - cur + 1 else 0
  {
    if cur > last then Success([])
    else
      match GetNext(z, u, f, cur, fuel)
      case Failure(e) => Failure(e)
      case Success(next) =>
        if next <= cur then Failure(NoProgress)
        else
          match LayoutFrom(z, u, f, next, last, fuel)
          case Failure(e) => Failure(e)
          case Success(rest) =>
            ConsLayout(z, u, f, fuel, cur, next, last, rest);
            Success([NewBin(u, FieldOf(z, f, cur), cur, next)] + rest)
  }

  /** A fresh bin from `cur` to its boundary `next`, put before the bins laid out from `next`. */
  lemma {:induction false} ConsLayout<T>(z: Zone, u: Unit, f: Field, fuel: nat, cur: int, next: int, last: int, rest: seq<TemporalBin<T>>)
    requires cur < next && cur <= last && GetNext(z, u, f, cur, fuel) == Success(next)
    requires Tiling(rest) && LaidOut(z, u, f, fuel, rest) && Spans(rest, next, last)
    ensures var r := [NewBin(u, FieldOf(z, f, cur), cur, next)] + rest;
      Tiling(r) && LaidOut(z, u, f, fuel, r) && Spans(r, cur, last)
  {
    var b: TemporalBin<T> := NewBin(u, FieldOf(z, f, cur), cur, next);
    ConsTiling(b, rest);
    ConsLaidOut(z, u, f, fuel, b, rest);
    ConsSpans(b, rest, next, last);
  }

  lemma {:induction false} ConsTiling<T>(b: TemporalBin<T>, rest: seq<TemporalBin<T>>)
    requires b.startMs < b.endMs && Tiling(rest) && (|rest| > 0 ==> rest[0].startMs == b.endMs)
    ensures Tiling([b] + rest)
  {
    var r := [b] + rest;
    forall i | 0 < i < |r|
      ensures r[i - 1].endMs == r[i].startMs
    {
      assert r[i] == rest[i - 1];
      if i > 1 {
        assert r[i - 1] == rest[i - 2];
      }
    }
    forall i | 0 <= i < |r|
      ensures r[i].startMs < r[i].endMs
    {
      if i > 0 {
        assert r[i] == rest[i - 1];
      }
    }
  }

  lemma {:induction false} ConsLaidOut<T>(z: Zone, u: Unit, f: Field, fuel: nat, b: TemporalBin<T>, rest: seq<TemporalBin<T>>)
    requires b.unit == u && b.records == [] && b.value == FieldOf(z, f, b.startMs)
    requires GetNext(z, u, f, b.startMs, fuel) == Success(b.endMs)
    requires LaidOut(z, u, f, fuel, rest)
    ensures LaidOut(z, u, f, fuel, [b] + rest)
  {
    var r := [b] + rest;
    forall i | 0 < i < |r|
      ensures r[i] == rest[i - 1]
    {
    }
  }

  lemma {:induction false} ConsSpans<T>(b: TemporalBin<T>, rest: seq<TemporalBin<T>>, next: int, last: int)
    requires b.startMs <= last && b.startMs < next && b.endMs == next && Spans(rest, next, last)
    ensures Spans([b] + rest, b.startMs, last)
  {
    var r := [b] + rest;
    forall i | 0 < i < |r|
      ensures r[i] == rest[i - 1]
    {
    }
  }

  /** Where the constructor starts its first bin. */
  datatype StartRule =
    /** As written: the start instant truncated to the unit, which in a gap lies after it. */
    | Truncated
    /** Corrected: the truncated instant, unless that lies after the start instant; then
        the start instant's local unit rounded down with the start instant's offset. */
    | Clamped

  /**
   * The first bin start under `rule`. Both rules agree whenever truncation does not pass
   * the start instant, and the corrected one never passes it.
   */
  function FirstStart(rule: StartRule, z: Zone, u: Unit, t: int): (r: Option<int>)
    ensures r.Some? <==> TruncationLength(u).Some?
    ensures r.Some? && Truncate(z, u, t).value <= t ==> r == Truncate(z, u, t)
    ensures rule == Truncated ==> r == Truncate(z, u, t)
    ensures rule == Clamped && r.Some? ==> r.value <= t
  {
    match Truncate(z, u, t)
    case None => None
    case Some(s) =>
      if rule == Clamped && s > t then Some(Floor(z, TruncationLength(u).value, t)) else Some(s)
  }

  /**
   * The constructor: start at the first bin start, then emit one bin per boundary while
   * the bin start is not after the end instant, so the end instant always has a bin of
   * its own.
   */
  function Layout<T>(rule: StartRule, z: Zone, u: Unit, f: Field, startMs: int, endMs: int, fuel: nat)
    : (r: Result<seq<TemporalBin<T>>, Failure>)
    ensures r == Failure(TruncationUnsupported) <==> Truncate(z, u, startMs).None?
    ensures r.Success? ==>
      && Tiling(r.value) && LaidOut(z, u, f, fuel, r.value)
      && Spans(r.value, FirstStart(rule, z, u, startMs).value, endMs)
  {
    match FirstStart(rule, z, u, startMs)
    case None => Failure(TruncationUnsupported)
    case Some(first) => LayoutFrom(z, u, f, first, endMs, fuel)
  }

  // ----- placeRecords

  /**
   * The inner cursor loop: from bin `c`, move forward while the instant is at or after
   * the bin's end and a later bin exists.
   */
  function Seek<T>(bins: seq<TemporalBin<T>>, t: int, c: nat): (r: nat)
    requires c < |bins|
    ensures c <= r < |bins|
    ensures forall i :: c <= i < r ==> bins[i].endMs <= t
    ensures r == |bins| - 1 || t < bins[r].endMs
    decreases |bins| - c
  {
    if t >= bins[c].endMs && c < |bins| - 1 then Seek(bins, t, c + 1) else c
  }

  /** The bins and the cursor (`minBinIdx`) between two records. */
  datatype Placement<T> = Placement(bins: seq<TemporalBin<T>>, cursor: nat)

  /** One iteration of the record loop: seek, then append only if the record is inside the bin. */
  function PlaceOne<T>(p: Placement<T>, x: T, ts: T -> int): (r: Placement<T>)
    requires p.cursor < |p.bins|
    ensures SameShapes(p.bins, r.bins)
    ensures p.cursor <= r.cursor < |r.bins|
    ensures forall i :: 0 <= i < |r.bins| ==>
      if i == r.cursor && Contains(p.bins[i], ts(x)) then r.bins[i].records == p.bins[i].records + [x]
      else r.bins[i].records == p.bins[i].records
  {
    var c := Seek(p.bins, ts(x), p.cursor);
    if Contains(p.bins[c], ts(x)) then Placement(p.bins[c := AddRecord(p.bins[c], x)], c)
    else Placement(p.bins, c)
  }

  /**
   * The record loop over `records`, in order, starting with the cursor on the first bin.
   * With no records it reads no bin, so an empty bin list is allowed then.
   */
  function PlaceAll<T>(bins: seq<TemporalBin<T>>, records: seq<T>, ts: T -> int): (r: Placement<T>)
    requires |records| == 0 || |bins| > 0
    ensures SameShapes(bins, r.bins) && (|bins| > 0 ==> r.cursor < |bins|)
    decreases |records|
  {
    if |records| == 0 then Placement(bins, 0)
    else PlaceOne(PlaceAll(bins, records[..|records| - 1], ts), records[|records| - 1], ts)
  }

  /** The record loop over one more record is one more iteration. */
  lemma {:induction false} PlaceAllStep<T>(bins: seq<TemporalBin<T>>, records: seq<T>, n: nat, ts: T -> int)
    requires |bins| > 0 && n < |records|
    ensures PlaceAll(bins, records[..n + 1], ts) == PlaceOne(PlaceAll(bins, records[..n], ts), records[n], ts)
  {
    assert records[..n + 1][..n] == records[..n];
  }

  /**
   * `placeRecords`, with the bin list as a value. The cursor only moves forward and
   * never passes the last bin; the result is the functional record loop's.
   */
  method PlaceRecords<T>(bins: seq<TemporalBin<T>>, records: seq<T>, ts: T -> int)
    returns (placed: seq<TemporalBin<T>>)
    requires |records| == 0 || |bins| > 0
    ensures placed == PlaceAll(bins, records, ts).bins
    ensures SameShapes(bins, placed)
  {
    placed := bins;
    var maxBinIdx := |bins| - 1;
    var minBinIdx := 0;
    var n := 0;
    while n < |records|
      invariant n <= |records|
      invariant Placement(placed, minBinIdx) == PlaceAll(bins, records[..n], ts)
      invariant (|records| > 0 ==> minBinIdx <= maxBinIdx) && |placed| == |bins|
    {
      var x := records[n];
      var t := ts(x);
      var binIdx := minBinIdx;
      while t >= placed[binIdx].endMs && binIdx < maxBinIdx
        invariant minBinIdx <= binIdx <= maxBinIdx
        invariant Seek(placed, t, binIdx) == Seek(placed, t, minBinIdx)
        decreases maxBinIdx - binIdx
      {
        binIdx := binIdx + 1;
      }
      PlaceAllStep(bins, records, n, ts);
      if placed[binIdx].startMs <= t < placed[binIdx].endMs {
        placed := placed[binIdx := AddRecord(placed[binIdx], x)];
      }
      minBinIdx := binIdx;
      n := n + 1;
    }
    assert records[..n] == records;
  }
}

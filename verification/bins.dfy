/**
 * `TemporalBin`: a half-open interval of instants `[startMs, endMs)`, the unit it was cut
 * at, the anchor's field value, and the records placed in it so far. The anchor zoned
 * time of the source is the instant `startMs` seen in the binner's zone.
 */
module Bins {
  import opened Time

  datatype TemporalBin<T> = TemporalBin(unit: Unit, value: int, startMs: int, endMs: int, records: seq<T>)

  /** Two bins describe the same interval; only their records may differ. */
  predicate SameShape<T>(a: TemporalBin<T>, b: TemporalBin<T>)
  {
    a.unit == b.unit && a.value == b.value && a.startMs == b.startMs && a.endMs == b.endMs
  }

  /** Two bin lists describe the same intervals in the same order. */
  predicate SameShapes<T>(a: seq<TemporalBin<T>>, b: seq<TemporalBin<T>>)
  {
    |a| == |b| && forall i :: 0 <= i < |a| ==> SameShape(a[i], b[i])
  }

  /** `t` lies in the bin's half-open interval. */
  predicate Contains<T>(b: TemporalBin<T>, t: int)
  {
    b.startMs <= t < b.endMs
  }

  /** The five-argument constructor: a bin with no records yet. */
  function NewBin<T>(unit: Unit, value: int, startMs: int, endMs: int): TemporalBin<T>
  {
    TemporalBin(unit, value, startMs, endMs, [])
  }

  /**
   * `addRecord`: appends exactly one record after the existing ones and leaves unit,
   * value and interval unchanged.
   */
  function AddRecord<T>(b: TemporalBin<T>, x: T): (r: TemporalBin<T>)
    ensures SameShape(b, r)
    ensures |r.records| == |b.records| + 1
    ensures r.records[..|b.records|] == b.records && r.records[|b.records|] == x
  {
    b.(records := b.records + [x])
  }

  /** Each bin ends where the next one starts. */
  predicate Contiguous<T>(bins: seq<TemporalBin<T>>)
  {
    forall i :: 0 < i < |bins| ==> bins[i - 1].endMs == bins[i].startMs
  }

  /** Every bin is a non-empty interval. */
  predicate NonEmptyIntervals<T>(bins: seq<TemporalBin<T>>)
  {
    forall i :: 0 <= i < |bins| ==> bins[i].startMs < bins[i].endMs
  }

  /** Contiguous non-empty intervals: strictly ascending, no gaps, no overlaps. */
  predicate Tiling<T>(bins: seq<TemporalBin<T>>)
  {
    Contiguous(bins) && NonEmptyIntervals(bins)
  }

  /** In a tiling, every bin ends no later than any later bin starts. */
  lemma {:induction false} TilingOrdered<T>(bins: seq<TemporalBin<T>>, i: int, j: int)
    requires Tiling(bins) && 0 <= i < j < |bins|
    ensures bins[i].endMs <= bins[j].startMs
    decreases j - i
  {
    if i + 1 < j {
      TilingOrdered(bins, i, j - 1);
      assert bins[j - 1].startMs < bins[j - 1].endMs;
    }
  }

  /** A tiling puts each instant in at most one bin. */
  lemma {:induction false} TilingDisjoint<T>(bins: seq<TemporalBin<T>>, t: int, i: int, j: int)
    requires Tiling(bins) && 0 <= i < |bins| && 0 <= j < |bins|
    requires Contains(bins[i], t) && Contains(bins[j], t)
    ensures i == j
  {
    if i < j {
      TilingOrdered(bins, i, j);
    } else if j < i {
      TilingOrdered(bins, j, i);
    }
  }

  /** Tiling survives placing records: it depends only on the intervals. */
  lemma {:induction false} SameShapesTiling<T>(a: seq<TemporalBin<T>>, b: seq<TemporalBin<T>>)
    requires SameShapes(a, b) && Tiling(a)
    ensures Tiling(b)
  {
    forall i | 0 < i < |b|
      ensures b[i - 1].endMs == b[i].startMs
    {
      assert SameShape(a[i - 1], b[i - 1]) && SameShape(a[i], b[i]);
    }
    forall i | 0 <= i < |b|
      ensures b[i].startMs < b[i].endMs
    {
      assert SameShape(a[i], b[i]);
    }
  }
}

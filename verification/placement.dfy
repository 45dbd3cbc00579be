/**
 * What `placeRecords` achieves. Whatever the input order, a record only enters a bin
 * whose interval holds its timestamp. With records sorted by timestamp and bins that
 * tile time, each bin ends up with exactly the records of its interval, in input order,
 * and reading the bins in order gives back every record inside the covered range.
 */
module Placement {
  import opened Bins
  import opened Binner

  /** Timestamps never decrease along the sequence. */
  predicate Sorted<T>(records: seq<T>, ts: T -> int)
  {
    forall i, j :: 0 <= i < j < |records| ==> ts(records[i]) <= ts(records[j])
  }

  /** Bins as the constructor leaves them: no records yet. */
  predicate Fresh<T>(bins: seq<TemporalBin<T>>)
  {
    forall i :: 0 <= i < |bins| ==> bins[i].records == []
  }

  /** The records whose timestamps fall in `[lo, hi)`, in input order. */
  function Within<T>(records: seq<T>, ts: T -> int, lo: int, hi: int): (r: seq<T>)
    ensures |r| <= |records|
    decreases |records|
  {
    if |records| == 0 then []
    else
      var x := records[|records| - 1];
      if lo <= ts(x) < hi then Within(records[..|records| - 1], ts, lo, hi) + [x]
      else Within(records[..|records| - 1], ts, lo, hi)
  }

  /** The records of the bins from `k` on, bin `k` first. */
  function ReadFrom<T>(bins: seq<TemporalBin<T>>, k: nat): seq<T>
    requires k <= |bins|
    decreases |bins| - k
  {
    if k == |bins| then [] else bins[k].records + ReadFrom(bins, k + 1)
  }

  /** The records of all bins, first bin first. */
  function Gathered<T>(bins: seq<TemporalBin<T>>): seq<T>
  {
    ReadFrom(bins, 0)
  }

  // ----- facts about Within

  lemma {:induction false} WithinMembers<T>(records: seq<T>, ts: T -> int, lo: int, hi: int, x: T)
    ensures x in Within(records, ts, lo, hi) <==> x in records && lo <= ts(x) < hi
    decreases |records|
  {
    if |records| > 0 {
      var pre := records[..|records| - 1];
      WithinMembers(pre, ts, lo, hi, x);
      assert records == pre + [records[|records| - 1]];
    }
  }

  lemma {:induction false} WithinNone<T>(records: seq<T>, ts: T -> int, lo: int, hi: int)
    requires forall i :: 0 <= i < |records| ==> ts(records[i]) < lo
    ensures Within(records, ts, lo, hi) == []
    decreases |records|
  {
    if |records| > 0 {
      WithinNone(records[..|records| - 1], ts, lo, hi);
    }
  }

  lemma {:induction false} WithinAll<T>(records: seq<T>, ts: T -> int, lo: int, hi: int)
    requires forall i :: 0 <= i < |records| ==> lo <= ts(records[i]) < hi
    ensures Within(records, ts, lo, hi) == records
    decreases |records|
  {
    if |records| > 0 {
      WithinAll(records[..|records| - 1], ts, lo, hi);
    }
  }

  /** Over sorted records, the records of `[lo, mid)` followed by those of `[mid, hi)` are those of `[lo, hi)`. */
  lemma {:induction false} WithinSplit<T>(records: seq<T>, ts: T -> int, lo: int, mid: int, hi: int)
    requires Sorted(records, ts) && lo <= mid <= hi
    ensures Within(records, ts, lo, mid) + Within(records, ts, mid, hi) == Within(records, ts, lo, hi)
    decreases |records|
  {
    if |records| > 0 {
      var n := |records| - 1;
      var pre := records[..n];
      var x := records[n];
      WithinSplit(pre, ts, lo, mid, hi);
      if lo <= ts(x) < mid {
        WithinNone(pre, ts, mid, hi);
      }
    }
  }

  /** Sorted records stay sorted when filtered. */
  lemma {:induction false} WithinSorted<T>(records: seq<T>, ts: T -> int, lo: int, hi: int)
    requires Sorted(records, ts)
    ensures Sorted(Within(records, ts, lo, hi), ts)
    decreases |records|
  {
    if |records| > 0 {
      var n := |records| - 1;
      var pre := records[..n];
      WithinSorted(pre, ts, lo, hi);
      var w := Within(pre, ts, lo, hi);
      forall y | y in w
        ensures ts(y) <= ts(records[n])
      {
        WithinMembers(pre, ts, lo, hi, y);
      }
    }
  }

  // ----- placement

  /** A record in a bin after one placement step was there before, or is the placed record and fits. */
  lemma {:induction false} PlaceOneSource<T>(p: Placement<T>, x: T, ts: T -> int, i: int, y: T)
    requires p.cursor < |p.bins| && 0 <= i < |p.bins|
    requires y in PlaceOne(p, x, ts).bins[i].records
    ensures y in p.bins[i].records || (y == x && Contains(p.bins[i], ts(x)))
  {
    var q := PlaceOne(p, x, ts);
    if i == q.cursor && Contains(p.bins[i], ts(x)) {
      assert y in p.bins[i].records + [x];
    }
  }

  /**
   * Whatever the order of the records, a record found in a bin after placement was one
   * of the records, and the bin's interval holds its timestamp.
   */
  lemma {:induction false} PlacedInsideAt<T>(bins: seq<TemporalBin<T>>, records: seq<T>, ts: T -> int, i: int, x: T)
    requires |bins| > 0 && Fresh(bins) && 0 <= i < |bins|
    requires x in PlaceAll(bins, records, ts).bins[i].records
    ensures Contains(bins[i], ts(x)) && x in records
    decreases |records|
  {
    if |records| == 0 {
      assert false;
    } else {
      var n := |records| - 1;
      var pre := records[..n];
      var p := PlaceAll(bins, pre, ts);
      assert SameShape(bins[i], p.bins[i]);
      PlaceOneSource(p, records[n], ts, i, x);
      if x in p.bins[i].records {
        PlacedInsideAt(bins, pre, ts, i, x);
        assert x in pre;
      }
    }
  }

  /** Seeking depends only on the bin intervals, not on their records. */
  lemma {:induction false} SeekShape<T>(a: seq<TemporalBin<T>>, b: seq<TemporalBin<T>>, t: int, c: nat)
    requires SameShapes(a, b) && c < |a|
    ensures Seek(a, t, c) == Seek(b, t, c)
    decreases |a| - c
  {
    assert SameShape(a[c], b[c]);
    if t >= a[c].endMs && c < |a| - 1 {
      SeekShape(a, b, t, c + 1);
    }
  }

  /**
   * From a cursor on the first bin, or on a bin starting no later than `t`, seeking
   * stops at the bin holding `t` if there is one, and on a bin starting no later than `t`.
   */
  lemma {:induction false} SeekFinds<T>(bins: seq<TemporalBin<T>>, t: int, c: nat)
    requires Tiling(bins) && c < |bins| && (c == 0 || bins[c].startMs <= t)
    ensures forall j :: 0 <= j < |bins| && Contains(bins[j], t) ==> j == Seek(bins, t, c)
    ensures Seek(bins, t, c) == 0 || bins[Seek(bins, t, c)].startMs <= t
  {
    var r := Seek(bins, t, c);
    forall j | 0 <= j < |bins| && Contains(bins[j], t)
      ensures j == r
    {
      if j < c {
        TilingOrdered(bins, j, c);
      } else if r < j {
        TilingOrdered(bins, r, j);
      }
    }
    if r > c {
      assert bins[r - 1].endMs <= t;
    }
  }

  /**
   * One iteration of the record loop keeps each bin equal to the records so far in its
   * interval, provided the cursor has not passed the bin holding the new record.
   */
  lemma {:induction false} PlaceOneExact<T>(bins: seq<TemporalBin<T>>, p: Placement<T>, pre: seq<T>, x: T, ts: T -> int)
    requires Tiling(bins) && SameShapes(bins, p.bins) && p.cursor < |bins|
    requires p.cursor == 0 || bins[p.cursor].startMs <= ts(x)
    requires forall i :: 0 <= i < |bins| ==> p.bins[i].records == Within(pre, ts, bins[i].startMs, bins[i].endMs)
    ensures var q := PlaceOne(p, x, ts);
      && (forall i :: 0 <= i < |bins| ==> q.bins[i].records == Within(pre + [x], ts, bins[i].startMs, bins[i].endMs))
      && (q.cursor == 0 || bins[q.cursor].startMs <= ts(x))
  {
    var t := ts(x);
    var q := PlaceOne(p, x, ts);
    SeekShape(p.bins, bins, t, p.cursor);
    SeekFinds(bins, t, p.cursor);
    assert (pre + [x])[..|pre|] == pre;
    forall i | 0 <= i < |bins|
      ensures q.bins[i].records == Within(pre + [x], ts, bins[i].startMs, bins[i].endMs)
    {
      assert SameShape(bins[i], p.bins[i]);
    }
  }

  /** A non-empty sorted sequence is its sorted prefix plus a last record no earlier than the prefix's last. */
  lemma {:induction false} SortedSnoc<T>(records: seq<T>, ts: T -> int)
    requires Sorted(records, ts) && |records| > 0
    ensures var n := |records| - 1;
      && records == records[..n] + [records[n]]
      && Sorted(records[..n], ts)
      && (n > 0 ==> ts(records[..n][n - 1]) <= ts(records[n]))
  {
    var n := |records| - 1;
    assert records == records[..n] + [records[n]];
  }

  /**
   * The loop invariant of `placeRecords` over sorted records: each bin holds exactly
   * the records so far that lie in its interval, and the cursor is either on the first
   * bin or on a bin that starts no later than the last record seen.
   */
  lemma {:induction false} PlaceAllExact<T>(bins: seq<TemporalBin<T>>, records: seq<T>, ts: T -> int)
    requires |bins| > 0 && Tiling(bins) && Fresh(bins) && Sorted(records, ts)
    ensures var p := PlaceAll(bins, records, ts);
      && (forall i :: 0 <= i < |bins| ==> p.bins[i].records == Within(records, ts, bins[i].startMs, bins[i].endMs))
      && (p.cursor == 0 || (|records| > 0 && bins[p.cursor].startMs <= ts(records[|records| - 1])))
    decreases |records|
  {
    if |records| > 0 {
      var n := |records| - 1;
      var pre := records[..n];
      var x := records[n];
      SortedSnoc(records, ts);
      PlaceAllExact(bins, pre, ts);
      var p := PlaceAll(bins, pre, ts);
      PlaceOneExact(bins, p, pre, x, ts);
    }
  }

  /**
   * `placeRecords` over sorted records and freshly laid-out bins: every bin holds
   * exactly the records whose timestamps lie in its interval, in input order.
   */
  lemma {:induction false} PlacementExact<T>(bins: seq<TemporalBin<T>>, records: seq<T>, ts: T -> int)
    requires |bins| > 0 && Tiling(bins) && Fresh(bins) && Sorted(records, ts)
    ensures var placed := PlaceAll(bins, records, ts).bins;
      forall i :: 0 <= i < |bins| ==> placed[i].records == Within(records, ts, bins[i].startMs, bins[i].endMs)
  {
    PlaceAllExact(bins, records, ts);
  }

  /** One bin of `PlacementExact`: bin `i` holds the records of its interval. */
  lemma {:induction false} PlacedAt<T>(bins: seq<TemporalBin<T>>, records: seq<T>, ts: T -> int, i: int)
    requires |bins| > 0 && Tiling(bins) && Fresh(bins) && Sorted(records, ts) && 0 <= i < |bins|
    ensures PlaceAll(bins, records, ts).bins[i].records == Within(records, ts, bins[i].startMs, bins[i].endMs)
  {
    PlacementExact(bins, records, ts);
  }

  /**
   * Over sorted records, a record is in a bin exactly when the bin's interval holds its
   * timestamp; since the bins tile time, that is at most one bin.
   */
  lemma {:induction false} PlacementUnique<T>(bins: seq<TemporalBin<T>>, records: seq<T>, ts: T -> int, x: T, i: int)
    requires |bins| > 0 && Tiling(bins) && Fresh(bins) && Sorted(records, ts) && x in records
    requires 0 <= i < |bins|
    ensures x in PlaceAll(bins, records, ts).bins[i].records <==> Contains(bins[i], ts(x))
  {
    PlacementExact(bins, records, ts);
    WithinMembers(records, ts, bins[i].startMs, bins[i].endMs, x);
  }

  /**
   * Whatever the input order, a record before the first bin, or at or after the end of
   * the last one, is silently dropped: it lands in no bin.
   */
  lemma {:induction false} PlacementDrops<T>(bins: seq<TemporalBin<T>>, records: seq<T>, ts: T -> int, x: T, i: int)
    requires |bins| > 0 && Tiling(bins) && Fresh(bins)
    requires ts(x) < bins[0].startMs || ts(x) >= bins[|bins| - 1].endMs
    requires 0 <= i < |bins|
    ensures x !in PlaceAll(bins, records, ts).bins[i].records
  {
    if x in PlaceAll(bins, records, ts).bins[i].records {
      PlacedInsideAt(bins, records, ts, i, x);
      if ts(x) < bins[0].startMs {
        if 0 < i {
          TilingOrdered(bins, 0, i);
        }
      } else if i < |bins| - 1 {
        TilingOrdered(bins, i, |bins| - 1);
      }
      assert false;
    }
  }

  /**
   * Bins that each hold the records of their interval, read from bin `k` on, give the
   * records from bin `k`'s start to the last bin's end.
   */
  lemma {:induction false} ReadFromWithin<T>(placed: seq<TemporalBin<T>>, bins: seq<TemporalBin<T>>, records: seq<T>, ts: T -> int, k: nat)
    requires |placed| == |bins| && Tiling(bins) && Sorted(records, ts) && k < |bins|
    requires forall i :: 0 <= i < |bins| ==> placed[i].records == Within(records, ts, bins[i].startMs, bins[i].endMs)
    ensures ReadFrom(placed, k) == Within(records, ts, bins[k].startMs, bins[|bins| - 1].endMs)
    decreases |bins| - k
  {
    if k < |bins| - 1 {
      var lo, mid, hi := bins[k].startMs, bins[k + 1].startMs, bins[|bins| - 1].endMs;
      ReadFromWithin(placed, bins, records, ts, k + 1);
      assert bins[k].endMs == mid;
      assert placed[k].records == Within(records, ts, lo, mid);
      if k + 1 < |bins| - 1 {
        TilingOrdered(bins, k + 1, |bins| - 1);
      }
      assert bins[k + 1].startMs < bins[k + 1].endMs;
      WithinSplit(records, ts, lo, mid, hi);
    }
  }

  /**
   * Over sorted records whose timestamps all lie between the first bin's start and the
   * last bin's end, the bins read in order give back the records exactly.
   */
  lemma {:induction false} GatheredIsRecords<T>(bins: seq<TemporalBin<T>>, records: seq<T>, ts: T -> int)
    requires |bins| > 0 && Tiling(bins) && Fresh(bins) && Sorted(records, ts)
    requires forall i :: 0 <= i < |records| ==> bins[0].startMs <= ts(records[i]) < bins[|bins| - 1].endMs
    ensures Gathered(PlaceAll(bins, records, ts).bins) == records
  {
    PlacementExact(bins, records, ts);
    ReadFromWithin(PlaceAll(bins, records, ts).bins, bins, records, ts, 0);
    WithinAll(records, ts, bins[0].startMs, bins[|bins| - 1].endMs);
  }
}

/**
 * `generateTemporalTreeChildren`: bin the records at the configured level, skip the
 * empty bins, and give every other bin a group node whose children are either the next
 * level's tree of the bin's records (when the level breaks and the bin holds at least
 * the break limit) or one leaf slot per record.
 */
module TemporalTree {
  import opened Wrappers
  import opened Errors
  import opened Time
  import opened Boundary
  import opened BoundaryFacts
  import opened Bins
  import opened Binner
  import opened Placement
  import opened Nodes
  import opened Config
  import opened BinnerFacts

  /** The level breaks and the bin holds at least its break limit. */
  predicate Breaks(level: Level, size: int)
  {
    level.breakLimit != NoBreak && size >= level.breakLimit
  }

  /**
   * The children of one tree level over `records`: bins laid out from the first record's
   * instant to the last one's, filled by the record loop, then turned into group nodes.
   */
  function TemporalChildren<T, P>(rule: StartRule, records: seq<T>, ts: T -> int, leafOf: T -> Option<P>, z: Zone,
                                  config: Option<Level>, fm: Formats, fuel: nat): Result<seq<Node<P>>, Failure>
    decreases Depth(config), 1
  {
    var level := Effective(config, fm);
    if |records| == 0 then Success([])
    else
      match Layout<T>(rule, z, level.unit, level.field, ts(records[0]), ts(records[|records| - 1]), fuel)
      case Failure(e) => Failure(e)
      case Success(bins) =>
        if |bins| == 0 then Failure(NoBins)
        else BinNodes(rule, PlaceAll(bins, records, ts).bins, 0, ts, leafOf, z, level, fm, fuel)
  }

  /** The group nodes of bins `k` onwards, in bin order; a bin without records gets none. */
  function BinNodes<T, P>(rule: StartRule, bins: seq<TemporalBin<T>>, k: nat, ts: T -> int, leafOf: T -> Option<P>, z: Zone,
                          level: Level, fm: Formats, fuel: nat): Result<seq<Node<P>>, Failure>
    requires k <= |bins|
    decreases Depth(Some(level)), 0, |bins| - k
  {
    if k == |bins| then Success([])
    else
      var b := bins[k];
      if |b.records| == 0 then BinNodes(rule, bins, k + 1, ts, leafOf, z, level, fm, fuel)
      else if Breaks(level, |b.records|) then
        match TemporalChildren(rule, b.records, ts, leafOf, z, level.next, fm, fuel)
        case Failure(e) => Failure(e)
        case Success(kids) =>
          match BinNodes(rule, bins, k + 1, ts, leafOf, z, level, fm, fuel)
          case Failure(e) => Failure(e)
          case Success(rest) => Success([Group(level.keyOf(z, b.startMs), level.titleOf(z, b.startMs), kids)] + rest)
      else
        match BinNodes(rule, bins, k + 1, ts, leafOf, z, level, fm, fuel)
        case Failure(e) => Failure(e)
        case Success(rest) =>
          Success([Group(level.keyOf(z, b.startMs), level.titleOf(z, b.startMs), LeafNodes(b.records, leafOf))] + rest)
  }

  // ----- every record becomes one leaf slot, in order

  /** A group node in front of a forest contributes its children's slots first. */
  lemma {:induction false} GroupFlatten<P>(key: string, title: string, kids: seq<Node<P>>, rest: seq<Node<P>>)
    ensures Flatten([Group(key, title, kids)] + rest) == Flatten(kids) + Flatten(rest)
  {
    var all := [Group(key, title, kids)] + rest;
    assert all[0] == Group(key, title, kids);
    assert all[1..] == rest;
  }

  /**
   * Sorted records binned from the first record's instant to the last one's, when the
   * first bin starts no later than the first record (always so under the corrected
   * start rule): reading the filled bins in order gives back the records, and each
   * bin's records are sorted.
   */
  lemma {:induction false} BinnedRecords<T>(rule: StartRule, records: seq<T>, ts: T -> int, z: Zone, u: Unit, f: Field, fuel: nat,
                                            bins: seq<TemporalBin<T>>)
    requires Sorted(records, ts) && |records| > 0
    requires Layout<T>(rule, z, u, f, ts(records[0]), ts(records[|records| - 1]), fuel) == Success(bins)
    requires FirstStart(rule, z, u, ts(records[0])).value <= ts(records[0])
    ensures var placed := PlaceAll(bins, records, ts).bins;
      && Gathered(placed) == records
      && forall i :: 0 <= i < |placed| ==> Sorted(placed[i].records, ts)
  {
    var first, last := ts(records[0]), ts(records[|records| - 1]);
    assert Tiling(bins) && LaidOut(z, u, f, fuel, bins) && Spans(bins, FirstStart(rule, z, u, first).value, last);
    assert Fresh(bins);
    forall i | 0 <= i < |records|
      ensures bins[0].startMs <= ts(records[i]) < bins[|bins| - 1].endMs
    {
      assert first <= ts(records[i]) <= last;
    }
    GatheredIsRecords(bins, records, ts);
    var placed := PlaceAll(bins, records, ts).bins;
    forall i | 0 <= i < |placed|
      ensures Sorted(placed[i].records, ts)
    {
      PlacedAt(bins, records, ts, i);
      WithinSorted(records, ts, bins[i].startMs, bins[i].endMs);
    }
  }

  /**
   * The tree of sorted records keeps every record: its leaf slots, left to right, are
   * the leaf generator's output for each record, in input order.
   */
  lemma {:induction false} TemporalLeaves<T, P>(records: seq<T>, ts: T -> int, leafOf: T -> Option<P>, z: Zone,
                                                config: Option<Level>, fm: Formats, fuel: nat)
    requires Sorted(records, ts)
    ensures var r := TemporalChildren(Clamped, records, ts, leafOf, z, config, fm, fuel);
      r.Success? ==> Flatten(r.value) == Slots(records, leafOf)
    decreases Depth(config), 1
  {
    if |records| > 0 && TemporalChildren(Clamped, records, ts, leafOf, z, config, fm, fuel).Success? {
      var level := Effective(config, fm);
      var bins := Layout<T>(Clamped, z, level.unit, level.field, ts(records[0]), ts(records[|records| - 1]), fuel).value;
      BinnedRecords(Clamped, records, ts, z, level.unit, level.field, fuel, bins);
      var placed := PlaceAll(bins, records, ts).bins;
      BinLeaves(placed, 0, ts, leafOf, z, level, fm, fuel);
    }
  }

  /** The group nodes of bins `k` onwards hold, left to right, the slots of those bins' records. */
  lemma {:induction false} BinLeaves<T, P>(bins: seq<TemporalBin<T>>, k: nat, ts: T -> int, leafOf: T -> Option<P>, z: Zone,
                                           level: Level, fm: Formats, fuel: nat)
    requires k <= |bins|
    requires forall i :: k <= i < |bins| ==> Sorted(bins[i].records, ts)
    requires BinNodes(Clamped, bins, k, ts, leafOf, z, level, fm, fuel).Success?
    ensures Flatten(BinNodes(Clamped, bins, k, ts, leafOf, z, level, fm, fuel).value) == Slots(ReadFrom(bins, k), leafOf)
    decreases Depth(Some(level)), 0, |bins| - k
  {
    if k < |bins| {
      var b := bins[k];
      BinLeaves(bins, k + 1, ts, leafOf, z, level, fm, fuel);
      var rest := BinNodes(Clamped, bins, k + 1, ts, leafOf, z, level, fm, fuel).value;
      SlotsAppend(b.records, ReadFrom(bins, k + 1), leafOf);
      if |b.records| == 0 {
        assert b.records + ReadFrom(bins, k + 1) == ReadFrom(bins, k + 1);
      } else if Breaks(level, |b.records|) {
        TemporalLeaves(b.records, ts, leafOf, z, level.next, fm, fuel);
        var kids := TemporalChildren(Clamped, b.records, ts, leafOf, z, level.next, fm, fuel).value;
        GroupFlatten(level.keyOf(z, b.startMs), level.titleOf(z, b.startMs), kids, rest);
      } else {
        GroupFlatten(level.keyOf(z, b.startMs), level.titleOf(z, b.startMs), LeafNodes(b.records, leafOf), rest);
      }
    }
  }

  // ----- the tree is no deeper than the configuration chain

  /** A group node in front of a forest: the height is the larger of the two sides. */
  lemma {:induction false} GroupHeight<P>(key: string, title: string, kids: seq<Node<P>>, rest: seq<Node<P>>)
    ensures Height([Group(key, title, kids)] + rest) == if 1 + Height(kids) < Height(rest) then Height(rest) else 1 + Height(kids)
  {
    var all := [Group(key, title, kids)] + rest;
    assert all[0] == Group(key, title, kids);
    assert all[1..] == rest;
  }

  /** A tree level has at most as many levels of groups as its configuration chain allows. */
  lemma {:induction false} HeightBound<T, P>(rule: StartRule, records: seq<T>, ts: T -> int, leafOf: T -> Option<P>, z: Zone,
                                             config: Option<Level>, fm: Formats, fuel: nat)
    ensures var r := TemporalChildren(rule, records, ts, leafOf, z, config, fm, fuel);
      r.Success? ==> Height(r.value) <= Depth(config)
    decreases Depth(config), 1
  {
    if |records| > 0 && TemporalChildren(rule, records, ts, leafOf, z, config, fm, fuel).Success? {
      var level := Effective(config, fm);
      var bins := Layout<T>(rule, z, level.unit, level.field, ts(records[0]), ts(records[|records| - 1]), fuel).value;
      BinHeight(rule, PlaceAll(bins, records, ts).bins, 0, ts, leafOf, z, level, fm, fuel);
    }
  }

  /** The group nodes of bins `k` onwards are at most as deep as the level's chain. */
  lemma {:induction false} BinHeight<T, P>(rule: StartRule, bins: seq<TemporalBin<T>>, k: nat, ts: T -> int, leafOf: T -> Option<P>, z: Zone,
                                           level: Level, fm: Formats, fuel: nat)
    requires k <= |bins|
    requires BinNodes(rule, bins, k, ts, leafOf, z, level, fm, fuel).Success?
    ensures Height(BinNodes(rule, bins, k, ts, leafOf, z, level, fm, fuel).value) <= Depth(Some(level))
    decreases Depth(Some(level)), 0, |bins| - k
  {
    if k < |bins| {
      var b := bins[k];
      BinHeight(rule, bins, k + 1, ts, leafOf, z, level, fm, fuel);
      var rest := BinNodes(rule, bins, k + 1, ts, leafOf, z, level, fm, fuel).value;
      if |b.records| == 0 {
      } else if Breaks(level, |b.records|) {
        HeightBound(rule, b.records, ts, leafOf, z, level.next, fm, fuel);
        var kids := TemporalChildren(rule, b.records, ts, leafOf, z, level.next, fm, fuel).value;
        GroupHeight(level.keyOf(z, b.startMs), level.titleOf(z, b.startMs), kids, rest);
      } else {
        GroupHeight(level.keyOf(z, b.startMs), level.titleOf(z, b.startMs), LeafNodes(b.records, leafOf), rest);
      }
    }
  }

  // ----- one group per non-empty bin

  /** The bins from `k` on that received records, in bin order. */
  function Filled<T>(bins: seq<TemporalBin<T>>, k: nat): seq<TemporalBin<T>>
    requires k <= |bins|
    decreases |bins| - k
  {
    if k == |bins| then []
    else if |bins[k].records| == 0 then Filled(bins, k + 1)
    else [bins[k]] + Filled(bins, k + 1)
  }

  /**
   * The node the source builds for a filled bin: keyed and titled at the bin's start,
   * with the next level's tree as children when the bin breaks, or else one leaf slot
   * per record.
   */
  ghost predicate NodeOf<T, P>(rule: StartRule, n: Node<P>, b: TemporalBin<T>, ts: T -> int, leafOf: T -> Option<P>, z: Zone,
                         level: Level, fm: Formats, fuel: nat)
  {
    && n.Group?
    && n.key == level.keyOf(z, b.startMs)
    && n.title == level.titleOf(z, b.startMs)
    && (if Breaks(level, |b.records|) then TemporalChildren(rule, b.records, ts, leafOf, z, level.next, fm, fuel) == Success(n.children)
        else n.children == LeafNodes(b.records, leafOf))
  }

  /** Matching node and bin lists stay matched with one more matching pair in front. */
  lemma {:induction false} NodesCons<T, P>(rule: StartRule, g: Node<P>, rest: seq<Node<P>>, b: TemporalBin<T>, later: seq<TemporalBin<T>>,
                                           ts: T -> int, leafOf: T -> Option<P>, z: Zone, level: Level, fm: Formats, fuel: nat)
    requires NodeOf(rule, g, b, ts, leafOf, z, level, fm, fuel) && |rest| == |later|
    requires forall i :: 0 <= i < |rest| ==> NodeOf(rule, rest[i], later[i], ts, leafOf, z, level, fm, fuel)
    ensures var nodes, filled := [g] + rest, [b] + later;
      forall i :: 0 <= i < |nodes| ==> NodeOf(rule, nodes[i], filled[i], ts, leafOf, z, level, fm, fuel)
  {
    var nodes, filled := [g] + rest, [b] + later;
    forall i | 0 <= i < |nodes|
      ensures NodeOf(rule, nodes[i], filled[i], ts, leafOf, z, level, fm, fuel)
    {
      if i > 0 {
        assert nodes[i] == rest[i - 1] && filled[i] == later[i - 1];
      }
    }
  }

  /** The nodes of bins `k` onwards are exactly one node per filled bin, in bin order. */
  lemma {:induction false} BinShape<T, P>(rule: StartRule, bins: seq<TemporalBin<T>>, k: nat, ts: T -> int, leafOf: T -> Option<P>, z: Zone,
                                          level: Level, fm: Formats, fuel: nat)
    requires k <= |bins|
    requires BinNodes(rule, bins, k, ts, leafOf, z, level, fm, fuel).Success?
    ensures var nodes, filled := BinNodes(rule, bins, k, ts, leafOf, z, level, fm, fuel).value, Filled(bins, k);
      && |nodes| == |filled|
      && forall i :: 0 <= i < |nodes| ==> NodeOf(rule, nodes[i], filled[i], ts, leafOf, z, level, fm, fuel)
    decreases |bins| - k
  {
    if k < |bins| {
      BinShape(rule, bins, k + 1, ts, leafOf, z, level, fm, fuel);
      var b := bins[k];
      if |b.records| > 0 {
        var rest := BinNodes(rule, bins, k + 1, ts, leafOf, z, level, fm, fuel).value;
        var key, title := level.keyOf(z, b.startMs), level.titleOf(z, b.startMs);
        var kids := if Breaks(level, |b.records|)
          then TemporalChildren(rule, b.records, ts, leafOf, z, level.next, fm, fuel).value
          else LeafNodes(b.records, leafOf);
        assert BinNodes(rule, bins, k, ts, leafOf, z, level, fm, fuel).value == [Group(key, title, kids)] + rest;
        NodesCons(rule, Group(key, title, kids), rest, b, Filled(bins, k + 1), ts, leafOf, z, level, fm, fuel);
      }
    }
  }

  // ----- the tree is always built in zone `Z` for day, hour, minute, second and millisecond levels

  /** Every level of the chain bins in a way the zone `Z` layout never rejects. */
  predicate UtcSafe(config: Option<Level>)
    decreases config
  {
    match config
    case None => true
    case Some(l) =>
      && (l.unit in {Millis, Seconds, Minutes, Hours} || (l.unit == Days && l.field == EpochDay))
      && UtcSafe(l.next)
  }

  /** The default chain is such a chain, so the level in force always is. */
  lemma {:induction false} EffectiveSafe(config: Option<Level>, fm: Formats)
    requires UtcSafe(config)
    ensures UtcSafe(Some(Effective(config, fm)))
  {
    if config.None? {
      assert UtcSafe(Some(MinuteLevel(fm)));
      assert UtcSafe(Some(HourLevel(fm)));
    }
  }

  /**
   * In zone `Z`, with a chain of such levels and any scan fuel, sorted records always
   * give a tree: no layout fails, and the records' range always has a bin.
   */
  lemma {:induction false} UtcTreeSucceeds<T, P>(rule: StartRule, records: seq<T>, ts: T -> int, leafOf: T -> Option<P>, cal: Calendar,
                                                 config: Option<Level>, fm: Formats, fuel: nat)
    requires Sorted(records, ts) && UtcSafe(config) && fuel >= 1
    ensures TemporalChildren(rule, records, ts, leafOf, Utc(cal), config, fm, fuel).Success?
    decreases Depth(config), 1
  {
    if |records| > 0 {
      var z := Utc(cal);
      var level := Effective(config, fm);
      EffectiveSafe(config, fm);
      var first, last := ts(records[0]), ts(records[|records| - 1]);
      UtcLayoutSucceeds<T>(rule, cal, level.unit, level.field, first, last, fuel);
      UtcStart(rule, cal, level.unit, first);
      var bins := Layout<T>(rule, z, level.unit, level.field, first, last, fuel).value;
      BinnedRecords(rule, records, ts, z, level.unit, level.field, fuel, bins);
      BinSucceeds(rule, PlaceAll(bins, records, ts).bins, 0, ts, leafOf, cal, level, fm, fuel);
    }
  }

  /** In zone `Z`, the group nodes of bins holding sorted records are always built. */
  lemma {:induction false} BinSucceeds<T, P>(rule: StartRule, bins: seq<TemporalBin<T>>, k: nat, ts: T -> int, leafOf: T -> Option<P>, cal: Calendar,
                                             level: Level, fm: Formats, fuel: nat)
    requires k <= |bins| && UtcSafe(Some(level)) && fuel >= 1
    requires forall i :: k <= i < |bins| ==> Sorted(bins[i].records, ts)
    ensures BinNodes(rule, bins, k, ts, leafOf, Utc(cal), level, fm, fuel).Success?
    decreases Depth(Some(level)), 0, |bins| - k
  {
    if k < |bins| {
      BinSucceeds(rule, bins, k + 1, ts, leafOf, cal, level, fm, fuel);
      if |bins[k].records| > 0 && Breaks(level, |bins[k].records|) {
        UtcTreeSucceeds(rule, bins[k].records, ts, leafOf, cal, level.next, fm, fuel);
      }
    }
  }

  // ----- the first bin start and the first record

  /**
   * Pacific/Chatham on 2024-09-29, where local time jumps from 02:45 to 03:45 at 14:00Z.
   * A record at 03:50 (14:05Z) binned by the hour: `truncatedTo` resolves the missing
   * 03:00 to 04:00 (14:15Z), after the record, so the constructor lays out no bin and
   * `placeRecords` reads the first bin of an empty list.
   */
  lemma {:induction false} ChathamGapNoBins<T, P>(x: T, ts: T -> int, leafOf: T -> Option<P>, z: Zone, fm: Formats, fuel: nat)
    requires ts(x) == 1727532300000
    requires z.offset(1727529300000) == 45900000 && z.offset(1727532300000) == 49500000
    requires z.ofLocal(1727578800000) == 1727532900000
    ensures Truncate(z, Hours, ts(x)) == Some(1727532900000)
    ensures TemporalChildren(Truncated, [x], ts, leafOf, z, Some(HourLevel(fm)), fm, fuel) == Failure(NoBins)
  {
    var t := ts(x);
    assert Local(z, t) == 1727581800000;
    assert Floor(z, MillisPerHour, t) == 1727529300000;
    assert (Local(z, t) / MillisPerHour) * MillisPerHour == 1727578800000;
  }

  /**
   * The same gap with a second record at 04:05 (14:20Z): the only bin runs from 04:00 to
   * 05:00, so the record at 03:50 gets no leaf and the tree holds the second record's
   * slot alone.
   */
  lemma {:induction false} ChathamGapLosesRecord<T, P>(x: T, y: T, ts: T -> int, leafOf: T -> Option<P>, z: Zone, fm: Formats, fuel: nat)
    requires ts(x) == 1727532300000 && ts(y) == 1727533200000
    requires z.offset(1727529300000) == 45900000 && z.offset(1727532300000) == 49500000
    requires forall j :: 0 <= j <= 4 ==> z.offset(1727532900000 + j * MillisPerQuarterHour) == 49500000
    requires z.ofLocal(1727578800000) == 1727532900000
    ensures var r := TemporalChildren(Truncated, [x, y], ts, leafOf, z, Some(HourLevel(fm)), fm, fuel);
      r.Success? && Flatten(r.value) == [leafOf(y)]
  {
    var s := 1727532900000;
    ChathamGapLayout<T>(z, ts(x), ts(y), fuel);
    var b: TemporalBin<T> := NewBin(Hours, FieldOf(z, HourOfDay, s), s, s + MillisPerHour);
    LoneBinPlacement(b, x, y, ts);
    var placed := PlaceAll([b], [x, y], ts).bins;
    var level := HourLevel(fm);
    var g := Group(level.keyOf(z, s), level.titleOf(z, s), LeafNodes([y], leafOf));
    assert BinNodes(Truncated, placed, 1, ts, leafOf, z, level, fm, fuel) == Success([]);
    assert BinNodes(Truncated, placed, 0, ts, leafOf, z, level, fm, fuel) == Success([g] + []);
    GroupFlatten(level.keyOf(z, s), level.titleOf(z, s), LeafNodes([y], leafOf), []);
    assert Slots([y], leafOf) == [leafOf(y)];
  }

  /** The hour layout over the gap: one bin, from 04:00 (14:15Z) to 05:00. */
  lemma {:induction false} ChathamGapLayout<T>(z: Zone, first: int, last: int, fuel: nat)
    requires first == 1727532300000 && 1727532900000 <= last < 1727536500000
    requires z.offset(1727529300000) == 45900000 && z.offset(1727532300000) == 49500000
    requires forall j :: 0 <= j <= 4 ==> z.offset(1727532900000 + j * MillisPerQuarterHour) == 49500000
    requires z.ofLocal(1727578800000) == 1727532900000
    ensures var s := 1727532900000;
      Layout<T>(Truncated, z, Hours, HourOfDay, first, last, fuel)
        == Success([NewBin(Hours, FieldOf(z, HourOfDay, s), s, s + MillisPerHour)])
  {
    var s, e := 1727532900000, 1727536500000;
    assert Local(z, first) == 1727581800000;
    assert Floor(z, MillisPerHour, first) == 1727529300000;
    assert (Local(z, first) / MillisPerHour) * MillisPerHour == 1727578800000;
    assert FirstStart(Truncated, z, Hours, first) == Some(s);
    assert z.offset(1727532900000 + 0 * MillisPerQuarterHour) == 49500000;
    assert Local(z, s) == 1727582400000;
    WholeHour(z, s);
    var b: TemporalBin<T> := NewBin(Hours, FieldOf(z, HourOfDay, s), s, e);
    assert LayoutFrom<T>(z, Hours, HourOfDay, e, last, fuel) == Success([]);
    assert [b] + [] == [b];
  }

  /** A bin that starts after the first of two records and holds the second gets only the second. */
  lemma {:induction false} LoneBinPlacement<T>(b: TemporalBin<T>, x: T, y: T, ts: T -> int)
    requires b.records == [] && ts(x) < b.startMs <= ts(y) < b.endMs
    ensures PlaceAll([b], [x, y], ts).bins == [AddRecord(b, y)]
  {
    assert [x, y][..1] == [x];
    assert [x][..0] == [];
    assert PlaceAll([b], [x], ts).bins == [b];
  }

  /**
   * Under the corrected start rule a tree level never fails for want of a bin: sorted
   * records always have a first bin, at every level of breaking.
   */
  lemma {:induction false} CorrectedHasBins<T, P>(records: seq<T>, ts: T -> int, leafOf: T -> Option<P>, z: Zone,
                                                  config: Option<Level>, fm: Formats, fuel: nat)
    requires Sorted(records, ts)
    ensures TemporalChildren(Clamped, records, ts, leafOf, z, config, fm, fuel) != Failure(NoBins)
    decreases Depth(config), 1
  {
    if |records| > 0 {
      var level := Effective(config, fm);
      var first, last := ts(records[0]), ts(records[|records| - 1]);
      var r := Layout<T>(Clamped, z, level.unit, level.field, first, last, fuel);
      if r.Success? {
        var bins := r.value;
        assert first <= last;
        assert FirstStart(Clamped, z, level.unit, first).Some?;
        BinnedRecords(Clamped, records, ts, z, level.unit, level.field, fuel, bins);
        BinsHaveBins(PlaceAll(bins, records, ts).bins, 0, ts, leafOf, z, level, fm, fuel);
      }
    }
  }

  /** The group nodes of bins holding sorted records never fail for want of a bin. */
  lemma {:induction false} BinsHaveBins<T, P>(bins: seq<TemporalBin<T>>, k: nat, ts: T -> int, leafOf: T -> Option<P>, z: Zone,
                                              level: Level, fm: Formats, fuel: nat)
    requires k <= |bins|
    requires forall i :: k <= i < |bins| ==> Sorted(bins[i].records, ts)
    ensures BinNodes(Clamped, bins, k, ts, leafOf, z, level, fm, fuel) != Failure(NoBins)
    decreases Depth(Some(level)), 0, |bins| - k
  {
    if k < |bins| {
      var b := bins[k];
      BinsHaveBins(bins, k + 1, ts, leafOf, z, level, fm, fuel);
      var rest := BinNodes(Clamped, bins, k + 1, ts, leafOf, z, level, fm, fuel);
      if |b.records| > 0 && Breaks(level, |b.records|) {
        CorrectedHasBins(b.records, ts, leafOf, z, level.next, fm, fuel);
        var kids := TemporalChildren(Clamped, b.records, ts, leafOf, z, level.next, fm, fuel);
        assert kids.Success? && rest.Success? ==> BinNodes(Clamped, bins, k, ts, leafOf, z, level, fm, fuel).Success?;
      }
    }
  }
}

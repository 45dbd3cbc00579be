/**
 * `TemporalTreeConfiguration`: one level of the temporal tree, and the default chain
 * days, then hours, then minutes. Date formatters are not modelled; a level's key and
 * title are functions of the zone and the bin's start instant.
 */
module Config {
  import opened Wrappers
  import opened Time
  import opened Boundary

  /** A date formatter applied to an instant seen in a zone. */
  type Formatter = (Zone, int) -> string

  /**
   * One tree level: the unit and field its bins are cut at, the key and title of a bin,
   * and the break limit (`-1` never breaks) above which a bin is broken into the next
   * level. A missing next level means the default chain (the source passes `null`,
   * which selects the default configuration again).
   */
  datatype Level = Level(
    unit: Unit,
    field: Field,
    keyOf: Formatter,
    titleOf: Formatter,
    breakLimit: int,
    next: Option<Level>)

  /** The date patterns the default chain formats keys and titles with. */
  datatype Formats = Formats(
    minuteKey: Formatter,
    hourKey: Formatter,
    dayKey: Formatter,
    dayTitle: Formatter,
    hourStart: Formatter,
    hourEnd: Formatter,
    minuteStart: Formatter,
    minuteEnd: Formatter)

  /** Marks a level that never breaks its bins further. */
  const NoBreak := -1

  /**
   * How many more levels of groups a tree can have below a configuration: a level that
   * can break adds the levels below it, and a missing configuration is the default chain.
   */
  function Depth(config: Option<Level>): nat
    decreases config
  {
    match config
    case None => 3
    case Some(l) => 1 + (if l.breakLimit != NoBreak then Depth(l.next) else 0)
  }

  /** The default hour title: bin start, then one minute before the next hour boundary. */
  function HourTitle(fm: Formats, z: Zone, s: int): string
  {
    fm.hourStart(z, s) + " - " + fm.hourEnd(z, NextHour(z, s) - MillisPerMinute)
  }

  /** The default minute title: bin start, then one second before the next minute boundary. */
  function MinuteTitle(fm: Formats, z: Zone, s: int): string
  {
    fm.minuteStart(z, s) + " - " + fm.minuteEnd(z, NextMinute(z, s) - MillisPerSecond)
  }

  /** Minutes on the minute of the hour; never broken further. */
  function MinuteLevel(fm: Formats): (l: Level)
    ensures l.unit == Minutes && l.field == MinuteOfHour
    ensures Depth(Some(l)) == 1
  {
    Level(Minutes, MinuteOfHour, fm.minuteKey, (z, s) => MinuteTitle(fm, z, s), NoBreak, None)
  }

  /** Hours on the hour of day; a bin of 240 records or more is broken into minutes. */
  function HourLevel(fm: Formats): (l: Level)
    ensures l.unit == Hours && l.field == HourOfDay
    ensures Depth(Some(l)) == 2
  {
    Level(Hours, HourOfDay, fm.hourKey, (z, s) => HourTitle(fm, z, s), 240, Some(MinuteLevel(fm)))
  }

  /**
   * The default configuration: days on the epoch day; a bin of 96 records or more is
   * broken into hours. Its depth is the one a missing configuration stands for.
   */
  function DefaultChain(fm: Formats): (l: Level)
    ensures l.unit == Days && l.field == EpochDay
    ensures Depth(Some(l)) == Depth(None)
  {
    Level(Days, EpochDay, fm.dayKey, fm.dayTitle, 96, Some(HourLevel(fm)))
  }

  /** The configuration a tree level runs with: the given one, or else the default chain. */
  function Effective(config: Option<Level>, fm: Formats): (l: Level)
    ensures Depth(Some(l)) == Depth(config)
    ensures config.Some? ==> l == config.value
    ensures config.None? ==> l == DefaultChain(fm)
  {
    match config
    case Some(l) => l
    case None => DefaultChain(fm)
  }
}

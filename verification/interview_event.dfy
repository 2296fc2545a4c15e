/**
  One drawn interview on the weekly grid: its own 24 px height floor, which of its
  three text lines fit, and the horizontal placement of its box, which CSS gives as
  `calc(left/6 * 100% - left/6 px)` with width `calc(1/6 * 100% - 8px)`.
 */
module InterviewEvent {
  import opened InterviewTypes
  import opened WeekGrid

  /** The event's own floor on the height it is given. */
  const EventMinHeight: real := 24.0
  /** Heights above which the position line, then the time line, are drawn. */
  const PositionLineAbove: real := 40.0
  const TimeLineAbove: real := 60.0
  /** Pixels taken off the width of every event box. */
  const WidthInset: real := 8.0

  /** `eventHeight = Math.max(height, 24)`. */
  function EventHeight(height: real): (h: real)
    ensures h >= EventMinHeight && h >= height
    ensures h == height || h == EventMinHeight
  {
    if height > EventMinHeight then height else EventMinHeight
  }

  /** The floor is idempotent, so a height the grid has already floored reaches the box unchanged. */
  lemma EventHeightIdempotent(height: real, duration: string)
    ensures EventHeight(EventHeight(height)) == EventHeight(height)
    ensures height >= EventMinHeight ==> EventHeight(height) == height
    ensures EventHeight(GridHeight(duration)) == GridHeight(duration)
  {
  }

  predicate ShowsPosition(height: real) {
    EventHeight(height) > PositionLineAbove
  }

  predicate ShowsTime(height: real) {
    EventHeight(height) > TimeLineAbove
  }

  /** The text of the third line: the start time with the duration in parentheses. */
  function TimeLine(r: Interview): string {
    r.details.startTime + " (" + r.details.duration + ")"
  }

  /**
    The lines drawn inside the box: the company name always, the position when the
    box is taller than 40 px, the time when it is taller than 60 px. The time line
    is never drawn without the position line, so the lines are always a prefix of
    company, position, time.
   */
  function VisibleLines(r: Interview, height: real): (lines: seq<string>)
    ensures 1 <= |lines| <= 3
    ensures lines == [r.details.companyName, r.details.position, TimeLine(r)][..|lines|]
    ensures |lines| >= 2 <==> ShowsPosition(height)
    ensures |lines| == 3 <==> ShowsTime(height)
  {
    var h := EventHeight(height);
    [r.details.companyName]
    + (if h > PositionLineAbove then [r.details.position] else [])
    + (if h > TimeLineAbove then [TimeLine(r)] else [])
  }

  /** Drawing the time implies drawing the position. */
  lemma ShowsTimeImpliesPosition(height: real)
    ensures ShowsTime(height) ==> ShowsPosition(height)
  {
  }

  /**
    A 30分钟 interview, 40 px tall, shows only the company name; every longer known
    duration, and any unknown label (drawn as an hour), shows all three lines.
   */
  lemma LinesByDuration(r: Interview)
    ensures r.details.duration == DurationLabel(HalfHour) ==> VisibleLines(r, GridHeight(r.details.duration)) == [r.details.companyName]
    ensures r.details.duration != DurationLabel(HalfHour) ==> |VisibleLines(r, GridHeight(r.details.duration))| == 3
  {
    GridHeightOfDurations(r.details.duration);
    if r.details.duration != DurationLabel(HalfHour) {
      var p := ParseDuration(r.details.duration);
      if p.Some? {
        assert p.value != HalfHour;
        assert Minutes(p.value) >= 60;
      }
    }
  }

  /** `left / 6`: the fraction of the grid's width left of an event in column `column`. */
  function LeftFraction(column: int): real {
    column as real / 6.0
  }

  /** `1 / 6`: the fraction of the grid's width one event box spans before its inset. */
  const WidthFraction: real := 1.0 / 6.0

  /** Columns 1 to 5 start strictly left to right inside the grid, and the last one ends at its right edge. */
  lemma ColumnFractions(c: int, d: int)
    ensures c < d ==> LeftFraction(c) < LeftFraction(d)
    ensures 1 <= c <= DaysShown ==> 0.0 < LeftFraction(c) < 1.0 && LeftFraction(c) + WidthFraction <= 1.0
  {
  }

  /** The left edge in pixels of an event box in column `column` of a grid `gridWidth` pixels wide. */
  function LeftPx(column: int, gridWidth: real): real {
    LeftFraction(column) * gridWidth - LeftFraction(column)
  }

  /** The width in pixels of every event box in a grid `gridWidth` pixels wide. */
  function WidthPx(gridWidth: real): real {
    WidthFraction * gridWidth - WidthInset
  }

  /**
    Whatever the grid's width, the box of column `c + 1` begins 47/6 px right of
    where the box of column `c` ends: neighbouring days never overlap.
   */
  lemma NeighbouringColumnsApart(c: int, gridWidth: real)
    ensures LeftPx(c + 1, gridWidth) - (LeftPx(c, gridWidth) + WidthPx(gridWidth)) == 47.0 / 6.0
  {
  }
}

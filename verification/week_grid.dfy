/**
  The weekly grid of the interviews page: five day columns after a time column,
  twelve hour rows of 80 px from 09:00, and the placement of each stored interview
  as a column, a top offset and a height. Pixel arithmetic is exact (`real`).
 */
module WeekGrid {
  import opened Wrappers
  import opened Text
  import opened Calendar
  import opened InterviewTypes

  /** One hour row is 80 px tall (Tailwind `h-20`). */
  const HourHeight: real := 80.0
  /** The first row of the grid is 09:00. */
  const FirstHour: nat := 9
  /** No event is drawn shorter than this. */
  const MinHeight: real := 24.0
  /** The grid shows five days, Monday to Friday when the week starts on a Monday. */
  const DaysShown: nat := 5
  /** The grid has twelve hour rows, 09:00 to 20:00. */
  const RowCount: nat := 12

  /**
    The grid's duration table: the minutes of a known duration label, and 60 for any
    other string, which the store is free to hold.
   */
  function DurationMinutes(tag: string): (m: nat)
    ensures forall d :: tag == DurationLabel(d) ==> m == Minutes(d)
    ensures ParseDuration(tag).None? ==> m == 60
  {
    if tag == "30分钟" then 30
    else if tag == "1小时" then 60
    else if tag == "1.5小时" then 90
    else if tag == "2小时" then 120
    else if tag == "2.5小时" then 150
    else if tag == "3小时" then 180
    else 60
  }

  /** Vertical pixels spanned by a number of minutes. */
  function Pixels(minutes: int): real {
    minutes as real * (HourHeight / 60.0)
  }

  /** An hour and minute as `parseInt` reads them; neither is range-checked. */
  datatype ClockTime = ClockTime(hour: nat, minute: nat)

  /** Minutes after midnight, the order in which clock times fall. */
  function MinuteOfDay(t: ClockTime): int {
    t.hour * 60 + t.minute
  }

  /**
    `parseInt(startTime.split(":")[0])` and `parseInt(startTime.split(":")[1])`;
    None when either is NaN.
   */
  function ParseStartTime(s: string): Option<ClockTime> {
    var parts := Split(s, ':');
    var h := ParseIntPrefix(parts[0]);
    var m := if |parts| >= 2 then ParseIntPrefix(parts[1]) else None;
    if h.Some? && m.Some? then Some(ClockTime(h.value, m.value)) else None
  }

  /** The zero-padded `HH:MM` text of an hour and minute parses back to them. */
  lemma ParseStartTimeOfLabel(h: nat, m: nat)
    requires h < 100 && m < 100
    ensures ParseStartTime(ZeroPad(h, 2) + ":" + ZeroPad(m, 2)) == Some(ClockTime(h, m))
  {
    var hh, mm := ZeroPad(h, 2), ZeroPad(m, 2);
    ZeroPadLength(h, 2);
    ZeroPadLength(m, 2);
    assert ':' !in hh && ':' !in mm by {
      assert forall i :: 0 <= i < |hh| ==> IsDigit(hh[i]);
      assert forall i :: 0 <= i < |mm| ==> IsDigit(mm[i]);
    }
    assert Join([hh, mm], ':') == hh + ":" + mm;
    SplitJoin([hh, mm], ':');
    ParseIntPrefixOfDigits(hh);
    ParseIntPrefixOfDigits(mm);
    ZeroPadValue(h, 2);
    ZeroPadValue(m, 2);
  }

  /** `((startHour - 9) * 60 + startMinute) * (80 / 60)`: the offset from the 09:00 row. */
  function Top(t: ClockTime): real {
    Pixels((t.hour - FirstHour) * 60 + t.minute)
  }

  /** 09:00 is drawn at the top; later starts lower, earlier starts above the grid, with no clipping. */
  lemma TopOrdering(t: ClockTime, u: ClockTime)
    ensures Top(ClockTime(9, 0)) == 0.0
    ensures MinuteOfDay(t) < MinuteOfDay(u) ==> Top(t) < Top(u)
    ensures MinuteOfDay(t) < FirstHour * 60 <==> Top(t) < 0.0
    ensures Top(t) == (MinuteOfDay(t) - FirstHour * 60) as real * 4.0 / 3.0
  {
  }

  /** The top offset of a `startTime` string; None where the source computes NaN. */
  function TopOf(startTime: string): Option<real> {
    match ParseStartTime(startTime)
    case Some(t) => Some(Top(t))
    case None => None
  }

  /** `Math.max(durationMinutes * (80 / 60), 24)`: the height the grid hands to the event. */
  function GridHeight(duration: string): (h: real)
    ensures h >= MinHeight
    ensures h >= Pixels(DurationMinutes(duration))
    ensures h == MinHeight || h == Pixels(DurationMinutes(duration))
  {
    var raw := Pixels(DurationMinutes(duration));
    if raw > MinHeight then raw else MinHeight
  }

  /** Every known duration is at least 40 px tall, so the 24 px floor never applies to them; unknown ones are an hour. */
  lemma GridHeightOfDurations(tag: string)
    ensures forall d :: tag == DurationLabel(d) ==> GridHeight(tag) == Pixels(Minutes(d)) && GridHeight(tag) >= 40.0
    ensures ParseDuration(tag).None? ==> GridHeight(tag) == HourHeight
  {
  }

  /** `weekDates`: the five days from `weekStart`, as day numbers. */
  function WeekDates(weekStart: int): (days: seq<int>)
    ensures |days| == DaysShown
    ensures days[0] == weekStart
    ensures forall i :: 0 < i < |days| ==> days[i] == days[i - 1] + 1
  {
    seq(DaysShown, i => weekStart + i)
  }

  /** From a Monday the five days of the grid are Monday to Friday, and they are consecutive calendar days. */
  lemma WeekDatesAreWeekdays(weekStart: int, d: CivilDate)
    requires Weekday(weekStart) == 0
    requires IsCalendarDate(d) && DayNumber(d) == weekStart
    ensures forall i :: 0 <= i < DaysShown ==> Weekday(WeekDates(weekStart)[i]) == i
    ensures DayNumber(NextDay(d)) == WeekDates(weekStart)[1]
  {
    var days := WeekDates(weekStart);
    assert forall i :: 0 <= i < DaysShown ==> days[i] == weekStart + i;
    forall i | 0 <= i < DaysShown ensures Weekday(days[i]) == i {
      WeekdayAfterMonday(weekStart, i);
    }
    DayNumberOfNextDay(d);
  }

  lemma WeekdayAfterMonday(n: int, i: nat)
    requires Weekday(n) == 0 && i < 7
    ensures Weekday(n + i) == i
  {
  }

  /** `weekDates.findIndex(date => isSameDay(date, v))`: the first matching position, or -1. */
  function FindDay(days: seq<int>, v: DateValue): (i: int)
    ensures -1 <= i < |days|
    ensures i == -1 <==> forall j :: 0 <= j < |days| ==> !IsSameDay(days[j], v)
    ensures i >= 0 ==> IsSameDay(days[i], v) && forall j :: 0 <= j < i ==> !IsSameDay(days[j], v)
  {
    if days == [] then -1
    else if IsSameDay(days[0], v) then 0
    else
      var k := FindDay(days[1..], v);
      if k == -1 then -1 else k + 1
  }

  /** The parsed date of `v` falls in the five days from `weekStart`. */
  predicate InWeek(v: DateValue, weekStart: int) {
    v.Day? && IsCalendarDate(v.date) && weekStart <= DayNumber(v.date) < weekStart + DaysShown
  }

  /**
    `dateIndex + 1`, the grid column of an interview (column 0 holds the times), or
    None when `dateIndex` is -1 and nothing is drawn.
   */
  function ColumnOf(r: Interview, weekStart: int): (c: Option<int>)
    ensures c.Some? <==> InWeek(ParseIsoDate(r.details.date), weekStart)
    ensures c.Some? ==> 1 <= c.value <= DaysShown
    ensures c.Some? ==> c.value == DayNumber(ParseIsoDate(r.details.date).date) - weekStart + 1
  {
    var v := ParseIsoDate(r.details.date);
    var i := FindDay(WeekDates(weekStart), v);
    if i == -1 then
      assert !InWeek(v, weekStart) by {
        if InWeek(v, weekStart) {
          assert IsSameDay(WeekDates(weekStart)[DayNumber(v.date) - weekStart], v);
        }
      }
      None
    else
      Some(i + 1)
  }

  /** What the grid draws for one interview: its column, top offset (None for NaN) and height. */
  datatype PositionedEvent = PositionedEvent(interview: Interview, column: int, top: Option<real>, height: real)

  /** The event the grid draws for `r`, or None when its date is not one of the five days. */
  function PlaceEvent(r: Interview, weekStart: int): (e: Option<PositionedEvent>)
    ensures e.Some? <==> InWeek(ParseIsoDate(r.details.date), weekStart)
    ensures e.Some? ==> e.value.interview == r && 1 <= e.value.column <= DaysShown
    ensures e.Some? ==> e.value.column == DayNumber(ParseIsoDate(r.details.date).date) - weekStart + 1
    ensures e.Some? ==> e.value.top == TopOf(r.details.startTime)
    ensures e.Some? ==> e.value.height == GridHeight(r.details.duration) && e.value.height >= MinHeight
  {
    match ColumnOf(r, weekStart)
    case None => None
    case Some(c) => Some(PositionedEvent(r, c, TopOf(r.details.startTime), GridHeight(r.details.duration)))
  }

  /** The interviews the events draw, in order. */
  function Drawn(events: seq<PositionedEvent>): seq<Interview> {
    if events == [] then [] else [events[0].interview] + Drawn(events[1..])
  }

  /**
    `interviews.map(…)` over a listing of the store: the drawn events, in listing
    order, one for each interview whose date is one of the five days and none for
    any other.
   */
  function Layout(rs: seq<Interview>, weekStart: int): (events: seq<PositionedEvent>)
    ensures |events| <= |rs|
    ensures forall e :: e in events ==> e.interview in rs && PlaceEvent(e.interview, weekStart) == Some(e)
    ensures forall r :: r in rs && InWeek(ParseIsoDate(r.details.date), weekStart) ==>
      PlaceEvent(r, weekStart).Some? && PlaceEvent(r, weekStart).value in events
  {
    if rs == [] then []
    else
      var rest := Layout(rs[1..], weekStart);
      match PlaceEvent(rs[0], weekStart)
      case Some(e) => [e] + rest
      case None => rest
  }

  /**
    Each interview is drawn exactly as many times as the listing holds it when its
    date is one of the five days, and never otherwise.
   */
  lemma LayoutMultiplicity(rs: seq<Interview>, weekStart: int)
    ensures forall r ::
      multiset(Drawn(Layout(rs, weekStart)))[r] == (if InWeek(ParseIsoDate(r.details.date), weekStart) then multiset(rs)[r] else 0)
  {
    forall r ensures multiset(Drawn(Layout(rs, weekStart)))[r] == (if PlaceEvent(r, weekStart).Some? then multiset(rs)[r] else 0) {
      LayoutCount(rs, weekStart, r);
    }
  }

  lemma {:induction false} LayoutCount(rs: seq<Interview>, weekStart: int, r: Interview)
    ensures multiset(Drawn(Layout(rs, weekStart)))[r] == (if PlaceEvent(r, weekStart).Some? then multiset(rs)[r] else 0)
  {
    if rs != [] {
      var x, tail := rs[0], rs[1..];
      LayoutCount(tail, weekStart, r);
      LayoutStep(rs, weekStart);
      CountStep(rs, Drawn(Layout(tail, weekStart)), Drawn(Layout(rs, weekStart)), r,
        PlaceEvent(x, weekStart).Some?, PlaceEvent(r, weekStart).Some?);
    }
  }

  /** The counting step: prepending a record adds one drawing of it exactly when it is placed. */
  lemma CountStep(rs: seq<Interview>, drawnTail: seq<Interview>, drawn: seq<Interview>,
                  r: Interview, placedHead: bool, placedR: bool)
    requires rs != []
    requires drawn == (if placedHead then [rs[0]] else []) + drawnTail
    requires multiset(drawnTail)[r] == (if placedR then multiset(rs[1..])[r] else 0)
    requires rs[0] == r ==> placedHead == placedR
    ensures multiset(drawn)[r] == (if placedR then multiset(rs)[r] else 0)
  {
    assert rs == [rs[0]] + rs[1..];
  }

  /** One step of the layout: the head is drawn first when it is placed. */
  lemma LayoutStep(rs: seq<Interview>, weekStart: int)
    requires rs != []
    ensures Drawn(Layout(rs, weekStart)) ==
      (if PlaceEvent(rs[0], weekStart).Some? then [rs[0]] else []) + Drawn(Layout(rs[1..], weekStart))
  {
    var rest := Layout(rs[1..], weekStart);
    var p := PlaceEvent(rs[0], weekStart);
    if p.Some? {
      assert Layout(rs, weekStart) == [p.value] + rest;
      assert ([p.value] + rest)[1..] == rest;
    } else {
      assert Layout(rs, weekStart) == rest;
    }
  }

  /** An interview whose date is not one of the five days draws no event at all. */
  lemma OutOfWeekNotDrawn(rs: seq<Interview>, weekStart: int, r: Interview)
    requires !InWeek(ParseIsoDate(r.details.date), weekStart)
    ensures forall e :: e in Layout(rs, weekStart) ==> e.interview != r
  {
  }

  /** `timeSlots`: the labels of the twelve hour rows. */
  function TimeSlots(): (slots: seq<string>)
    ensures |slots| == RowCount
  {
    seq(RowCount, i requires 0 <= i => ZeroPad(FirstHour + i, 2) + ":00")
  }

  /**
    Row `i` is labelled with the zero-padded hour `9 + i`, and an interview starting
    at that label's time is drawn exactly at the top of row `i`.
   */
  lemma TimeSlotRows(i: nat)
    requires i < RowCount
    ensures |TimeSlots()[i]| == 5
    ensures ParseStartTime(TimeSlots()[i]) == Some(ClockTime(FirstHour + i, 0))
    ensures TopOf(TimeSlots()[i]) == Some(HourHeight * i as real)
  {
    var h := FirstHour + i;
    SlotText(i);
    ZeroPadLength(h, 2);
    ParseStartTimeOfLabel(h, 0);
    RowTop(i);
  }

  lemma SlotText(i: nat)
    requires i < RowCount
    ensures TimeSlots()[i] == ZeroPad(FirstHour + i, 2) + ":" + ZeroPad(0, 2)
  {
    assert ZeroPad(0, 2) == "00";
  }

  lemma RowTop(i: nat)
    ensures Top(ClockTime(FirstHour + i, 0)) == HourHeight * i as real
  {
    assert (FirstHour + i - FirstHour) * 60 + 0 == 60 * i;
  }

  /** Row `i` is labelled `HH:00`: two digits, then the colon and two zeros. */
  lemma TimeSlotLabel(i: nat)
    requires i < RowCount
    ensures |TimeSlots()[i]| == 5
    ensures AllDigits(TimeSlots()[i][..2]) && TimeSlots()[i][2..] == ":00"
  {
    var h := ZeroPad(FirstHour + i, 2);
    ZeroPadLength(FirstHour + i, 2);
    SlotText(i);
    assert ZeroPad(0, 2) == "00";
    SlotShape(h);
  }

  lemma SlotShape(h: string)
    requires |h| == 2 && AllDigits(h)
    ensures AllDigits((h + ":00")[..2]) && (h + ":00")[2..] == ":00"
  {
    assert (h + ":00")[..2] == h;
  }

  /**
    The sample Tuesday interview: dated 2025-03-11, starting 14:00, lasting 1.5小时,
    in the week of Monday 2025-03-10, lands in the second day column, 400 px down,
    120 px tall.
   */
  lemma TuesdayScenario()
    ensures IsCalendarDate(CivilDate(2025, 3, 10))
    ensures var r := Interview("2", FormData("腾讯", "全栈开发工程师", "2025-03-11", "14:00", "1.5小时",
        "深圳市南山区科技中一路腾讯大厦", "待面试", "需要准备Node.js和微服务相关知识", "#3b82f6"));
      PlaceEvent(r, DayNumber(CivilDate(2025, 3, 10))) == Some(PositionedEvent(r, 2, Some(400.0), 120.0))
  {
    var r := Interview("2", FormData("腾讯", "全栈开发工程师", "2025-03-11", "14:00", "1.5小时",
        "深圳市南山区科技中一路腾讯大厦", "待面试", "需要准备Node.js和微服务相关知识", "#3b82f6"));
    var monday := CivilDate(2025, 3, 10);
    ParseTuesday();
    MondayToTuesday();
    ParseFourteenHundred();
    assert ColumnOf(r, DayNumber(monday)) == Some(2);
    assert TopOf("14:00") == Some(400.0);
    assert GridHeight("1.5小时") == 120.0;
  }

  lemma ParseTuesday()
    ensures ParseIsoDate("2025-03-11") == Day(CivilDate(2025, 3, 11))
  {
    var s := "2025-03-11";
    assert s[..4] == "2025" && s[5..7] == "03" && s[8..] == "11";
    assert IsIsoShaped(s);
    assert DecimalValue("2025") == 2025 by {
      assert "2025"[..3] == "202";
      assert "202"[..2] == "20";
      assert "20"[..1] == "2";
    }
    assert DecimalValue("03") == 3 by {
      assert "03"[..1] == "0";
    }
    assert DecimalValue("11") == 11 by {
      assert "11"[..1] == "1";
    }
  }

  lemma MondayToTuesday()
    ensures IsCalendarDate(CivilDate(2025, 3, 10))
    ensures NextDay(CivilDate(2025, 3, 10)) == CivilDate(2025, 3, 11)
    ensures DayNumber(CivilDate(2025, 3, 11)) == DayNumber(CivilDate(2025, 3, 10)) + 1
  {
    DayNumberOfNextDay(CivilDate(2025, 3, 10));
  }

  lemma ParseFourteenHundred()
    ensures ParseStartTime("14:00") == Some(ClockTime(14, 0))
  {
    assert Join(["14", "00"], ':') == "14:00";
    SplitJoin(["14", "00"], ':');
    ParseIntPrefixOfDigits("14");
    ParseIntPrefixOfDigits("00");
    assert DecimalValue("14") == 14 by {
      assert "14"[..1] == "1";
    }
    assert DecimalValue("00") == 0 by {
      assert "00"[..1] == "0";
    }
  }
}

/**
 * The date-range picker of the mobile search form: the `CompactCalendar`
 * component (month grid, click rules, hover preview, month navigation) and
 * the form's `onChange` handler that stores the range and closes the picker.
 * Dates are day numbers (see module Gregorian); every date the grid makes is
 * a local midnight, so comparing day numbers is comparing the `Date`s.
 */
module MobileNavbar {
  import opened Wrappers
  import opened Gregorian

  /** The calendar's `value`: check-in and check-out, each possibly absent. */
  datatype Range = Range(start: Option<int>, end: Option<int>)

  /** One day of the month grid, as the component pushes it into `calendarDays`. */
  datatype DayCell = DayCell(day: int, date: int, isAvailable: bool, isSelected: bool,
                             isStartDate: bool, isEndDate: bool)

  /**
   * The highlighted days: with both ends set, the days from check-in to
   * check-out; with only check-in set, the preview up to the hovered day.
   */
  predicate Selected(value: Range, hover: Option<int>, date: int)
    ensures Selected(value, hover, date) ==> value.start.Some? && value.start.value <= date
  {
    || (value.start.Some? && value.end.Some? && value.start.value <= date <= value.end.value)
    || (value.start.Some? && value.end.None? && hover.Some? && value.start.value < date <= hover.value)
  }

  /** The selection flag case by case: inclusive range, exclusive-inclusive preview, nothing without a check-in. */
  lemma SelectionFlag(value: Range, hover: Option<int>, date: int)
    ensures value.start.None? ==> !Selected(value, hover, date)
    ensures value.start.Some? && value.end.Some? ==>
              (Selected(value, hover, date) <==> value.start.value <= date <= value.end.value)
    ensures value.start.Some? && value.end.None? ==>
              (Selected(value, hover, date) <==> hover.Some? && value.start.value < date <= hover.value)
  {
  }

  /** The grid entry for day `day` of month `m` of year `y`. */
  function Cell(y: int, m: int, day: int, today: int, value: Range, hover: Option<int>): (c: DayCell)
    requires ValidMonth(m)
    ensures c.day == day && c.date == DayNumber(y, m, day)
    ensures c.isAvailable <==> c.date >= today
    ensures c.isSelected <==> Selected(value, hover, c.date)
    ensures c.isStartDate <==> value.start == Some(c.date)
    ensures c.isEndDate <==> value.end == Some(c.date)
  {
    var date := DayNumber(y, m, day);
    DayCell(day, date, date >= today, Selected(value, hover, date),
            value.start == Some(date), value.end == Some(date))
  }

  /**
   * `handleDateClick`: the range the click emits through `onChange`, or None
   * when it emits nothing. Unavailable days are inert; with no check-in, or a
   * complete range, the click starts over; with only a check-in, a day on or
   * after it completes the range and an earlier day becomes the new check-in.
   */
  function Click(value: Range, cell: DayCell): (r: Option<Range>)
    ensures r.Some? <==> cell.isAvailable
    ensures r.Some? && r.value.end.Some? ==>
              value.start.Some? && value.end.None? && r.value == Range(value.start, Some(cell.date))
    ensures r.Some? && r.value.end.None? ==> r.value.start == Some(cell.date)
    ensures r.Some? && r.value.end.Some? ==> r.value.start.Some? && r.value.start.value <= r.value.end.value
  {
    if !cell.isAvailable then None
    else if value.start.None? then Some(Range(Some(cell.date), None))
    else if value.end.None? then
      if cell.date >= value.start.value then Some(Range(value.start, Some(cell.date)))
      else Some(Range(Some(cell.date), None))
    else Some(Range(Some(cell.date), None))
  }

  /** Which clicks complete a range: exactly an available day on or after a lone check-in. */
  lemma ClickCompletes(value: Range, cell: DayCell)
    ensures (Click(value, cell).Some? && Click(value, cell).value.end.Some?)
            <==> cell.isAvailable && value.start.Some? && value.end.None? && cell.date >= value.start.value
  {
  }

  /** Two clicks on available days, the second not before the first, select the range between them, whatever was selected before. */
  lemma TwoClicksSelectRange(value: Range, a: DayCell, b: DayCell)
    requires a.isAvailable && b.isAvailable && a.date <= b.date
    requires value.start.None? || value.end.Some?
    ensures Click(value, a).Some?
    ensures Click(Click(value, a).value, b) == Some(Range(Some(a.date), Some(b.date)))
  {
  }

  /** `handleMouseEnter`: the hover date after the pointer enters `cell`. */
  function Hover(value: Range, hover: Option<int>, cell: DayCell): (h: Option<int>)
    ensures h != hover ==> h == Some(cell.date)
    ensures h != hover ==> cell.isAvailable && value.start.Some? && value.end.None? && cell.date > value.start.value
  {
    if !cell.isAvailable then hover
    else if value.start.Some? && value.end.None? && cell.date > value.start.value then Some(cell.date)
    else hover
  }

  /**
   * The hover preview shows what the click would commit: after hovering an
   * available day past a lone check-in, the preview plus the check-in day
   * is exactly the range the click on that day selects.
   */
  lemma PreviewMatchesClick(value: Range, hover: Option<int>, cell: DayCell, date: int)
    requires value.start.Some? && value.end.None?
    requires cell.isAvailable && cell.date > value.start.value
    ensures Click(value, cell).Some?
    ensures Selected(value, Hover(value, hover, cell), date) || Some(date) == value.start
            <==> Selected(Click(value, cell).value, None, date)
  {
  }

  class Calendar {
    /** Today's local midnight. */
    const today: int
    const todayYear: int
    const todayMonth: int
    var year: int
    var month: int
    var hover: Option<int>

    ghost predicate Valid()
      reads this
    {
      ValidMonth(month) && ValidMonth(todayMonth)
    }

    /** Opens on the month of the check-in (`initial`, its year and month), or today's month without one. */
    constructor (todayYear: int, todayMonth: int, todayDay: int, initial: Option<(int, int)>)
      requires ValidMonth(todayMonth) && 1 <= todayDay <= DaysInMonth(todayYear, todayMonth)
      requires initial.Some? ==> ValidMonth(initial.value.1)
      ensures Valid()
      ensures today == DayNumber(todayYear, todayMonth, todayDay)
      ensures this.todayYear == todayYear && this.todayMonth == todayMonth
      ensures (year, month) == initial.GetOr((todayYear, todayMonth))
      ensures hover == None
    {
      today := DayNumber(todayYear, todayMonth, todayDay);
      this.todayYear := todayYear;
      this.todayMonth := todayMonth;
      var ym := initial.GetOr((todayYear, todayMonth));
      year, month := ym.0, ym.1;
      hover := None;
    }

    /** `firstDayOfMonth.getDay()`. */
    function FirstWeekday(): (w: int)
      reads this
      requires Valid()
      ensures 0 <= w < 7
    {
      Weekday(DayNumber(year, month, 1))
    }

    /**
     * The grid the render lays out in seven columns: one blank per weekday
     * before the 1st, then the days 1..n of the month in order, each with
     * its date, availability and selection flags.
     */
    method Grid(value: Range) returns (cells: seq<Option<DayCell>>)
      requires Valid()
      ensures |cells| == FirstWeekday() + DaysInMonth(year, month)
      ensures forall i :: 0 <= i < FirstWeekday() ==> cells[i] == None
      ensures forall i :: FirstWeekday() <= i < |cells| ==>
                cells[i] == Some(Cell(year, month, i - FirstWeekday() + 1, today, value, hover))
    {
      var blanks, y, m, t, h := FirstWeekday(), year, month, today, hover;
      var n := DaysInMonth(y, m);
      cells := [];
      var i := 0;
      while i < blanks
        invariant 0 <= i <= blanks
        invariant cells == seq(i, _ => None)
      {
        cells := cells + [None];
        i := i + 1;
      }
      var day := 1;
      while day <= n
        invariant 1 <= day <= n + 1
        invariant |cells| == blanks + day - 1
        invariant forall j :: 0 <= j < blanks ==> cells[j] == None
        invariant forall j :: blanks <= j < |cells| ==> cells[j] == Some(Cell(y, m, j - blanks + 1, t, value, h))
      {
        cells := cells + [Some(Cell(y, m, day, t, value, h))];
        day := day + 1;
      }
    }

    /** `handleMouseEnter`. */
    method MouseEnter(value: Range, cell: DayCell)
      requires Valid()
      modifies this`hover
      ensures Valid()
      ensures hover == Hover(value, old(hover), cell)
    {
      if !cell.isAvailable {
        return;
      }
      if value.start.Some? && value.end.None? && cell.date > value.start.value {
        hover := Some(cell.date);
      }
    }

    /** `handleMouseLeave`: the preview disappears. */
    method MouseLeave()
      requires Valid()
      modifies this`hover
      ensures Valid() && hover == None
    {
      hover := None;
    }

    /**
     * The "<" button is disabled on today's month. Every day of the month it
     * would lead to then lies before the 1st of today's month, so before
     * today: none of them could be picked.
     */
    predicate PrevDisabled()
      reads this
      requires Valid()
      ensures PrevDisabled() ==>
                var prev := PrevMonth(year, month);
                forall d :: 1 <= d <= DaysInMonth(prev.0, prev.1) ==>
                  DayNumber(prev.0, prev.1, d) < DayNumber(todayYear, todayMonth, 1)
    {
      var prev := PrevMonth(year, month);
      PrevNextInverse(year, month);
      NextMonthFollows(prev.0, prev.1);
      month == todayMonth && year == todayYear
    }

    /** `prevMonth`, reachable only through the enabled "<" button. */
    method PrevMonthClick()
      requires Valid() && !PrevDisabled()
      modifies this`year, this`month
      ensures Valid()
      ensures (year, month) == PrevMonth(old(year), old(month))
    {
      if month == 0 {
        month := 11;
        year := year - 1;
      } else {
        month := month - 1;
      }
    }

    /** `nextMonth`. */
    method NextMonthClick()
      requires Valid()
      modifies this`year, this`month
      ensures Valid()
      ensures (year, month) == NextMonth(old(year), old(month))
    {
      if month == 11 {
        month := 0;
        year := year + 1;
      } else {
        month := month + 1;
      }
    }
  }

  /** The search form's copy of the range and whether the picker is open. */
  class SearchForm {
    var dateRange: Range
    var showCalendar: bool

    /** The range comes from the page that owns the form; the picker starts closed. */
    constructor (initial: Range)
      ensures dateRange == initial && !showCalendar
    {
      dateRange := initial;
      showCalendar := false;
    }

    /** Clicking the check-in or check-out box toggles the picker. */
    method ToggleCalendar()
      modifies this`showCalendar
      ensures showCalendar == !old(showCalendar)
    {
      showCalendar := !showCalendar;
    }

    /**
     * The `onChange` the form hands the calendar: the emitted range is
     * stored; the picker closes only once both dates are present.
     */
    method OnCalendarChange(r: Range)
      modifies this
      ensures dateRange == r
      ensures r.start.Some? && r.end.Some? ==> !showCalendar
      ensures !(r.start.Some? && r.end.Some?) ==> showCalendar == old(showCalendar)
    {
      if r.start.Some? && r.end.Some? {
        dateRange := r;
        showCalendar := false;
      } else {
        dateRange := r;
      }
    }

    /**
     * A click on a grid day with the form's range as the calendar's value.
     * The picker closes exactly when the click completes a range, which is
     * then ordered.
     */
    method ClickDay(cell: DayCell)
      modifies this
      ensures Click(old(dateRange), cell).None? ==> dateRange == old(dateRange) && showCalendar == old(showCalendar)
      ensures Click(old(dateRange), cell).Some? ==> dateRange == Click(old(dateRange), cell).value
      ensures showCalendar != old(showCalendar) ==> !showCalendar && dateRange.end.Some?
      ensures dateRange.end.Some? && dateRange != old(dateRange) ==>
                !showCalendar && dateRange.start.Some? && dateRange.start.value <= dateRange.end.value
    {
      var r := Click(dateRange, cell);
      if r.Some? {
        OnCalendarChange(r.value);
      }
    }
  }

  /** Every date the grid shows follows the one before it, and the month after starts the day after this one ends. */
  lemma GridDatesConsecutive(y: int, m: int, day: int, today: int, value: Range, hover: Option<int>)
    requires ValidMonth(m) && 1 <= day < DaysInMonth(y, m)
    ensures Cell(y, m, day + 1, today, value, hover).date == Cell(y, m, day, today, value, hover).date + 1
    ensures Cell(NextMonth(y, m).0, NextMonth(y, m).1, 1, today, value, hover).date
            == Cell(y, m, DaysInMonth(y, m), today, value, hover).date + 1
  {
    DaysConsecutive(y, m, day);
    NextMonthFollows(y, m);
  }
}

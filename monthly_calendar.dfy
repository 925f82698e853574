/**
 * The month view: `currentMonth`, stepped a month at a time, and per day cell the first
 * three of that day's filtered appointments with a "+N mais" note for the rest.
 */
module MonthlyCalendar {
  import opened Wrappers
  import opened Records
  import opened Clock
  import opened Calendar

  /** A calendar month as a count of months, `12 * year + month` with January as 0. */
  function YearOf(month: int): int
  {
    month / 12
  }

  function MonthOfYear(month: int): (m: int)
    ensures 0 <= m < 12
  {
    month % 12
  }

  class MonthlyView {
    /** The month shown; the day within it does not change what the view shows. */
    var currentMonth: int

    constructor(nowMonth: int)
      ensures currentMonth == nowMonth
    {
      currentMonth := nowMonth;
    }

    /** `previousMonth`: `subMonths(prev, 1)`. */
    method PreviousMonth()
      modifies this
      ensures currentMonth == old(currentMonth) - 1
    {
      currentMonth := currentMonth - 1;
    }

    /** `nextMonth`: `addMonths(prev, 1)`. */
    method NextMonth()
      modifies this
      ensures currentMonth == old(currentMonth) + 1
    {
      currentMonth := currentMonth + 1;
    }

    /** `goToToday`. */
    method GoToToday(nowMonth: int)
      modifies this
      ensures currentMonth == nowMonth
    {
      currentMonth := nowMonth;
    }
  }

  /** How many appointments a day cell lists. */
  const MaxShown: nat := 3

  /** A day cell: the appointments listed, and the count in the "+N mais" note when there is one. */
  datatype DayCell = DayCell(shown: seq<Appointment>, more: Option<nat>)

  /** The cell of `date`: `dayAppointments.slice(0, 3)` and `+{length - 3} mais` when there are more than 3. */
  function Cell(appointments: seq<Appointment>, selected: Option<Id>, date: int): DayCell
  {
    var dayList := ForDay(ByProfessional(appointments, selected), date);
    var shown := if |dayList| <= MaxShown then dayList else dayList[..MaxShown];
    DayCell(shown, if |dayList| > MaxShown then Some(|dayList| - MaxShown) else None)
  }

  /**
   * A cell lists the first (at most) three of the day's appointments in list order; the note
   * appears exactly when there are more, and listed plus noted is the day's count.
   */
  lemma CellAccountsForTheDay(appointments: seq<Appointment>, selected: Option<Id>, date: int)
    ensures var dayList := ForDay(ByProfessional(appointments, selected), date);
      var cell := Cell(appointments, selected, date);
      && |cell.shown| <= MaxShown
      && cell.shown == dayList[..|cell.shown|]
      && (cell.more.Some? <==> |dayList| > MaxShown)
      && |cell.shown| + cell.more.GetOr(0) == |dayList|
      && (forall a :: a in cell.shown ==> Day(a.startTime) == Day(date))
  {
    var dayList := ForDay(ByProfessional(appointments, selected), date);
    forall a | a in Cell(appointments, selected, date).shown
      ensures Day(a.startTime) == Day(date)
    {
      ForDayExact(ByProfessional(appointments, selected), date, a);
    }
  }

  /** A month forward from December is January of the next year, otherwise the next month of the same year; back is the reverse. */
  lemma MonthStepsWrapTheYear(month: int)
    ensures MonthOfYear(month) == 11 ==> MonthOfYear(month + 1) == 0 && YearOf(month + 1) == YearOf(month) + 1
    ensures MonthOfYear(month) < 11 ==> MonthOfYear(month + 1) == MonthOfYear(month) + 1 && YearOf(month + 1) == YearOf(month)
    ensures MonthOfYear(month) == 0 ==> MonthOfYear(month - 1) == 11 && YearOf(month - 1) == YearOf(month) - 1
    ensures MonthOfYear(month) > 0 ==> MonthOfYear(month - 1) == MonthOfYear(month) - 1 && YearOf(month - 1) == YearOf(month)
  {
    var y, m := month / 12, month % 12;
    assert month == 12 * y + m;
    if m == 11 {
      assert month + 1 == 12 * (y + 1);
    } else {
      assert month + 1 == 12 * y + (m + 1);
    }
    if m == 0 {
      assert month - 1 == 12 * (y - 1) + 11;
    } else {
      assert month - 1 == 12 * y + (m - 1);
    }
  }
}

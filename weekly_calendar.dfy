/**
 * The week view: the seven days, Sunday first, of the week holding `currentWeek`, stepped a
 * week at a time; each (day, hour) cell holds that day's filtered appointments starting in
 * that hour.
 */
module WeeklyCalendar {
  import opened Wrappers
  import opened Records
  import opened Clock
  import opened Calendar

  /** The weekday of a day number, 0 for Sunday: day 0, 1 January 1970, was a Thursday. */
  function Weekday(dayNumber: int): (w: int)
    ensures 0 <= w < 7
  {
    (dayNumber + 4) % 7
  }

  /** `startOfWeek(t, { locale: ptBR })`: midnight of the Sunday that starts the week of `t`. */
  function WeekStart(t: int): int
  {
    (Day(t) - Weekday(Day(t))) * DAY
  }

  /** `eachDayOfInterval({ start: weekStart, end: weekEnd })`: the week's seven days, at midnight. */
  function WeekDays(t: int): (r: seq<int>)
    ensures |r| == 7
    ensures forall i :: 0 <= i < 7 ==> r[i] == WeekStart(t) + i * DAY
  {
    seq(7, i requires 0 <= i < 7 => WeekStart(t) + i * DAY)
  }

  /** `addWeeks(t, n)` (`subWeeks` for negative `n`). */
  function AddWeeks(t: int, n: int): int
  {
    AddDays(t, 7 * n)
  }

  class WeeklyView {
    var currentWeek: int

    constructor(now: int)
      ensures currentWeek == now
    {
      currentWeek := now;
    }

    /** `previousWeek`: `subWeeks(prev, 1)`. */
    method PreviousWeek()
      modifies this
      ensures currentWeek == AddWeeks(old(currentWeek), -1)
    {
      currentWeek := AddWeeks(currentWeek, -1);
    }

    /** `nextWeek`: `addWeeks(prev, 1)`. */
    method NextWeek()
      modifies this
      ensures currentWeek == AddWeeks(old(currentWeek), 1)
    {
      currentWeek := AddWeeks(currentWeek, 1);
    }

    /** `goToToday`. */
    method GoToToday(now: int)
      modifies this
      ensures currentWeek == now
    {
      currentWeek := now;
    }
  }

  /** The cell of week day `i` and hour `h`. */
  function Cell(appointments: seq<Appointment>, selected: Option<Id>, week: int, i: int, h: int): seq<Appointment>
    requires 0 <= i < 7
  {
    AtHour(ForDay(ByProfessional(appointments, selected), WeekDays(week)[i]), h)
  }

  lemma DayOfMidnight(k: int)
    ensures Day(k * DAY) == k
  {
  }

  /** The week runs Sunday to Saturday over seven consecutive days, and holds the day it was built from. */
  lemma WeekIsSundayToSaturday(t: int)
    ensures forall i :: 0 <= i < 7 ==>
      Day(WeekDays(t)[i]) == Day(WeekStart(t)) + i && Weekday(Day(WeekDays(t)[i])) == i
    ensures Day(WeekDays(t)[Weekday(Day(t))]) == Day(t)
  {
    var s := Day(t) - Weekday(Day(t));
    DayOfMidnight(s);
    assert (s + 4) % 7 == 0;
    forall i | 0 <= i < 7
      ensures Day(WeekDays(t)[i]) == Day(WeekStart(t)) + i && Weekday(Day(WeekDays(t)[i])) == i
    {
      assert WeekDays(t)[i] == (s + i) * DAY;
      DayOfMidnight(s + i);
      assert (s + i + 4) % 7 == i;
    }
  }

  /** A week forward or back moves the whole week by seven days, and the two steps undo each other. */
  lemma WeekStepsMoveTheWeek(t: int)
    ensures WeekStart(AddWeeks(t, 1)) == WeekStart(t) + 7 * DAY
    ensures WeekStart(AddWeeks(t, -1)) == WeekStart(t) - 7 * DAY
    ensures AddWeeks(AddWeeks(t, 1), -1) == t && AddWeeks(AddWeeks(t, -1), 1) == t
  {
    AddDaysShiftsDay(t, 7);
    AddDaysShiftsDay(t, -7);
    WeekdayRepeats(Day(t));
    var d, w := Day(t), Weekday(Day(t));
    assert WeekStart(AddWeeks(t, 1)) == (d + 7 - w) * DAY;
    assert WeekStart(AddWeeks(t, -1)) == (d - 7 - w) * DAY;
  }

  /** Weekdays repeat every seven days. */
  lemma WeekdayRepeats(d: int)
    ensures Weekday(d + 7) == Weekday(d) && Weekday(d - 7) == Weekday(d)
  {
    var q, r := (d + 4) / 7, (d + 4) % 7;
    assert d + 4 == 7 * q + r && 0 <= r < 7;
    assert d + 11 == 7 * (q + 1) + r;
    assert d - 3 == 7 * (q - 1) + r;
  }

  /**
   * The cell of day `i` and hour `h` holds exactly the appointments that pass the
   * professional filter and start on the week's `i`-th day in hour `h`.
   */
  lemma CellExact(appointments: seq<Appointment>, selected: Option<Id>, week: int, i: int, h: int, a: Appointment)
    requires 0 <= i < 7
    ensures a in Cell(appointments, selected, week, i, h) <==>
      && a in appointments
      && (FiltersBy(selected) ==> a.professionalId == selected.value)
      && Day(a.startTime) == Day(WeekStart(week)) + i
      && HourOf(a.startTime) == h
  {
    var filtered := ByProfessional(appointments, selected);
    WeekIsSundayToSaturday(week);
    ByProfessionalKeeps(appointments, selected, a);
    ForDayExact(filtered, WeekDays(week)[i], a);
    AtHourExact(ForDay(filtered, WeekDays(week)[i]), h, a);
  }
}

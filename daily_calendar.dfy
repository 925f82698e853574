/**
 * The day view: one day, `currentDate`, stepped a day at a time, its appointments (after
 * the professional filter) laid out in the hour rows 08 to 20.
 */
module DailyCalendar {
  import opened Wrappers
  import opened Records
  import opened Clock
  import opened Calendar

  class DailyView {
    var currentDate: int

    /** `useState(new Date())`. */
    constructor(now: int)
      ensures currentDate == now
    {
      currentDate := now;
    }

    /** `previousDay`: `subDays(prev, 1)`. */
    method PreviousDay()
      modifies this
      ensures currentDate == AddDays(old(currentDate), -1)
    {
      currentDate := AddDays(currentDate, -1);
    }

    /** `nextDay`: `addDays(prev, 1)`. */
    method NextDay()
      modifies this
      ensures currentDate == AddDays(old(currentDate), 1)
    {
      currentDate := AddDays(currentDate, 1);
    }

    /** `goToToday`. */
    method GoToToday(now: int)
      modifies this
      ensures currentDate == now
    {
      currentDate := now;
    }
  }

  /** `dayAppointments`: the filtered appointments starting on `date`. */
  function DayAppointments(appointments: seq<Appointment>, selected: Option<Id>, date: int): seq<Appointment>
  {
    ForDay(ByProfessional(appointments, selected), date)
  }

  /** `hourAppointments` for the row of hour `h`. */
  function Row(appointments: seq<Appointment>, selected: Option<Id>, date: int, h: int): seq<Appointment>
  {
    AtHour(DayAppointments(appointments, selected, date), h)
  }

  /** A step forward and a step back each move the day by exactly one, keep the hour, and undo each other. */
  lemma DayStepsUndoEachOther(t: int)
    ensures Day(AddDays(t, 1)) == Day(t) + 1 && Day(AddDays(t, -1)) == Day(t) - 1
    ensures HourOf(AddDays(t, 1)) == HourOf(t) && HourOf(AddDays(t, -1)) == HourOf(t)
    ensures AddDays(AddDays(t, 1), -1) == t && AddDays(AddDays(t, -1), 1) == t
  {
    AddDaysShiftsDay(t, 1);
    AddDaysShiftsDay(t, -1);
  }

  /**
   * The row of hour `h` on `date` holds exactly the appointments of the list that pass the
   * professional filter, start on that day and start in that hour.
   */
  lemma RowExact(appointments: seq<Appointment>, selected: Option<Id>, date: int, h: int, a: Appointment)
    ensures a in Row(appointments, selected, date, h) <==>
      && a in appointments
      && (FiltersBy(selected) ==> a.professionalId == selected.value)
      && Day(a.startTime) == Day(date)
      && HourOf(a.startTime) == h
  {
    var filtered := ByProfessional(appointments, selected);
    ByProfessionalKeeps(appointments, selected, a);
    ForDayExact(filtered, date, a);
    AtHourExact(ForDay(filtered, date), h, a);
  }

  /** Every appointment of the day shows in exactly the row of its start hour, unless that hour is before 08 or after 20. */
  lemma DayIsLaidOutByHour(appointments: seq<Appointment>, selected: Option<Id>, date: int, a: Appointment)
    requires a in DayAppointments(appointments, selected, date)
    ensures (exists i :: 0 <= i < HourCount && a in Row(appointments, selected, date, Hours()[i]))
        <==> FirstHour <= HourOf(a.startTime) < FirstHour + HourCount
    ensures forall i :: 0 <= i < HourCount && a in Row(appointments, selected, date, Hours()[i]) ==>
      HourOf(a.startTime) == FirstHour + i
  {
    RowsPartitionTheDay(DayAppointments(appointments, selected, date), a);
  }
}

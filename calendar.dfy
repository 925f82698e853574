/**
 * What the daily, weekly and monthly calendar views share: the professional filter over
 * the hook's appointment list, the per-day list, and the hour rows 08 to 20 that the day
 * and week views bucket a day's appointments into by start hour.
 */
module Calendar {
  import opened Wrappers
  import opened Records
  import opened Seqs
  import opened Clock

  /** `selectedProfessionalId && selectedProfessionalId !== "all"`: whether the filter applies. */
  predicate FiltersBy(selected: Option<Id>)
  {
    Truthy(selected) && selected.value != "all"
  }

  function ProfessionalIs(id: Id): Appointment -> bool
  {
    (a: Appointment) => a.professionalId == id
  }

  /** `filteredAppointments`. */
  function ByProfessional(appointments: seq<Appointment>, selected: Option<Id>): seq<Appointment>
  {
    if FiltersBy(selected) then Filter(appointments, ProfessionalIs(selected.value)) else appointments
  }

  function StartsOn(date: int): Appointment -> bool
  {
    (a: Appointment) => SameDay(a.startTime, date)
  }

  /** `getAppointmentsForDay(date)` (`getDayAppointments` in the day view). */
  function ForDay(appointments: seq<Appointment>, date: int): seq<Appointment>
  {
    Filter(appointments, StartsOn(date))
  }

  function StartsAtHour(h: int): Appointment -> bool
  {
    (a: Appointment) => HourOf(a.startTime) == h
  }

  /** The appointments of a day shown in the row of hour `h`. */
  function AtHour(dayList: seq<Appointment>, h: int): seq<Appointment>
  {
    Filter(dayList, StartsAtHour(h))
  }

  /** `timeSlots`: thirteen rows from hour 8. */
  const FirstHour: int := 8
  const HourCount: nat := 13

  function Hours(): (r: seq<int>)
    ensures |r| == HourCount
    ensures forall i :: 0 <= i < |r| ==> r[i] == FirstHour + i
  {
    seq(HourCount, i requires 0 <= i < HourCount => FirstHour + i)
  }

  /** An empty row shows the "Clique para agendar" placeholder. */
  predicate ShowsPlaceholder(dayList: seq<Appointment>, h: int)
  {
    |AtHour(dayList, h)| == 0
  }

  /* ---------- what the views promise ---------- */

  /**
   * Without a selection, or with `"all"`, the filter keeps the whole list; with one it keeps
   * exactly that professional's appointments. Either way it keeps their order.
   */
  lemma ByProfessionalKeeps(appointments: seq<Appointment>, selected: Option<Id>, a: Appointment)
    ensures !FiltersBy(selected) ==> ByProfessional(appointments, selected) == appointments
    ensures FiltersBy(selected) ==>
      (a in ByProfessional(appointments, selected) <==> a in appointments && a.professionalId == selected.value)
    ensures Subsequence(ByProfessional(appointments, selected), appointments)
  {
    if FiltersBy(selected) {
      FilterMembership(appointments, ProfessionalIs(selected.value), a);
      FilterIsSubsequence(appointments, ProfessionalIs(selected.value));
    } else {
      SubsequenceOfItself(appointments);
    }
  }

  lemma {:induction false} SubsequenceOfItself<T>(xs: seq<T>)
    ensures Subsequence(xs, xs)
  {
    if xs != [] {
      SubsequenceOfItself(xs[1..]);
    }
  }

  /** A day's list holds exactly the appointments that start on that day, in list order. */
  lemma ForDayExact(appointments: seq<Appointment>, date: int, a: Appointment)
    ensures a in ForDay(appointments, date) <==> a in appointments && Day(a.startTime) == Day(date)
    ensures Subsequence(ForDay(appointments, date), appointments)
  {
    FilterMembership(appointments, StartsOn(date), a);
    FilterIsSubsequence(appointments, StartsOn(date));
  }

  /** A row holds exactly the day's appointments that start in that hour; an empty row shows the placeholder. */
  lemma AtHourExact(dayList: seq<Appointment>, h: int, a: Appointment)
    ensures a in AtHour(dayList, h) <==> a in dayList && HourOf(a.startTime) == h
    ensures ShowsPlaceholder(dayList, h) <==> forall i :: 0 <= i < |dayList| ==> HourOf(dayList[i].startTime) != h
  {
    FilterMembership(dayList, StartsAtHour(h), a);
    if !ShowsPlaceholder(dayList, h) {
      var x := AtHour(dayList, h)[0];
      FilterMembership(dayList, StartsAtHour(h), x);
    }
  }

  /**
   * The rows split a day's appointments: one starting between 08:00 and 20:59 is in exactly
   * the row of its hour, and one starting earlier or later is in no row at all.
   */
  lemma RowsPartitionTheDay(dayList: seq<Appointment>, a: Appointment)
    requires a in dayList
    ensures (exists i :: 0 <= i < HourCount && a in AtHour(dayList, Hours()[i]))
        <==> FirstHour <= HourOf(a.startTime) < FirstHour + HourCount
    ensures forall i :: 0 <= i < HourCount && a in AtHour(dayList, Hours()[i]) ==> HourOf(a.startTime) == FirstHour + i
  {
    forall i | 0 <= i < HourCount
      ensures a in AtHour(dayList, Hours()[i]) <==> HourOf(a.startTime) == FirstHour + i
    {
      AtHourExact(dayList, Hours()[i], a);
    }
    if FirstHour <= HourOf(a.startTime) < FirstHour + HourCount {
      var i := HourOf(a.startTime) - FirstHour;
      assert a in AtHour(dayList, Hours()[i]);
    }
  }
}

/**
 * The appointment form: the start-time and duration choices it offers, its validation
 * schema, and `onSubmit`, which turns the chosen day, `HH:MM` text and duration into the
 * start and end instants handed to `createAppointment`, changing `Date` objects in place.
 */
module AppointmentModal {
  import opened Wrappers
  import opened Records
  import opened Clock
  import Paths
  import Hex
  import UseAppointments

  /* ---------- numbers as text ---------- */

  function DecimalDigit(d: int): (c: char)
    requires 0 <= d < 10
    ensures IsDigit(c)
  {
    ('0' as int + d) as char
  }

  function DigitValue(c: char): (d: int)
    requires IsDigit(c)
    ensures 0 <= d < 10
  {
    c as int - '0' as int
  }

  /** `n.toString()`: the decimal digits of `n`, no leading zero. */
  function Decimal(n: nat): (r: string)
    ensures 1 <= |r| && AllDigits(r)
    ensures n >= 10 ==> |r| >= 2
  {
    if n < 10 then [DecimalDigit(n)] else Decimal(n / 10) + [DecimalDigit(n % 10)]
  }

  /** The value of a run of digits, most significant first. */
  function DigitsValue(ds: string): nat
    requires AllDigits(ds)
  {
    if ds == [] then 0 else DigitsValue(ds[..|ds| - 1]) * 10 + DigitValue(ds[|ds| - 1])
  }

  /** The longest run of digits that `s` starts with. */
  function LeadingDigits(s: string): (r: string)
    ensures |r| <= |s| && r == s[..|r|] && AllDigits(r)
    ensures |r| < |s| ==> !IsDigit(s[|r|])
  {
    if s != [] && IsDigit(s[0]) then [s[0]] + LeadingDigits(s[1..]) else []
  }

  /**
   * `parseInt(s)` on the form's texts: the value of the leading digits; NaN (`None`) when
   * there are none, and for `undefined` (`None` in).
   */
  function ParseInt(s: Option<string>): (r: Option<int>)
    ensures r.Some? ==> s.Some? && r.value >= 0
    ensures s.Some? && s.value != [] && IsDigit(s.value[0]) ==> r.Some?
  {
    if s.None? then None
    else
      var ds := LeadingDigits(s.value);
      if ds == [] then None else Some(DigitsValue(ds))
  }

  lemma {:induction false} LeadingOfDigits(ds: string)
    requires AllDigits(ds)
    ensures LeadingDigits(ds) == ds
  {
    if ds != [] {
      LeadingOfDigits(ds[1..]);
      assert [ds[0]] + ds[1..] == ds;
    }
  }

  lemma {:induction false} DigitsValueOfDecimal(n: nat)
    ensures DigitsValue(Decimal(n)) == n
  {
    if n >= 10 {
      DigitsValueOfDecimal(n / 10);
      var r := Decimal(n);
      assert r[..|r| - 1] == Decimal(n / 10);
    }
  }

  /** `parseInt(n.toString())` is `n`. */
  lemma DecimalRoundTrip(n: nat)
    ensures ParseInt(Some(Decimal(n))) == Some(n)
  {
    LeadingOfDigits(Decimal(n));
    DigitsValueOfDecimal(n);
  }

  /** A leading zero does not change the value. */
  lemma {:induction false} LeadingZero(ds: string)
    requires AllDigits(ds)
    ensures AllDigits(['0'] + ds) && DigitsValue(['0'] + ds) == DigitsValue(ds)
    decreases |ds|
  {
    var z := ['0'] + ds;
    if ds != [] {
      LeadingZero(ds[..|ds| - 1]);
      assert z[..|z| - 1] == ['0'] + ds[..|ds| - 1];
    }
  }

  /** `n.toString().padStart(2, '0')`. */
  function TwoDigits(n: nat): string
  {
    Hex.PadStart(Decimal(n), 2, '0')
  }

  /** Padding keeps the value: `parseInt` reads the padded text back as `n`. */
  lemma TwoDigitsRoundTrip(n: nat)
    ensures AllDigits(TwoDigits(n))
    ensures ParseInt(Some(TwoDigits(n))) == Some(n)
  {
    DecimalRoundTrip(n);
    LeadingOfDigits(Decimal(n));
    if n < 10 {
      var d := Decimal(n);
      assert Hex.PadStart(d, 2, '0') == Hex.PadStart(['0'] + d, 2, '0');
      assert TwoDigits(n) == ['0'] + d;
      LeadingZero(d);
      LeadingOfDigits(['0'] + d);
    }
  }

  /* ---------- the choices offered ---------- */

  /** The number of entries in `timeSlots`, and the hour of the first. */
  const SlotCount: nat := 20
  const FirstSlotHour: nat := 8

  /** The `HH:00` text of the slot `i` places after the first, both its value and its label. */
  function Slot(i: nat): string
  {
    TwoDigits(FirstSlotHour + i) + ":00"
  }

  /** `timeSlots` as written: twenty hours from 08:00. */
  function TimeSlotsAsWritten(): (r: seq<string>)
    ensures |r| == SlotCount
    ensures forall i :: 0 <= i < |r| ==> r[i] == Slot(i)
  {
    seq(SlotCount, i requires 0 <= i < SlotCount => Slot(i))
  }

  /** The hours the calendars draw a row for: 08 to 20. */
  const CalendarFirstHour: nat := 8
  const CalendarLastHour: nat := 20

  /** The slots that stay on the chosen day and inside the calendars' rows: 08:00 to 20:00. */
  function TimeSlots(): (r: seq<string>)
    ensures |r| == CalendarLastHour - CalendarFirstHour + 1
    ensures forall i :: 0 <= i < |r| ==> r[i] == Slot(i)
  {
    seq(CalendarLastHour - CalendarFirstHour + 1, i requires 0 <= i => Slot(i))
  }

  /** A choice of a select: the value submitted and the text shown. */
  datatype Choice = Choice(value: string, caption: string)

  /** `durations`. */
  const Durations: seq<Choice> := [
    Choice("30", "30 minutos"), Choice("60", "1 hora"), Choice("90", "1h 30min"), Choice("120", "2 horas")]

  /** The duration the form starts with. */
  const DefaultDuration: string := "60"

  function DurationValues(): seq<string>
  {
    seq(|Durations|, i requires 0 <= i < |Durations| => Durations[i].value)
  }

  /* ---------- the form ---------- */

  /** The form's fields; `date` is `None` until a day is picked. */
  datatype Form = Form(title: string, patientId: Id, professionalId: Id, date: Option<int>,
                       startTime: string, duration: string)

  /** The form's first state: blank texts, the selected day (or now), one hour. */
  function DefaultForm(selectedDate: Option<int>, now: int): (f: Form)
    ensures f.duration == DefaultDuration && f.date.Some?
  {
    Form("", "", "", Some(selectedDate.GetOr(now)), "", DefaultDuration)
  }

  /** `appointmentSchema`: every text filled in and a day picked. */
  predicate SchemaAccepts(f: Form)
  {
    && |f.title| >= 1 && |f.patientId| >= 1 && |f.professionalId| >= 1
    && f.date.Some? && |f.startTime| >= 1 && |f.duration| >= 1
  }

  /** `const [hours, minutes] = start_time.split(':')`, each read by `parseInt`. */
  function HoursAndMinutes(startTime: string): (Option<int>, Option<int>)
  {
    var parts := Paths.Split(startTime, ':');
    (ParseInt(Some(parts[0])), ParseInt(if |parts| > 1 then Some(parts[1]) else None))
  }

  /** The start instant: the chosen day at the given hours and minutes; `None` for an invalid date. */
  function StartInstant(date: int, startTime: string): Option<int>
  {
    var (h, m) := HoursAndMinutes(startTime);
    if h.None? || m.None? then None else Some(AtTime(date, h.value, m.value))
  }

  /**
   * What `onSubmit` hands to `createAppointment`: the three texts, the start, and the start
   * plus the duration in minutes; no status. `None` when either instant is an invalid date
   * (`toISOString` throws and the handler swallows it).
   */
  function SubmitSpec(f: Form): Option<UseAppointments.NewAppointment>
    requires f.date.Some?
  {
    match StartInstant(f.date.value, f.startTime)
    case None => None
    case Some(start) =>
      match ParseInt(Some(f.duration))
      case None => None
      case Some(d) =>
        Some(UseAppointments.NewAppointment(f.title, start, start + d * MINUTE, f.patientId, f.professionalId, None, None))
  }

  /**
   * A JavaScript `Date`, changed in place by its setters: its time value in local
   * milliseconds, or `None` once a setter has been given NaN (an invalid date).
   */
  class JsDate {
    var time: Option<int>

    /** `new Date(t)`. */
    constructor(t: Option<int>)
      ensures time == t
    {
      time := t;
    }

    /** `getMinutes()`: NaN for an invalid date. */
    function Minutes(): (r: Option<int>)
      reads this
      ensures r.Some? <==> time.Some?
      ensures r.Some? ==> 0 <= r.value < 60
    {
      if time.None? then None else Some(MinuteOf(time.value))
    }

    /** `setHours(h, m, 0, 0)`: the same day at `h` hours and `m` minutes, larger values carrying into later days. */
    method SetHours(h: Option<int>, m: Option<int>)
      modifies this
      ensures time == if old(time).None? || h.None? || m.None? then None
                      else Some(AtTime(old(time).value, h.value, m.value))
    {
      if time.None? || h.None? || m.None? {
        time := None;
      } else {
        time := Some(AtTime(time.value, h.value, m.value));
      }
    }

    /** `setMinutes(m)`: the same day and hour at `m` minutes, seconds and milliseconds kept. */
    method SetMinutes(m: Option<int>)
      modifies this
      ensures time == if old(time).None? || m.None? then None
                      else var t := old(time).value;
                        Some(Day(t) * DAY + HourOf(t) * HOUR + m.value * MINUTE + t % MINUTE)
    {
      if time.None? || m.None? {
        time := None;
      } else {
        var t := time.value;
        time := Some(Day(t) * DAY + HourOf(t) * HOUR + m.value * MINUTE + t % MINUTE);
      }
    }
  }

  /** `onSubmit`, reached once the schema accepts the form. */
  method Submit(f: Form) returns (data: Option<UseAppointments.NewAppointment>)
    requires SchemaAccepts(f)
    ensures data == SubmitSpec(f)
  {
    var startDateTime := new JsDate(f.date);
    var parts := Paths.Split(f.startTime, ':');
    var minutes := if |parts| > 1 then Some(parts[1]) else None;
    startDateTime.SetHours(ParseInt(Some(parts[0])), ParseInt(minutes));
    var endDateTime := new JsDate(startDateTime.time);
    var current := endDateTime.Minutes();
    var duration := ParseInt(Some(f.duration));
    endDateTime.SetMinutes(if current.None? || duration.None? then None else Some(current.value + duration.value));
    if startDateTime.time.None? || endDateTime.time.None? {
      return None;
    }
    var start := startDateTime.time.value;
    Decompose(start);
    data := Some(UseAppointments.NewAppointment(f.title, start, endDateTime.time.value,
                                                f.patientId, f.professionalId, None, None));
  }

  /* ---------- what the form promises ---------- */

  /** A submitted record carries the form's title, patient and professional, and no status of either kind. */
  lemma SubmitCarriesTheForm(f: Form)
    requires f.date.Some? && SubmitSpec(f).Some?
    ensures var a := SubmitSpec(f).value;
      && a.title == f.title && a.patientId == f.patientId && a.professionalId == f.professionalId
      && a.status.None? && a.attendanceStatus.None?
  {
  }

  /**
   * The start is the chosen day at the typed hour and minute, seconds and milliseconds zero;
   * within a day's range it stays on that day at that hour.
   */
  lemma StartIsChosenTime(date: int, startTime: string, h: int, m: int)
    requires HoursAndMinutes(startTime) == (Some(h), Some(m))
    ensures StartInstant(date, startTime) == Some(AtTime(date, h, m))
    ensures 0 <= h < 24 && 0 <= m < 60 ==>
      var s := AtTime(date, h, m);
      SameDay(s, date) && HourOf(s) == h && MinuteOf(s) == m && s % MINUTE == 0
  {
    if 0 <= h < 24 && 0 <= m < 60 {
      AtTimeInDay(date, h, m);
    }
  }

  /** The end is the start plus the duration in minutes; every offered duration puts it strictly after the start. */
  lemma EndIsStartPlusDuration(f: Form)
    requires f.date.Some? && SubmitSpec(f).Some?
    ensures var a := SubmitSpec(f).value;
      && ParseInt(Some(f.duration)).Some?
      && a.endTime == a.startTime + ParseInt(Some(f.duration)).value * MINUTE
      && (f.duration in DurationValues() ==> a.endTime > a.startTime)
  {
    if f.duration in DurationValues() {
      var i :| 0 <= i < |DurationValues()| && DurationValues()[i] == f.duration;
      OfferedDurationMinutes(i);
    }
  }

  /** The offered durations, in the order offered, with the default among them. */
  lemma OfferedDurations()
    ensures DurationValues() == ["30", "60", "90", "120"]
    ensures DefaultDuration == DurationValues()[1]
  {
  }

  /** The minutes each offered duration stands for. */
  const DurationMinutes: seq<int> := [30, 60, 90, 120]

  /** `parseInt` reads each offered duration as its minutes: 30, 60, 90 and 120, all positive. */
  lemma OfferedDurationMinutes(i: int)
    requires 0 <= i < |Durations|
    ensures ParseInt(Some(DurationValues()[i])) == Some(DurationMinutes[i])
    ensures DurationMinutes[i] > 0
  {
    var n: nat := DurationMinutes[i];
    assert Decimal(n) == DurationValues()[i] by {
      if i == 0 { assert Decimal(30) == "30"; }
      else if i == 1 { assert Decimal(60) == "60"; }
      else if i == 2 { assert Decimal(90) == "90"; }
      else { assert Decimal(120) == "120"; }
    }
    DecimalRoundTrip(n);
  }

  /** Digits contain no colon. */
  lemma NoColon(ds: string)
    requires AllDigits(ds)
    ensures ':' !in ds
  {
    forall k | 0 <= k < |ds|
      ensures ds[k] != ':'
    {
      assert IsDigit(ds[k]);
    }
  }

  /** `HH:MM` made of digits splits into the hours text and the minutes text. */
  lemma SplitHourMinute(hh: string, mm: string)
    requires AllDigits(hh) && AllDigits(mm)
    ensures Paths.Split(hh + ":" + mm, ':') == [hh, mm]
  {
    NoColon(hh);
    NoColon(mm);
    Paths.SplitWithoutSeparator(hh, ':');
    Paths.SplitLastPiece(hh, ':', mm);
  }

  /** A slot's text splits into its two-digit hour and `00`, and reads back as that hour, minute zero. */
  lemma SlotParses(i: nat)
    ensures HoursAndMinutes(Slot(i)) == (Some(FirstSlotHour + i), Some(0))
  {
    var hh := TwoDigits(FirstSlotHour + i);
    TwoDigitsRoundTrip(FirstSlotHour + i);
    TwoDigitsRoundTrip(0);
    var zz := TwoDigits(0);
    assert zz == "00";
    SplitHourMinute(hh, zz);
    assert Slot(i) == hh + ":" + zz;
    var parts := Paths.Split(Slot(i), ':');
    assert parts == [hh, zz];
    assert ParseInt(Some(parts[0])) == Some(FirstSlotHour + i);
    assert ParseInt(Some(parts[1])) == Some(0);
  }

  /** Picking slot `i` starts the appointment at hour 8 + i of the chosen day, counting on past midnight. */
  lemma SlotStart(date: int, i: nat)
    ensures StartInstant(date, Slot(i)) == Some(AtTime(date, FirstSlotHour + i, 0))
  {
    SlotParses(i);
  }

  /**
   * As written the last four slots, "24:00" to "27:00", start on the next day at 00:00 to
   * 03:00, and no slot from "21:00" on lands in one of the calendars' rows (08 to 20).
   */
  lemma LateSlotsLeaveTheDay(date: int, i: nat)
    requires 0 <= i < |TimeSlotsAsWritten()|
    ensures var s := AtTime(date, FirstSlotHour + i, 0);
      && StartInstant(date, TimeSlotsAsWritten()[i]) == Some(s)
      && (FirstSlotHour + i >= 24 ==> Day(s) == Day(date) + 1 && HourOf(s) == FirstSlotHour + i - 24)
      && (FirstSlotHour + i > CalendarLastHour ==> !(CalendarFirstHour <= HourOf(s) <= CalendarLastHour))
  {
    SlotStart(date, i);
    var s := AtTime(date, FirstSlotHour + i, 0);
    if FirstSlotHour + i >= 24 {
      var h := FirstSlotHour + i - 24;
      assert s == AtTime(date + DAY, h, 0);
      AtTimeInDay(date + DAY, h, 0);
      AddDaysShiftsDay(date, 1);
    } else {
      AtTimeInDay(date, FirstSlotHour + i, 0);
    }
  }

  /** The corrected slots all start on the chosen day, in the calendars' row for their hour. */
  lemma SlotsStayInTheDay(date: int, i: nat)
    requires 0 <= i < |TimeSlots()|
    ensures var s := AtTime(date, FirstSlotHour + i, 0);
      && StartInstant(date, TimeSlots()[i]) == Some(s)
      && SameDay(s, date) && HourOf(s) == FirstSlotHour + i
      && CalendarFirstHour <= HourOf(s) <= CalendarLastHour
  {
    SlotStart(date, i);
    AtTimeInDay(date, FirstSlotHour + i, 0);
  }
}

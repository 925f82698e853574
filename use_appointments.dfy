/**
 * The `useAppointments` hook: the browser's list of the current clinic's appointments and
 * the operations that write through to the store and then patch the list in place (append
 * on create, replace by id on update, drop by id on delete) instead of reloading it.
 *
 * Each store effect is a function of the store before it (`InsertSpec`, `UpdateSpec`,
 * `DeleteSpec`); the hook's methods are proved to perform it and to patch the list as the
 * source does. The lemmas show that each successful operation keeps the list in step with
 * the clinic's rows in the store.
 */
module UseAppointments {
  import opened Wrappers
  import opened Records
  import opened Seqs
  import opened Store
  import opened Edge
  import opened Client
  import AppointmentsApi

  /** `CreateAppointmentData`; the optional `status` and `attendanceStatus` are `None` when absent. */
  datatype NewAppointment = NewAppointment(
    title: string, startTime: int, endTime: int, patientId: Id, professionalId: Id,
    status: Option<string>, attendanceStatus: Option<string>)

  /**
   * `Partial<CreateAppointmentData>`: the same seven columns as the endpoint's update
   * object, each `None` when the key is absent. Present values are written as they are.
   */
  type Patch = AppointmentsApi.Body

  function InClinic(clinicId: Id): Appointment -> bool
  {
    (a: Appointment) => a.clinicId == clinicId
  }

  /** `.eq('id', id)`, with no clinic condition. */
  function IdIs(id: Id): Appointment -> bool
  {
    (a: Appointment) => a.id == id
  }

  /** What the fetch loads: the clinic's appointments, earliest start first. */
  function ClinicAppointments(d: Db, clinicId: Id): seq<Appointment>
  {
    SortBy(Filter(d.appointments, InClinic(clinicId)), AppointmentsApi.ByStart())
  }

  /** The inserted object: the form's fields, the current clinic, a falsy status replaced by `scheduled`. */
  function NewRow(data: NewAppointment, clinicId: Id, id: Id): Appointment
  {
    Appointment(id, clinicId, data.patientId, data.professionalId, data.title,
                data.startTime, data.endTime, OrDefault(data.status, "scheduled"), data.attendanceStatus)
  }

  /** The insert with `.single()`: the store after it and the row read back, `None` when refused. */
  function InsertSpec(d: Db, clinicId: Id, data: NewAppointment, env: Env): (Db, Option<Appointment>)
  {
    if env.fault || IdTaken(d.appointments, AppointmentId, env.newId) then (d, None)
    else
      var a := NewRow(data, clinicId, env.newId);
      (d.(appointments := d.appointments + [a]), Some(a))
  }

  /** `.update(patch).eq('id', id).single()`: refused unless exactly one row has that id. */
  function UpdateSpec(d: Db, id: Id, patch: Patch, fault: bool): (Db, Option<Appointment>)
  {
    var hits := Filter(d.appointments, IdIs(id));
    if fault || AppointmentsApi.NothingToUpdate(patch) || |hits| != 1 then (d, None)
    else
      (d.(appointments := MapWhere(d.appointments, IdIs(id), AppointmentsApi.Updater(patch))),
       Some(AppointmentsApi.Apply(hits[0], patch)))
  }

  /** `.delete().eq('id', id)`: every row with that id goes; `None` when the store refuses. */
  function DeleteSpec(d: Db, id: Id, fault: bool): Option<Db>
  {
    if fault then None
    else Some(d.(appointments := RemoveById(d.appointments, AppointmentId, id)))
  }

  /** `{ attendance_status }`: the update `updateAttendanceStatus` sends. */
  function AttendancePatch(status: string): Patch
  {
    AppointmentsApi.Body(None, None, None, None, None, None, Some(status))
  }

  /** The toast's `statusLabels[attendance_status]`: the Portuguese label, nothing for an unknown key. */
  function StatusLabel(status: string): Option<string>
  {
    match status
    case "attended" => Some("Compareceu")
    case "no_show" => Some("Não compareceu")
    case "cancelled" => Some("Cancelado")
    case "rescheduled" => Some("Remarcado")
    case "scheduled" => Some("Agendado")
    case _ => None
  }

  class AppointmentsHook {
    var appointments: seq<Appointment>
    var loading: bool
    var creating: bool

    /** The initial state: no appointments, loading, not creating. */
    constructor()
      ensures appointments == [] && loading && !creating
    {
      appointments := [];
      loading := true;
      creating := false;
    }

    /**
     * `fetchAppointments`: without a user or clinic it only clears `loading`; a store error
     * keeps the list; otherwise the list becomes the clinic's appointments by start time.
     */
    method Fetch(db: Database, user: Option<Id>, clinic: Option<Clinic>, fault: bool)
      modifies this
      ensures !loading && creating == old(creating)
      ensures appointments == if Ready(user, clinic) && !fault
                              then ClinicAppointments(db.Snapshot(), clinic.value.id)
                              else old(appointments)
    {
      if !Ready(user, clinic) {
        loading := false;
        return;
      }
      loading := true;
      if !fault {
        appointments := ClinicAppointments(db.Snapshot(), clinic.value.id);
      }
      loading := false;
    }

    /**
     * `createAppointment`: a no-op without a user or clinic; otherwise `creating` is raised,
     * the row is inserted, appended on success, the error rethrown on failure, and
     * `creating` is lowered on both paths.
     */
    method Create(db: Database, user: Option<Id>, clinic: Option<Clinic>, data: NewAppointment, env: Env)
      returns (r: Outcome<Appointment>)
      modifies this, db
      ensures loading == old(loading)
      ensures !Ready(user, clinic) ==> && r == Skipped && creating == old(creating)
                                       && appointments == old(appointments)
                                       && db.Snapshot() == old(db.Snapshot())
      ensures Ready(user, clinic) ==> !creating
      ensures Ready(user, clinic) ==>
        var (d, row) := InsertSpec(old(db.Snapshot()), clinic.value.id, data, env);
        && db.Snapshot() == d
        && (row.Some? ==> r == Returned(row.value) && appointments == old(appointments) + [row.value])
        && (row.None? ==> r == Threw && appointments == old(appointments))
    {
      if !Ready(user, clinic) {
        return Skipped;
      }
      creating := true;
      if env.fault || IdTaken(db.appointments, AppointmentId, env.newId) {
        r := Threw;
      } else {
        var a := NewRow(data, clinic.value.id, env.newId);
        db.appointments := db.appointments + [a];
        appointments := appointments + [a];
        r := Returned(a);
      }
      creating := false;
    }

    /**
     * `updateAppointment`: no guard and no clinic condition; on success the entries with that
     * id are replaced by the row read back, on failure the list is kept and the error rethrown.
     */
    method Update(db: Database, id: Id, patch: Patch, fault: bool) returns (r: Outcome<Appointment>)
      modifies this, db
      ensures loading == old(loading) && creating == old(creating)
      ensures var (d, row) := UpdateSpec(old(db.Snapshot()), id, patch, fault);
        && db.Snapshot() == d
        && (row.Some? ==> r == Returned(row.value)
                          && appointments == ReplaceById(old(appointments), AppointmentId, id, row.value))
        && (row.None? ==> r == Threw && appointments == old(appointments))
    {
      var hits := Filter(db.appointments, IdIs(id));
      if fault || AppointmentsApi.NothingToUpdate(patch) || |hits| != 1 {
        return Threw;
      }
      var a := AppointmentsApi.Apply(hits[0], patch);
      db.appointments := MapWhere(db.appointments, IdIs(id), AppointmentsApi.Updater(patch));
      appointments := ReplaceById(appointments, AppointmentId, id, a);
      r := Returned(a);
    }

    /** `updateAttendanceStatus`: the same update with `{ attendance_status }` alone. */
    method UpdateAttendanceStatus(db: Database, id: Id, status: string, fault: bool)
      returns (r: Outcome<Appointment>)
      modifies this, db
      ensures loading == old(loading) && creating == old(creating)
      ensures var (d, row) := UpdateSpec(old(db.Snapshot()), id, AttendancePatch(status), fault);
        && db.Snapshot() == d
        && (row.Some? ==> r == Returned(row.value)
                          && appointments == ReplaceById(old(appointments), AppointmentId, id, row.value))
        && (row.None? ==> r == Threw && appointments == old(appointments))
    {
      r := Update(db, id, AttendancePatch(status), fault);
    }

    /** `deleteAppointment`: no guard and no clinic condition; on success the list drops that id. */
    method Delete(db: Database, id: Id, fault: bool) returns (r: Outcome<()>)
      modifies this, db
      ensures loading == old(loading) && creating == old(creating)
      ensures match DeleteSpec(old(db.Snapshot()), id, fault)
        case Some(d) => db.Snapshot() == d && r == Returned(())
                        && appointments == RemoveById(old(appointments), AppointmentId, id)
        case None => db.Snapshot() == old(db.Snapshot()) && r == Threw && appointments == old(appointments)
    {
      if fault {
        return Threw;
      }
      db.appointments := RemoveById(db.appointments, AppointmentId, id);
      appointments := RemoveById(appointments, AppointmentId, id);
      r := Returned(());
    }
  }

  /* ---------- what the hook promises ---------- */

  /** The fetch loads exactly the clinic's appointments, each as often as stored, by start time. */
  lemma FetchLoadsClinicByStart(d: Db, clinicId: Id)
    ensures forall a :: a in ClinicAppointments(d, clinicId) <==> a in d.appointments && a.clinicId == clinicId
    ensures multiset(ClinicAppointments(d, clinicId)) == multiset(Filter(d.appointments, InClinic(clinicId)))
    ensures SortedBy(ClinicAppointments(d, clinicId), AppointmentsApi.ByStart())
  {
    AppointmentsApi.ByStartIsTotalPreorder();
    SortByIsOrdering(Filter(d.appointments, InClinic(clinicId)), AppointmentsApi.ByStart());
  }

  /** The hook's fetch and the endpoint's list with no filters return the same rows in the same order. */
  lemma FetchAgreesWithEndpointList(d: Db, clinicId: Id)
    ensures ClinicAppointments(d, clinicId)
         == AppointmentsApi.RunQuery(d.appointments,
              AppointmentsApi.QueryFor(clinicId, AppointmentsApi.Filters(None, None, None, None, None)))
  {
    var q := AppointmentsApi.QueryFor(clinicId, AppointmentsApi.Filters(None, None, None, None, None));
    FilterSamePredicate(d.appointments, InClinic(clinicId), AppointmentsApi.MatchesQuery(q));
  }

  /**
   * A successful create appends one row, stamped with the current clinic, with `status`
   * defaulted to `scheduled` and `attendanceStatus` passed through; a refused one changes nothing.
   */
  lemma CreateStampsClinicAndDefaultsStatus(d: Db, clinicId: Id, data: NewAppointment, env: Env)
    ensures var (d', row) := InsertSpec(d, clinicId, data, env);
      && (row.None? <==> env.fault || IdTaken(d.appointments, AppointmentId, env.newId))
      && (row.None? ==> d' == d)
      && (row.Some? ==> && d' == d.(appointments := d.appointments + [row.value])
                        && row.value.clinicId == clinicId && row.value.id == env.newId
                        && row.value.status == (if Truthy(data.status) then data.status.value else "scheduled")
                        && row.value.attendanceStatus == data.attendanceStatus)
  {
  }

  /** After a successful create, a list in step with the clinic's rows stays in step. */
  lemma CreateKeepsListInStep(cache: seq<Appointment>, d: Db, clinicId: Id, data: NewAppointment, env: Env)
    requires InStep(cache, d.appointments, InClinic(clinicId))
    requires InsertSpec(d, clinicId, data, env).1.Some?
    ensures var (d', row) := InsertSpec(d, clinicId, data, env);
      InStep(cache + [row.value], d'.appointments, InClinic(clinicId))
  {
    var row := NewRow(data, clinicId, env.newId);
    AppendKeepsInStep(cache, d.appointments, InClinic(clinicId), row);
  }

  /**
   * A successful update changes the one row with that id, by the patch, and no other row;
   * the store refuses it unless the patch has a field and exactly one row carries the id, in
   * whichever clinic.
   */
  lemma UpdateChangesOnlyThatRow(d: Db, id: Id, patch: Patch, fault: bool)
    ensures var (d', row) := UpdateSpec(d, id, patch, fault);
      && (row.Some? <==> !fault && !AppointmentsApi.NothingToUpdate(patch) && |Filter(d.appointments, IdIs(id))| == 1)
      && (row.None? ==> d' == d)
      && (row.Some? ==> && d' == d.(appointments := d'.appointments)
                        && |d'.appointments| == |d.appointments|
                        && row.value == AppointmentsApi.Apply(Filter(d.appointments, IdIs(id))[0], patch)
                        && forall i :: 0 <= i < |d.appointments| ==>
                             d'.appointments[i] == if d.appointments[i].id == id then row.value
                                                   else d.appointments[i])
  {
    if !fault && !AppointmentsApi.NothingToUpdate(patch) && |Filter(d.appointments, IdIs(id))| == 1 {
      MapWhereSingle(d.appointments, IdIs(id), AppointmentsApi.Updater(patch));
    }
  }

  /** `updateAttendanceStatus` changes the attendance status of that row and nothing else of it. */
  lemma AttendanceUpdateChangesOnlyStatus(d: Db, id: Id, status: string, fault: bool)
    requires UpdateSpec(d, id, AttendancePatch(status), fault).1.Some?
    ensures UpdateSpec(d, id, AttendancePatch(status), fault).1.value
         == Filter(d.appointments, IdIs(id))[0].(attendanceStatus := Some(status))
  {
  }

  /** After a successful update, a list in step with the clinic's rows stays in step. */
  lemma UpdateKeepsListInStep(cache: seq<Appointment>, d: Db, clinicId: Id, id: Id, patch: Patch, fault: bool)
    requires InStep(cache, d.appointments, InClinic(clinicId))
    requires UpdateSpec(d, id, patch, fault).1.Some?
    ensures var (d', row) := UpdateSpec(d, id, patch, fault);
      InStep(ReplaceById(cache, AppointmentId, id, row.value), d'.appointments, InClinic(clinicId))
  {
    var hits := Filter(d.appointments, IdIs(id));
    assert hits == [hits[0]];
    ReplaceIsUpdate(cache, d.appointments, InClinic(clinicId), AppointmentId, id, IdIs(id),
                    AppointmentsApi.Updater(patch), hits[0]);
    UpdateKeepsInStep(cache, d.appointments, InClinic(clinicId), IdIs(id), AppointmentsApi.Updater(patch));
  }

  /** After a successful delete, a list in step with the clinic's rows stays in step. */
  lemma DeleteKeepsListInStep(cache: seq<Appointment>, d: Db, clinicId: Id, id: Id)
    requires InStep(cache, d.appointments, InClinic(clinicId))
    ensures InStep(RemoveById(cache, AppointmentId, id), DeleteSpec(d, id, false).value.appointments,
                   InClinic(clinicId))
  {
    RemoveKeepsInStep(cache, d.appointments, InClinic(clinicId),
                      NotId(AppointmentId, id), NotId(AppointmentId, id));
  }

  /** The toast has a label for exactly the five attendance statuses. */
  lemma StatusLabelKeys(status: string)
    ensures StatusLabel(status).Some? <==>
            status in ["scheduled", "attended", "no_show", "cancelled", "rescheduled"]
  {
  }
}

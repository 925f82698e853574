/**
 * The `appointments-api` edge function: clinic-scoped reading, creating, updating and
 * deleting of appointments for a caller authenticated by bearer token.
 *
 * `Spec` is the whole request as a function of the store before it; `Handle` runs the same
 * request step by step against a `Database` and is proved to agree with `Spec`. The lemmas
 * below `Handle` state what the endpoint promises about `Spec`.
 */
module AppointmentsApi {
  import opened Wrappers
  import opened Records
  import opened Seqs
  import opened Paths
  import opened Store
  import opened Edge

  const FunctionName: string := "appointments-api"

  /** The query string of a list request; a falsy parameter is `None` or empty. */
  datatype Filters = Filters(
    startDate: Option<int>, endDate: Option<int>,
    patientId: Option<Id>, professionalId: Option<Id>, status: Option<string>)

  /**
   * The JSON body of POST and PUT. Text fields are `None` when absent (or not text);
   * timestamps are `None` when absent or empty.
   */
  datatype Body = Body(
    title: Option<string>, patientId: Option<Id>, professionalId: Option<Id>,
    startTime: Option<int>, endTime: Option<int>,
    status: Option<string>, attendanceStatus: Option<string>)

  datatype Request = Request(verb: Method, cred: Credential, path: string, filters: Filters, body: Body)

  /** What a successful response carries: one row, a list, or the deletion message. */
  datatype Payload = One(row: Appointment) | Many(rows: seq<Appointment>) | Deleted

  /* ---------- queries ---------- */

  /** The list query as the filter chain leaves it: clinic, time window, equalities. */
  datatype Query = Query(
    clinicId: Id, from: Option<int>, until: Option<int>,
    patientId: Option<Id>, professionalId: Option<Id>, status: Option<string>)

  predicate Matches(q: Query, a: Appointment)
  {
    && a.clinicId == q.clinicId
    && (q.from.Some? ==> q.from.value <= a.startTime)
    && (q.until.Some? ==> a.startTime <= q.until.value)
    && (q.patientId.Some? ==> a.patientId == q.patientId.value)
    && (q.professionalId.Some? ==> a.professionalId == q.professionalId.value)
    && (q.status.Some? ==> a.status == q.status.value)
  }

  function MatchesQuery(q: Query): Appointment -> bool
  {
    (a: Appointment) => Matches(q, a)
  }

  /** `order('start_time', { ascending: true })`. */
  function ByStart(): (Appointment, Appointment) -> bool
  {
    (a: Appointment, b: Appointment) => a.startTime <= b.startTime
  }

  lemma ByStartIsTotalPreorder()
    ensures TotalPreorder(ByStart())
  {
  }

  /** The rows the store returns for a query: the matching rows, earliest start first. */
  function RunQuery(rows: seq<Appointment>, q: Query): seq<Appointment>
  {
    SortBy(Filter(rows, MatchesQuery(q)), ByStart())
  }

  /** The query a list request builds: each truthy parameter adds its condition. */
  function QueryFor(clinicId: Id, f: Filters): Query
  {
    Query(clinicId, f.startDate, f.endDate, OrNull(f.patientId), OrNull(f.professionalId), OrNull(f.status))
  }

  /** `.eq('id', id).eq('clinic_id', clinicId)` on appointments. */
  function IdIn(id: Id, clinicId: Id): Appointment -> bool
  {
    (a: Appointment) => a.id == id && a.clinicId == clinicId
  }

  function PatientIn(id: Id, clinicId: Id): Patient -> bool
  {
    (p: Patient) => p.id == id && p.clinicId == clinicId
  }

  function ProfessionalIn(id: Id, clinicId: Id): Professional -> bool
  {
    (p: Professional) => p.id == id && p.clinicId == clinicId
  }

  /** The patient lookup with `.single()` finds its row: exactly one patient of that id in the clinic. */
  predicate PatientInClinic(d: Db, id: Id, clinicId: Id)
  {
    |Filter(d.patients, PatientIn(id, clinicId))| == 1
  }

  predicate ProfessionalInClinic(d: Db, id: Id, clinicId: Id)
  {
    |Filter(d.professionals, ProfessionalIn(id, clinicId))| == 1
  }

  /* ---------- writes ---------- */

  /** The five fields a new appointment needs, each present and non-empty. */
  predicate HasRequired(b: Body)
  {
    Truthy(b.title) && Truthy(b.patientId) && Truthy(b.professionalId)
    && b.startTime.Some? && b.endTime.Some?
  }

  /** The inserted row: the body's fields, the caller's clinic, both statuses defaulted. */
  function NewRow(b: Body, clinicId: Id, id: Id): Appointment
    requires HasRequired(b)
  {
    Appointment(id, clinicId, b.patientId.value, b.professionalId.value, b.title.value,
                b.startTime.value, b.endTime.value,
                OrDefault(b.status, "scheduled"), Some(OrDefault(b.attendanceStatus, "scheduled")))
  }

  /** The `updateFields` object: of the seven updatable fields, those the body gives truthy. */
  function UpdateFields(b: Body): Body
  {
    Body(OrNull(b.title), OrNull(b.patientId), OrNull(b.professionalId), b.startTime, b.endTime,
         OrNull(b.status), OrNull(b.attendanceStatus))
  }

  /**
   * An update object with no field. The store runs no UPDATE for `.update({})` and returns
   * no row, so a following `.single()` fails.
   */
  predicate NothingToUpdate(u: Body)
  {
    u == Body(None, None, None, None, None, None, None)
  }

  /** Applying an update object to a row: supplied fields replace, the rest stay. */
  function Apply(a: Appointment, u: Body): (r: Appointment)
    ensures r.id == a.id && r.clinicId == a.clinicId
    ensures u.title.Some? ==> r.title == u.title.value
    ensures u.title.None? ==> r.title == a.title
    ensures u.patientId.Some? ==> r.patientId == u.patientId.value
    ensures u.patientId.None? ==> r.patientId == a.patientId
    ensures u.professionalId.Some? ==> r.professionalId == u.professionalId.value
    ensures u.professionalId.None? ==> r.professionalId == a.professionalId
    ensures u.startTime.Some? ==> r.startTime == u.startTime.value
    ensures u.startTime.None? ==> r.startTime == a.startTime
    ensures u.endTime.Some? ==> r.endTime == u.endTime.value
    ensures u.endTime.None? ==> r.endTime == a.endTime
    ensures u.status.Some? ==> r.status == u.status.value
    ensures u.status.None? ==> r.status == a.status
    ensures u.attendanceStatus.Some? ==> r.attendanceStatus == u.attendanceStatus
    ensures u.attendanceStatus.None? ==> r.attendanceStatus == a.attendanceStatus
  {
    a.(title := u.title.GetOr(a.title),
       patientId := u.patientId.GetOr(a.patientId),
       professionalId := u.professionalId.GetOr(a.professionalId),
       startTime := u.startTime.GetOr(a.startTime),
       endTime := u.endTime.GetOr(a.endTime),
       status := u.status.GetOr(a.status),
       attendanceStatus := if u.attendanceStatus.Some? then u.attendanceStatus else a.attendanceStatus)
  }

  function Updater(u: Body): Appointment -> Appointment
  {
    (a: Appointment) => Apply(a, u)
  }

  /* ---------- the endpoint ---------- */

  function Fail(d: Db, status: int): (Db, Response<Payload>)
  {
    (d, Response(status, None))
  }

  function GetOneSpec(d: Db, clinicId: Id, id: Id, env: Env): (Db, Response<Payload>)
  {
    var rows := Filter(d.appointments, IdIn(id, clinicId));
    if env.fault || |rows| != 1 then Fail(d, 404)
    else (d, Response(200, Some(One(rows[0]))))
  }

  function ListSpec(d: Db, clinicId: Id, f: Filters, env: Env): (Db, Response<Payload>)
  {
    if env.fault then Fail(d, 500)
    else (d, Response(200, Some(Many(RunQuery(d.appointments, QueryFor(clinicId, f))))))
  }

  function CreateSpec(d: Db, clinicId: Id, b: Body, env: Env): (Db, Response<Payload>)
  {
    if !HasRequired(b) then Fail(d, 400)
    else if !PatientInClinic(d, b.patientId.value, clinicId)
         || !ProfessionalInClinic(d, b.professionalId.value, clinicId) then Fail(d, 400)
    else if env.fault || IdTaken(d.appointments, AppointmentId, env.newId) then Fail(d, 500)
    else
      var row := NewRow(b, clinicId, env.newId);
      (d.(appointments := d.appointments + [row]), Response(201, Some(One(row))))
  }

  function UpdateSpec(d: Db, clinicId: Id, id: Id, b: Body, env: Env): (Db, Response<Payload>)
  {
    if Truthy(b.patientId) && !PatientInClinic(d, b.patientId.value, clinicId) then Fail(d, 400)
    else if Truthy(b.professionalId) && !ProfessionalInClinic(d, b.professionalId.value, clinicId) then Fail(d, 400)
    else
      var u := UpdateFields(b);
      var hits := Filter(d.appointments, IdIn(id, clinicId));
      if env.fault || NothingToUpdate(u) || |hits| != 1 then Fail(d, 500)
      else (d.(appointments := MapWhere(d.appointments, IdIn(id, clinicId), Updater(u))),
            Response(200, Some(One(Apply(hits[0], u)))))
  }

  function DeleteSpec(d: Db, clinicId: Id, id: Id, env: Env): (Db, Response<Payload>)
  {
    if env.fault then Fail(d, 500)
    else (d.(appointments := Filter(d.appointments, Not(IdIn(id, clinicId)))), Response(200, Some(Deleted)))
  }

  /** One request, from the store before it to the store after it and the response. */
  function Spec(d: Db, req: Request, env: Env): (out: (Db, Response<Payload>))
    ensures out.0 == d.(appointments := out.0.appointments)
    ensures out.1.status != 200 && out.1.status != 201 ==> out.0 == d
    ensures out.1.status in {200, 201, 400, 401, 403, 404, 405, 500}
    ensures out.1.status == 201 ==> req.verb == Post && |out.0.appointments| == |d.appointments| + 1
  {
    if req.verb == Options then (d, Response(200, None))
    else match ResolveClinic(d.userRoles, req.cred)
      case Denied(s) => Fail(d, s)
      case Caller(_, clinicId) =>
        var id := ResourceId(req.path, FunctionName);
        match req.verb
        case Get => if id.Some? then GetOneSpec(d, clinicId, id.value, env) else ListSpec(d, clinicId, req.filters, env)
        case Post => CreateSpec(d, clinicId, req.body, env)
        case Put => if id.None? then Fail(d, 400) else UpdateSpec(d, clinicId, id.value, req.body, env)
        case Delete => if id.None? then Fail(d, 400) else DeleteSpec(d, clinicId, id.value, env)
        case _ => Fail(d, 405)
  }

  /** The handler, step by step as the edge function runs it. */
  method Handle(db: Database, req: Request, env: Env) returns (resp: Response<Payload>)
    modifies db
    ensures (db.Snapshot(), resp) == Spec(old(db.Snapshot()), req, env)
  {
    if req.verb == Options {
      return Response(200, None);
    }
    var caller := ResolveClinic(db.userRoles, req.cred);
    if caller.Denied? {
      return Response(caller.status, None);
    }
    var clinicId := caller.clinicId;
    var id := ResourceId(req.path, FunctionName);
    match req.verb {
      case Get =>
        if id.Some? {
          resp := GetOne(db, clinicId, id.value, env);
        } else {
          resp := List(db, clinicId, req.filters, env);
        }
      case Post =>
        resp := Create(db, clinicId, req.body, env);
      case Put =>
        if id.None? {
          return Response(400, None);
        }
        resp := Update(db, clinicId, id.value, req.body, env);
      case Delete =>
        if id.None? {
          return Response(400, None);
        }
        resp := Remove(db, clinicId, id.value, env);
      case _ =>
        resp := Response(405, None);
    }
  }

  method GetOne(db: Database, clinicId: Id, id: Id, env: Env) returns (resp: Response<Payload>)
    ensures (db.Snapshot(), resp) == GetOneSpec(db.Snapshot(), clinicId, id, env)
  {
    var rows := Filter(db.appointments, IdIn(id, clinicId));
    if env.fault || |rows| != 1 {
      return Response(404, None);
    }
    resp := Response(200, Some(One(rows[0])));
  }

  /** The list query, built up condition by condition as the request's filters say. */
  method List(db: Database, clinicId: Id, f: Filters, env: Env) returns (resp: Response<Payload>)
    ensures (db.Snapshot(), resp) == ListSpec(db.Snapshot(), clinicId, f, env)
  {
    var q := Query(clinicId, None, None, None, None, None);
    if f.startDate.Some? { q := q.(from := f.startDate); }
    if f.endDate.Some? { q := q.(until := f.endDate); }
    if Truthy(f.patientId) { q := q.(patientId := f.patientId); }
    if Truthy(f.professionalId) { q := q.(professionalId := f.professionalId); }
    if Truthy(f.status) { q := q.(status := f.status); }
    if env.fault {
      return Response(500, None);
    }
    resp := Response(200, Some(Many(RunQuery(db.appointments, q))));
  }

  method Create(db: Database, clinicId: Id, b: Body, env: Env) returns (resp: Response<Payload>)
    modifies db
    ensures (db.Snapshot(), resp) == CreateSpec(old(db.Snapshot()), clinicId, b, env)
  {
    if !HasRequired(b) {
      return Response(400, None);
    }
    var patientFound := PatientInClinic(db.Snapshot(), b.patientId.value, clinicId);
    var professionalFound := ProfessionalInClinic(db.Snapshot(), b.professionalId.value, clinicId);
    if !patientFound || !professionalFound {
      return Response(400, None);
    }
    if env.fault || IdTaken(db.appointments, AppointmentId, env.newId) {
      return Response(500, None);
    }
    var row := NewRow(b, clinicId, env.newId);
    db.appointments := db.appointments + [row];
    resp := Response(201, Some(One(row)));
  }

  /** The update: re-check any new patient or professional, then build `updateFields` field by field. */
  method Update(db: Database, clinicId: Id, id: Id, b: Body, env: Env) returns (resp: Response<Payload>)
    modifies db
    ensures (db.Snapshot(), resp) == UpdateSpec(old(db.Snapshot()), clinicId, id, b, env)
  {
    if Truthy(b.patientId) && !PatientInClinic(db.Snapshot(), b.patientId.value, clinicId) {
      return Response(400, None);
    }
    if Truthy(b.professionalId) && !ProfessionalInClinic(db.Snapshot(), b.professionalId.value, clinicId) {
      return Response(400, None);
    }
    var u := Body(None, None, None, None, None, None, None);
    if Truthy(b.title) { u := u.(title := b.title); }
    if Truthy(b.patientId) { u := u.(patientId := b.patientId); }
    if Truthy(b.professionalId) { u := u.(professionalId := b.professionalId); }
    if b.startTime.Some? { u := u.(startTime := b.startTime); }
    if b.endTime.Some? { u := u.(endTime := b.endTime); }
    if Truthy(b.status) { u := u.(status := b.status); }
    if Truthy(b.attendanceStatus) { u := u.(attendanceStatus := b.attendanceStatus); }
    assert u == UpdateFields(b);
    var hits := Filter(db.appointments, IdIn(id, clinicId));
    if env.fault || NothingToUpdate(u) || |hits| != 1 {
      return Response(500, None);
    }
    db.appointments := MapWhere(db.appointments, IdIn(id, clinicId), Updater(u));
    resp := Response(200, Some(One(Apply(hits[0], u))));
  }

  method Remove(db: Database, clinicId: Id, id: Id, env: Env) returns (resp: Response<Payload>)
    modifies db
    ensures (db.Snapshot(), resp) == DeleteSpec(old(db.Snapshot()), clinicId, id, env)
  {
    if env.fault {
      return Response(500, None);
    }
    db.appointments := Filter(db.appointments, Not(IdIn(id, clinicId)));
    resp := Response(200, Some(Deleted));
  }

  /* ---------- what the endpoint promises ---------- */

  /** A request with no credential is refused with 401 and changes no table. */
  lemma UnauthenticatedTouchesNothing(d: Db, req: Request, env: Env)
    requires req.verb != Options && !req.cred.Verified?
    ensures Spec(d, req, env) == (d, Response(401, None))
  {
  }

  /** A caller without exactly one role row is refused with 403 and changes no table. */
  lemma NoSingleRoleRowForbidden(d: Db, req: Request, env: Env)
    requires req.verb != Options && req.cred.Verified?
    requires |RolesOf(d.userRoles, req.cred.userId)| != 1
    ensures Spec(d, req, env) == (d, Response(403, None))
  {
  }

  /**
   * A list holds exactly the caller's clinic's rows that pass every truthy filter (the
   * end date bounds the start time), each as often as stored, earliest start first.
   */
  lemma ListIsScopedFilteredSorted(rows: seq<Appointment>, clinicId: Id, f: Filters)
    ensures forall a :: a in RunQuery(rows, QueryFor(clinicId, f)) <==>
      && a in rows
      && a.clinicId == clinicId
      && (f.startDate.Some? ==> f.startDate.value <= a.startTime)
      && (f.endDate.Some? ==> a.startTime <= f.endDate.value)
      && (Truthy(f.patientId) ==> a.patientId == f.patientId.value)
      && (Truthy(f.professionalId) ==> a.professionalId == f.professionalId.value)
      && (Truthy(f.status) ==> a.status == f.status.value)
    ensures multiset(RunQuery(rows, QueryFor(clinicId, f)))
         == multiset(Filter(rows, MatchesQuery(QueryFor(clinicId, f))))
    ensures SortedBy(RunQuery(rows, QueryFor(clinicId, f)), ByStart())
  {
    var q := QueryFor(clinicId, f);
    var kept := Filter(rows, MatchesQuery(q));
    ByStartIsTotalPreorder();
    SortByIsOrdering(kept, ByStart());
    forall a
      ensures a in kept <==> a in rows && Matches(q, a)
    {
      if a in rows && Matches(q, a) {
        var i :| 0 <= i < |rows| && rows[i] == a;
      }
    }
  }

  /** GET of an id that no row of the caller's clinic holds answers 404, whoever else holds it. */
  lemma GetForeignIsNotFound(d: Db, clinicId: Id, id: Id, env: Env)
    requires forall i :: 0 <= i < |d.appointments| && d.appointments[i].id == id ==> d.appointments[i].clinicId != clinicId
    ensures GetOneSpec(d, clinicId, id, env) == (d, Response(404, None))
  {
    FilterNone(d.appointments, IdIn(id, clinicId));
  }

  /** GET of the caller's own appointment (ids unique) answers 200 with that row. */
  lemma GetOwnIsFound(d: Db, clinicId: Id, i: int, env: Env)
    requires UniqueIds(d.appointments, AppointmentId) && !env.fault
    requires 0 <= i < |d.appointments| && d.appointments[i].clinicId == clinicId
    ensures GetOneSpec(d, clinicId, d.appointments[i].id, env) == (d, Response(200, Some(One(d.appointments[i]))))
  {
    FilterOne(d.appointments, IdIn(d.appointments[i].id, clinicId), i);
  }

  /** A list never holds a row of another clinic. */
  lemma ListNeverCrossesClinics(d: Db, req: Request, env: Env, clinicId: Id, a: Appointment)
    requires req.verb == Get && req.cred.Verified?
    requires ResolveClinic(d.userRoles, req.cred) == Caller(req.cred.userId, clinicId)
    requires ResourceId(req.path, FunctionName).None?
    requires Spec(d, req, env).1.data.Some?
    ensures Spec(d, req, env).1.data.value.Many?
    ensures a in Spec(d, req, env).1.data.value.rows ==> a.clinicId == clinicId
  {
    ListIsScopedFilteredSorted(d.appointments, clinicId, req.filters);
  }

  /** POST with a required field missing or empty is refused with 400 and inserts nothing. */
  lemma CreateNeedsRequiredFields(d: Db, clinicId: Id, b: Body, env: Env)
    requires !HasRequired(b)
    ensures CreateSpec(d, clinicId, b, env) == (d, Response(400, None))
  {
  }

  /** POST naming a patient with no row in the caller's clinic is refused with 400. */
  lemma CreateRejectsForeignPatient(d: Db, clinicId: Id, b: Body, env: Env)
    requires HasRequired(b)
    requires forall i :: 0 <= i < |d.patients| && d.patients[i].id == b.patientId.value ==> d.patients[i].clinicId != clinicId
    ensures CreateSpec(d, clinicId, b, env) == (d, Response(400, None))
  {
    FilterNone(d.patients, PatientIn(b.patientId.value, clinicId));
  }

  /** POST naming a professional with no row in the caller's clinic is refused with 400. */
  lemma CreateRejectsForeignProfessional(d: Db, clinicId: Id, b: Body, env: Env)
    requires HasRequired(b)
    requires forall i :: 0 <= i < |d.professionals| && d.professionals[i].id == b.professionalId.value
                         ==> d.professionals[i].clinicId != clinicId
    ensures CreateSpec(d, clinicId, b, env) == (d, Response(400, None))
  {
    FilterNone(d.professionals, ProfessionalIn(b.professionalId.value, clinicId));
  }

  /** With unique patient ids, a patient row of that id in the clinic is the one `.single()` finds. */
  lemma PatientFoundWhenPresent(d: Db, i: int, clinicId: Id)
    requires UniqueIds(d.patients, PatientId)
    requires 0 <= i < |d.patients| && d.patients[i].clinicId == clinicId
    ensures PatientInClinic(d, d.patients[i].id, clinicId)
  {
    FilterOne(d.patients, PatientIn(d.patients[i].id, clinicId), i);
  }

  lemma ProfessionalFoundWhenPresent(d: Db, i: int, clinicId: Id)
    requires UniqueIds(d.professionals, ProfessionalId)
    requires 0 <= i < |d.professionals| && d.professionals[i].clinicId == clinicId
    ensures ProfessionalInClinic(d, d.professionals[i].id, clinicId)
  {
    FilterOne(d.professionals, ProfessionalIn(d.professionals[i].id, clinicId), i);
  }

  /**
   * A successful POST appends one row carrying the caller's clinic and the body's fields,
   * with `status` and `attendance_status` defaulting to "scheduled", and answers 201 with it.
   */
  lemma CreateAppendsScopedRow(d: Db, clinicId: Id, b: Body, env: Env)
    requires CreateSpec(d, clinicId, b, env).1.status == 201
    ensures HasRequired(b)
    ensures var (d', resp) := CreateSpec(d, clinicId, b, env);
      && d'.appointments == d.appointments + [resp.data.value.row]
      && resp.data.value.row.id == env.newId
      && resp.data.value.row.clinicId == clinicId
      && resp.data.value.row.title == b.title.value
      && resp.data.value.row.patientId == b.patientId.value
      && resp.data.value.row.professionalId == b.professionalId.value
      && resp.data.value.row.startTime == b.startTime.value
      && resp.data.value.row.endTime == b.endTime.value
      && resp.data.value.row.status == (if Truthy(b.status) then b.status.value else "scheduled")
      && resp.data.value.row.attendanceStatus
         == Some(if Truthy(b.attendanceStatus) then b.attendanceStatus.value else "scheduled")
  {
  }

  /** A successful POST keeps appointment ids unique. */
  lemma CreateKeepsUniqueIds(d: Db, clinicId: Id, b: Body, env: Env)
    requires UniqueIds(d.appointments, AppointmentId)
    ensures UniqueIds(CreateSpec(d, clinicId, b, env).0.appointments, AppointmentId)
  {
    if CreateSpec(d, clinicId, b, env).1.status == 201 {
      InsertKeepsUniqueIds(d.appointments, AppointmentId, NewRow(b, clinicId, env.newId));
    }
  }

  /** PUT whose new patient is not in the caller's clinic is refused with 400 and changes nothing. */
  lemma UpdateRechecksPatient(d: Db, clinicId: Id, id: Id, b: Body, env: Env)
    requires Truthy(b.patientId)
    requires forall i :: 0 <= i < |d.patients| && d.patients[i].id == b.patientId.value ==> d.patients[i].clinicId != clinicId
    ensures UpdateSpec(d, clinicId, id, b, env) == (d, Response(400, None))
  {
    FilterNone(d.patients, PatientIn(b.patientId.value, clinicId));
  }

  lemma UpdateRechecksProfessional(d: Db, clinicId: Id, id: Id, b: Body, env: Env)
    requires Truthy(b.professionalId)
    requires forall i :: 0 <= i < |d.professionals| && d.professionals[i].id == b.professionalId.value
                         ==> d.professionals[i].clinicId != clinicId
    ensures UpdateSpec(d, clinicId, id, b, env).1.status == 400
  {
    FilterNone(d.professionals, ProfessionalIn(b.professionalId.value, clinicId));
  }

  /**
   * A successful PUT keeps the table's length and order, leaves every row with another
   * id or clinic as it was, writes the body's fields into the target row as `Apply` does,
   * and changes in the target row only the fields the body gives truthy; id and clinic never change, and no start-before-end check is made.
   */
  lemma UpdateChangesOnlyTarget(d: Db, clinicId: Id, id: Id, b: Body, env: Env, i: int)
    requires UpdateSpec(d, clinicId, id, b, env).1.status == 200
    requires 0 <= i < |d.appointments|
    ensures var t := UpdateSpec(d, clinicId, id, b, env).0.appointments;
      && |t| == |d.appointments|
      && t[i].id == d.appointments[i].id && t[i].clinicId == d.appointments[i].clinicId
      && (d.appointments[i].id != id || d.appointments[i].clinicId != clinicId ==> t[i] == d.appointments[i])
      && (d.appointments[i].id == id && d.appointments[i].clinicId == clinicId
          ==> t[i] == Apply(d.appointments[i], UpdateFields(b)))
      && (t[i].title != d.appointments[i].title ==> Truthy(b.title) && t[i].title == b.title.value)
      && (t[i].patientId != d.appointments[i].patientId ==> Truthy(b.patientId) && t[i].patientId == b.patientId.value)
      && (t[i].professionalId != d.appointments[i].professionalId
          ==> Truthy(b.professionalId) && t[i].professionalId == b.professionalId.value)
      && (t[i].startTime != d.appointments[i].startTime ==> b.startTime == Some(t[i].startTime))
      && (t[i].endTime != d.appointments[i].endTime ==> b.endTime == Some(t[i].endTime))
      && (t[i].status != d.appointments[i].status ==> Truthy(b.status) && t[i].status == b.status.value)
      && (t[i].attendanceStatus != d.appointments[i].attendanceStatus
          ==> Truthy(b.attendanceStatus) && t[i].attendanceStatus == b.attendanceStatus)
  {
  }

  /**
   * A PUT whose body has no truthy field builds an empty `updateFields`; `.update({})` reads
   * back no row, so `.single()` fails: the answer is 500 and the store is unchanged.
   */
  lemma EmptyUpdateFails(d: Db, clinicId: Id, id: Id, b: Body, env: Env)
    requires !Truthy(b.title) && !Truthy(b.patientId) && !Truthy(b.professionalId)
    requires b.startTime.None? && b.endTime.None? && !Truthy(b.status) && !Truthy(b.attendanceStatus)
    ensures UpdateSpec(d, clinicId, id, b, env) == (d, Response(500, None))
  {
    assert NothingToUpdate(UpdateFields(b));
  }

  /** The same PUT applied twice leaves the row as after the first time. */
  lemma UpdateIsIdempotent(a: Appointment, b: Body)
    ensures Apply(Apply(a, UpdateFields(b)), UpdateFields(b)) == Apply(a, UpdateFields(b))
  {
  }

  /** PUT of an id with no row in the caller's clinic (another clinic's row, say) changes nothing. */
  lemma UpdateOfForeignRowFails(d: Db, clinicId: Id, id: Id, b: Body, env: Env)
    requires forall i :: 0 <= i < |d.appointments| && d.appointments[i].id == id ==> d.appointments[i].clinicId != clinicId
    ensures UpdateSpec(d, clinicId, id, b, env).0 == d
    ensures UpdateSpec(d, clinicId, id, b, env).1.status != 200
  {
    FilterNone(d.appointments, IdIn(id, clinicId));
  }

  /**
   * DELETE removes exactly the rows with that id in the caller's clinic: every other row
   * stays, in order, and it answers 200 even when no row matched.
   */
  lemma DeleteIsScoped(d: Db, clinicId: Id, id: Id, env: Env)
    requires !env.fault
    ensures var t := DeleteSpec(d, clinicId, id, env).0.appointments;
      && DeleteSpec(d, clinicId, id, env).1.status == 200
      && (forall a :: a in t ==> a in d.appointments && !(a.id == id && a.clinicId == clinicId))
      && (forall a :: a in d.appointments && !(a.id == id && a.clinicId == clinicId) ==> a in t)
      && Subsequence(t, d.appointments)
  {
    FilterIsSubsequence(d.appointments, Not(IdIn(id, clinicId)));
    var t := Filter(d.appointments, Not(IdIn(id, clinicId)));
    forall a | a in d.appointments && !(a.id == id && a.clinicId == clinicId)
      ensures a in t
    {
      var i :| 0 <= i < |d.appointments| && d.appointments[i] == a;
    }
  }

  /** PUT or DELETE without an id in the path is refused with 400. */
  lemma WriteWithoutIdRefused(d: Db, req: Request, env: Env)
    requires req.verb == Put || req.verb == Delete
    requires ResolveClinic(d.userRoles, req.cred).Caller?
    requires ResourceId(req.path, FunctionName).None?
    ensures Spec(d, req, env) == (d, Response(400, None))
  {
  }

  /** Any method other than GET, POST, PUT, DELETE and OPTIONS is refused with 405. */
  lemma OtherMethodsRefused(d: Db, req: Request, env: Env)
    requires req.verb.OtherMethod?
    requires ResolveClinic(d.userRoles, req.cred).Caller?
    ensures Spec(d, req, env) == (d, Response(405, None))
  {
  }
}

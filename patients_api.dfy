/**
 * The `patients-api` edge function: clinic-scoped reading, registering, replacing and
 * deleting of patients. Authentication and clinic resolution are those of `Edge`.
 */
module PatientsApi {
  import opened Wrappers
  import opened Records
  import opened Seqs
  import opened Paths
  import opened Store
  import opened Edge

  const FunctionName: string := "patients-api"

  /**
   * The JSON body of POST and PUT; `None` is an absent key. JSON drops absent keys, so on
   * PUT an absent `name` or `cpf` leaves that column as it was.
   */
  datatype Body = Body(
    name: Option<string>, cpf: Option<string>,
    email: Option<string>, phone: Option<string>, birthDate: Option<string>, notes: Option<string>)

  datatype Request = Request(verb: Method, cred: Credential, path: string, body: Body)

  datatype Payload = One(row: Patient) | Many(rows: seq<Patient>) | Deleted

  function IdIn(id: Id, clinicId: Id): Patient -> bool
  {
    (p: Patient) => p.id == id && p.clinicId == clinicId
  }

  function InClinic(clinicId: Id): Patient -> bool
  {
    (p: Patient) => p.clinicId == clinicId
  }

  /** `order('created_at', { ascending: false })`. */
  function Newest(): (Patient, Patient) -> bool
  {
    (a: Patient, b: Patient) => a.createdAt >= b.createdAt
  }

  lemma NewestIsTotalPreorder()
    ensures TotalPreorder(Newest())
  {
  }

  /** The registered row: name and cpf as given, falsy optionals stored as null. */
  function NewRow(b: Body, clinicId: Id, id: Id, now: int): Patient
    requires Truthy(b.name) && Truthy(b.cpf)
  {
    Patient(id, clinicId, b.name.value, b.cpf.value,
            OrNull(b.email), OrNull(b.phone), OrNull(b.birthDate), OrNull(b.notes), now)
  }

  /** The PUT: name and cpf when given, and every optional replaced (falsy ones by null). */
  function Replace(p: Patient, b: Body): Patient
  {
    p.(name := b.name.GetOr(p.name), cpf := b.cpf.GetOr(p.cpf),
       email := OrNull(b.email), phone := OrNull(b.phone),
       birthDate := OrNull(b.birthDate), notes := OrNull(b.notes))
  }

  function Replacer(b: Body): Patient -> Patient
  {
    (p: Patient) => Replace(p, b)
  }

  function Fail(d: Db, status: int): (Db, Response<Payload>)
  {
    (d, Response(status, None))
  }

  function GetOneSpec(d: Db, clinicId: Id, id: Id, env: Env): (Db, Response<Payload>)
  {
    var rows := Filter(d.patients, IdIn(id, clinicId));
    if env.fault || |rows| != 1 then Fail(d, 404)
    else (d, Response(200, Some(One(rows[0]))))
  }

  function ListSpec(d: Db, clinicId: Id, env: Env): (Db, Response<Payload>)
  {
    if env.fault then Fail(d, 500)
    else (d, Response(200, Some(Many(SortBy(Filter(d.patients, InClinic(clinicId)), Newest())))))
  }

  function CreateSpec(d: Db, clinicId: Id, b: Body, env: Env): (Db, Response<Payload>)
  {
    if !Truthy(b.name) || !Truthy(b.cpf) then Fail(d, 400)
    else if env.fault || IdTaken(d.patients, PatientId, env.newId) then Fail(d, 500)
    else
      var row := NewRow(b, clinicId, env.newId, env.now);
      (d.(patients := d.patients + [row]), Response(201, Some(One(row))))
  }

  function UpdateSpec(d: Db, clinicId: Id, id: Id, b: Body, env: Env): (Db, Response<Payload>)
  {
    var hits := Filter(d.patients, IdIn(id, clinicId));
    if env.fault || |hits| != 1 then Fail(d, 500)
    else (d.(patients := MapWhere(d.patients, IdIn(id, clinicId), Replacer(b))),
          Response(200, Some(One(Replace(hits[0], b)))))
  }

  function DeleteSpec(d: Db, clinicId: Id, id: Id, env: Env): (Db, Response<Payload>)
  {
    if env.fault then Fail(d, 500)
    else (d.(patients := Filter(d.patients, Not(IdIn(id, clinicId)))), Response(200, Some(Deleted)))
  }

  /** One request, from the store before it to the store after it and the response. */
  function Spec(d: Db, req: Request, env: Env): (out: (Db, Response<Payload>))
    ensures out.0 == d.(patients := out.0.patients)
    ensures out.1.status != 200 && out.1.status != 201 ==> out.0 == d
    ensures out.1.status in {200, 201, 400, 401, 403, 404, 405, 500}
    ensures out.1.status == 201 ==> req.verb == Post && |out.0.patients| == |d.patients| + 1
  {
    if req.verb == Options then (d, Response(200, None))
    else match ResolveClinic(d.userRoles, req.cred)
      case Denied(s) => Fail(d, s)
      case Caller(_, clinicId) =>
        var id := ResourceId(req.path, FunctionName);
        match req.verb
        case Get => if id.Some? then GetOneSpec(d, clinicId, id.value, env) else ListSpec(d, clinicId, env)
        case Post => CreateSpec(d, clinicId, req.body, env)
        case Put => if id.None? then Fail(d, 400) else UpdateSpec(d, clinicId, id.value, req.body, env)
        case Delete => if id.None? then Fail(d, 400) else DeleteSpec(d, clinicId, id.value, env)
        case _ => Fail(d, 405)
  }

  /** The handler as the edge function runs it: auth, clinic, then the method switch. */
  method Handle(db: Database, req: Request, env: Env) returns (resp: Response<Payload>)
    modifies db
    ensures (db.Snapshot(), resp) == Spec(old(db.Snapshot()), req, env)
  {
    if req.verb == Options {
      return Response(200, None);
    }
    var caller := ResolveClinic(db.userRoles, req.cred);
    if caller.Denied? {
      return Response(caller.status, None);
    }
    var clinicId := caller.clinicId;
    var id := ResourceId(req.path, FunctionName);
    match req.verb {
      case Get =>
        if id.Some? {
          var rows := Filter(db.patients, IdIn(id.value, clinicId));
          if env.fault || |rows| != 1 {
            return Response(404, None);
          }
          resp := Response(200, Some(One(rows[0])));
        } else {
          if env.fault {
            return Response(500, None);
          }
          resp := Response(200, Some(Many(SortBy(Filter(db.patients, InClinic(clinicId)), Newest()))));
        }
      case Post =>
        resp := Create(db, clinicId, req.body, env);
      case Put =>
        if id.None? {
          return Response(400, None);
        }
        resp := Update(db, clinicId, id.value, req.body, env);
      case Delete =>
        if id.None? {
          return Response(400, None);
        }
        if env.fault {
          return Response(500, None);
        }
        db.patients := Filter(db.patients, Not(IdIn(id.value, clinicId)));
        resp := Response(200, Some(Deleted));
      case _ =>
        resp := Response(405, None);
    }
  }

  method Create(db: Database, clinicId: Id, b: Body, env: Env) returns (resp: Response<Payload>)
    modifies db
    ensures (db.Snapshot(), resp) == CreateSpec(old(db.Snapshot()), clinicId, b, env)
  {
    if !Truthy(b.name) || !Truthy(b.cpf) {
      return Response(400, None);
    }
    if env.fault || IdTaken(db.patients, PatientId, env.newId) {
      return Response(500, None);
    }
    var row := NewRow(b, clinicId, env.newId, env.now);
    db.patients := db.patients + [row];
    resp := Response(201, Some(One(row)));
  }

  method Update(db: Database, clinicId: Id, id: Id, b: Body, env: Env) returns (resp: Response<Payload>)
    modifies db
    ensures (db.Snapshot(), resp) == UpdateSpec(old(db.Snapshot()), clinicId, id, b, env)
  {
    var hits := Filter(db.patients, IdIn(id, clinicId));
    if env.fault || |hits| != 1 {
      return Response(500, None);
    }
    db.patients := MapWhere(db.patients, IdIn(id, clinicId), Replacer(b));
    resp := Response(200, Some(One(Replace(hits[0], b))));
  }

  /* ---------- what the endpoint promises ---------- */

  /** No credential: 401, and no table changes. */
  lemma UnauthenticatedTouchesNothing(d: Db, req: Request, env: Env)
    requires req.verb != Options && !req.cred.Verified?
    ensures Spec(d, req, env) == (d, Response(401, None))
  {
  }

  /** Not exactly one role row: 403, and no table changes. */
  lemma NoSingleRoleRowForbidden(d: Db, req: Request, env: Env)
    requires req.verb != Options && req.cred.Verified?
    requires |RolesOf(d.userRoles, req.cred.userId)| != 1
    ensures Spec(d, req, env) == (d, Response(403, None))
  {
  }

  /** POST without a name or a cpf is refused with 400 and inserts nothing. */
  lemma CreateNeedsNameAndCpf(d: Db, clinicId: Id, b: Body, env: Env)
    requires !Truthy(b.name) || !Truthy(b.cpf)
    ensures CreateSpec(d, clinicId, b, env) == (d, Response(400, None))
  {
  }

  /**
   * A successful POST appends one row of the caller's clinic with the given name and cpf;
   * each optional field is stored exactly when it is truthy, and as null otherwise.
   */
  lemma CreateStoresNulls(d: Db, clinicId: Id, b: Body, env: Env)
    requires CreateSpec(d, clinicId, b, env).1.status == 201
    ensures var (d', resp) := CreateSpec(d, clinicId, b, env);
      var row := resp.data.value.row;
      && d'.patients == d.patients + [row]
      && row.id == env.newId && row.clinicId == clinicId && row.createdAt == env.now
      && Some(row.name) == b.name && Some(row.cpf) == b.cpf
      && (row.email.Some? <==> Truthy(b.email)) && (row.email.Some? ==> row.email == b.email)
      && (row.phone.Some? <==> Truthy(b.phone)) && (row.phone.Some? ==> row.phone == b.phone)
      && (row.birthDate.Some? <==> Truthy(b.birthDate)) && (row.birthDate.Some? ==> row.birthDate == b.birthDate)
      && (row.notes.Some? <==> Truthy(b.notes)) && (row.notes.Some? ==> row.notes == b.notes)
  {
  }

  /** GET of an id with no row in the caller's clinic answers 404, even if another clinic has it. */
  lemma GetForeignIsNotFound(d: Db, clinicId: Id, id: Id, env: Env)
    requires forall i :: 0 <= i < |d.patients| && d.patients[i].id == id ==> d.patients[i].clinicId != clinicId
    ensures GetOneSpec(d, clinicId, id, env) == (d, Response(404, None))
  {
    FilterNone(d.patients, IdIn(id, clinicId));
  }

  /** GET of the caller's own patient (ids unique) answers 200 with that row. */
  lemma GetOwnIsFound(d: Db, clinicId: Id, i: int, env: Env)
    requires UniqueIds(d.patients, PatientId) && !env.fault
    requires 0 <= i < |d.patients| && d.patients[i].clinicId == clinicId
    ensures GetOneSpec(d, clinicId, d.patients[i].id, env) == (d, Response(200, Some(One(d.patients[i]))))
  {
    FilterOne(d.patients, IdIn(d.patients[i].id, clinicId), i);
  }

  /** A list holds exactly the caller's clinic's patients, each as often as stored, newest first. */
  lemma ListIsScopedNewestFirst(d: Db, clinicId: Id, env: Env)
    requires !env.fault
    ensures var rows := ListSpec(d, clinicId, env).1.data.value.rows;
      && (forall p :: p in rows <==> p in d.patients && p.clinicId == clinicId)
      && multiset(rows) == multiset(Filter(d.patients, InClinic(clinicId)))
      && SortedBy(rows, Newest())
  {
    var kept := Filter(d.patients, InClinic(clinicId));
    NewestIsTotalPreorder();
    SortByIsOrdering(kept, Newest());
    forall p | p in d.patients && p.clinicId == clinicId
      ensures p in kept
    {
      var i :| 0 <= i < |d.patients| && d.patients[i] == p;
    }
  }

  /**
   * A successful PUT is not a merge of the optionals: each becomes the body's value when
   * truthy and null otherwise; name and cpf change only when given. Other rows stay as they were.
   */
  lemma UpdateReplacesOptionals(d: Db, clinicId: Id, id: Id, b: Body, env: Env, i: int)
    requires UpdateSpec(d, clinicId, id, b, env).1.status == 200
    requires 0 <= i < |d.patients|
    ensures var t := UpdateSpec(d, clinicId, id, b, env).0.patients;
      && |t| == |d.patients|
      && (d.patients[i].id != id || d.patients[i].clinicId != clinicId ==> t[i] == d.patients[i])
      && (d.patients[i].id == id && d.patients[i].clinicId == clinicId ==>
          && t[i].id == id && t[i].clinicId == clinicId && t[i].createdAt == d.patients[i].createdAt
          && t[i].name == (if b.name.Some? then b.name.value else d.patients[i].name)
          && t[i].cpf == (if b.cpf.Some? then b.cpf.value else d.patients[i].cpf)
          && (t[i].email.Some? <==> Truthy(b.email)) && (t[i].email.Some? ==> t[i].email == b.email)
          && (t[i].phone.Some? <==> Truthy(b.phone)) && (t[i].phone.Some? ==> t[i].phone == b.phone)
          && (t[i].birthDate.Some? <==> Truthy(b.birthDate)) && (t[i].birthDate.Some? ==> t[i].birthDate == b.birthDate)
          && (t[i].notes.Some? <==> Truthy(b.notes)) && (t[i].notes.Some? ==> t[i].notes == b.notes))
  {
  }

  /** PUT of a patient of another clinic changes nothing. */
  lemma UpdateOfForeignRowFails(d: Db, clinicId: Id, id: Id, b: Body, env: Env)
    requires forall i :: 0 <= i < |d.patients| && d.patients[i].id == id ==> d.patients[i].clinicId != clinicId
    ensures UpdateSpec(d, clinicId, id, b, env) == (d, Response(500, None))
  {
    FilterNone(d.patients, IdIn(id, clinicId));
  }

  /** DELETE removes exactly the rows with that id in the caller's clinic; the others stay in order. */
  lemma DeleteIsScoped(d: Db, clinicId: Id, id: Id, env: Env)
    requires !env.fault
    ensures var t := DeleteSpec(d, clinicId, id, env).0.patients;
      && (forall p :: p in t ==> p in d.patients && !(p.id == id && p.clinicId == clinicId))
      && (forall p :: p in d.patients && !(p.id == id && p.clinicId == clinicId) ==> p in t)
      && Subsequence(t, d.patients)
  {
    FilterIsSubsequence(d.patients, Not(IdIn(id, clinicId)));
    var t := Filter(d.patients, Not(IdIn(id, clinicId)));
    forall p | p in d.patients && !(p.id == id && p.clinicId == clinicId)
      ensures p in t
    {
      var i :| 0 <= i < |d.patients| && d.patients[i] == p;
    }
  }

  /** PUT or DELETE without an id is refused with 400; other methods with 405. */
  lemma WriteWithoutIdOrOtherMethodRefused(d: Db, req: Request, env: Env)
    requires ResolveClinic(d.userRoles, req.cred).Caller?
    requires (req.verb in {Put, Delete} && ResourceId(req.path, FunctionName).None?) || req.verb.OtherMethod?
    ensures Spec(d, req, env) == (d, Response(if req.verb.OtherMethod? then 405 else 400, None))
  {
  }
}

/**
 * The `usePatients` hook: the browser's list of the current clinic's patients, loaded by
 * name, and the create, update and delete operations that write through to the store,
 * scoped by id and clinic, and then patch the list in place.
 */
module UsePatients {
  import opened Wrappers
  import opened Records
  import opened Seqs
  import opened Store
  import opened Edge
  import opened Client
  import PatientsApi
  import UseClinic

  /** `CreatePatientData`: name and cpf, and four optional fields (`None` when absent). */
  datatype NewPatient = NewPatient(
    name: string, cpf: string,
    phone: Option<string>, email: Option<string>, notes: Option<string>, birthDate: Option<string>)

  /**
   * `Partial<CreatePatientData>`: the keys an update sends, `None` when absent. The six
   * columns are those of the endpoint's body.
   */
  type Patch = PatientsApi.Body

  /** `order('name')`. */
  function ByName(): (Patient, Patient) -> bool
  {
    (a: Patient, b: Patient) => LexLe(a.name, b.name)
  }

  lemma ByNameIsTotalPreorder()
    ensures TotalPreorder(ByName())
  {
    forall a: Patient, b: Patient
      ensures LexLe(a.name, b.name) || LexLe(b.name, a.name)
    {
      LexLeTotal(a.name, b.name);
    }
    forall a: Patient, b: Patient, c: Patient | LexLe(a.name, b.name) && LexLe(b.name, c.name)
      ensures LexLe(a.name, c.name)
    {
      LexLeTransitive(a.name, b.name, c.name);
    }
  }

  /** What the fetch loads: the clinic's patients by name. */
  function ClinicPatients(d: Db, clinicId: Id): seq<Patient>
  {
    SortBy(Filter(d.patients, PatientsApi.InClinic(clinicId)), ByName())
  }

  /**
   * The inserted object `{ ...patientData, clinic_id }`: every given field as it is (an
   * absent one is stored as null), the current clinic, and the store's creation time.
   */
  function NewRow(data: NewPatient, clinicId: Id, id: Id, now: int): Patient
  {
    Patient(id, clinicId, data.name, data.cpf, data.email, data.phone, data.birthDate, data.notes, now)
  }

  /** An update object applied to a row: the keys it carries replace, the others stay. */
  function Merge(p: Patient, u: Patch): Patient
  {
    p.(name := u.name.GetOr(p.name), cpf := u.cpf.GetOr(p.cpf),
       email := if u.email.Some? then u.email else p.email,
       phone := if u.phone.Some? then u.phone else p.phone,
       birthDate := if u.birthDate.Some? then u.birthDate else p.birthDate,
       notes := if u.notes.Some? then u.notes else p.notes)
  }

  function Merger(u: Patch): Patient -> Patient
  {
    (p: Patient) => Merge(p, u)
  }

  function InsertSpec(d: Db, clinicId: Id, data: NewPatient, env: Env): (Db, Option<Patient>)
  {
    if env.fault || IdTaken(d.patients, PatientId, env.newId) then (d, None)
    else
      var p := NewRow(data, clinicId, env.newId, env.now);
      (d.(patients := d.patients + [p]), Some(p))
  }

  /**
   * A patch with no field. The store runs no UPDATE for `.update({})` and returns no row, so
   * the following `.single()` fails.
   */
  predicate NothingToUpdate(u: Patch)
  {
    u == PatientsApi.Body(None, None, None, None, None, None)
  }

  /** `.update(patch).eq('id', id).eq('clinic_id', clinicId).single()`. */
  function UpdateSpec(d: Db, clinicId: Id, id: Id, patch: Patch, fault: bool): (Db, Option<Patient>)
  {
    var hits := Filter(d.patients, PatientsApi.IdIn(id, clinicId));
    if fault || NothingToUpdate(patch) || |hits| != 1 then (d, None)
    else
      (d.(patients := MapWhere(d.patients, PatientsApi.IdIn(id, clinicId), Merger(patch))),
       Some(Merge(hits[0], patch)))
  }

  /** `.delete().eq('id', id).eq('clinic_id', clinicId)`. */
  function DeleteSpec(d: Db, clinicId: Id, id: Id, fault: bool): Option<Db>
  {
    if fault then None
    else Some(d.(patients := Filter(d.patients, Not(PatientsApi.IdIn(id, clinicId)))))
  }

  class PatientsHook {
    var patients: seq<Patient>
    var loading: bool

    constructor()
      ensures patients == [] && loading
    {
      patients := [];
      loading := true;
    }

    /**
     * `fetchPatients`: without a user or clinic it returns at once, leaving even `loading`
     * as it was; otherwise the list becomes the clinic's patients by name (kept on a store
     * error) and `loading` is cleared.
     */
    method Fetch(db: Database, user: Option<Id>, clinic: Option<Clinic>, fault: bool)
      modifies this
      ensures !Ready(user, clinic) ==> patients == old(patients) && loading == old(loading)
      ensures Ready(user, clinic) ==> !loading
      ensures Ready(user, clinic) ==>
        patients == if fault then old(patients) else ClinicPatients(db.Snapshot(), clinic.value.id)
    {
      if !Ready(user, clinic) {
        return;
      }
      loading := true;
      if !fault {
        patients := ClinicPatients(db.Snapshot(), clinic.value.id);
      }
      loading := false;
    }

    /** `createPatient`: a no-op without a user or clinic; on success the row read back is appended. */
    method Create(db: Database, user: Option<Id>, clinic: Option<Clinic>, data: NewPatient, env: Env)
      returns (r: Outcome<Patient>)
      modifies this, db
      ensures loading == old(loading)
      ensures !Ready(user, clinic) ==> && r == Skipped && patients == old(patients)
                                       && db.Snapshot() == old(db.Snapshot())
      ensures Ready(user, clinic) ==>
        var (d, row) := InsertSpec(old(db.Snapshot()), clinic.value.id, data, env);
        && db.Snapshot() == d
        && (row.Some? ==> r == Returned(row.value) && patients == old(patients) + [row.value])
        && (row.None? ==> r == Threw && patients == old(patients))
    {
      if !Ready(user, clinic) {
        return Skipped;
      }
      if env.fault || IdTaken(db.patients, PatientId, env.newId) {
        return Threw;
      }
      var p := NewRow(data, clinic.value.id, env.newId, env.now);
      db.patients := db.patients + [p];
      patients := patients + [p];
      r := Returned(p);
    }

    /** `updatePatient`: scoped by id and clinic; on success the entries with that id are replaced. */
    method Update(db: Database, user: Option<Id>, clinic: Option<Clinic>, id: Id, patch: Patch, fault: bool)
      returns (r: Outcome<Patient>)
      modifies this, db
      ensures loading == old(loading)
      ensures !Ready(user, clinic) ==> && r == Skipped && patients == old(patients)
                                       && db.Snapshot() == old(db.Snapshot())
      ensures Ready(user, clinic) ==>
        var (d, row) := UpdateSpec(old(db.Snapshot()), clinic.value.id, id, patch, fault);
        && db.Snapshot() == d
        && (row.Some? ==> r == Returned(row.value)
                          && patients == ReplaceById(old(patients), PatientId, id, row.value))
        && (row.None? ==> r == Threw && patients == old(patients))
    {
      if !Ready(user, clinic) {
        return Skipped;
      }
      var inScope := PatientsApi.IdIn(id, clinic.value.id);
      var hits := Filter(db.patients, inScope);
      if fault || NothingToUpdate(patch) || |hits| != 1 {
        return Threw;
      }
      var p := Merge(hits[0], patch);
      db.patients := MapWhere(db.patients, inScope, Merger(patch));
      patients := ReplaceById(patients, PatientId, id, p);
      r := Returned(p);
    }

    /** `deletePatient`: scoped by id and clinic; on success the list drops that id. */
    method Delete(db: Database, user: Option<Id>, clinic: Option<Clinic>, id: Id, fault: bool)
      returns (r: Outcome<()>)
      modifies this, db
      ensures loading == old(loading)
      ensures !Ready(user, clinic) ==> && r == Skipped && patients == old(patients)
                                       && db.Snapshot() == old(db.Snapshot())
      ensures Ready(user, clinic) ==>
        match DeleteSpec(old(db.Snapshot()), clinic.value.id, id, fault)
        case Some(d) => db.Snapshot() == d && r == Returned(())
                        && patients == RemoveById(old(patients), PatientId, id)
        case None => db.Snapshot() == old(db.Snapshot()) && r == Threw && patients == old(patients)
    {
      if !Ready(user, clinic) {
        return Skipped;
      }
      if fault {
        return Threw;
      }
      db.patients := Filter(db.patients, Not(PatientsApi.IdIn(id, clinic.value.id)));
      patients := RemoveById(patients, PatientId, id);
      r := Returned(());
    }
  }

  /* ---------- what the hook promises ---------- */

  /** The fetch loads exactly the clinic's patients, each as often as stored, ordered by name. */
  lemma FetchLoadsClinicByName(d: Db, clinicId: Id)
    ensures forall p :: p in ClinicPatients(d, clinicId) <==> p in d.patients && p.clinicId == clinicId
    ensures multiset(ClinicPatients(d, clinicId)) == multiset(Filter(d.patients, PatientsApi.InClinic(clinicId)))
    ensures SortedBy(ClinicPatients(d, clinicId), ByName())
  {
    ByNameIsTotalPreorder();
    SortByIsOrdering(Filter(d.patients, PatientsApi.InClinic(clinicId)), ByName());
  }

  /** An update object with no keys changes nothing; applying the same one twice is applying it once. */
  lemma MergeLaws(p: Patient, u: Patch)
    ensures Merge(p, PatientsApi.Body(None, None, None, None, None, None)) == p
    ensures Merge(Merge(p, u), u) == Merge(p, u)
    ensures Merge(p, u).id == p.id && Merge(p, u).clinicId == p.clinicId && Merge(p, u).createdAt == p.createdAt
  {
  }

  /**
   * The hook's update merges, the endpoint's PUT replaces the optional fields: the two agree
   * when every field is sent non-empty, and differ on a row with an email when the update
   * leaves the email out.
   */
  lemma MergeVersusEndpointReplace(p: Patient, u: Patch)
    ensures (&& Truthy(u.name) && Truthy(u.cpf) && Truthy(u.email) && Truthy(u.phone)
             && Truthy(u.birthDate) && Truthy(u.notes)) ==> Merge(p, u) == PatientsApi.Replace(p, u)
    ensures p.email.Some? && u.email.None? ==> Merge(p, u).email != PatientsApi.Replace(p, u).email
  {
  }

  /** A successful create appends one row carrying the current clinic and the given fields. */
  lemma CreateStampsClinic(d: Db, clinicId: Id, data: NewPatient, env: Env)
    ensures var (d', row) := InsertSpec(d, clinicId, data, env);
      && (row.None? <==> env.fault || IdTaken(d.patients, PatientId, env.newId))
      && (row.None? ==> d' == d)
      && (row.Some? ==> && d' == d.(patients := d.patients + [row.value])
                        && row.value.clinicId == clinicId && row.value.id == env.newId
                        && row.value.name == data.name && row.value.cpf == data.cpf
                        && row.value.email == data.email && row.value.phone == data.phone
                        && row.value.birthDate == data.birthDate && row.value.notes == data.notes)
  {
  }

  /** An update never touches a row of another clinic, even one with the same id. */
  lemma UpdateIsScoped(d: Db, clinicId: Id, id: Id, patch: Patch, fault: bool)
    ensures var (d', row) := UpdateSpec(d, clinicId, id, patch, fault);
      && d' == d.(patients := d'.patients)
      && |d'.patients| == |d.patients|
      && (row.Some? ==> row.value.id == id && row.value.clinicId == clinicId)
      && forall i :: 0 <= i < |d.patients| && (d.patients[i].id != id || d.patients[i].clinicId != clinicId)
                     ==> d'.patients[i] == d.patients[i]
  {
    var hits := Filter(d.patients, PatientsApi.IdIn(id, clinicId));
    if |hits| == 1 {
      assert hits[0] in hits;
    }
  }

  /** An update with an empty patch is refused by the store: the patients stay and the hook rethrows. */
  lemma EmptyUpdateThrows(d: Db, clinicId: Id, id: Id, patch: Patch, fault: bool)
    requires NothingToUpdate(patch)
    ensures UpdateSpec(d, clinicId, id, patch, fault) == (d, None)
  {
  }

  /** A delete removes only the row with that id in the current clinic, keeping the order. */
  lemma DeleteIsScoped(d: Db, clinicId: Id, id: Id)
    ensures var d' := DeleteSpec(d, clinicId, id, false).value;
      && d' == d.(patients := d'.patients)
      && Subsequence(d'.patients, d.patients)
      && forall p :: p in d.patients ==> (p in d'.patients <==> p.id != id || p.clinicId != clinicId)
  {
    FilterIsSubsequence(d.patients, Not(PatientsApi.IdIn(id, clinicId)));
  }

  lemma CreateKeepsListInStep(cache: seq<Patient>, d: Db, clinicId: Id, data: NewPatient, env: Env)
    requires InStep(cache, d.patients, PatientsApi.InClinic(clinicId))
    requires InsertSpec(d, clinicId, data, env).1.Some?
    ensures var (d', row) := InsertSpec(d, clinicId, data, env);
      InStep(cache + [row.value], d'.patients, PatientsApi.InClinic(clinicId))
  {
    AppendKeepsInStep(cache, d.patients, PatientsApi.InClinic(clinicId), NewRow(data, clinicId, env.newId, env.now));
  }

  lemma UpdateKeepsListInStep(cache: seq<Patient>, d: Db, clinicId: Id, id: Id, patch: Patch, fault: bool)
    requires InStep(cache, d.patients, PatientsApi.InClinic(clinicId))
    requires UpdateSpec(d, clinicId, id, patch, fault).1.Some?
    ensures var (d', row) := UpdateSpec(d, clinicId, id, patch, fault);
      InStep(ReplaceById(cache, PatientId, id, row.value), d'.patients, PatientsApi.InClinic(clinicId))
  {
    var hit := PatientsApi.IdIn(id, clinicId);
    var hits := Filter(d.patients, hit);
    assert hits == [hits[0]];
    ReplaceIsUpdate(cache, d.patients, PatientsApi.InClinic(clinicId), PatientId, id, hit, Merger(patch), hits[0]);
    UpdateKeepsInStep(cache, d.patients, PatientsApi.InClinic(clinicId), hit, Merger(patch));
  }

  lemma DeleteKeepsListInStep(cache: seq<Patient>, d: Db, clinicId: Id, id: Id)
    requires InStep(cache, d.patients, PatientsApi.InClinic(clinicId))
    ensures InStep(RemoveById(cache, PatientId, id), DeleteSpec(d, clinicId, id, false).value.patients,
                   PatientsApi.InClinic(clinicId))
  {
    RemoveKeepsInStep(cache, d.patients, PatientsApi.InClinic(clinicId),
                      NotId(PatientId, id), Not(PatientsApi.IdIn(id, clinicId)));
  }

  /* ---------- the hook wired to `useClinic` ---------- */

  /** As written the hook reads `currentClinic`, which `useClinic` does not export: a fetch loads nothing. */
  method FetchAsWired(h: PatientsHook, db: Database, user: Option<Id>, e: UseClinic.Exports, fault: bool)
    modifies h
    ensures h.patients == old(h.patients) && h.loading == old(h.loading)
  {
    UseClinic.AsWrittenNoHookIsReady(e, user);
    h.Fetch(db, user, UseClinic.CurrentClinicAsWritten(e), fault);
  }

  /**
   * Reading the exported `clinic` instead, a signed-in user's fetch loads exactly the loaded
   * clinic's patients, by name.
   */
  method FetchWithCorrectedRead(h: PatientsHook, db: Database, user: Option<Id>, e: UseClinic.Exports, fault: bool)
    modifies h
    ensures user.Some? && e.clinic.Some? ==> !h.loading
    ensures user.Some? && e.clinic.Some? && !fault ==>
      && (forall p :: p in h.patients <==> p in db.patients && p.clinicId == e.clinic.value.id)
      && SortedBy(h.patients, ByName())
  {
    UseClinic.CorrectedHooksSeeTheClinic(e, user);
    h.Fetch(db, user, UseClinic.CurrentClinic(e), fault);
    if user.Some? && e.clinic.Some? && !fault {
      FetchLoadsClinicByName(db.Snapshot(), e.clinic.value.id);
    }
  }
}

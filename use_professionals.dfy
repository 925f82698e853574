/**
 * The `useProfessionals` hook: the browser's list of the current clinic's professionals,
 * loaded by name, and the create, update and delete operations that write through to the
 * store, scoped by id and clinic, and then patch the list in place. A new professional
 * without a colour gets the default calendar colour.
 */
module UseProfessionals {
  import opened Wrappers
  import opened Records
  import opened Seqs
  import opened Store
  import opened Edge
  import opened Client
  import AppointmentsApi

  /** The calendar colour used when none (or an empty one) is given. */
  const DefaultColor: string := "#3B82F6"

  /** `CreateProfessionalData`; `color` is `None` when absent. */
  datatype NewProfessional = NewProfessional(name: string, specialty: string, color: Option<string>)

  /** `Partial<CreateProfessionalData>`: the keys an update sends, `None` when absent. */
  datatype Patch = Patch(name: Option<string>, specialty: Option<string>, color: Option<string>)

  function InClinic(clinicId: Id): Professional -> bool
  {
    (p: Professional) => p.clinicId == clinicId
  }

  /** `order('name')`. */
  function ByName(): (Professional, Professional) -> bool
  {
    (a: Professional, b: Professional) => LexLe(a.name, b.name)
  }

  lemma ByNameIsTotalPreorder()
    ensures TotalPreorder(ByName())
  {
    forall a: Professional, b: Professional
      ensures LexLe(a.name, b.name) || LexLe(b.name, a.name)
    {
      LexLeTotal(a.name, b.name);
    }
    forall a: Professional, b: Professional, c: Professional | LexLe(a.name, b.name) && LexLe(b.name, c.name)
      ensures LexLe(a.name, c.name)
    {
      LexLeTransitive(a.name, b.name, c.name);
    }
  }

  /** What the fetch loads: the clinic's professionals by name. */
  function ClinicProfessionals(d: Db, clinicId: Id): seq<Professional>
  {
    SortBy(Filter(d.professionals, InClinic(clinicId)), ByName())
  }

  /** The inserted object: name and specialty as given, the current clinic, a falsy colour defaulted. */
  function NewRow(data: NewProfessional, clinicId: Id, id: Id): Professional
  {
    Professional(id, clinicId, data.name, data.specialty, OrDefault(data.color, DefaultColor))
  }

  /** An update object applied to a row: the keys it carries replace, the others stay. */
  function Merge(p: Professional, u: Patch): Professional
  {
    p.(name := u.name.GetOr(p.name), specialty := u.specialty.GetOr(p.specialty), color := u.color.GetOr(p.color))
  }

  function Merger(u: Patch): Professional -> Professional
  {
    (p: Professional) => Merge(p, u)
  }

  function InsertSpec(d: Db, clinicId: Id, data: NewProfessional, env: Env): (Db, Option<Professional>)
  {
    if env.fault || IdTaken(d.professionals, ProfessionalId, env.newId) then (d, None)
    else
      var p := NewRow(data, clinicId, env.newId);
      (d.(professionals := d.professionals + [p]), Some(p))
  }

  /**
   * A patch with no field. The store runs no UPDATE for `.update({})` and returns no row, so
   * the following `.single()` fails.
   */
  predicate NothingToUpdate(u: Patch)
  {
    u == Patch(None, None, None)
  }

  /** `.update(patch).eq('id', id).eq('clinic_id', clinicId).single()`. */
  function UpdateSpec(d: Db, clinicId: Id, id: Id, patch: Patch, fault: bool): (Db, Option<Professional>)
  {
    var hits := Filter(d.professionals, AppointmentsApi.ProfessionalIn(id, clinicId));
    if fault || NothingToUpdate(patch) || |hits| != 1 then (d, None)
    else
      (d.(professionals := MapWhere(d.professionals, AppointmentsApi.ProfessionalIn(id, clinicId), Merger(patch))),
       Some(Merge(hits[0], patch)))
  }

  /** `.delete().eq('id', id).eq('clinic_id', clinicId)`. */
  function DeleteSpec(d: Db, clinicId: Id, id: Id, fault: bool): Option<Db>
  {
    if fault then None
    else Some(d.(professionals := Filter(d.professionals, Not(AppointmentsApi.ProfessionalIn(id, clinicId)))))
  }

  class ProfessionalsHook {
    var professionals: seq<Professional>
    var loading: bool

    constructor()
      ensures professionals == [] && loading
    {
      professionals := [];
      loading := true;
    }

    /**
     * `fetchProfessionals`: without a user or clinic it returns at once, leaving even
     * `loading` as it was; otherwise the list becomes the clinic's professionals by name
     * (kept on a store error) and `loading` is cleared.
     */
    method Fetch(db: Database, user: Option<Id>, clinic: Option<Clinic>, fault: bool)
      modifies this
      ensures !Ready(user, clinic) ==> professionals == old(professionals) && loading == old(loading)
      ensures Ready(user, clinic) ==> !loading
      ensures Ready(user, clinic) ==>
        professionals == if fault then old(professionals) else ClinicProfessionals(db.Snapshot(), clinic.value.id)
    {
      if !Ready(user, clinic) {
        return;
      }
      loading := true;
      if !fault {
        professionals := ClinicProfessionals(db.Snapshot(), clinic.value.id);
      }
      loading := false;
    }

    /** `createProfessional`: a no-op without a user or clinic; on success the row read back is appended. */
    method Create(db: Database, user: Option<Id>, clinic: Option<Clinic>, data: NewProfessional, env: Env)
      returns (r: Outcome<Professional>)
      modifies this, db
      ensures loading == old(loading)
      ensures !Ready(user, clinic) ==> && r == Skipped && professionals == old(professionals)
                                       && db.Snapshot() == old(db.Snapshot())
      ensures Ready(user, clinic) ==>
        var (d, row) := InsertSpec(old(db.Snapshot()), clinic.value.id, data, env);
        && db.Snapshot() == d
        && (row.Some? ==> r == Returned(row.value) && professionals == old(professionals) + [row.value])
        && (row.None? ==> r == Threw && professionals == old(professionals))
    {
      if !Ready(user, clinic) {
        return Skipped;
      }
      if env.fault || IdTaken(db.professionals, ProfessionalId, env.newId) {
        return Threw;
      }
      var p := NewRow(data, clinic.value.id, env.newId);
      db.professionals := db.professionals + [p];
      professionals := professionals + [p];
      r := Returned(p);
    }

    /** `updateProfessional`: scoped by id and clinic; on success the entries with that id are replaced. */
    method Update(db: Database, user: Option<Id>, clinic: Option<Clinic>, id: Id, patch: Patch, fault: bool)
      returns (r: Outcome<Professional>)
      modifies this, db
      ensures loading == old(loading)
      ensures !Ready(user, clinic) ==> && r == Skipped && professionals == old(professionals)
                                       && db.Snapshot() == old(db.Snapshot())
      ensures Ready(user, clinic) ==>
        var (d, row) := UpdateSpec(old(db.Snapshot()), clinic.value.id, id, patch, fault);
        && db.Snapshot() == d
        && (row.Some? ==> r == Returned(row.value)
                          && professionals == ReplaceById(old(professionals), ProfessionalId, id, row.value))
        && (row.None? ==> r == Threw && professionals == old(professionals))
    {
      if !Ready(user, clinic) {
        return Skipped;
      }
      var inScope := AppointmentsApi.ProfessionalIn(id, clinic.value.id);
      var hits := Filter(db.professionals, inScope);
      if fault || NothingToUpdate(patch) || |hits| != 1 {
        return Threw;
      }
      var p := Merge(hits[0], patch);
      db.professionals := MapWhere(db.professionals, inScope, Merger(patch));
      professionals := ReplaceById(professionals, ProfessionalId, id, p);
      r := Returned(p);
    }

    /** `deleteProfessional`: scoped by id and clinic; on success the list drops that id. */
    method Delete(db: Database, user: Option<Id>, clinic: Option<Clinic>, id: Id, fault: bool)
      returns (r: Outcome<()>)
      modifies this, db
      ensures loading == old(loading)
      ensures !Ready(user, clinic) ==> && r == Skipped && professionals == old(professionals)
                                       && db.Snapshot() == old(db.Snapshot())
      ensures Ready(user, clinic) ==>
        match DeleteSpec(old(db.Snapshot()), clinic.value.id, id, fault)
        case Some(d) => db.Snapshot() == d && r == Returned(())
                        && professionals == RemoveById(old(professionals), ProfessionalId, id)
        case None => db.Snapshot() == old(db.Snapshot()) && r == Threw && professionals == old(professionals)
    {
      if !Ready(user, clinic) {
        return Skipped;
      }
      if fault {
        return Threw;
      }
      db.professionals := Filter(db.professionals, Not(AppointmentsApi.ProfessionalIn(id, clinic.value.id)));
      professionals := RemoveById(professionals, ProfessionalId, id);
      r := Returned(());
    }
  }

  /* ---------- what the hook promises ---------- */

  /** The fetch loads exactly the clinic's professionals, each as often as stored, ordered by name. */
  lemma FetchLoadsClinicByName(d: Db, clinicId: Id)
    ensures forall p :: p in ClinicProfessionals(d, clinicId) <==> p in d.professionals && p.clinicId == clinicId
    ensures multiset(ClinicProfessionals(d, clinicId)) == multiset(Filter(d.professionals, InClinic(clinicId)))
    ensures SortedBy(ClinicProfessionals(d, clinicId), ByName())
  {
    ByNameIsTotalPreorder();
    SortByIsOrdering(Filter(d.professionals, InClinic(clinicId)), ByName());
  }

  /**
   * A successful create appends one row carrying the current clinic, and its colour is the
   * given one when that is non-empty and `#3B82F6` otherwise; a refused one changes nothing.
   */
  lemma CreateDefaultsColor(d: Db, clinicId: Id, data: NewProfessional, env: Env)
    ensures var (d', row) := InsertSpec(d, clinicId, data, env);
      && (row.None? <==> env.fault || IdTaken(d.professionals, ProfessionalId, env.newId))
      && (row.None? ==> d' == d)
      && (row.Some? ==> && d' == d.(professionals := d.professionals + [row.value])
                        && row.value.clinicId == clinicId && row.value.id == env.newId
                        && row.value.name == data.name && row.value.specialty == data.specialty
                        && row.value.color != ""
                        && (Truthy(data.color) ==> row.value.color == data.color.value)
                        && (!Truthy(data.color) ==> row.value.color == DefaultColor))
  {
  }

  /** An update object with no keys changes nothing; applying the same one twice is applying it once. */
  lemma MergeLaws(p: Professional, u: Patch)
    ensures Merge(p, Patch(None, None, None)) == p
    ensures Merge(Merge(p, u), u) == Merge(p, u)
    ensures Merge(p, u).id == p.id && Merge(p, u).clinicId == p.clinicId
  {
  }

  /** An update never touches a row of another clinic, even one with the same id. */
  lemma UpdateIsScoped(d: Db, clinicId: Id, id: Id, patch: Patch, fault: bool)
    ensures var (d', row) := UpdateSpec(d, clinicId, id, patch, fault);
      && d' == d.(professionals := d'.professionals)
      && |d'.professionals| == |d.professionals|
      && (row.Some? ==> row.value.id == id && row.value.clinicId == clinicId)
      && forall i :: 0 <= i < |d.professionals|
                     && (d.professionals[i].id != id || d.professionals[i].clinicId != clinicId)
                     ==> d'.professionals[i] == d.professionals[i]
  {
    var hits := Filter(d.professionals, AppointmentsApi.ProfessionalIn(id, clinicId));
    if |hits| == 1 {
      assert hits[0] in hits;
    }
  }

  /** An update with an empty patch is refused by the store: the professionals stay and the hook rethrows. */
  lemma EmptyUpdateThrows(d: Db, clinicId: Id, id: Id, patch: Patch, fault: bool)
    requires NothingToUpdate(patch)
    ensures UpdateSpec(d, clinicId, id, patch, fault) == (d, None)
  {
  }

  /** A delete removes only the row with that id in the current clinic, keeping the order. */
  lemma DeleteIsScoped(d: Db, clinicId: Id, id: Id)
    ensures var d' := DeleteSpec(d, clinicId, id, false).value;
      && d' == d.(professionals := d'.professionals)
      && Subsequence(d'.professionals, d.professionals)
      && forall p :: p in d.professionals ==> (p in d'.professionals <==> p.id != id || p.clinicId != clinicId)
  {
    FilterIsSubsequence(d.professionals, Not(AppointmentsApi.ProfessionalIn(id, clinicId)));
  }

  lemma CreateKeepsListInStep(cache: seq<Professional>, d: Db, clinicId: Id, data: NewProfessional, env: Env)
    requires InStep(cache, d.professionals, InClinic(clinicId))
    requires InsertSpec(d, clinicId, data, env).1.Some?
    ensures var (d', row) := InsertSpec(d, clinicId, data, env);
      InStep(cache + [row.value], d'.professionals, InClinic(clinicId))
  {
    AppendKeepsInStep(cache, d.professionals, InClinic(clinicId), NewRow(data, clinicId, env.newId));
  }

  lemma UpdateKeepsListInStep(cache: seq<Professional>, d: Db, clinicId: Id, id: Id, patch: Patch, fault: bool)
    requires InStep(cache, d.professionals, InClinic(clinicId))
    requires UpdateSpec(d, clinicId, id, patch, fault).1.Some?
    ensures var (d', row) := UpdateSpec(d, clinicId, id, patch, fault);
      InStep(ReplaceById(cache, ProfessionalId, id, row.value), d'.professionals, InClinic(clinicId))
  {
    var hit := AppointmentsApi.ProfessionalIn(id, clinicId);
    var hits := Filter(d.professionals, hit);
    assert hits == [hits[0]];
    ReplaceIsUpdate(cache, d.professionals, InClinic(clinicId), ProfessionalId, id, hit, Merger(patch), hits[0]);
    UpdateKeepsInStep(cache, d.professionals, InClinic(clinicId), hit, Merger(patch));
  }

  lemma DeleteKeepsListInStep(cache: seq<Professional>, d: Db, clinicId: Id, id: Id)
    requires InStep(cache, d.professionals, InClinic(clinicId))
    ensures InStep(RemoveById(cache, ProfessionalId, id), DeleteSpec(d, clinicId, id, false).value.professionals,
                   InClinic(clinicId))
  {
    RemoveKeepsInStep(cache, d.professionals, InClinic(clinicId),
                      NotId(ProfessionalId, id), Not(AppointmentsApi.ProfessionalIn(id, clinicId)));
  }
}

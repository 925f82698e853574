/**
 * The `useClinic` hook: the signed-in user's clinic, found through `user_clinics`, and the
 * bootstrap that creates a clinic and links the user to it as `admin`, in two separate
 * inserts with no compensation. Also what the hook exports, which is what the other hooks
 * read their clinic from.
 */
module UseClinic {
  import opened Wrappers
  import opened Records
  import opened Seqs
  import opened Store
  import opened Client

  /** The role text the bootstrap writes into `user_clinics`. */
  const LinkRole: string := "admin"

  /**
   * What the store decides during `createClinic`: the id it gives the new clinic, and
   * whether each of the two inserts fails.
   */
  datatype CreateEnv = CreateEnv(clinicId: Id, clinicFault: bool, linkFault: bool)

  function LinkOf(userId: Id): UserClinic -> bool
  {
    (l: UserClinic) => l.userId == userId
  }

  function ClinicIdIs(id: Id): Clinic -> bool
  {
    (c: Clinic) => c.id == id
  }

  /**
   * What the fetch finds: the embedded clinic of the user's one `user_clinics` row. `None`
   * when there is no user, when the query fails (`otherError`), when `.single()` finds no
   * row or several (code PGRST116), or when the embedded clinic is missing.
   */
  function LinkedClinic(d: Db, user: Option<Id>, otherError: bool): Option<Clinic>
  {
    if user.None? || otherError then None
    else
      var links := Filter(d.userClinics, LinkOf(user.value));
      if |links| != 1 then None
      else Find(d.clinics, ClinicIdIs(links[0].clinicId))
  }

  /**
   * `createClinic`: the store after it and the clinic returned (`None` for the `null`
   * return). The clinic insert and the link insert are separate; nothing undoes the first
   * when the second fails.
   */
  function CreateSpec(d: Db, user: Option<Id>, name: string, address: string, env: CreateEnv): (Db, Option<Clinic>)
  {
    if user.None? then (d, None)
    else if env.clinicFault || IdTaken(d.clinics, ClinicId, env.clinicId) then (d, None)
    else
      var c := Clinic(env.clinicId, name, address);
      var withClinic := d.(clinics := d.clinics + [c]);
      if env.linkFault then (withClinic, None)
      else (withClinic.(userClinics := d.userClinics + [UserClinic(user.value, c.id, LinkRole)]), Some(c))
  }

  class ClinicHook {
    var clinic: Option<Clinic>
    var loading: bool

    constructor()
      ensures clinic == None && loading
    {
      clinic := None;
      loading := true;
    }

    /**
     * `fetchUserClinic`: sets `clinic` only when the user's one link row embeds a clinic,
     * keeps it otherwise (no row, several rows, any other error), and always clears `loading`.
     */
    method FetchUserClinic(db: Database, user: Option<Id>, otherError: bool)
      modifies this
      ensures !loading
      ensures clinic == match LinkedClinic(db.Snapshot(), user, otherError)
                        case Some(c) => Some(c)
                        case None => old(clinic)
    {
      var found := LinkedClinic(db.Snapshot(), user, otherError);
      if found.Some? {
        clinic := found;
      }
      loading := false;
    }

    /** `createClinic`: on success `clinic` becomes the new clinic, which is returned; otherwise `null`. */
    method CreateClinic(db: Database, user: Option<Id>, name: string, address: string, env: CreateEnv)
      returns (r: Option<Clinic>)
      modifies this, db
      ensures loading == old(loading)
      ensures var (d, created) := CreateSpec(old(db.Snapshot()), user, name, address, env);
        && db.Snapshot() == d && r == created
        && clinic == if created.Some? then created else old(clinic)
    {
      if user.None? {
        return None;
      }
      if env.clinicFault || IdTaken(db.clinics, ClinicId, env.clinicId) {
        return None;
      }
      var c := Clinic(env.clinicId, name, address);
      db.clinics := db.clinics + [c];
      if env.linkFault {
        return None;
      }
      db.userClinics := db.userClinics + [UserClinic(user.value, c.id, LinkRole)];
      clinic := Some(c);
      r := Some(c);
    }
  }

  /* ---------- what the hook exports ---------- */

  /** The state behind the object the hook returns. */
  datatype Exports = Exports(clinic: Option<Clinic>, loading: bool)

  /** A value read out of the returned object. */
  datatype ExportValue = ClinicValue(c: Option<Clinic>) | LoadingValue(b: bool) | FunctionValue(name: string)

  /** `useClinic()[key]`: the object has the keys `clinic`, `loading`, `createClinic` and `refetch`. */
  function Exported(e: Exports, key: string): Option<ExportValue>
  {
    match key
    case "clinic" => Some(ClinicValue(e.clinic))
    case "loading" => Some(LoadingValue(e.loading))
    case "createClinic" => Some(FunctionValue("createClinic"))
    case "refetch" => Some(FunctionValue("fetchUserClinic"))
    case _ => None
  }

  /** Destructuring one key as a clinic: `undefined` (here `None`) when the key is absent. */
  function ClinicUnder(e: Exports, key: string): Option<Clinic>
  {
    match Exported(e, key)
    case Some(ClinicValue(c)) => c
    case _ => None
  }

  /** `const { currentClinic } = useClinic()`, as the other hooks read their clinic. */
  function CurrentClinicAsWritten(e: Exports): Option<Clinic>
  {
    ClinicUnder(e, "currentClinic")
  }

  /** The clinic the other hooks are evidently meant to read: the exported `clinic`. */
  function CurrentClinic(e: Exports): Option<Clinic>
  {
    ClinicUnder(e, "clinic")
  }

  /* ---------- what the hook promises ---------- */

  /** Without a signed-in user nothing is written and `null` is returned. */
  lemma CreateWithoutUserWritesNothing(d: Db, name: string, address: string, env: CreateEnv)
    ensures CreateSpec(d, None, name, address, env) == (d, None)
  {
  }

  /**
   * A successful bootstrap adds exactly the clinic and then the link (user, new clinic,
   * `admin`), and returns the clinic; a refused clinic insert writes nothing.
   */
  lemma CreateInsertsClinicThenLink(d: Db, user: Option<Id>, name: string, address: string, env: CreateEnv)
    ensures var (d', created) := CreateSpec(d, user, name, address, env);
      && (created.Some? <==> user.Some? && !env.clinicFault && !IdTaken(d.clinics, ClinicId, env.clinicId)
                             && !env.linkFault)
      && (created.Some? ==> && created.value == Clinic(env.clinicId, name, address)
                            && d' == d.(clinics := d.clinics + [created.value],
                                        userClinics := d.userClinics + [UserClinic(user.value, env.clinicId, LinkRole)]))
      && (user.None? || env.clinicFault || IdTaken(d.clinics, ClinicId, env.clinicId) ==> d' == d)
  {
  }

  /** When the link insert fails the new clinic stays behind with no link row written, and `null` is returned. */
  lemma LinkFailureLeavesOrphanClinic(d: Db, userId: Id, name: string, address: string, env: CreateEnv)
    requires !env.clinicFault && !IdTaken(d.clinics, ClinicId, env.clinicId) && env.linkFault
    ensures var (d', created) := CreateSpec(d, Some(userId), name, address, env);
      && created.None?
      && d'.clinics == d.clinics + [Clinic(env.clinicId, name, address)]
      && d'.userClinics == d.userClinics
  {
  }

  /** The fetch only ever finds a stored clinic that one of the user's link rows names. */
  lemma FetchFindsOnlyLinkedClinic(d: Db, user: Option<Id>, otherError: bool)
    requires LinkedClinic(d, user, otherError).Some?
    ensures var c := LinkedClinic(d, user, otherError).value;
      c in d.clinics && exists l :: l in d.userClinics && l.userId == user.value && l.clinicId == c.id
  {
    var links := Filter(d.userClinics, LinkOf(user.value));
    assert links[0] in links;
  }

  /** A user linked to two clinics gets none from the fetch (`.single()` refuses), so `clinic` is kept. */
  lemma TwoLinksFindNothing(d: Db, userId: Id, i: int, j: int)
    requires 0 <= i < j < |d.userClinics|
    requires d.userClinics[i].userId == userId && d.userClinics[j].userId == userId
    ensures LinkedClinic(d, Some(userId), false) == None
  {
    FilterTwo(d.userClinics, LinkOf(userId), i, j);
  }

  /** A user with no link who bootstraps a clinic finds that clinic on the next fetch. */
  lemma FetchAfterCreateFindsIt(d: Db, userId: Id, name: string, address: string, env: CreateEnv)
    requires forall l :: l in d.userClinics ==> l.userId != userId
    requires CreateSpec(d, Some(userId), name, address, env).1.Some?
    ensures var (d', created) := CreateSpec(d, Some(userId), name, address, env);
      LinkedClinic(d', Some(userId), false) == created
  {
    var c := Clinic(env.clinicId, name, address);
    var link := UserClinic(userId, c.id, LinkRole);
    FilterNone(d.userClinics, LinkOf(userId));
    FilterConcat(d.userClinics, [link], LinkOf(userId));
    assert Filter([link], LinkOf(userId)) == [link] by {
      assert [link][1..] == [];
    }
    var found := Find(d.clinics + [c], ClinicIdIs(c.id));
    assert (d.clinics + [c])[|d.clinics|] == c;
    var k :| 0 <= k < |d.clinics + [c]| && (d.clinics + [c])[k] == found.value && ClinicIdIs(c.id)((d.clinics + [c])[k]);
    assert k == |d.clinics|;
  }

  /** As written, the other hooks destructure a key `useClinic` does not export: they never see a clinic. */
  lemma AsWrittenNoHookIsReady(e: Exports, user: Option<Id>)
    ensures CurrentClinicAsWritten(e) == None
    ensures !Ready(user, CurrentClinicAsWritten(e))
  {
  }

  /** Reading the exported `clinic` instead, the hooks see the loaded clinic and run once there is a user. */
  lemma CorrectedHooksSeeTheClinic(e: Exports, user: Option<Id>)
    ensures CurrentClinic(e) == e.clinic
    ensures Ready(user, CurrentClinic(e)) <==> user.Some? && e.clinic.Some?
  {
  }
}

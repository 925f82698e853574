/**
 * The `useUserRoles` hook: the clinic's role rows joined with their users' profiles, the
 * signed-in user's own role, and the operations that add a member (through the
 * `create-clinic-user` function, or by claiming the admin role for oneself), change a
 * role row and remove one.
 */
module UseUserRoles {
  import opened Wrappers
  import opened Records
  import opened Seqs
  import opened Store
  import opened Edge
  import opened Client
  import CreateClinicUser

  /** The e-mail value that asks for self-promotion instead of a new account. */
  const SelfPromotionEmail: string := "current-user"

  /** A role row as the list shows it, with the first matching profile or none. */
  datatype RoleEntry = RoleEntry(row: UserRole, profile: Option<Profile>)

  /** `CreateUserRoleData`; `professionalId` is `None` when absent. */
  datatype NewMember = NewMember(
    email: string, password: string, fullName: string, role: Role, professionalId: Option<Id>)

  /** `Partial<CreateUserRoleData>`: the keys an update sends, `None` when absent. */
  datatype Patch = Patch(
    email: Option<string>, password: Option<string>, fullName: Option<string>,
    role: Option<Role>, professionalId: Option<Id>)

  /** The two reads of a fetch and whether each fails. */
  datatype FetchEnv = FetchEnv(rolesFault: bool, profilesFault: bool)

  /** What the `assign_self_as_admin` procedure answers: an error, or whether the role was granted. */
  datatype RpcOutcome = RpcFailed | RpcAnswered(granted: bool)

  /**
   * What the services decide during `createUserRole`: the procedure's answer, whether the
   * function call fails before reaching the function, the session credential sent along,
   * the provisioning outcomes, and the reads of the refetch.
   */
  datatype CreateEnv = CreateEnv(
    rpc: RpcOutcome, invokeFault: bool, session: Credential,
    provision: CreateClinicUser.ProvisionEnv, refetch: FetchEnv)

  function EntryId(e: RoleEntry): Id
  {
    e.row.id
  }

  function InClinic(clinicId: Id): UserRole -> bool
  {
    (r: UserRole) => r.clinicId == clinicId
  }

  function UserIds(rows: seq<UserRole>): seq<Id>
  {
    Map(rows, (r: UserRole) => r.userId)
  }

  /** `.in('user_id', userIds)` on profiles; a failed read is only warned about and yields no profiles. */
  function FetchedProfiles(d: Db, rows: seq<UserRole>, fault: bool): seq<Profile>
  {
    if fault then []
    else
      var ids := UserIds(rows);
      Filter(d.profiles, (p: Profile) => p.userId in ids)
  }

  /** Each role row with the first profile of the same user, in the rows' order. */
  function Join(rows: seq<UserRole>, profiles: seq<Profile>): seq<RoleEntry>
  {
    Map(rows, (r: UserRole) => RoleEntry(r, Find(profiles, CreateClinicUser.ProfileOf(r.userId))))
  }

  function OwnEntry(userId: Id): RoleEntry -> bool
  {
    (e: RoleEntry) => e.row.userId == userId
  }

  /** `currentRole?.role || null`: the role of the first entry of the signed-in user. */
  function CurrentRole(entries: seq<RoleEntry>, userId: Id): Option<Role>
  {
    match Find(entries, OwnEntry(userId))
    case Some(e) => Some(e.row.role)
    case None => None
  }

  /** What a fetch loads: the entries and the current role, or `None` when the role read fails. */
  function Load(d: Db, userId: Id, clinicId: Id, env: FetchEnv): Option<(seq<RoleEntry>, Option<Role>)>
  {
    if env.rolesFault then None
    else
      var rows := Filter(d.userRoles, InClinic(clinicId));
      if rows == [] then Some(([], None))
      else
        var entries := Join(rows, FetchedProfiles(d, rows, env.profilesFault));
        Some((entries, CurrentRole(entries, userId)))
  }

  /** The list and current role after a fetch: what it loads, or the old ones when it fails. */
  function Refreshed(entries: seq<RoleEntry>, current: Option<Role>, d: Db, userId: Id, clinicId: Id,
                     env: FetchEnv): (seq<RoleEntry>, Option<Role>)
  {
    match Load(d, userId, clinicId, env)
    case Some(loaded) => loaded
    case None => (entries, current)
  }

  function IsClinicAdmin(current: Option<Role>): bool
  {
    current == Some(ClinicAdminRole)
  }

  function IsProfessional(current: Option<Role>): bool
  {
    current == Some(ProfessionalRole)
  }

  function IsReceptionist(current: Option<Role>): bool
  {
    current == Some(ReceptionistRole)
  }

  /** The request `functions.invoke('create-clinic-user', ...)` sends. */
  function ProvisionRequest(session: Credential, clinicId: Id, data: NewMember): CreateClinicUser.Request
  {
    CreateClinicUser.Request(Post, session,
      CreateClinicUser.Body(data.email, data.password, data.fullName, Some(clinicId),
                            RoleName(data.role), data.professionalId))
  }

  /** `user_roles` has no `email`, `password` or `full_name` column: the store refuses such an update. */
  predicate HasForeignColumns(u: Patch)
  {
    u.email.Some? || u.password.Some? || u.fullName.Some?
  }

  function ApplyPatch(r: UserRole, u: Patch): UserRole
  {
    r.(role := u.role.GetOr(r.role), professionalId := if u.professionalId.Some? then u.professionalId else r.professionalId)
  }

  function Patcher(u: Patch): UserRole -> UserRole
  {
    (r: UserRole) => ApplyPatch(r, u)
  }

  function RowIdIs(id: Id): UserRole -> bool
  {
    (r: UserRole) => r.id == id
  }

  /**
   * A patch with no field. The store runs no UPDATE for `.update({})` and returns no row, so
   * the following `.single()` fails.
   */
  predicate NothingToUpdate(u: Patch)
  {
    u == Patch(None, None, None, None, None)
  }

  /** `.update(patch).eq('id', id).select().single()`, with no clinic condition. */
  function UpdateSpec(d: Db, id: Id, patch: Patch, fault: bool): (Db, Option<UserRole>)
  {
    var hits := Filter(d.userRoles, RowIdIs(id));
    if fault || HasForeignColumns(patch) || NothingToUpdate(patch) || |hits| != 1 then (d, None)
    else
      (d.(userRoles := MapWhere(d.userRoles, RowIdIs(id), Patcher(patch))), Some(ApplyPatch(hits[0], patch)))
  }

  class UserRolesHook {
    var userRoles: seq<RoleEntry>
    var currentUserRole: Option<Role>
    var loading: bool

    constructor()
      ensures userRoles == [] && currentUserRole == None && loading
    {
      userRoles := [];
      currentUserRole := None;
      loading := true;
    }

    /**
     * `fetchUserRoles`: without a user or clinic it only clears `loading`; otherwise it loads
     * the clinic's rows, joins the profiles and picks the current role (keeping both when the
     * role read fails), and clears `loading`.
     */
    method Fetch(db: Database, user: Option<Id>, clinic: Option<Clinic>, env: FetchEnv)
      modifies this
      ensures !loading
      ensures !Ready(user, clinic) ==> userRoles == old(userRoles) && currentUserRole == old(currentUserRole)
      ensures Ready(user, clinic) ==>
        (userRoles, currentUserRole)
          == Refreshed(old(userRoles), old(currentUserRole), db.Snapshot(), user.value, clinic.value.id, env)
    {
      if !Ready(user, clinic) {
        loading := false;
        return;
      }
      loading := true;
      if !env.rolesFault {
        var rows := Filter(db.userRoles, InClinic(clinic.value.id));
        if rows == [] {
          userRoles := [];
          currentUserRole := None;
        } else {
          var profiles := FetchedProfiles(db.Snapshot(), rows, env.profilesFault);
          userRoles := Join(rows, profiles);
          currentUserRole := CurrentRole(userRoles, user.value);
        }
      }
      loading := false;
    }

    /**
     * `createUserRole`: a no-op without a user or clinic. The self-promotion e-mail calls only
     * the procedure (and refetches when it grants the role); any other e-mail calls the
     * provisioning function with the session's credential, rethrows a non-2xx answer, and
     * otherwise refetches and returns the new user.
     */
    method Create(db: Database, user: Option<Id>, clinic: Option<Clinic>, data: NewMember, env: CreateEnv)
      returns (r: Outcome<Option<CreateClinicUser.Payload>>)
      modifies this, db
      ensures !Ready(user, clinic) ==> && r == Skipped && db.Snapshot() == old(db.Snapshot())
                                       && userRoles == old(userRoles) && currentUserRole == old(currentUserRole)
                                       && loading == old(loading)
      ensures Ready(user, clinic) && data.email == SelfPromotionEmail ==>
        && db.Snapshot() == old(db.Snapshot())
        && (env.rpc.RpcFailed? ==> r == Threw)
        && (env.rpc.RpcAnswered? ==> r == Returned(None))
        && (env.rpc == RpcAnswered(true) ==>
              && !loading
              && (userRoles, currentUserRole)
                 == Refreshed(old(userRoles), old(currentUserRole), db.Snapshot(), user.value, clinic.value.id,
                              env.refetch))
        && (env.rpc != RpcAnswered(true) ==> && userRoles == old(userRoles)
                                             && currentUserRole == old(currentUserRole) && loading == old(loading))
      ensures Ready(user, clinic) && data.email != SelfPromotionEmail && env.invokeFault ==>
        && r == Threw && db.Snapshot() == old(db.Snapshot())
        && userRoles == old(userRoles) && currentUserRole == old(currentUserRole) && loading == old(loading)
      ensures Ready(user, clinic) && data.email != SelfPromotionEmail && !env.invokeFault ==>
        var (d, resp) := CreateClinicUser.Spec(old(db.Snapshot()),
                                               ProvisionRequest(env.session, clinic.value.id, data), env.provision);
        && db.Snapshot() == d
        && (200 <= resp.status < 300 ==> && r == Returned(resp.data) && !loading
                                         && (userRoles, currentUserRole)
                                            == Refreshed(old(userRoles), old(currentUserRole), d,
                                                         user.value, clinic.value.id, env.refetch))
        && (!(200 <= resp.status < 300) ==> && r == Threw && userRoles == old(userRoles)
                                            && currentUserRole == old(currentUserRole) && loading == old(loading))
    {
      if !Ready(user, clinic) {
        return Skipped;
      }
      if data.email == SelfPromotionEmail {
        match env.rpc {
          case RpcFailed =>
            r := Threw;
          case RpcAnswered(granted) =>
            if granted {
              Fetch(db, user, clinic, env.refetch);
            }
            r := Returned(None);
        }
        return;
      }
      if env.invokeFault {
        return Threw;
      }
      var resp := CreateClinicUser.Handle(db, ProvisionRequest(env.session, clinic.value.id, data), env.provision);
      if !(200 <= resp.status < 300) {
        return Threw;
      }
      Fetch(db, user, clinic, env.refetch);
      r := Returned(resp.data);
    }

    /**
     * `updateUserRole`: no guard and no clinic condition; on success the entries with that id
     * are replaced by the row read back, which carries no profile, and the current role is
     * left as it was.
     */
    method Update(db: Database, id: Id, patch: Patch, fault: bool) returns (r: Outcome<UserRole>)
      modifies this, db
      ensures loading == old(loading) && currentUserRole == old(currentUserRole)
      ensures var (d, row) := UpdateSpec(old(db.Snapshot()), id, patch, fault);
        && db.Snapshot() == d
        && (row.Some? ==> r == Returned(row.value)
                          && userRoles == ReplaceById(old(userRoles), EntryId, id, RoleEntry(row.value, None)))
        && (row.None? ==> r == Threw && userRoles == old(userRoles))
    {
      var hits := Filter(db.userRoles, RowIdIs(id));
      if fault || HasForeignColumns(patch) || NothingToUpdate(patch) || |hits| != 1 {
        return Threw;
      }
      var updated := ApplyPatch(hits[0], patch);
      db.userRoles := MapWhere(db.userRoles, RowIdIs(id), Patcher(patch));
      userRoles := ReplaceById(userRoles, EntryId, id, RoleEntry(updated, None));
      r := Returned(updated);
    }

    /** `deleteUserRole`: no guard and no clinic condition; on success the list drops that id. */
    method Delete(db: Database, id: Id, fault: bool) returns (r: Outcome<()>)
      modifies this, db
      ensures loading == old(loading) && currentUserRole == old(currentUserRole)
      ensures fault ==> r == Threw && db.Snapshot() == old(db.Snapshot()) && userRoles == old(userRoles)
      ensures !fault ==> && r == Returned(())
                         && db.Snapshot() == old(db.Snapshot()).(userRoles := RemoveById(old(db.userRoles), UserRoleId, id))
                         && userRoles == RemoveById(old(userRoles), EntryId, id)
    {
      if fault {
        return Threw;
      }
      db.userRoles := RemoveById(db.userRoles, UserRoleId, id);
      userRoles := RemoveById(userRoles, EntryId, id);
      r := Returned(());
    }
  }

  /* ---------- what the hook promises ---------- */

  /** A clinic with no role rows loads an empty list and no current role, whatever the profiles. */
  lemma NoRowsNoRole(d: Db, userId: Id, clinicId: Id, env: FetchEnv)
    requires !env.rolesFault
    requires forall r :: r in d.userRoles ==> r.clinicId != clinicId
    ensures Load(d, userId, clinicId, env) == Some(([], None))
  {
    FilterNone(d.userRoles, InClinic(clinicId));
  }

  /**
   * The join keeps the rows and their order, and gives each the first loaded profile of the
   * same user, or none when no loaded profile is that user's.
   */
  lemma JoinKeepsRowsInOrder(rows: seq<UserRole>, profiles: seq<Profile>)
    ensures |Join(rows, profiles)| == |rows|
    ensures forall i :: 0 <= i < |rows| ==> Join(rows, profiles)[i].row == rows[i]
    ensures forall i :: 0 <= i < |rows| ==>
      var p := Join(rows, profiles)[i].profile;
      && (p.None? <==> forall k :: 0 <= k < |profiles| ==> profiles[k].userId != rows[i].userId)
      && (p.Some? ==> exists k :: && 0 <= k < |profiles| && profiles[k] == p.value
                                  && p.value.userId == rows[i].userId
                                  && forall j :: 0 <= j < k ==> profiles[j].userId != rows[i].userId)
  {
  }

  /** A failed profile read still loads every role row, each without a profile. */
  lemma ProfileFaultOnlyDropsProfiles(d: Db, userId: Id, clinicId: Id)
    ensures var loaded := Load(d, userId, clinicId, FetchEnv(false, true));
      && loaded.Some?
      && |loaded.value.0| == |Filter(d.userRoles, InClinic(clinicId))|
      && forall i :: 0 <= i < |loaded.value.0| ==>
           loaded.value.0[i] == RoleEntry(Filter(d.userRoles, InClinic(clinicId))[i], None)
  {
  }

  /**
   * The current role is the role of the first entry of the signed-in user, and there is
   * none exactly when no entry is that user's.
   */
  lemma CurrentRoleIsFirstOwnEntry(entries: seq<RoleEntry>, userId: Id)
    ensures CurrentRole(entries, userId).None? <==> forall i :: 0 <= i < |entries| ==> entries[i].row.userId != userId
    ensures CurrentRole(entries, userId).Some? ==>
      exists i :: && 0 <= i < |entries| && entries[i].row.userId == userId
                  && CurrentRole(entries, userId).value == entries[i].row.role
                  && forall j :: 0 <= j < i ==> entries[j].row.userId != userId
  {
  }

  /** A loaded current role is a role the signed-in user holds in that clinic. */
  lemma LoadedRoleIsHeld(d: Db, userId: Id, clinicId: Id, env: FetchEnv)
    requires Load(d, userId, clinicId, env).Some? && Load(d, userId, clinicId, env).value.1.Some?
    ensures exists r :: && r in d.userRoles && r.userId == userId && r.clinicId == clinicId
                        && r.role == Load(d, userId, clinicId, env).value.1.value
  {
    var rows := Filter(d.userRoles, InClinic(clinicId));
    var entries := Join(rows, FetchedProfiles(d, rows, env.profilesFault));
    CurrentRoleIsFirstOwnEntry(entries, userId);
    var i :| 0 <= i < |entries| && entries[i].row.userId == userId
             && CurrentRole(entries, userId).value == entries[i].row.role;
    assert rows[i] in rows;
  }

  /** Each role check holds exactly for its role, so at most one holds. */
  lemma RoleChecksExclusive(current: Option<Role>)
    ensures IsClinicAdmin(current) <==> current == Some(ClinicAdminRole)
    ensures IsProfessional(current) <==> current == Some(ProfessionalRole)
    ensures IsReceptionist(current) <==> current == Some(ReceptionistRole)
    ensures !(IsClinicAdmin(current) && IsProfessional(current))
    ensures !(IsClinicAdmin(current) && IsReceptionist(current))
    ensures !(IsProfessional(current) && IsReceptionist(current))
    ensures current.None? ==> !IsClinicAdmin(current) && !IsProfessional(current) && !IsReceptionist(current)
  {
  }

  /**
   * The provisioning request carries the current clinic and the chosen role's enum name, so
   * the function's role parse never refuses it.
   */
  lemma ProvisionRequestNamesAValidRole(session: Credential, clinicId: Id, data: NewMember)
    ensures ProvisionRequest(session, clinicId, data).body.clinicId == Some(clinicId)
    ensures ParseRole(ProvisionRequest(session, clinicId, data).body.role) == Some(data.role)
  {
    RoleNameRoundTrip(data.role);
  }

  /**
   * A successful update writes only the row with that id and only its role and
   * professional; an update carrying account fields, or finding no single row, is refused.
   */
  lemma UpdateChangesOnlyThatRow(d: Db, id: Id, patch: Patch, fault: bool)
    ensures var (d', row) := UpdateSpec(d, id, patch, fault);
      && (row.Some? <==> !fault && !HasForeignColumns(patch) && !NothingToUpdate(patch) && |Filter(d.userRoles, RowIdIs(id))| == 1)
      && (row.None? ==> d' == d)
      && (row.Some? ==> && d' == d.(userRoles := d'.userRoles)
                        && |d'.userRoles| == |d.userRoles|
                        && row.value.id == id
                        && row.value.userId == Filter(d.userRoles, RowIdIs(id))[0].userId
                        && row.value.clinicId == Filter(d.userRoles, RowIdIs(id))[0].clinicId
                        && forall i :: 0 <= i < |d.userRoles| ==>
                             d'.userRoles[i] == if d.userRoles[i].id == id then row.value else d.userRoles[i])
  {
    var hits := Filter(d.userRoles, RowIdIs(id));
    if !fault && !HasForeignColumns(patch) && !NothingToUpdate(patch) && |hits| == 1 {
      forall i | 0 <= i < |d.userRoles| && d.userRoles[i].id == id
        ensures d.userRoles[i] == hits[0]
      {
        assert d.userRoles[i] in hits;
      }
    }
  }
}

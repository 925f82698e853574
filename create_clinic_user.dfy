/**
 * The `create-clinic-user` edge function: a clinic admin provisions a new account for a
 * staff member and gives it a role in the clinic. The account and the role row are two
 * separate writes; when the second fails, the first is undone by deleting the account.
 * The authentication service's `createUser`/`deleteUser` are modelled as writes to the
 * `accounts` table whose outcome the environment decides.
 */
module CreateClinicUser {
  import opened Wrappers
  import opened Records
  import opened Seqs
  import opened Store
  import opened Edge

  /** The JSON body; `clinicId` is `None` when absent, `role` is the text sent. */
  datatype Body = Body(
    email: string, password: string, fullName: string,
    clinicId: Option<Id>, role: string, professionalId: Option<Id>)

  datatype Request = Request(verb: Method, cred: Credential, body: Body)

  /** What `auth.admin.createUser` answers: an error, or the id of the new account. */
  datatype AccountOutcome = AccountRefused | AccountIssued(userId: Id)

  /**
   * The outcomes the services decide: account creation, the id of the role row, whether
   * the role insert fails for a reason of the store's own, and whether the cleanup fails.
   */
  datatype ProvisionEnv = ProvisionEnv(
    account: AccountOutcome, roleRowId: Id, roleInsertFault: bool, cleanupFails: bool)

  datatype Payload = NewUser(id: Id, email: string, profile: Option<Profile>)

  function AdminRowOf(userId: Id, clinicId: Id): UserRole -> bool
  {
    (r: UserRole) => r.userId == userId && r.clinicId == clinicId
  }

  /**
   * The caller's role check: `user_roles` for (caller, requested clinic) with `.single()`
   * must find one row, and its role must be `clinic_admin`.
   */
  predicate IsAdminOf(d: Db, userId: Id, clinicId: Option<Id>)
  {
    clinicId.Some? &&
    var rows := Filter(d.userRoles, AdminRowOf(userId, clinicId.value));
    |rows| == 1 && rows[0].role == ClinicAdminRole
  }

  function ProfileOf(userId: Id): Profile -> bool
  {
    (p: Profile) => p.userId == userId
  }

  /** The profile read back with `.single()`: present only when exactly one row matches. */
  function FetchProfile(d: Db, userId: Id): Option<Profile>
  {
    var rows := Filter(d.profiles, ProfileOf(userId));
    if |rows| == 1 then Some(rows[0]) else None
  }

  /** The role insert is refused for a role outside the enum, a taken id, or a store failure. */
  predicate RoleInsertFails(d: Db, b: Body, env: ProvisionEnv)
  {
    env.roleInsertFault || ParseRole(b.role).None? || IdTaken(d.userRoles, UserRoleId, env.roleRowId)
  }

  function Fail(d: Db, status: int): (Db, Response<Payload>)
  {
    (d, Response(status, None))
  }

  /** One request, from the store before it to the store after it and the response. */
  function Spec(d: Db, req: Request, env: ProvisionEnv): (out: (Db, Response<Payload>))
    ensures out.0.clinics == d.clinics && out.0.patients == d.patients
    ensures out.0.appointments == d.appointments && out.0.apiTokens == d.apiTokens
    ensures out.1.status in {200, 400, 401, 403}
    ensures out.1.status != 200 && out.1.status != 400 ==> out.0 == d
  {
    if req.verb == Options then (d, Response(200, None))
    else if !req.cred.Verified? then Fail(d, 401)
    else
      var caller := req.cred.userId;
      var b := req.body;
      if !IsAdminOf(d, caller, b.clinicId) then Fail(d, 403)
      else match env.account
        case AccountRefused => Fail(d, 400)
        case AccountIssued(newId) =>
          if IdTaken(d.accounts, AccountId, newId) then Fail(d, 400)
          else
            var withAccount := d.(accounts := d.accounts + [Account(newId, b.email, b.fullName, caller)]);
            if RoleInsertFails(d, b, env) then
              if env.cleanupFails then Fail(withAccount, 400)
              else Fail(withAccount.(accounts := RemoveById(withAccount.accounts, AccountId, newId)), 400)
            else
              var role := UserRole(env.roleRowId, newId, b.clinicId.value, ParseRole(b.role).value, b.professionalId);
              var after := withAccount.(userRoles := d.userRoles + [role]);
              (after, Response(200, Some(NewUser(newId, b.email, FetchProfile(after, newId)))))
  }

  /** The handler's steps: check the caller, create the account, insert the role, undo on failure. */
  method Handle(db: Database, req: Request, env: ProvisionEnv) returns (resp: Response<Payload>)
    modifies db
    ensures (db.Snapshot(), resp) == Spec(old(db.Snapshot()), req, env)
  {
    if req.verb == Options {
      return Response(200, None);
    }
    if !req.cred.Verified? {
      return Response(401, None);
    }
    var caller := req.cred.userId;
    var b := req.body;
    if !IsAdminOf(db.Snapshot(), caller, b.clinicId) {
      return Response(403, None);
    }
    if env.account.AccountRefused? || IdTaken(db.accounts, AccountId, env.account.userId) {
      return Response(400, None);
    }
    var newId := env.account.userId;
    db.accounts := db.accounts + [Account(newId, b.email, b.fullName, caller)];
    if RoleInsertFails(db.Snapshot(), b, env) {
      if !env.cleanupFails {
        db.accounts := RemoveById(db.accounts, AccountId, newId);
      }
      return Response(400, None);
    }
    var role := UserRole(env.roleRowId, newId, b.clinicId.value, ParseRole(b.role).value, b.professionalId);
    db.userRoles := db.userRoles + [role];
    var profile := FetchProfile(db.Snapshot(), newId);
    resp := Response(200, Some(NewUser(newId, b.email, profile)));
  }

  /* ---------- what the endpoint promises ---------- */

  /** No verified caller: 401, and nothing is created. */
  lemma UnauthenticatedCreatesNothing(d: Db, req: Request, env: ProvisionEnv)
    requires req.verb != Options && !req.cred.Verified?
    ensures Spec(d, req, env) == (d, Response(401, None))
  {
  }

  /** A caller who is not admin of the requested clinic gets 403 and no account is created. */
  lemma NonAdminCreatesNothing(d: Db, req: Request, env: ProvisionEnv)
    requires req.verb != Options && req.cred.Verified?
    requires req.body.clinicId.Some?
    requires forall i :: 0 <= i < |d.userRoles| && d.userRoles[i].userId == req.cred.userId
                         && d.userRoles[i].clinicId == req.body.clinicId.value
                         ==> d.userRoles[i].role != ClinicAdminRole
    ensures Spec(d, req, env) == (d, Response(403, None))
  {
    var rows := Filter(d.userRoles, AdminRowOf(req.cred.userId, req.body.clinicId.value));
    if |rows| == 1 {
      assert rows[0] in d.userRoles;
    }
  }

  /** Account creation refused: 400, and no role row is written. */
  lemma AccountFailureWritesNoRole(d: Db, req: Request, env: ProvisionEnv)
    requires req.verb != Options && env.account.AccountRefused?
    ensures Spec(d, req, env).0 == d
    ensures Spec(d, req, env).1.status != 200
  {
  }

  /**
   * When the role insert fails the new account is deleted again and the response is 400;
   * if the deletion succeeds the store is exactly as before, and if it fails the new
   * account is the only thing left behind.
   */
  lemma RoleFailureCompensates(d: Db, req: Request, env: ProvisionEnv)
    requires req.verb != Options && req.cred.Verified? && IsAdminOf(d, req.cred.userId, req.body.clinicId)
    requires env.account.AccountIssued? && !IdTaken(d.accounts, AccountId, env.account.userId)
    requires RoleInsertFails(d, req.body, env)
    ensures Spec(d, req, env).1 == Response(400, None)
    ensures !env.cleanupFails ==> Spec(d, req, env).0 == d
    ensures env.cleanupFails ==> Spec(d, req, env).0 == d.(accounts := d.accounts
              + [Account(env.account.userId, req.body.email, req.body.fullName, req.cred.userId)])
  {
    var acc := Account(env.account.userId, req.body.email, req.body.fullName, req.cred.userId);
    AppendThenRemove(d.accounts, AccountId, acc);
    forall x | x in d.accounts
      ensures AccountId(x) != acc.id
    {
      var k :| 0 <= k < |d.accounts| && d.accounts[k] == x;
    }
    RemoveAbsent(d.accounts, AccountId, acc.id);
  }

  /** A role text outside the enum makes the role insert fail, so no user is left provisioned. */
  lemma UnknownRoleProvisionsNobody(d: Db, req: Request, env: ProvisionEnv)
    requires req.verb != Options && ParseRole(req.body.role).None? && !env.cleanupFails
    ensures Spec(d, req, env).1.status != 200
    ensures Spec(d, req, env).0.userRoles == d.userRoles
    ensures Spec(d, req, env).0.accounts == d.accounts
  {
    if req.cred.Verified? && IsAdminOf(d, req.cred.userId, req.body.clinicId)
       && env.account.AccountIssued? && !IdTaken(d.accounts, AccountId, env.account.userId) {
      RoleFailureCompensates(d, req, env);
    }
  }

  /**
   * On success there is exactly one new account, created by the caller, and exactly one new
   * role row (new user, requested clinic, requested role, professional), and 200.
   */
  lemma SuccessAddsAccountAndRole(d: Db, req: Request, env: ProvisionEnv)
    requires Spec(d, req, env).1.status == 200 && req.verb != Options
    ensures req.body.clinicId.Some? && env.account.AccountIssued? && ParseRole(req.body.role).Some?
    ensures var d' := Spec(d, req, env).0;
      && d'.accounts == d.accounts + [Account(env.account.userId, req.body.email, req.body.fullName, req.cred.userId)]
      && d'.userRoles == d.userRoles + [UserRole(env.roleRowId, env.account.userId, req.body.clinicId.value,
                                                 ParseRole(req.body.role).value, req.body.professionalId)]
      && RoleName(d'.userRoles[|d.userRoles|].role) == req.body.role
      && d'.profiles == d.profiles
  {
  }
}

/**
 * What the edge functions share: the request method, the caller's credential as the
 * authentication service reports it, the (status, payload) response, and the rule that
 * resolves the caller's clinic from their `user_roles` row.
 */
module Edge {
  import opened Wrappers
  import opened Records
  import opened Seqs

  datatype Method = Get | Post | Put | Delete | Options | OtherMethod(name: string)

  /**
   * The Authorization header as `auth.getUser` resolves it: absent (or empty), present but
   * not accepted, or the id of the signed-in user.
   */
  datatype Credential = NoHeader | Unverified | Verified(userId: Id)

  /** A response: the HTTP status and, on success, its payload. */
  datatype Response<T> = Response(status: int, data: Option<T>)

  /**
   * What the store supplies to one request: the id it assigns to an inserted row, the
   * current time (for `created_at`), and whether the request's main query or write fails.
   */
  datatype Env = Env(newId: Id, now: int, fault: bool)

  /** Who the caller is and in which clinic, or the status that refuses them. */
  datatype Caller = Caller(userId: Id, clinicId: Id) | Denied(status: int)

  function UserIs(userId: Id): UserRole -> bool
  {
    (r: UserRole) => r.userId == userId
  }

  /** `from('user_roles').eq('user_id', userId)`. */
  function RolesOf(roles: seq<UserRole>, userId: Id): seq<UserRole>
  {
    Filter(roles, UserIs(userId))
  }

  /**
   * `auth.getUser` then `user_roles ... eq('user_id').single()`: 401 without a verified
   * user, 403 unless the user has exactly one role row; otherwise that row's clinic.
   */
  function ResolveClinic(roles: seq<UserRole>, cred: Credential): (r: Caller)
    ensures r.Denied? ==> r.status == 401 || r.status == 403
    ensures (r.Denied? && r.status == 401) <==> !cred.Verified?
    ensures r.Caller? <==> cred.Verified? && |RolesOf(roles, cred.userId)| == 1
    ensures r.Caller? ==> cred == Verified(r.userId)
    ensures r.Caller? ==>
      exists i :: 0 <= i < |roles| && roles[i].userId == r.userId && roles[i].clinicId == r.clinicId
  {
    match cred
    case NoHeader => Denied(401)
    case Unverified => Denied(401)
    case Verified(u) =>
      var rs := RolesOf(roles, u);
      if |rs| == 1 then Caller(u, rs[0].clinicId) else Denied(403)
  }

  /** A user whose only role row is row `i` acts in that row's clinic. */
  lemma ResolveSingleRow(roles: seq<UserRole>, i: int)
    requires 0 <= i < |roles|
    requires forall j :: 0 <= j < |roles| && j != i ==> roles[j].userId != roles[i].userId
    ensures ResolveClinic(roles, Verified(roles[i].userId)) == Caller(roles[i].userId, roles[i].clinicId)
  {
    FilterOne(roles, UserIs(roles[i].userId), i);
  }

  /** A user with two role rows (two clinics, or two roles in one) is refused with 403. */
  lemma ResolveTwoRows(roles: seq<UserRole>, i: int, j: int)
    requires 0 <= i < j < |roles| && roles[i].userId == roles[j].userId
    ensures ResolveClinic(roles, Verified(roles[i].userId)) == Denied(403)
  {
    FilterTwo(roles, UserIs(roles[i].userId), i, j);
  }

  function AdminIs(userId: Id): UserRole -> bool
  {
    (r: UserRole) => r.userId == userId && r.role == ClinicAdminRole
  }

  /**
   * The admin gate of the token endpoint: `user_roles ... eq('user_id').eq('role',
   * 'clinic_admin').single()`; 403 unless the user has exactly one admin row.
   */
  function ResolveAdminClinic(roles: seq<UserRole>, cred: Credential): (r: Caller)
    ensures r.Denied? ==> r.status == 401 || r.status == 403
    ensures (r.Denied? && r.status == 401) <==> !cred.Verified?
    ensures r.Caller? <==> cred.Verified? && |Filter(roles, AdminIs(cred.userId))| == 1
    ensures r.Caller? ==> cred == Verified(r.userId)
    ensures r.Caller? ==>
      exists i :: 0 <= i < |roles| && roles[i].userId == r.userId
                  && roles[i].clinicId == r.clinicId && roles[i].role == ClinicAdminRole
  {
    match cred
    case NoHeader => Denied(401)
    case Unverified => Denied(401)
    case Verified(u) =>
      var rs := Filter(roles, AdminIs(u));
      if |rs| == 1 then Caller(u, rs[0].clinicId) else Denied(403)
  }

  /** A user with no admin row (a receptionist, say) is refused with 403. */
  lemma NonAdminRefused(roles: seq<UserRole>, u: Id)
    requires forall i :: 0 <= i < |roles| && roles[i].userId == u ==> roles[i].role != ClinicAdminRole
    ensures ResolveAdminClinic(roles, Verified(u)) == Denied(403)
  {
    FilterNone(roles, AdminIs(u));
  }
}

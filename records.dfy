/**
 * The rows of the clinic database (one datatype per table) and the JavaScript value
 * conventions the handlers rely on. Timestamps are integer milliseconds; ids are strings.
 */
module Records {
  import opened Wrappers

  type Id = string

  /** The `user_role` enum of the database. */
  datatype Role = ClinicAdminRole | ProfessionalRole | ReceptionistRole

  function RoleName(r: Role): string
  {
    match r
    case ClinicAdminRole => "clinic_admin"
    case ProfessionalRole => "professional"
    case ReceptionistRole => "receptionist"
  }

  /** The enum's text form read back; any other text is not a role. */
  function ParseRole(s: string): (r: Option<Role>)
    ensures r.Some? ==> RoleName(r.value) == s
  {
    if s == "clinic_admin" then Some(ClinicAdminRole)
    else if s == "professional" then Some(ProfessionalRole)
    else if s == "receptionist" then Some(ReceptionistRole)
    else None
  }

  /** Every role has its own name, and reading the name back gives the role. */
  lemma RoleNameRoundTrip(r: Role)
    ensures ParseRole(RoleName(r)) == Some(r)
  {
  }

  datatype Clinic = Clinic(id: Id, name: string, address: string)

  datatype UserClinic = UserClinic(userId: Id, clinicId: Id, role: string)

  datatype UserRole = UserRole(id: Id, userId: Id, clinicId: Id, role: Role, professionalId: Option<Id>)

  datatype Professional = Professional(id: Id, clinicId: Id, name: string, specialty: string, color: string)

  datatype Patient = Patient(
    id: Id, clinicId: Id, name: string, cpf: string,
    email: Option<string>, phone: Option<string>, birthDate: Option<string>, notes: Option<string>,
    createdAt: int)

  datatype Appointment = Appointment(
    id: Id, clinicId: Id, patientId: Id, professionalId: Id, title: string,
    startTime: int, endTime: int, status: string, attendanceStatus: Option<string>)

  datatype ApiToken = ApiToken(
    id: Id, userId: Id, clinicId: Id, name: string, tokenHash: string,
    createdAt: int, lastUsedAt: Option<int>, expiresAt: Option<int>, isActive: bool)

  datatype Profile = Profile(userId: Id, fullName: string, createdBy: Option<Id>)

  /** An account of the authentication service (`auth.users`). */
  datatype Account = Account(id: Id, email: string, fullName: string, createdBy: Id)

  function ClinicId(c: Clinic): Id { c.id }
  function UserRoleId(r: UserRole): Id { r.id }
  function ProfessionalId(p: Professional): Id { p.id }
  function PatientId(p: Patient): Id { p.id }
  function AppointmentId(a: Appointment): Id { a.id }
  function ApiTokenId(t: ApiToken): Id { t.id }
  function AccountId(a: Account): Id { a.id }

  /** JavaScript truthiness of an optional string: present and not empty. */
  predicate Truthy(s: Option<string>)
  {
    s.Some? && s.value != ""
  }

  /** `s || null`: a falsy value is stored as null. */
  function OrNull(s: Option<string>): (r: Option<string>)
    ensures r.Some? <==> Truthy(s)
    ensures r.Some? ==> r == s
  {
    if Truthy(s) then s else None
  }

  /** `s || d`: a falsy value is replaced by the default `d`. */
  function OrDefault(s: Option<string>, d: string): (r: string)
    ensures Truthy(s) ==> r == s.value
    ensures !Truthy(s) ==> r == d
  {
    if Truthy(s) then s.value else d
  }

  /** The class `\d`: an ASCII decimal digit. */
  predicate IsDigit(c: char)
  {
    '0' <= c <= '9'
  }

  /** Every character of `s` is a digit. */
  predicate AllDigits(s: string)
  {
    forall i :: 0 <= i < |s| ==> IsDigit(s[i])
  }
}

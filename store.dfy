/**
 * The hosted relational store as in-memory tables. `Db` is a snapshot of every table;
 * `Database` is the store the handlers and hooks write to, one field per table.
 * Rows are kept in insertion order; the primary key is the `id` column.
 */
module Store {
  import opened Records
  import opened Seqs

  datatype Db = Db(
    clinics: seq<Clinic>,
    userClinics: seq<UserClinic>,
    userRoles: seq<UserRole>,
    professionals: seq<Professional>,
    patients: seq<Patient>,
    appointments: seq<Appointment>,
    apiTokens: seq<ApiToken>,
    profiles: seq<Profile>,
    accounts: seq<Account>)

  class Database {
    var clinics: seq<Clinic>
    var userClinics: seq<UserClinic>
    var userRoles: seq<UserRole>
    var professionals: seq<Professional>
    var patients: seq<Patient>
    var appointments: seq<Appointment>
    var apiTokens: seq<ApiToken>
    var profiles: seq<Profile>
    var accounts: seq<Account>

    function Snapshot(): Db
      reads this
    {
      Db(clinics, userClinics, userRoles, professionals, patients, appointments, apiTokens, profiles, accounts)
    }

    constructor (init: Db)
      ensures Snapshot() == init
    {
      clinics := init.clinics;
      userClinics := init.userClinics;
      userRoles := init.userRoles;
      professionals := init.professionals;
      patients := init.patients;
      appointments := init.appointments;
      apiTokens := init.apiTokens;
      profiles := init.profiles;
      accounts := init.accounts;
    }
  }

  /** Some row of the table already has this primary key (an insert would be refused). */
  predicate IdTaken<T>(rows: seq<T>, idOf: T -> Id, id: Id)
  {
    exists i :: 0 <= i < |rows| && idOf(rows[i]) == id
  }

  /** The primary key holds: no two rows share an id. */
  ghost predicate UniqueIds<T>(rows: seq<T>, idOf: T -> Id)
  {
    forall i, j :: 0 <= i < j < |rows| ==> idOf(rows[i]) != idOf(rows[j])
  }

  /** An insert that the store accepts (its id is new) keeps the primary key. */
  lemma InsertKeepsUniqueIds<T>(rows: seq<T>, idOf: T -> Id, row: T)
    requires UniqueIds(rows, idOf)
    requires !IdTaken(rows, idOf, idOf(row))
    ensures UniqueIds(rows + [row], idOf)
  {
  }
}

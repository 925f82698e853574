# Clinic scheduling core, modelled in Dafny

This project models the logic of a clinic-scheduling web application built on a hosted
relational store (Supabase). Clinics keep patients, professionals and appointments. Staff
hold one of three roles in a clinic: `clinic_admin`, `professional` or `receptionist`. The
application has two halves, and both are modelled here.

**Edge functions.** These are server-side request handlers. Each handler:
- authenticates the caller by bearer token;
- resolves the caller's clinic from their single `user_roles` row;
- reads or writes the clinic's tables.

Four handlers are modelled:
- `appointments-api` reads, creates, updates and deletes appointments (`AppointmentsApi`);
- `patients-api` does the same for patients (`PatientsApi`);
- `api-tokens-management` lets an admin list, create and revoke API tokens (`ApiTokens`);
  the tokens are printed in lowercase hex (`Hex`);
- `create-clinic-user` provisions a staff account and gives it a role, undoing the account
  when the role write fails (`CreateClinicUser`).

The store is a set of in-memory tables (`Store`). `Store.Db` is a snapshot value, and the
`Store.Database` class holds one field per table. For each handler:
- a pure function `Spec(db, request, env)` gives the new store and the (status, payload)
  response;
- the method `Handle` performs the request step by step on a `Database`, and its contract
  proves that it agrees with `Spec`;
- the lemmas next to them state, about `Spec`, what the endpoint promises.

The environment (`env`) decides what the code cannot know. This covers which store call
fails, the ids the store assigns, the clock, the random bytes and the digest.

**Browser hooks and components.** The hooks keep a local copy of the clinic's rows
(`UseAppointments`, `UsePatients`, `UseProfessionals`, `UseUserRoles`, `UseClinic`):
- each hook is a class whose fields are its React state;
- each operation is a method that writes through to the store and then patches the local
  list in place: append on create, replace by id on update, drop by id on delete;
- the lemmas show that each successful operation keeps the list in step with the clinic's
  rows in the store (`Client.InStep`).

The components that carry real logic are modelled too:
- the CPF input mask and the patient form's schema (`PatientModal`);
- the appointment form's time slots, durations and `Date` arithmetic (`AppointmentModal`);
- the attendance badge (`AttendanceBadge`);
- the day, week and month calendar views (`Calendar`, `DailyCalendar`, `WeeklyCalendar`,
  `MonthlyCalendar`).

**Shared conventions.**
- JavaScript values follow the application's own conventions (`Records`, `Wrappers`):
  - an absent JSON field or a `null` column is `None`;
  - "truthy" text means present and non-empty.
- Time is local integer milliseconds (`Clock`).
  A `Date` holds only instants within 8.64e15 ms of the epoch (`Clock.ValidTime`).
- The store runs no UPDATE for an update object with no field and returns no row, so a
  following `.single()` fails (`NothingToUpdate` in each updating module).

## Model

| member | source | states |
|---|---|---|
| Edge.ResolveClinic | supabase/functions/appointments-api/index.ts:24-58 | 401 exactly when no verified user; otherwise 403 unless the user has exactly one `user_roles` row, whose clinic becomes the caller's clinic |
| Edge.ResolveSingleRow | supabase/functions/appointments-api/index.ts:45-58 | a user whose only role row is row i acts in that row's clinic |
| Edge.ResolveTwoRows | supabase/functions/appointments-api/index.ts:45-56 | a user with two role rows is refused with 403 (`.single()` fails) |
| Edge.ResolveAdminClinic | supabase/functions/api-tokens-management/index.ts:69-104 | 401 exactly when no verified user; otherwise 403 unless the user has exactly one `clinic_admin` row, whose clinic is then used |
| Edge.NonAdminRefused | supabase/functions/api-tokens-management/index.ts:90-102 | a user with no `clinic_admin` row is refused with 403 |
| Paths.Split | supabase/functions/appointments-api/index.ts:61 | every piece of `split('/')` is free of the separator and there is at least one piece |
| Paths.JoinSplit | supabase/functions/appointments-api/index.ts:61 | joining the split pieces with the separator gives the path back |
| Paths.SplitLastPiece | supabase/functions/appointments-api/index.ts:61-62 | a path ending in `/x` splits into the pieces of its prefix followed by `x` |
| Paths.SplitWithoutSeparator | supabase/functions/appointments-api/index.ts:61 | text with no separator splits into itself alone |
| Paths.Segments | supabase/functions/appointments-api/index.ts:61 | `filter(Boolean)` leaves only non-empty, slash-free segments |
| Paths.ResourceId | supabase/functions/appointments-api/index.ts:61-66 | an id, when present, is a non-empty, slash-free segment different from the function's own name |
| Paths.ResourceIdIsLastSegment | supabase/functions/appointments-api/index.ts:61-66 | a path ending in `/x` names resource `x`, except when `x` is the function name, which means no id |
| Paths.LastPiece | supabase/functions/api-tokens-management/index.ts:106 | `split('/').pop()` yields a slash-free piece |
| Paths.LastPieceOfPath | supabase/functions/api-tokens-management/index.ts:106 | the last piece of `p/x` is `x`, so after a trailing slash it is empty |
| Records.ParseRole | src/integrations/supabase/types.ts:375 | a text that reads as a role is exactly that role's name in the `user_role` enum |
| Records.RoleNameRoundTrip | src/integrations/supabase/types.ts:375 | reading a role's enum name back gives the role |
| Records.OrNull | supabase/functions/patients-api/index.ts:124-127 | `s \|\| null` is present iff `s` is truthy, and then equals `s` |
| Records.OrDefault | supabase/functions/appointments-api/index.ts:208-209 | `s \|\| d` is `s` when truthy and the default otherwise |
| Client.LexLeTotal | src/hooks/usePatients.ts:44 | the text order behind `order('name')` relates any two names |
| Client.LexLeTransitive | src/hooks/usePatients.ts:44 | the text order is transitive |
| Client.LexLeAntisymmetric | src/hooks/usePatients.ts:44 | names that order both ways are equal |
| Client.LoadedIsInStep | src/hooks/useAppointments.ts:58-69 | a freshly loaded list holds exactly the scope's stored rows |
| Client.AppendKeepsInStep | src/hooks/useAppointments.ts:103 | appending the inserted in-scope row to the list and to the table keeps them in step |
| Client.RemoveKeepsInStep | src/hooks/useAppointments.ts:218 | dropping the same rows from list and table keeps them in step |
| Client.UpdateKeepsInStep | src/hooks/useAppointments.ts:138-142 | the same update on list and table keeps them in step when it moves no row out of scope |
| Client.ReplaceIsUpdate | src/hooks/useAppointments.ts:138-142 | the list's `map(x => x.id === id ? data : x)` is the store's single-row update applied to the list |
| AppointmentsApi.Apply | supabase/functions/appointments-api/index.ts:286-299 | the update object overwrites exactly the fields it carries and keeps the others; id and clinic never change |
| AppointmentsApi.Spec | supabase/functions/appointments-api/index.ts:10-362 | only the appointments table can change; any response other than 200/201 leaves the store as it was; the status is one of 200, 201, 400, 401, 403, 404, 405, 500; a 201 comes only from POST and grows the table by one row |
| AppointmentsApi.Handle | supabase/functions/appointments-api/index.ts:10-362 | the handler run step by step (OPTIONS, credential, clinic, path id, method switch) leaves the store and answers exactly as `Spec` |
| AppointmentsApi.GetOne | supabase/functions/appointments-api/index.ts:66-100 | GET by id answers the single row with that id in the caller's clinic, else 404, and writes nothing |
| AppointmentsApi.GetForeignIsNotFound | supabase/functions/appointments-api/index.ts:86-95 | an id that no row of the caller's clinic holds answers 404 and writes nothing, even when another clinic holds it |
| AppointmentsApi.GetOwnIsFound | supabase/functions/appointments-api/index.ts:86-100 | with unique ids, the caller's own stored appointment answers 200 with exactly that row |
| AppointmentsApi.List | supabase/functions/appointments-api/index.ts:102-160 | the query built condition by condition from the truthy filters is the one `ListSpec` runs; 500 on a store error; nothing written |
| AppointmentsApi.Create | supabase/functions/appointments-api/index.ts:163-240 | the POST steps (required fields, membership checks, insert) leave the store and answer as `CreateSpec` |
| AppointmentsApi.Update | supabase/functions/appointments-api/index.ts:242-328 | the PUT steps (re-checks, `updateFields` built field by field, scoped update) leave the store and answer as `UpdateSpec`, which answers 500 and writes nothing when `updateFields` ends up empty |
| AppointmentsApi.EmptyUpdateFails | supabase/functions/appointments-api/index.ts:285-321 | a PUT body with no truthy field builds an empty `updateFields`; the store returns no row, `.single()` fails and the answer is 500 with the store unchanged |
| AppointmentsApi.Remove | supabase/functions/appointments-api/index.ts:330-355 | DELETE filters out the rows with that id in the caller's clinic, or answers 500 on a store error, as `DeleteSpec` |
| AppointmentsApi.ByStartIsTotalPreorder | supabase/functions/appointments-api/index.ts:129 | ordering by `start_time` is a total preorder, so the sorted list is well defined |
| AppointmentsApi.UnauthenticatedTouchesNothing | supabase/functions/appointments-api/index.ts:24-42 | a request with no (or an unverifiable) credential gets 401 and the store is unchanged |
| AppointmentsApi.NoSingleRoleRowForbidden | supabase/functions/appointments-api/index.ts:45-56 | a caller with no `user_roles` row, or more than one, gets 403 and the store is unchanged |
| AppointmentsApi.ListIsScopedFilteredSorted | supabase/functions/appointments-api/index.ts:110-146 | a row is listed iff it is stored, belongs to the caller's clinic and passes every truthy filter (start_date <= start_time, start_time <= end_date, equal patient, professional, status); each as often as stored; sorted by start_time ascending |
| AppointmentsApi.ListNeverCrossesClinics | supabase/functions/appointments-api/index.ts:102-160 | a list answer never holds a row of another clinic |
| AppointmentsApi.CreateNeedsRequiredFields | supabase/functions/appointments-api/index.ts:167-175 | POST with title, patient_id, professional_id, start_time or end_time missing or empty gets 400 and inserts nothing |
| AppointmentsApi.CreateRejectsForeignPatient | supabase/functions/appointments-api/index.ts:177-197 | POST whose patient has no row in the caller's clinic gets 400 and inserts nothing |
| AppointmentsApi.CreateRejectsForeignProfessional | supabase/functions/appointments-api/index.ts:185-197 | POST whose professional has no row in the caller's clinic gets 400 and inserts nothing |
| AppointmentsApi.PatientFoundWhenPresent | supabase/functions/appointments-api/index.ts:178-183 | with unique patient ids, a patient stored in the caller's clinic passes the membership lookup |
| AppointmentsApi.ProfessionalFoundWhenPresent | supabase/functions/appointments-api/index.ts:185-190 | with unique professional ids, a professional stored in the caller's clinic passes the membership lookup |
| AppointmentsApi.CreateAppendsScopedRow | supabase/functions/appointments-api/index.ts:199-239 | a 201 appends exactly one row carrying the new id, the caller's clinic, the body's five fields, and status and attendance_status defaulting to 'scheduled'; the answer carries that row |
| AppointmentsApi.CreateKeepsUniqueIds | supabase/functions/appointments-api/index.ts:200-211 | a POST keeps appointment ids unique |
| AppointmentsApi.UpdateRechecksPatient | supabase/functions/appointments-api/index.ts:253-267 | PUT naming a patient outside the caller's clinic gets 400 and changes nothing |
| AppointmentsApi.UpdateRechecksProfessional | supabase/functions/appointments-api/index.ts:269-283 | PUT naming a professional outside the caller's clinic gets 400 |
| AppointmentsApi.UpdateChangesOnlyTarget | supabase/functions/appointments-api/index.ts:285-323 | a successful PUT keeps length and order, leaves every row of another id or clinic unchanged, turns the target row into `Apply` of the body's update object (every truthy field written), and changes in the target only fields the body gives truthy, to the body's value; no start-before-end check |
| AppointmentsApi.UpdateIsIdempotent | supabase/functions/appointments-api/index.ts:286-293 | applying the same update object twice equals applying it once |
| AppointmentsApi.UpdateOfForeignRowFails | supabase/functions/appointments-api/index.ts:295-323 | PUT of an id with no row in the caller's clinic changes nothing and does not answer 200 |
| AppointmentsApi.DeleteIsScoped | supabase/functions/appointments-api/index.ts:339-355 | DELETE keeps exactly the rows without that (id, clinic) pair, in order, and answers 200 even when nothing matched |
| AppointmentsApi.WriteWithoutIdRefused | supabase/functions/appointments-api/index.ts:243-248 | PUT or DELETE whose path has no id (or ends in the function name) gets 400 and changes nothing |
| AppointmentsApi.OtherMethodsRefused | supabase/functions/appointments-api/index.ts:357-361 | any other method gets 405 and changes nothing |
| PatientsApi.Spec | supabase/functions/patients-api/index.ts:10-224 | only the patients table can change; a response other than 200/201 leaves the store unchanged; the status is one of 200, 201, 400, 401, 403, 404, 405, 500; a 201 comes only from POST and grows the table by one row |
| PatientsApi.Handle | supabase/functions/patients-api/index.ts:10-224 | the handler run step by step leaves the store and answers exactly as `Spec` |
| PatientsApi.Create | supabase/functions/patients-api/index.ts:107-143 | the POST steps leave the store and answer as `CreateSpec` |
| PatientsApi.Update | supabase/functions/patients-api/index.ts:145-181 | the PUT steps leave the store and answer as `UpdateSpec` |
| PatientsApi.NewestIsTotalPreorder | supabase/functions/patients-api/index.ts:92 | newest-first ordering on `created_at` is a total preorder |
| PatientsApi.UnauthenticatedTouchesNothing | supabase/functions/patients-api/index.ts:24-42 | without a verified user: 401 and no table changes |
| PatientsApi.NoSingleRoleRowForbidden | supabase/functions/patients-api/index.ts:44-56 | without exactly one role row: 403 and no table changes |
| PatientsApi.CreateNeedsNameAndCpf | supabase/functions/patients-api/index.ts:110-116 | POST without a truthy name or cpf gets 400 and inserts nothing |
| PatientsApi.CreateStoresNulls | supabase/functions/patients-api/index.ts:118-143 | a 201 appends one row of the caller's clinic with the given name and cpf; each of email, phone, birth_date, notes is stored iff truthy, as given, and null otherwise |
| PatientsApi.GetForeignIsNotFound | supabase/functions/patients-api/index.ts:66-80 | GET of an id with no row in the caller's clinic answers 404, even when another clinic has it |
| PatientsApi.GetOwnIsFound | supabase/functions/patients-api/index.ts:66-85 | GET of the caller's own patient (ids unique) answers 200 with that row |
| PatientsApi.ListIsScopedNewestFirst | supabase/functions/patients-api/index.ts:87-104 | a patient is listed iff stored in the caller's clinic; each as often as stored; newest `created_at` first |
| PatientsApi.UpdateReplacesOptionals | supabase/functions/patients-api/index.ts:155-169 | a successful PUT keeps length, leaves other rows unchanged, and in the target sets each optional to the body's value when truthy and null otherwise; name and cpf change only when given, with no required-field check |
| PatientsApi.UpdateOfForeignRowFails | supabase/functions/patients-api/index.ts:155-176 | PUT of a patient with no row in the caller's clinic changes nothing and answers 500 |
| PatientsApi.DeleteIsScoped | supabase/functions/patients-api/index.ts:191-207 | DELETE keeps exactly the rows without that (id, clinic) pair, in order |
| PatientsApi.WriteWithoutIdOrOtherMethodRefused | supabase/functions/patients-api/index.ts:145-214 | PUT or DELETE without an id gets 400; any other method gets 405; nothing changes |
| ApiTokens.SecureToken | supabase/functions/api-tokens-management/index.ts:43-47 | 32 random bytes print as 64 lowercase hex digits that decode back to exactly those bytes |
| ApiTokens.HashToken | supabase/functions/api-tokens-management/index.ts:49-55 | a 32-byte digest prints as 64 lowercase hex digits that decode back to the digest |
| ApiTokens.TokensOfDifferentBytesDiffer | supabase/functions/api-tokens-management/index.ts:43-47 | the token encoding is injective: different random bytes give different tokens |
| ApiTokens.Last4 | supabase/functions/api-tokens-management/index.ts:128 | `slice(-4)` is the last four characters, or the whole of a shorter string |
| ApiTokens.Preview | supabase/functions/api-tokens-management/index.ts:128 | the preview is `****` followed by the last four characters of the hash |
| ApiTokens.PreviewOfHash | supabase/functions/api-tokens-management/index.ts:186 | the preview of a 64-digit hash has 8 characters and shows only its last four digits |
| ApiTokens.TrimStart | supabase/functions/api-tokens-management/index.ts:142 | the result is a suffix of the input with only white space dropped and no white space at its start |
| ApiTokens.TrimEnd | supabase/functions/api-tokens-management/index.ts:142 | the result is a prefix of the input with only white space dropped and no white space at its end |
| ApiTokens.TrimIsInnerStretch | supabase/functions/api-tokens-management/index.ts:142 | `trim()` is the stretch between leading and trailing white space, with no white space at either end |
| ApiTokens.TrimIdempotent | supabase/functions/api-tokens-management/index.ts:167 | trimming the stored name again changes nothing |
| ApiTokens.TrimEmptyIffBlank | supabase/functions/api-tokens-management/index.ts:142 | a name trims to nothing exactly when it is all white space |
| ApiTokens.ExpiresAt | supabase/functions/api-tokens-management/index.ts:153-159 | the expiry is computed iff `expiresInDays` is a number greater than 0; it is a storable instant iff that many days on stays within the `Date` range (else it is out of range), and then it is later than now and that many days on |
| ApiTokens.ExpiryPastDateRangeFails | supabase/functions/api-tokens-management/index.ts:153-226 | a valid name with more than 200 000 000 days makes `toISOString()` of an invalid date throw: the answer is 500 and nothing is stored |
| ApiTokens.Spec | supabase/functions/api-tokens-management/index.ts:57-219 | only `api_tokens` can change; a non-2xx response leaves the store unchanged; the status is one of 200, 201, 400, 401, 403, 405, 500 |
| ApiTokens.Handle | supabase/functions/api-tokens-management/index.ts:57-219 | the handler run step by step leaves the store and answers exactly as `Spec` |
| ApiTokens.Create | supabase/functions/api-tokens-management/index.ts:138-190 | the POST steps (name check, token, hash, `let expiresAt`, insert) leave the store and answer as `CreateSpec` |
| ApiTokens.OnlyAdminsManageTokens | supabase/functions/api-tokens-management/index.ts:89-102 | a caller with no `clinic_admin` row gets 403 for every method, and nothing changes |
| ApiTokens.ListShowsOwnTokens | supabase/functions/api-tokens-management/index.ts:108-115 | a token is listed iff it is stored with the caller's user_id and clinic_id; each as often as stored; newest `created_at` first |
| ApiTokens.SanitizeHidesHash | supabase/functions/api-tokens-management/index.ts:125-130 | a listed token carries `****` plus the hash's last 4 characters instead of the hash; its other columns are unchanged |
| ApiTokens.CreateNeedsName | supabase/functions/api-tokens-management/index.ts:142-147 | POST with a missing, non-string or whitespace-only name gets 400 and stores nothing |
| ApiTokens.CreateStoresHashReturnsTokenOnce | supabase/functions/api-tokens-management/index.ts:149-189 | a 201 appends one active, never-used row for the caller with the trimmed non-empty name and the hash of the returned 64-digit token; the preview comes from that hash; expiry is set iff the days are positive (a 201 implies the expiry is within the `Date` range) |
| ApiTokens.DeleteIsScoped | supabase/functions/api-tokens-management/index.ts:192-212 | DELETE keeps exactly the rows that do not match id, user_id and clinic_id together, in order |
| ApiTokens.DeleteWithTrailingSlashRefused | supabase/functions/api-tokens-management/index.ts:192-218 | a DELETE whose path ends in a slash has an empty token id and gets 405 |
| ApiTokens.OtherMethodsRefused | supabase/functions/api-tokens-management/index.ts:215-218 | PUT and any other method get 405 and change nothing |
| Hex.Digit | supabase/functions/api-tokens-management/index.ts:46 | a value 0..15 maps to a lowercase hex digit |
| Hex.DigitValue | supabase/functions/api-tokens-management/index.ts:46 | a character has a value iff it is a lowercase hex digit, and `Digit` maps that value back to it |
| Hex.DigitValueOfDigit | supabase/functions/api-tokens-management/index.ts:46 | `DigitValue` inverts `Digit` |
| Hex.ToHexString | supabase/functions/api-tokens-management/index.ts:46 | `toString(16)` gives at least one lowercase hex digit |
| Hex.PadStart | supabase/functions/api-tokens-management/index.ts:46 | `padStart` yields the longer of the input length and the target length |
| Hex.ByteHexDigits | supabase/functions/api-tokens-management/index.ts:54 | each byte prints as exactly two digits, the high nibble first |
| Hex.Encode | supabase/functions/api-tokens-management/index.ts:54 | n bytes print as 2n lowercase hex digits |
| Hex.EncodeAt | supabase/functions/api-tokens-management/index.ts:54 | byte i sits at characters 2i and 2i+1 |
| Hex.DecodeEncode | supabase/functions/api-tokens-management/index.ts:54 | decoding an encoding gives the bytes back |
| Hex.EncodeInjective | supabase/functions/api-tokens-management/index.ts:54 | different byte strings never encode the same |
| CreateClinicUser.Spec | supabase/functions/create-clinic-user/index.ts:10-144 | clinics, patients, appointments and tokens never change; the status is one of 200, 400, 401, 403; a 401 or 403 leaves the store unchanged |
| CreateClinicUser.Handle | supabase/functions/create-clinic-user/index.ts:10-144 | the steps (caller check, createUser, role insert, compensating deleteUser) leave the store and answer exactly as `Spec` |
| CreateClinicUser.UnauthenticatedCreatesNothing | supabase/functions/create-clinic-user/index.ts:21-45 | without a verified user: 401 and nothing is created |
| CreateClinicUser.NonAdminCreatesNothing | supabase/functions/create-clinic-user/index.ts:49-65 | a caller whose role in the requested clinic is not `clinic_admin` gets 403 and no account is created |
| CreateClinicUser.AccountFailureWritesNoRole | supabase/functions/create-clinic-user/index.ts:67-87 | when account creation fails, nothing is written and the answer is not 200 |
| CreateClinicUser.RoleFailureCompensates | supabase/functions/create-clinic-user/index.ts:89-111 | when the role insert fails the answer is 400; the new account is deleted again, and only a failed cleanup leaves it behind |
| CreateClinicUser.UnknownRoleProvisionsNobody | supabase/functions/create-clinic-user/index.ts:89-111 | a role outside the enum makes the insert fail, so with a working cleanup no account and no role row remain |
| CreateClinicUser.SuccessAddsAccountAndRole | supabase/functions/create-clinic-user/index.ts:67-133 | a 200 adds exactly one account, created by the caller, and one role row (new user id, clinic_id, role, professional_id) |
| UseAppointments.AppointmentsHook.constructor | src/hooks/useAppointments.ts:44-46 | the hook starts with no appointments, loading, not creating |
| UseAppointments.AppointmentsHook.Fetch | src/hooks/useAppointments.ts:50-80 | without user or clinic only `loading` is cleared; on a store error the list is kept; otherwise the list becomes the clinic's appointments by start time; `loading` ends false |
| UseAppointments.AppointmentsHook.Create | src/hooks/useAppointments.ts:82-121 | without user or clinic: skipped, nothing changes; otherwise the store does `InsertSpec`, on success the row is returned and appended, on failure the error is rethrown and the list kept; `creating` ends false on both paths |
| UseAppointments.AppointmentsHook.Update | src/hooks/useAppointments.ts:123-159 | the store does `UpdateSpec` (by id only); on success the entries with that id are replaced by the row read back; on failure the list is kept and the error rethrown |
| UseAppointments.AppointmentsHook.UpdateAttendanceStatus | src/hooks/useAppointments.ts:161-206 | the same update with `{ attendance_status }` alone, with the same list patch |
| UseAppointments.AppointmentsHook.Delete | src/hooks/useAppointments.ts:208-232 | the store drops the rows with that id; on success the list drops that id, otherwise list and store are kept and the error rethrown |
| UseAppointments.FetchLoadsClinicByStart | src/hooks/useAppointments.ts:58-66 | the fetched list holds exactly the clinic's appointments, each as often as stored, sorted by start time |
| UseAppointments.FetchAgreesWithEndpointList | src/hooks/useAppointments.ts:58-66 | the hook's fetch returns the same rows in the same order as the endpoint's unfiltered list |
| UseAppointments.CreateStampsClinicAndDefaultsStatus | src/hooks/useAppointments.ts:87-93 | an insert is refused iff the store fails; a success appends one row with the current clinic, status defaulted to 'scheduled', attendance_status passed through undefaulted |
| UseAppointments.CreateKeepsListInStep | src/hooks/useAppointments.ts:103 | after a successful create the appended list stays in step with the clinic's rows |
| UseAppointments.UpdateChangesOnlyThatRow | src/hooks/useAppointments.ts:125-134 | an update succeeds iff the patch has a field and exactly one row has the id; it replaces that row by the patched row and leaves every other row and table unchanged |
| UseAppointments.AttendanceUpdateChangesOnlyStatus | src/hooks/useAppointments.ts:163-172 | the attendance update changes only the row's attendance status |
| UseAppointments.UpdateKeepsListInStep | src/hooks/useAppointments.ts:138-142 | after a successful update the replaced list stays in step with the clinic's rows |
| UseAppointments.DeleteKeepsListInStep | src/hooks/useAppointments.ts:218 | after a delete the filtered list stays in step with the clinic's rows |
| UseAppointments.StatusLabelKeys | src/hooks/useAppointments.ts:183-189 | the confirmation label table covers exactly scheduled, attended, no_show, cancelled, rescheduled |
| UsePatients.PatientsHook.constructor | src/hooks/usePatients.ts:30-31 | the hook starts with no patients, loading |
| UsePatients.PatientsHook.Fetch | src/hooks/usePatients.ts:35-58 | without user or clinic nothing changes, not even `loading`; otherwise the list becomes the clinic's patients by name (kept on a store error) and `loading` ends false |
| UsePatients.PatientsHook.Create | src/hooks/usePatients.ts:60-91 | without user or clinic: skipped, nothing changes; otherwise the store does `InsertSpec`; on success the row read back is returned and appended, on failure the list is kept and the error rethrown |
| UsePatients.PatientsHook.Update | src/hooks/usePatients.ts:93-123 | without user or clinic: skipped; otherwise the store does the update scoped by id and clinic, which fails on an empty patch or unless one row matches; on success the entries with that id are replaced, on failure the list is kept and the error rethrown |
| UsePatients.PatientsHook.Delete | src/hooks/usePatients.ts:125-151 | without user or clinic: skipped; otherwise the store drops the (id, clinic) rows; on success the list drops that id, on failure list and store are kept and the error rethrown |
| UsePatients.ByNameIsTotalPreorder | src/hooks/usePatients.ts:44 | `order('name')` is a total preorder on patients |
| UsePatients.FetchLoadsClinicByName | src/hooks/usePatients.ts:40-47 | the fetched list holds exactly the clinic's patients, each as often as stored, ordered by name |
| UsePatients.MergeLaws | src/hooks/usePatients.ts:97-103 | merging an empty patch into a row changes nothing (the store itself refuses an empty patch, see `EmptyUpdateThrows`); merging the same patch twice equals once; id, clinic and creation time never change |
| UsePatients.EmptyUpdateThrows | src/hooks/usePatients.ts:97-103 | a patch with no field leaves the store unchanged and the update fails, so the hook rethrows |
| UsePatients.MergeVersusEndpointReplace | src/hooks/usePatients.ts:96-102 | the hook's partial update and the endpoint's PUT agree when every field is sent non-empty, and differ on a stored email when the update leaves email out |
| UsePatients.CreateStampsClinic | src/hooks/usePatients.ts:64-71 | an insert fails only on a store error; a success appends one row with the current clinic and exactly the given fields |
| UsePatients.UpdateIsScoped | src/hooks/usePatients.ts:97-103 | an update keeps the table's length and never changes a row of another id or clinic; a returned row has that id and clinic |
| UsePatients.DeleteIsScoped | src/hooks/usePatients.ts:129-133 | a delete keeps exactly the rows outside that (id, clinic) pair, in order |
| UsePatients.CreateKeepsListInStep | src/hooks/usePatients.ts:75 | after a successful create the appended list stays in step with the clinic's rows |
| UsePatients.UpdateKeepsListInStep | src/hooks/usePatients.ts:107 | after a successful update the replaced list stays in step with the clinic's rows |
| UsePatients.DeleteKeepsListInStep | src/hooks/usePatients.ts:137 | after a delete the filtered list stays in step with the clinic's rows |
| UsePatients.FetchAsWired | src/hooks/usePatients.ts:33-36 | as written the hook reads `currentClinic`, which `useClinic` does not export, so a fetch leaves the list and the loading flag as they were |
| UsePatients.FetchWithCorrectedRead | src/hooks/usePatients.ts:33-47 | reading the exported `clinic` instead, a signed-in user's fetch ends loading and, without a store error, holds exactly the loaded clinic's patients, ordered by name |
| UseProfessionals.ProfessionalsHook.constructor | src/hooks/useProfessionals.ts:24-25 | the hook starts with no professionals, loading |
| UseProfessionals.ProfessionalsHook.Fetch | src/hooks/useProfessionals.ts:29-52 | without user or clinic nothing changes; otherwise the list becomes the clinic's professionals by name (kept on a store error) and `loading` ends false |
| UseProfessionals.ProfessionalsHook.Create | src/hooks/useProfessionals.ts:54-86 | without user or clinic: skipped; otherwise the store does `InsertSpec`; on success the row is returned and appended, on failure the list is kept and the error rethrown |
| UseProfessionals.ProfessionalsHook.Update | src/hooks/useProfessionals.ts:88-118 | without user or clinic: skipped; otherwise the update is scoped by id and clinic and fails on an empty patch or unless one row matches; on success the entries with that id are replaced, on failure the list is kept and the error rethrown |
| UseProfessionals.ProfessionalsHook.Delete | src/hooks/useProfessionals.ts:120-146 | without user or clinic: skipped; otherwise the (id, clinic) rows are dropped from the store and that id from the list; on failure both are kept and the error rethrown |
| UseProfessionals.ByNameIsTotalPreorder | src/hooks/useProfessionals.ts:38 | `order('name')` is a total preorder on professionals |
| UseProfessionals.FetchLoadsClinicByName | src/hooks/useProfessionals.ts:34-41 | the fetched list holds exactly the clinic's professionals, each as often as stored, ordered by name |
| UseProfessionals.CreateDefaultsColor | src/hooks/useProfessionals.ts:58-66 | a success appends one row with the current clinic, the given name and specialty, and the given colour when non-empty, else '#3B82F6'; a refused insert changes nothing |
| UseProfessionals.MergeLaws | src/hooks/useProfessionals.ts:92-98 | merging an empty patch into a row changes nothing (the store itself refuses an empty patch, see `EmptyUpdateThrows`); merging the same patch twice equals once; id and clinic never change |
| UseProfessionals.EmptyUpdateThrows | src/hooks/useProfessionals.ts:92-98 | a patch with no field leaves the store unchanged and the update fails, so the hook rethrows |
| UseProfessionals.UpdateIsScoped | src/hooks/useProfessionals.ts:92-98 | an update keeps the table's length and never changes a row of another id or clinic |
| UseProfessionals.DeleteIsScoped | src/hooks/useProfessionals.ts:124-128 | a delete keeps exactly the rows outside that (id, clinic) pair, in order |
| UseProfessionals.CreateKeepsListInStep | src/hooks/useProfessionals.ts:70 | after a successful create the appended list stays in step with the clinic's rows |
| UseProfessionals.UpdateKeepsListInStep | src/hooks/useProfessionals.ts:102 | after a successful update the replaced list stays in step with the clinic's rows |
| UseProfessionals.DeleteKeepsListInStep | src/hooks/useProfessionals.ts:132 | after a delete the filtered list stays in step with the clinic's rows |
| UseUserRoles.UserRolesHook.constructor | src/hooks/useUserRoles.ts:32-34 | the hook starts with no role rows, no current role, loading |
| UseUserRoles.UserRolesHook.Fetch | src/hooks/useUserRoles.ts:38-96 | without user or clinic only `loading` is cleared; otherwise the list and current role become what the clinic's rows load, or stay as they were when the role read fails; `loading` ends false |
| UseUserRoles.UserRolesHook.Create | src/hooks/useUserRoles.ts:98-165 | without user or clinic: skipped, nothing changes; the 'current-user' e-mail touches no table here, throws on a procedure error and refetches only when the role was granted; any other e-mail runs the provisioning function with the current clinic, throws on a non-2xx answer and otherwise refetches and returns the new user |
| UseUserRoles.UserRolesHook.Update | src/hooks/useUserRoles.ts:167-197 | the store does the id-only update, which fails on an empty patch or unless one row has the id; on success the entries with that id are replaced by the row read back (without profile), on failure the list is kept and the error rethrown; the current role never changes |
| UseUserRoles.UserRolesHook.Delete | src/hooks/useUserRoles.ts:199-222 | on success the rows with that id leave the store and the list; on failure neither changes and the error is rethrown |
| UseUserRoles.NoRowsNoRole | src/hooks/useUserRoles.ts:55-60 | a clinic with no role rows loads an empty list and no current role |
| UseUserRoles.JoinKeepsRowsInOrder | src/hooks/useUserRoles.ts:76-79 | the join keeps every row in order and attaches the first loaded profile of the same user, or none exactly when no loaded profile is that user's |
| UseUserRoles.ProfileFaultOnlyDropsProfiles | src/hooks/useUserRoles.ts:66-79 | a failed profile read still loads every role row of the clinic, each without a profile |
| UseUserRoles.CurrentRoleIsFirstOwnEntry | src/hooks/useUserRoles.ts:84-85 | the current role is the role of the signed-in user's first entry, and absent exactly when no entry is theirs |
| UseUserRoles.LoadedRoleIsHeld | src/hooks/useUserRoles.ts:48-51 | a loaded current role is one the signed-in user holds in that clinic's rows |
| UseUserRoles.RoleChecksExclusive | src/hooks/useUserRoles.ts:224-226 | each role check holds exactly for its role, at most one holds, and none without a role |
| UseUserRoles.ProvisionRequestNamesAValidRole | src/hooks/useUserRoles.ts:127-139 | the provisioning request carries the current clinic and a role name the function parses back to the chosen role |
| UseUserRoles.UpdateChangesOnlyThatRow | src/hooks/useUserRoles.ts:169-174 | the update succeeds exactly when it is not refused, carries no account fields, has at least one field and one row has that id; it then writes only that row, keeping its id, user and clinic; otherwise the store is unchanged |
| UseClinic.ClinicHook.constructor | src/hooks/useClinic.ts:12-13 | the hook starts with no clinic, loading |
| UseClinic.ClinicHook.FetchUserClinic | src/hooks/useClinic.ts:22-50 | the clinic becomes the one embedded in the user's single link row, is kept when there is none, several or any other error, and `loading` always ends false |
| UseClinic.ClinicHook.CreateClinic | src/hooks/useClinic.ts:52-82 | the store changes as the two unguarded inserts do; the new clinic is returned and held only when both succeed, otherwise `null` is returned and the held clinic is kept |
| UseClinic.CreateWithoutUserWritesNothing | src/hooks/useClinic.ts:53 | without a signed-in user nothing is written and `null` is returned |
| UseClinic.CreateInsertsClinicThenLink | src/hooks/useClinic.ts:57-77 | the bootstrap succeeds exactly when there is a user and neither insert fails; it then adds exactly the clinic and the (user, clinic, 'admin') link; a refused clinic insert writes nothing |
| UseClinic.LinkFailureLeavesOrphanClinic | src/hooks/useClinic.ts:63-81 | a failing link insert leaves the new clinic stored with no link row, and `null` is returned |
| UseClinic.FetchFindsOnlyLinkedClinic | src/hooks/useClinic.ts:24-44 | a found clinic is a stored clinic that one of the user's link rows names |
| UseClinic.TwoLinksFindNothing | src/hooks/useClinic.ts:35-44 | a user linked to two clinics finds none, since `.single()` refuses several rows |
| UseClinic.FetchAfterCreateFindsIt | src/hooks/useClinic.ts:24-77 | an unlinked user who bootstraps a clinic finds exactly that clinic on the next fetch |
| UseClinic.AsWrittenNoHookIsReady | src/hooks/useClinic.ts:84-89 | the key `currentClinic` that the other hooks destructure is not exported, so they never see a clinic and never run |
| UseClinic.CorrectedHooksSeeTheClinic | src/hooks/useClinic.ts:84-89 | reading the exported `clinic`, the hooks see the loaded clinic and run exactly when there are a user and a clinic |
| PatientModal.Digits | src/components/PatientModal.tsx:87 | stripping non-digits leaves only digits and never lengthens the text |
| PatientModal.FirstFourDigits | src/components/PatientModal.tsx:92-93 | a match of `(\d{3})(\d)` found from a position starts at or after it, lies inside the text and covers four digits |
| PatientModal.FirstTail | src/components/PatientModal.tsx:94 | a match of `(\d{3})(\d{1,2})$` found from a position starts at or after it and covers the last four or five characters, all digits |
| PatientModal.Kept | src/components/PatientModal.tsx:90-96 | the masked digits are all digits and at most eleven |
| PatientModal.TailBlocked | src/components/PatientModal.tsx:94 | the end-anchored search never matches before a non-digit |
| PatientModal.TailTooShort | src/components/PatientModal.tsx:94 | the end-anchored search finds nothing in fewer than four remaining characters |
| PatientModal.FirstDot | src/components/PatientModal.tsx:92 | on digits the first replacement puts a dot after the third digit exactly when there are four or more |
| PatientModal.SecondDot | src/components/PatientModal.tsx:93 | the second replacement puts its dot after the sixth digit exactly when there are seven or more |
| PatientModal.MaskIsMasked | src/components/PatientModal.tsx:91-94 | on up to eleven digits the three replacements yield the shape XXX.XXX.XXX-XX filled as far as the digits go |
| PatientModal.DigitsOfMasked | src/components/PatientModal.tsx:91-94 | the mask only inserts separators: stripping them gives back the digits |
| PatientModal.FormatIsMasked | src/components/PatientModal.tsx:85-100 | `formatCPF` is the mask shape filled with the first (up to) eleven digits of its input |
| PatientModal.FormatKeepsDigits | src/components/PatientModal.tsx:85-100 | the formatted value holds exactly the kept digits plus at most three separators, so at most 14 characters, the input's `maxLength` |
| PatientModal.FormatIdempotent | src/components/PatientModal.tsx:151-153 | reformatting a formatted value gives it back, so every keystroke's reformat is stable |
| PatientModal.FullCpfShape | src/components/PatientModal.tsx:96-99 | eleven or more digits give 14 characters with separators exactly at 3, 7 and 11 and digits elsewhere |
| PatientModal.ShortCpfPassesAsWritten | src/components/PatientModal.tsx:29 | as written, a masked CPF of nine or ten digits passes `.min(11).max(14)` although it has fewer than eleven digits |
| PatientModal.NineDigitExample | src/components/PatientModal.tsx:29 | "123456789" is masked to "123.456.789", which the rule as written accepts |
| PatientModal.CpfRuleOnMaskedInput | src/components/PatientModal.tsx:29 | on masked input the rule "CPF deve ter 11 dígitos" holds exactly for eleven kept digits, that is, for the full 14-character mask |
| PatientModal.BlankToAbsent | src/components/PatientModal.tsx:66-69 | `s \|\| undefined` is absent exactly for the empty text and otherwise the text itself |
| PatientModal.Submit | src/components/PatientModal.tsx:27-33 | `onSubmit` as written runs exactly when `patientSchema` as written accepts the form, handing on the name and a CPF of 11 to 14 characters unchanged |
| PatientModal.SubmitCorrected | src/components/PatientModal.tsx:29 | with the CPF rule its message states, a form is submitted exactly when that rule accepts it; each such form is submitted as written too, with the same data, and its CPF holds eleven digits |
| PatientModal.ShortCpfIsSubmittedAsWritten | src/components/PatientModal.tsx:29 | as written, a named form whose CPF field holds the mask of `123456789` is submitted with CPF `123.456.789`; the corrected rule refuses it |
| PatientModal.SubmitMapsBlankToAbsent | src/components/PatientModal.tsx:60-70 | a form is submitted exactly when the schema as written accepts it; name and CPF pass unchanged and each optional field is absent exactly when blank |
| PatientModal.SubmittedMaskedCpfIsFull | src/components/PatientModal.tsx:29 | behind the corrected rule (`SubmitCorrected`) a submitted masked CPF came from eleven or more digits and has the full mask's shape |
| AppointmentModal.Decimal | src/components/AppointmentModal.tsx:109 | `n.toString()` is a non-empty run of digits, of two or more from 10 on |
| AppointmentModal.LeadingDigits | src/components/AppointmentModal.tsx:85 | the digits `parseInt` reads are the longest all-digit prefix, stopped by a non-digit or the end |
| AppointmentModal.ParseInt | src/components/AppointmentModal.tsx:85 | `parseInt` yields a non-negative number only for a given text, and always does for one starting with a digit |
| AppointmentModal.DecimalRoundTrip | src/components/AppointmentModal.tsx:85 | `parseInt(n.toString())` is `n` |
| AppointmentModal.TwoDigitsRoundTrip | src/components/AppointmentModal.tsx:109-110 | the zero-padded hour is all digits and `parseInt` reads it back as that hour |
| AppointmentModal.TimeSlotsAsWritten | src/components/AppointmentModal.tsx:106-112 | twenty slots, the i-th labelled `HH:00` for hour 8 + i |
| AppointmentModal.TimeSlots | src/components/AppointmentModal.tsx:106-112 | the corrected slots: thirteen, `08:00` to `20:00`, one per calendar row |
| AppointmentModal.DefaultForm | src/components/AppointmentModal.tsx:69-79 | the form starts with the one-hour duration and a day picked |
| AppointmentModal.JsDate.constructor | src/components/AppointmentModal.tsx:83 | `new Date(t)` holds `t` |
| AppointmentModal.JsDate.Minutes | src/components/AppointmentModal.tsx:88 | `getMinutes()` is a minute 0..59 for a valid date and NaN otherwise |
| AppointmentModal.JsDate.SetHours | src/components/AppointmentModal.tsx:85 | `setHours(h, m, 0, 0)` moves to the same day at h:m, carrying into later days, and makes the date invalid for NaN |
| AppointmentModal.JsDate.SetMinutes | src/components/AppointmentModal.tsx:88 | `setMinutes(m)` keeps day, hour, seconds and milliseconds and sets the minutes, carrying over; NaN makes the date invalid |
| AppointmentModal.Submit | src/components/AppointmentModal.tsx:81-104 | the record handed to `createAppointment` is the form's texts, the chosen day at the typed time, and that plus the duration; none for an invalid date |
| AppointmentModal.SubmitCarriesTheForm | src/components/AppointmentModal.tsx:90-96 | a submitted record carries the form's title, patient and professional and no status of either kind |
| AppointmentModal.StartIsChosenTime | src/components/AppointmentModal.tsx:83-85 | the start is the chosen day at the typed hour and minute, seconds zero; within a day's range it stays on that day at that hour |
| AppointmentModal.EndIsStartPlusDuration | src/components/AppointmentModal.tsx:87-88 | the end is the start plus the duration in minutes, strictly after the start for every offered duration |
| AppointmentModal.OfferedDurations | src/components/AppointmentModal.tsx:114-119 | the durations offered are 30, 60, 90 and 120, in that order, the default among them |
| AppointmentModal.OfferedDurationMinutes | src/components/AppointmentModal.tsx:114-119 | `parseInt` reads each offered duration as its positive number of minutes |
| AppointmentModal.SplitHourMinute | src/components/AppointmentModal.tsx:84 | a digits `HH:MM` text splits into the hours text and the minutes text |
| AppointmentModal.SlotParses | src/components/AppointmentModal.tsx:84-85 | a slot's text reads back as hour 8 + i, minute zero |
| AppointmentModal.SlotStart | src/components/AppointmentModal.tsx:83-85 | picking slot i starts the appointment at hour 8 + i of the chosen day, counting on past midnight |
| AppointmentModal.LateSlotsLeaveTheDay | src/components/AppointmentModal.tsx:106-112 | as written, slots "24:00" to "27:00" start on the next day at 00:00 to 03:00, and no slot from "21:00" on lands in a calendar row |
| AppointmentModal.SlotsStayInTheDay | src/components/AppointmentModal.tsx:106-112 | every corrected slot starts on the chosen day at its hour, inside the calendars' rows |
| AttendanceBadge.Choose | src/components/AttendanceStatusBadge.tsx:49-55 | picking a dropdown entry runs the hook's attendance update with that status: the store and the list change as that update specifies, and a failure is swallowed |
| AttendanceBadge.FiveKeys | src/components/AttendanceStatusBadge.tsx:12-38 | the table has exactly the keys scheduled, attended, no_show, cancelled, rescheduled, each once |
| AttendanceBadge.KnownStatusShowsItsEntry | src/components/AttendanceStatusBadge.tsx:46 | a status the table knows shows its own label, icon and colour |
| AttendanceBadge.UnknownStatusShowsScheduled | src/components/AttendanceStatusBadge.tsx:42-46 | no status, or one the table lacks, shows "Agendado" with the clock icon and the default colour |
| AttendanceBadge.HookKnowsTheSameKeys | src/hooks/useAppointments.ts:183-189 | the update's confirmation messages know a label for exactly the badge's keys |
| AttendanceBadge.LabelsAgreeWithHook | src/components/AttendanceStatusBadge.tsx:12-38 | each status has the same label on the badge as in the update's confirmation message |
| AttendanceBadge.ChoicesOffered | src/components/AttendanceStatusBadge.tsx:57-90 | the badge shows the looked-up entry; an editable one offers every status in table order, a read-only one offers none |
| Calendar.Hours | src/components/DailyCalendar.tsx:46 | the rows are the thirteen hours 8 to 20 in order |
| Calendar.ByProfessionalKeeps | src/components/DailyCalendar.tsx:25-33 | without a selection, or with "all", the whole list is kept; with one, exactly that professional's appointments; always in list order |
| Calendar.ForDayExact | src/components/WeeklyCalendar.tsx:39-44 | a day's list holds exactly the appointments starting on that day, in list order |
| Calendar.AtHourExact | src/components/DailyCalendar.tsx:99-103 | a row holds exactly the day's appointments starting in that hour, and shows the placeholder exactly when there are none |
| Calendar.RowsPartitionTheDay | src/components/DailyCalendar.tsx:99-155 | an appointment of the day is in exactly the row of its start hour when that is 8 to 20, and in no row otherwise |
| DailyCalendar.DailyView.constructor | src/components/DailyCalendar.tsx:23 | the view opens on the current instant |
| DailyCalendar.DailyView.PreviousDay | src/components/DailyCalendar.tsx:42 | the shown day moves back one day |
| DailyCalendar.DailyView.NextDay | src/components/DailyCalendar.tsx:43 | the shown day moves forward one day |
| DailyCalendar.DailyView.GoToToday | src/components/DailyCalendar.tsx:44 | the view returns to the current instant |
| DailyCalendar.DayStepsUndoEachOther | src/components/DailyCalendar.tsx:42-43 | each step moves the day by exactly one, keeps the hour, and the two steps undo each other |
| DailyCalendar.RowExact | src/components/DailyCalendar.tsx:25-40 | the row of an hour holds exactly the appointments that pass the professional filter and start on the shown day in that hour |
| DailyCalendar.DayIsLaidOutByHour | src/components/DailyCalendar.tsx:99-155 | each of the day's appointments shows in exactly the row of its start hour, or in none when that hour is before 8 or after 20 |
| WeeklyCalendar.Weekday | src/components/WeeklyCalendar.tsx:25 | a weekday is 0 (Sunday) to 6 |
| WeeklyCalendar.WeekDays | src/components/WeeklyCalendar.tsx:25-27 | the week is seven days, at midnight, from the week's start |
| WeeklyCalendar.WeeklyView.constructor | src/components/WeeklyCalendar.tsx:23 | the view opens on the current instant |
| WeeklyCalendar.WeeklyView.PreviousWeek | src/components/WeeklyCalendar.tsx:46 | the shown instant moves back seven days |
| WeeklyCalendar.WeeklyView.NextWeek | src/components/WeeklyCalendar.tsx:47 | the shown instant moves forward seven days |
| WeeklyCalendar.WeeklyView.GoToToday | src/components/WeeklyCalendar.tsx:48 | the view returns to the current instant |
| WeeklyCalendar.WeekIsSundayToSaturday | src/components/WeeklyCalendar.tsx:25-27 | the week's days are seven consecutive days, Sunday to Saturday, and include the day the week was built from |
| WeeklyCalendar.WeekStepsMoveTheWeek | src/components/WeeklyCalendar.tsx:46-47 | a step forward or back moves the whole week by seven days, and the two steps undo each other |
| WeeklyCalendar.CellExact | src/components/WeeklyCalendar.tsx:121-126 | the cell of a week day and hour holds exactly the appointments that pass the filter and start on that day in that hour |
| MonthlyCalendar.MonthOfYear | src/components/MonthlyCalendar.tsx:50-51 | a month of the year is 0 to 11 |
| MonthlyCalendar.MonthlyView.constructor | src/components/MonthlyCalendar.tsx:23 | the view opens on the current month |
| MonthlyCalendar.MonthlyView.PreviousMonth | src/components/MonthlyCalendar.tsx:50 | the shown month moves back one |
| MonthlyCalendar.MonthlyView.NextMonth | src/components/MonthlyCalendar.tsx:51 | the shown month moves forward one |
| MonthlyCalendar.MonthlyView.GoToToday | src/components/MonthlyCalendar.tsx:52 | the view returns to the current month |
| MonthlyCalendar.CellAccountsForTheDay | src/components/MonthlyCalendar.tsx:123-151 | a cell lists the first (at most) three of the day's appointments in list order; the "+N mais" note appears exactly when there are more, and listed plus noted is the day's count |
| MonthlyCalendar.MonthStepsWrapTheYear | src/components/MonthlyCalendar.tsx:50-51 | a month forward from December is January of the next year, otherwise the next month of the same year; back is the reverse |
| Clock.HourOf | src/components/DailyCalendar.tsx:101 | `getHours()` is an hour 0..23 |
| Clock.MinuteOf | src/components/AppointmentModal.tsx:88 | `getMinutes()` is a minute 0..59 |
| Clock.AddDaysShiftsDay | src/components/DailyCalendar.tsx:42-43 | moving by whole days shifts the calendar day by exactly that many and keeps the hour |
| Clock.AtTimeInDay | src/components/AppointmentModal.tsx:85 | setting an in-range `h:m` keeps the day and reads back hour `h`, minute `m`, seconds zero |
| Clock.Decompose | src/components/AppointmentModal.tsx:87-88 | every instant is its day, hour, minute and the part below a minute |

## Left out

- HTTP plumbing is left out: `serve`, the CORS preflight and headers, JSON parsing and serialisation, and building `Response` objects. A response is a (status, payload) pair, and a body is a record of optional fields.
- The authentication service is a parameter: `auth.getUser` becomes the credential the request carries, and `auth.admin.createUser`/`deleteUser` are writes to an `accounts` table whose outcome the environment decides.
- The `assign_self_as_admin`, `validate_api_token` and `is_clinic_admin` procedures are left out: their bodies are not part of the source, so the hook models only the procedure's answer (failed, granted, refused), not its write.
- `crypto.getRandomValues` and `crypto.subtle.digest('SHA-256')` are parameters: the model takes the 32 bytes they yield and proves only the hex layer around them.
- Store failures are one flag per request or operation, marking its main query or write as failing. Row-level security is not modelled; every scope is the explicit `.eq` condition in the code.
- Store ordering (`order by`) compares the key's code units; the database's collation for `order('name')` is not modelled.
- Real-time channels, `useEffect` lifecycles and the delayed refetch in `useAppointments` are left out: they concern freshness and concurrency, not what one operation does.
- Toasts, console logging, JSX, CSS classes and icons are left out; the badge's icon and colour are kept only as tags.
- Time has no time zone and no daylight-saving shifts: a day is exactly 24 hours of local time. `parseISO` and `toISOString` are the identity on instants.
- MonthlyCalendar.MonthlyView.NextMonth: the shown month is a month index, so the day-of-month clamping of `addMonths` and the grid of `startOfMonth`/`endOfWeek` days (which needs month lengths) are not modelled. Only the per-day cell and the month stepping are.
- AppointmentModal.ParseInt: reads a run of leading decimal digits. The sign and leading white space that `parseInt` also accepts are not modelled, because the texts it reads here are built from digits.
- ApiTokens.ExpiresAt: `expiresInDays` is an integer; a fractional number of days, which `setDate` would truncate, is not modelled, and a JSON number too large for a double (read as `Infinity`) is covered only as a large integer, which also falls outside the `Date` range.
- The e-mail format check of the patient schema (zod's `.email()`) is a parameter of `PatientModal.SubmitMapsBlankToAbsent`, `PatientModal.Submit` and `PatientModal.SubmitCorrected`.
- AppointmentsApi.GetOne: the 200 payload is the bare appointment row. The `patients:patient_id(...)` and `professionals:professional_id(...)` objects the select embeds are not modelled; they are left joins, so they change no status and no choice of row, only the payload.
- AppointmentsApi.List: the listed rows are bare appointment rows, without the embedded patient and professional objects of the select. Which rows are listed, and in which order, is modelled in full.
- AppointmentsApi.Create: the 201 payload is the inserted row, without the patient and professional objects the source embeds when it reads the row back.
- AppointmentsApi.Update: the 200 payload is the updated row, without the embedded patient and professional objects.
- UseAppointments.AppointmentsHook.Fetch: the list holds bare appointment rows. The `patient:patients(...)` and `professional:professionals(...)` objects the select embeds, which the calendars use to show the patient's name, are not modelled.
- UseAppointments.AppointmentsHook.Create: the appended and returned row lacks the embedded patient and professional objects.
- UseAppointments.AppointmentsHook.Update: the replacing row lacks the embedded patient and professional objects.
- UseAppointments.AppointmentsHook.UpdateAttendanceStatus: the replacing row lacks the embedded patient and professional objects.
- CreateClinicUser.Handle: the `profiles` row of a new account is created outside the code shown, presumably by a database trigger. The model adds no profile, so the 200 payload's `profile` is whatever row the store already held for that user, usually none.
- `statusConfig` lookups for keys inherited from `Object.prototype` (such as `toString`) are not modelled; any key outside the table falls back to the `scheduled` entry.
- UseUserRoles.UserRolesHook.Create: a provisioning answer with an `error` field is modelled as a non-2xx response. `create-clinic-user` sends every error payload with a non-2xx status, and `functions.invoke` reports such a response as an error.
- The pages (Dashboard, Profissionais, Pacientes, Agenda, Configuracoes) are left out because they hold mock data. The presentational components (sidebar, layout, cards, banners, the token and professional modals) hold no logic of their own and are left out too.
- `UserRoleModal` is not part of this model. It builds a request with a `user_email` field that the hook's `CreateUserRoleData` type does not have.
- Rules the code does not have are not added: no start-before-end check on appointments, no validation of attendance values, and no CPF check digits or uniqueness.

## Findings

| source | as written | input that shows it | evidently intended | confidence | as-written member | corrected member |
|---|---|---|---|---|---|---|
| src/hooks/useAppointments.ts:48 | the hooks read `const { currentClinic } = useClinic()`, but `useClinic` returns only `clinic`, `loading`, `createClinic` and `refetch` (src/hooks/useClinic.ts:84-89); the same read is in the patient, professional and role hooks | any signed-in user with a linked clinic: `currentClinic` is `undefined`, so every guarded hook operation returns without doing anything | the hooks read the exported `clinic` | high, not executed | UseClinic.AsWrittenNoHookIsReady | UseClinic.CorrectedHooksSeeTheClinic |
| src/components/PatientModal.tsx:29 | the CPF rule `.min(11).max(14)` counts the characters of the masked text | typing `123456789` gives `123.456.789`, 11 characters, which passes with only nine digits | eleven digits, as the message "CPF deve ter 11 dígitos" says | high, not executed | PatientModal.ShortCpfIsSubmittedAsWritten | PatientModal.SubmitCorrected |
| src/components/AppointmentModal.tsx:106-112 | twenty hourly slots from 08:00, that is `08:00` to `27:00` | picking `24:00` makes `setHours(24, 0)` start the appointment at 00:00 of the next day; any slot from `21:00` on falls outside the calendars' rows (08 to 20) | slots from 08:00 to 20:00, one per calendar row: the calendars lay a day out as the thirteen hours 8 to 20 (src/components/DailyCalendar.tsx:46); the modal itself states no range | medium, not executed | AppointmentModal.LateSlotsLeaveTheDay | AppointmentModal.SlotsStayInTheDay |

/**
 * The attendance badge: the table of the five attendance statuses with their label, icon
 * and colour, the lookup that falls back to "scheduled", and the dropdown that offers every
 * status and hands the choice to `updateAttendanceStatus`.
 */
module AttendanceBadge {
  import opened Wrappers
  import opened Records
  import opened Seqs
  import opened Store
  import opened Client
  import UseAppointments

  datatype Icon = ClockIcon | CheckIcon | XIcon | RotateIcon

  /** The badge's `variant`. */
  datatype Variant = DefaultVariant | Destructive | Secondary | Outline

  /** One entry of `statusConfig`. */
  datatype StatusInfo = StatusInfo(text: string, icon: Icon, color: Variant)

  /** The status a badge shows when none is given. */
  const DefaultStatus: string := "scheduled"

  /** `statusConfig`, its entries in declaration order. */
  const StatusConfig: seq<(string, StatusInfo)> := [
    ("scheduled", StatusInfo("Agendado", ClockIcon, DefaultVariant)),
    ("attended", StatusInfo("Compareceu", CheckIcon, DefaultVariant)),
    ("no_show", StatusInfo("Não compareceu", XIcon, Destructive)),
    ("cancelled", StatusInfo("Cancelado", XIcon, Secondary)),
    ("rescheduled", StatusInfo("Remarcado", RotateIcon, Outline))]

  function KeyOf(entry: (string, StatusInfo)): string
  {
    entry.0
  }

  function KeyIs(key: string): ((string, StatusInfo)) -> bool
  {
    (entry: (string, StatusInfo)) => entry.0 == key
  }

  /** `Object.keys(statusConfig)`, in order. */
  function Keys(): seq<string>
  {
    Map(StatusConfig, KeyOf)
  }

  /** `statusConfig[key]`: `None` for a key the table does not have. */
  function Lookup(key: string): Option<StatusInfo>
  {
    match Find(StatusConfig, KeyIs(key))
    case Some(entry) => Some(entry.1)
    case None => None
  }

  /** The entry shown: `currentStatus` defaults to `'scheduled'`, and a key missing from the table shows the `scheduled` entry. */
  function ConfigFor(currentStatus: Option<string>): StatusInfo
  {
    var status := currentStatus.GetOr(DefaultStatus);
    match Lookup(status)
    case Some(info) => info
    case None => StatusConfig[0].1
  }

  /** What the component renders: the entry on the badge, and the choices of its dropdown (none when not editable). */
  datatype Badge = Badge(shown: StatusInfo, choices: seq<string>)

  /** The component with its props; `editable` defaults to true. */
  function Render(currentStatus: Option<string>, editable: Option<bool>): Badge
  {
    var config := ConfigFor(currentStatus);
    if !editable.GetOr(true) then Badge(config, []) else Badge(config, Keys())
  }

  /**
   * Clicking the dropdown's entry `i`: `handleStatusChange(status)` awaits the hook's
   * `updateAttendanceStatus`, and a failure is only logged.
   */
  method Choose(hook: UseAppointments.AppointmentsHook, db: Database, appointmentId: Id, badge: Badge, i: nat, fault: bool)
    requires i < |badge.choices|
    modifies hook, db
    ensures var (d, row) := UseAppointments.UpdateSpec(old(db.Snapshot()), appointmentId,
                                                      UseAppointments.AttendancePatch(badge.choices[i]), fault);
      && db.Snapshot() == d
      && hook.appointments == if row.Some? then ReplaceById(old(hook.appointments), AppointmentId, appointmentId, row.value)
                              else old(hook.appointments)
  {
    var _ := hook.UpdateAttendanceStatus(db, appointmentId, badge.choices[i], fault);
  }

  /* ---------- what the badge promises ---------- */

  /** The table has exactly five keys, each once. */
  lemma FiveKeys()
    ensures Keys() == ["scheduled", "attended", "no_show", "cancelled", "rescheduled"]
    ensures forall i, j :: 0 <= i < j < |Keys()| ==> Keys()[i] != Keys()[j]
  {
  }

  /** A status the table knows shows its own entry. */
  lemma KnownStatusShowsItsEntry(key: string, k: int)
    requires 0 <= k < |StatusConfig| && StatusConfig[k].0 == key
    ensures Lookup(key) == Some(StatusConfig[k].1)
    ensures ConfigFor(Some(key)) == StatusConfig[k].1
  {
    FiveKeys();
    var found := Find(StatusConfig, KeyIs(key));
    var j :| 0 <= j < |StatusConfig| && StatusConfig[j] == found.value && KeyIs(key)(StatusConfig[j])
             && forall m :: 0 <= m < j ==> !KeyIs(key)(StatusConfig[m]);
    assert Keys()[j] == key && Keys()[k] == key;
  }

  /** No status, or one the table lacks, shows the `scheduled` entry: "Agendado" with the clock. */
  lemma UnknownStatusShowsScheduled(currentStatus: Option<string>)
    requires currentStatus.None? || currentStatus.value !in Keys()
    ensures ConfigFor(currentStatus) == StatusInfo("Agendado", ClockIcon, DefaultVariant)
  {
    if currentStatus.Some? {
      var key := currentStatus.value;
      forall i | 0 <= i < |StatusConfig|
        ensures !KeyIs(key)(StatusConfig[i])
      {
        assert Keys()[i] == StatusConfig[i].0;
      }
    }
  }

  /** The update's confirmation message knows a label for exactly the badge's keys. */
  lemma HookKnowsTheSameKeys(key: string)
    ensures UseAppointments.StatusLabel(key).Some? <==> key in Keys()
  {
    FiveKeys();
    UseAppointments.StatusLabelKeys(key);
  }

  /** Each status has the same label on the badge as in the update's confirmation message. */
  lemma LabelsAgreeWithHook(k: int)
    requires 0 <= k < |StatusConfig|
    ensures UseAppointments.StatusLabel(StatusConfig[k].0) == Some(StatusConfig[k].1.text)
  {
    if k == 0 {
      assert StatusConfig[k].0 == "scheduled";
    } else if k == 1 {
      assert StatusConfig[k].0 == "attended";
    } else if k == 2 {
      assert StatusConfig[k].0 == "no_show";
    } else if k == 3 {
      assert StatusConfig[k].0 == "cancelled";
    } else {
      assert StatusConfig[k].0 == "rescheduled";
    }
  }

  /** An editable badge offers every status, in table order; a read-only one offers none, so nothing can be updated from it. */
  lemma ChoicesOffered(currentStatus: Option<string>, editable: Option<bool>)
    ensures Render(currentStatus, editable).shown == ConfigFor(currentStatus)
    ensures Render(currentStatus, editable).choices == if editable == Some(false) then [] else Keys()
  {
  }
}

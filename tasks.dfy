/**
 * The periodic SLA sweep and the SLA notification it dispatches. For every
 * open petition with a department and an SLA row for its (department,
 * urgency), the deadline is the creation time plus the row's hours; a
 * petition past its deadline is VIOLATED, one with less than two hours left
 * is a WARNING, and each such entry yields one notification.
 */
module SlaTasks {
  import opened Wrappers
  import opened Text
  import opened Models

  /** Below this many seconds remaining, a petition is flagged as a warning. */
  const WarningWindowSeconds: int := 7200

  datatype SlaStatus = Violated | Warning

  /** The status string handed to the notification task, chosen so that it selects the matching alert. */
  function SlaStatusName(s: SlaStatus): (name: string)
    ensures AlertFor(name) == (if s == Violated then ViolationAlert else DeadlineWarning)
  {
    match s
    case Violated => "VIOLATED"
    case Warning => "WARNING"
  }

  /**
   * One recorded case: a VIOLATED entry carries the seconds overdue, a WARNING
   * entry the seconds left.
   */
  datatype SlaIssue = SlaIssue(petitionId: PetitionId, status: SlaStatus, seconds: nat)

  /** One queued notification task: the petition and its classification. */
  datatype Notification = Notification(petitionId: PetitionId, status: SlaStatus)

  /** What the sweep reports: petitions examined and issues found. */
  datatype SweepReport = SweepReport(checked: nat, issues: nat)

  /** The open petitions, in table order (the status filter of the sweep's query). */
  function PendingPetitions(ps: seq<Petition>): (r: seq<Petition>)
    ensures |r| <= |ps|
    ensures forall p :: p in r <==> p in ps && IsPending(p.status)
  {
    if ps == [] then []
    else
      var init := ps[..|ps| - 1];
      assert forall k :: 0 <= k < |init| ==> init[k] == ps[k];
      PendingPetitions(init) + (if IsPending(ps[|ps| - 1].status) then [ps[|ps| - 1]] else [])
  }

  /** The positions of the open petitions of the table. */
  ghost function OpenPositions(ps: seq<Petition>): set<int> {
    set k | 0 <= k < |ps| && IsPending(ps[k].status)
  }

  /** Extending the table by one petition adds its position exactly when it is open. */
  lemma OpenPositionsSnoc(ps: seq<Petition>)
    requires ps != []
    ensures var n := |ps| - 1;
      OpenPositions(ps) == OpenPositions(ps[..n]) + (if IsPending(ps[n].status) then {n} else {})
  {
    var n := |ps| - 1;
    assert forall k :: 0 <= k < n ==> ps[..n][k] == ps[k];
  }

  /** The filter keeps each open petition once: its length is the number of open positions. */
  lemma {:induction false} PendingCountsOpenPositions(ps: seq<Petition>)
    ensures |PendingPetitions(ps)| == |OpenPositions(ps)|
  {
    if ps != [] {
      var n := |ps| - 1;
      PendingCountsOpenPositions(ps[..n]);
      OpenPositionsSnoc(ps);
      assert n !in OpenPositions(ps[..n]);
    }
  }

  /** The filter distributes over concatenation, so the open petitions keep their table order. */
  lemma {:induction false} PendingAppend(xs: seq<Petition>, ys: seq<Petition>)
    ensures PendingPetitions(xs + ys) == PendingPetitions(xs) + PendingPetitions(ys)
  {
    if ys != [] {
      var n := |ys| - 1;
      assert (xs + ys)[..|xs + ys| - 1] == xs + ys[..n];
      assert (xs + ys)[|xs + ys| - 1] == ys[n];
      PendingAppend(xs, ys[..n]);
    } else {
      assert xs + ys == xs;
    }
  }

  /** The SLA row governing `p`, or None when `p` has no department or its pair has no row. */
  function SlaFor(p: Petition, slas: seq<SlaRow>): (r: Option<SlaRow>)
    ensures r.Some? ==> p.department.Some? && r.value in slas && HasKey(r.value, p.department.value, p.urgency)
    ensures p.department.None? ==> r.None?
  {
    match p.department
    case None => None
    case Some(d) => FindSla(slas, d, p.urgency)
  }

  /** Seconds from `now` to the deadline `created_at + resolution_time_hours` (negative once past it). */
  function Remaining(p: Petition, row: SlaRow, now: Timestamp): int {
    p.createdAt + row.resolutionTimeHours * 3600 - now
  }

  function Abs(x: int): nat { if x < 0 then -x else x }

  /** The sweep's verdict on one petition: None when it is exempt or on track. */
  function Classify(p: Petition, slas: seq<SlaRow>, now: Timestamp): (r: Option<SlaIssue>)
    ensures SlaFor(p, slas).None? ==> r.None?
    ensures SlaFor(p, slas).Some? ==>
      var rem := Remaining(p, SlaFor(p, slas).value, now);
      && (r.Some? <==> rem < WarningWindowSeconds)
      && (r.Some? ==> r.value.petitionId == p.id && r.value.seconds == Abs(rem))
      && (r.Some? ==> (r.value.status == Violated <==> rem < 0))
  {
    match SlaFor(p, slas)
    case None => None
    case Some(row) =>
      var rem := Remaining(p, row, now);
      if rem < 0 then Some(SlaIssue(p.id, Violated, -rem))
      else if rem < WarningWindowSeconds then Some(SlaIssue(p.id, Warning, rem))
      else None
  }

  /** The entries recorded for `ps`, in the order of `ps`. */
  function Issues(ps: seq<Petition>, slas: seq<SlaRow>, now: Timestamp): (r: seq<SlaIssue>)
    ensures |r| <= |ps|
  {
    if ps == [] then []
    else
      var c := Classify(ps[|ps| - 1], slas, now);
      Issues(ps[..|ps| - 1], slas, now) + (if c.Some? then [c.value] else [])
  }

  /** Recording distributes over concatenation: entries keep the petitions' order. */
  lemma {:induction false} IssuesAppend(xs: seq<Petition>, ys: seq<Petition>, slas: seq<SlaRow>, now: Timestamp)
    ensures Issues(xs + ys, slas, now) == Issues(xs, slas, now) + Issues(ys, slas, now)
  {
    if ys != [] {
      var n := |ys| - 1;
      assert (xs + ys)[..|xs + ys| - 1] == xs + ys[..n];
      IssuesAppend(xs, ys[..n], slas, now);
    } else {
      assert xs + ys == xs;
    }
  }

  /** An entry is recorded exactly when some petition of `ps` classifies to it. */
  lemma {:induction false} IssuesMembership(ps: seq<Petition>, slas: seq<SlaRow>, now: Timestamp, e: SlaIssue)
    ensures e in Issues(ps, slas, now) <==> exists k :: 0 <= k < |ps| && Classify(ps[k], slas, now) == Some(e)
  {
    if ps != [] {
      var n := |ps| - 1;
      var init := ps[..n];
      IssuesMembership(init, slas, now, e);
      assert forall k :: 0 <= k < n ==> init[k] == ps[k];
      if Classify(ps[n], slas, now) == Some(e) {
        assert e in Issues(ps, slas, now);
      }
    }
  }

  /** The positions of `ps` whose petition is flagged. */
  ghost function FlaggedPositions(ps: seq<Petition>, slas: seq<SlaRow>, now: Timestamp): set<int> {
    set k | 0 <= k < |ps| && Classify(ps[k], slas, now).Some?
  }

  /** Extending the table by one petition adds its position exactly when it is flagged. */
  lemma FlaggedPositionsSnoc(ps: seq<Petition>, slas: seq<SlaRow>, now: Timestamp)
    requires ps != []
    ensures var n := |ps| - 1;
      FlaggedPositions(ps, slas, now) ==
        FlaggedPositions(ps[..n], slas, now) + (if Classify(ps[n], slas, now).Some? then {n} else {})
  {
    var n := |ps| - 1;
    assert forall k :: 0 <= k < n ==> ps[..n][k] == ps[k];
  }

  /** One entry per flagged petition: the issue count is the number of flagged petitions. */
  lemma {:induction false} IssuesCount(ps: seq<Petition>, slas: seq<SlaRow>, now: Timestamp)
    ensures |Issues(ps, slas, now)| == |FlaggedPositions(ps, slas, now)|
  {
    if ps != [] {
      var n := |ps| - 1;
      IssuesCount(ps[..n], slas, now);
      FlaggedPositionsSnoc(ps, slas, now);
      assert n !in FlaggedPositions(ps[..n], slas, now);
    }
  }

  /**
   * What one sweep records, stated against the whole table: an entry is
   * recorded exactly when an open petition of the table classifies to it.
   */
  lemma SweepRecordsExactlyFlaggedOpenPetitions(ps: seq<Petition>, slas: seq<SlaRow>, now: Timestamp, e: SlaIssue)
    ensures e in Issues(PendingPetitions(ps), slas, now) <==>
      exists p :: p in ps && IsPending(p.status) && Classify(p, slas, now) == Some(e)
  {
    var pend := PendingPetitions(ps);
    IssuesMembership(pend, slas, now, e);
    if e in Issues(pend, slas, now) {
      var k :| 0 <= k < |pend| && Classify(pend[k], slas, now) == Some(e);
      assert pend[k] in pend;
    }
    if exists p :: p in ps && IsPending(p.status) && Classify(p, slas, now) == Some(e) {
      var p :| p in ps && IsPending(p.status) && Classify(p, slas, now) == Some(e);
      assert p in pend;
      var k :| 0 <= k < |pend| && pend[k] == p;
    }
  }

  /** The notification task queued for one entry. */
  function NotificationFor(e: SlaIssue): Notification {
    Notification(e.petitionId, e.status)
  }

  /** The sweep's loop body for one petition: look up its SLA row, then compare the time left with the window. */
  method ClassifySla(petition: Petition, slas: seq<SlaRow>, now: Timestamp) returns (entry: Option<SlaIssue>)
    ensures entry == Classify(petition, slas, now)
  {
    entry := None;
    if petition.department.Some? {
      var sla := FindSla(slas, petition.department.value, petition.urgency);
      if sla.Some? {
        var remaining := petition.createdAt + sla.value.resolutionTimeHours * 3600 - now;
        assert remaining == Remaining(petition, sla.value, now);
        if remaining < 0 {
          entry := Some(SlaIssue(petition.id, Violated, -remaining));
        } else if remaining < WarningWindowSeconds {
          entry := Some(SlaIssue(petition.id, Warning, remaining));
        }
      }
    }
  }

  /** The sweep's first loop: one entry per flagged petition, in order. */
  method RecordIssues(pending: seq<Petition>, slas: seq<SlaRow>, now: Timestamp) returns (violations: seq<SlaIssue>)
    ensures violations == Issues(pending, slas, now)
  {
    violations := [];
    for i := 0 to |pending|
      invariant violations == Issues(pending[..i], slas, now)
    {
      var entry := ClassifySla(pending[i], slas, now);
      assert pending[..i + 1][..i] == pending[..i];
      if entry.Some? {
        violations := violations + [entry.value];
      }
    }
    assert pending[..|pending|] == pending;
  }

  /** The sweep's second loop: one notification task per entry, in order. */
  method QueueNotifications(violations: seq<SlaIssue>) returns (queued: seq<Notification>)
    ensures |queued| == |violations|
    ensures forall k :: 0 <= k < |queued| ==>
      queued[k].petitionId == violations[k].petitionId && queued[k].status == violations[k].status
  {
    queued := [];
    for j := 0 to |violations|
      invariant |queued| == j
      invariant forall k :: 0 <= k < j ==> queued[k] == NotificationFor(violations[k])
    {
      queued := queued + [NotificationFor(violations[j])];
    }
  }

  /** The task's summary line. */
  function ReportMessage(r: SweepReport): string {
    "Checked " + NatToString(r.checked) + " petitions, found " + NatToString(r.issues) + " SLA issues"
  }

  /**
   * `check_sla_violations` at time `now`: records the entries of the open
   * petitions, queues one notification per entry in order, and reports the
   * counts.
   */
  method CheckSlaViolations(petitions: seq<Petition>, slas: seq<SlaRow>, now: Timestamp)
    returns (violations: seq<SlaIssue>, queued: seq<Notification>, report: SweepReport, summary: string)
    // The table constraint is stated for fidelity, not used by the proof: with two
    // rows for one pair the source's `get` raises an error the task does not catch.
    requires SlaKeysUnique(slas)
    ensures violations == Issues(PendingPetitions(petitions), slas, now)
    ensures |queued| == |violations|
    ensures forall k :: 0 <= k < |queued| ==>
      queued[k].petitionId == violations[k].petitionId && queued[k].status == violations[k].status
    ensures report.checked == |PendingPetitions(petitions)| == |OpenPositions(petitions)|
    ensures report.issues == |violations| <= report.checked
    ensures summary == ReportMessage(report)
  {
    var pending := PendingPetitions(petitions);
    violations := RecordIssues(pending, slas, now);
    queued := QueueNotifications(violations);
    report := SweepReport(|pending|, |violations|);
    PendingCountsOpenPositions(petitions);
    summary := "Checked " + NatToString(report.checked) + " petitions, found "
      + NatToString(report.issues) + " SLA issues";
  }

  //------------------------------------------------------------ send_sla_notification

  datatype AlertKind = ViolationAlert | DeadlineWarning

  /** The message template: the violation text exactly for status "VIOLATED", the warning text otherwise. */
  function AlertFor(status: string): (k: AlertKind)
    ensures k == ViolationAlert <==> status == "VIOLATED"
  {
    if status == "VIOLATED" then ViolationAlert else DeadlineWarning
  }

  function AlertHeading(k: AlertKind): string {
    match k
    case ViolationAlert => "SLA Violation Alert"
    case DeadlineWarning => "SLA Warning"
  }

  function AlertClosing(k: AlertKind): string {
    match k
    case ViolationAlert => "This petition has exceeded its SLA resolution time. Immediate action required."
    case DeadlineWarning => "This petition's SLA deadline is approaching (less than 2 hours remaining)."
  }

  /** The two templates open differently, so the mail's heading tells a violation from a warning. */
  lemma AlertHeadingsDiffer(k: AlertKind, j: AlertKind)
    ensures AlertHeading(k) == AlertHeading(j) <==> k == j
  {
    assert |AlertHeading(ViolationAlert)| != |AlertHeading(DeadlineWarning)|;
  }

  /** The two templates close differently: the overdue notice and the approaching-deadline notice. */
  lemma AlertClosingsDiffer(k: AlertKind, j: AlertKind)
    ensures AlertClosing(k) == AlertClosing(j) <==> k == j
  {
    assert |AlertClosing(ViolationAlert)| != |AlertClosing(DeadlineWarning)|;
  }

  /** The e-mail composed for a petition: subject, template and the petition it describes. */
  datatype SlaEmail = SlaEmail(subject: string, alert: AlertKind, petition: Petition)

  datatype NotifyOutcome =
    | Sent(email: SlaEmail, reply: string)
    | PetitionNotFound(reply: string)

  /** `send_sla_notification` for the petition with id `petitionId` and status string `status`. */
  function SendSlaNotification(ps: seq<Petition>, petitionId: PetitionId, status: string): (r: NotifyOutcome)
    ensures r.PetitionNotFound? <==> forall k :: 0 <= k < |ps| ==> ps[k].id != petitionId
    ensures r.PetitionNotFound? ==> r.reply == "Petition " + NatToString(petitionId) + " not found"
    ensures r.Sent? ==>
      && r.email.petition in ps && r.email.petition.id == petitionId
      && r.email.subject == "SLA " + status + ": Petition #" + NatToString(petitionId)
      && (r.email.alert == ViolationAlert <==> status == "VIOLATED")
      && r.reply == "Sent " + status + " notification for petition " + NatToString(petitionId)
  {
    match FindPetition(ps, petitionId)
    case None => PetitionNotFound("Petition " + NatToString(petitionId) + " not found")
    case Some(p) =>
      var subject := "SLA " + status + ": Petition #" + NatToString(p.id);
      Sent(SlaEmail(subject, AlertFor(status), p),
           "Sent " + status + " notification for petition " + NatToString(petitionId))
  }

  /**
   * A notification queued by the sweep, delivered against the same table,
   * finds its petition and uses the template of its classification.
   */
  lemma QueuedNotificationUsesMatchingAlert(ps: seq<Petition>, slas: seq<SlaRow>, now: Timestamp, e: SlaIssue)
    requires e in Issues(PendingPetitions(ps), slas, now)
    ensures var n := NotificationFor(e);
      var r := SendSlaNotification(ps, n.petitionId, SlaStatusName(n.status));
      r.Sent? && (r.email.alert == ViolationAlert <==> e.status == Violated)
  {
    SweepRecordsExactlyFlaggedOpenPetitions(ps, slas, now, e);
    var p :| p in ps && IsPending(p.status) && Classify(p, slas, now) == Some(e);
    var k :| 0 <= k < |ps| && ps[k] == p;
  }

  /** Roads, CRITICAL, four hours: 5 h old is one hour overdue, 3 h 10 min old has 50 min left, 1 h old is on track. */
  lemma RoadsScenario(now: Timestamp)
    ensures var roads := 1;
      var slas := [SlaRow(roads, Critical, 4)];
      var p := NewPetition(1, "pothole", "", 5, 0).(department := Some(roads), urgency := Critical);
      && Classify(p.(createdAt := now - 5 * 3600), slas, now) == Some(SlaIssue(1, Violated, 3600))
      && Classify(p.(createdAt := now - 3 * 3600 - 600), slas, now) == Some(SlaIssue(1, Warning, 3000))
      && Classify(p.(createdAt := now - 3600), slas, now) == None
  {
  }
}

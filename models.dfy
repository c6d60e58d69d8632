/**
 * The petition data model: departments, SLA policy rows keyed by
 * (department, urgency), petitions with their status and urgency
 * enumerations, users with their role, and the audit-log action kinds.
 * References between records are ids; a nullable foreign key is an Option.
 * Timestamps are whole seconds since the epoch.
 */
module Models {
  import opened Wrappers

  type DepartmentId = nat
  type UserId = nat
  type PetitionId = nat
  type Timestamp = int

  datatype Department = Department(id: DepartmentId, name: string, description: string)

  // ---------------------------------------------------------------- Urgency

  datatype Urgency = Low | Medium | High | Critical

  const AllUrgencies: seq<Urgency> := [Low, Medium, High, Critical]

  /** The stored value of each urgency. */
  function UrgencyName(u: Urgency): string {
    match u
    case Low => "LOW"
    case Medium => "MEDIUM"
    case High => "HIGH"
    case Critical => "CRITICAL"
  }

  /** The urgency whose stored value is `name`, if any. */
  function ParseUrgency(name: string): (r: Option<Urgency>)
    ensures r.Some? ==> UrgencyName(r.value) == name
    ensures r.None? ==> forall u :: UrgencyName(u) != name
  {
    if name == "LOW" then Some(Low)
    else if name == "MEDIUM" then Some(Medium)
    else if name == "HIGH" then Some(High)
    else if name == "CRITICAL" then Some(Critical)
    else None
  }

  /** Urgency has exactly four values, with distinct stored names. */
  lemma UrgencyIsFourValued()
    ensures |AllUrgencies| == 4
    ensures forall u: Urgency :: u in AllUrgencies
    ensures forall i, j :: 0 <= i < j < |AllUrgencies| ==>
      UrgencyName(AllUrgencies[i]) != UrgencyName(AllUrgencies[j])
    ensures forall u :: ParseUrgency(UrgencyName(u)) == Some(u)
  {
    forall u: Urgency ensures u in AllUrgencies {
      match u
      case Low => assert AllUrgencies[0] == u;
      case Medium => assert AllUrgencies[1] == u;
      case High => assert AllUrgencies[2] == u;
      case Critical => assert AllUrgencies[3] == u;
    }
  }

  // ---------------------------------------------------------------- SLA

  /** One SLA policy row: resolution time in whole hours for a (department, urgency) pair. */
  datatype SlaRow = SlaRow(department: DepartmentId, urgency: Urgency, resolutionTimeHours: int)

  predicate HasKey(row: SlaRow, d: DepartmentId, u: Urgency) {
    row.department == d && row.urgency == u
  }

  /** The table constraint: at most one row per (department, urgency). */
  ghost predicate SlaKeysUnique(slas: seq<SlaRow>) {
    forall i, j :: 0 <= i < j < |slas| ==>
      slas[i].department != slas[j].department || slas[i].urgency != slas[j].urgency
  }

  /** The row for (d, u), or None when there is none (the query's DoesNotExist). */
  function FindSla(slas: seq<SlaRow>, d: DepartmentId, u: Urgency): (r: Option<SlaRow>)
    ensures r.Some? ==> r.value in slas && HasKey(r.value, d, u)
    ensures r.None? <==> forall k :: 0 <= k < |slas| ==> !HasKey(slas[k], d, u)
  {
    if slas == [] then None
    else if HasKey(slas[0], d, u) then Some(slas[0])
    else FindSla(slas[1..], d, u)
  }

  /** Under the table constraint the lookup is a partial function: any row with the key is the one found. */
  lemma {:induction false} FindSlaUnique(slas: seq<SlaRow>, d: DepartmentId, u: Urgency, k: nat)
    requires SlaKeysUnique(slas)
    requires k < |slas| && HasKey(slas[k], d, u)
    ensures FindSla(slas, d, u) == Some(slas[k])
  {
    if k > 0 {
      assert !HasKey(slas[0], d, u) by {
        assert slas[0].department != slas[k].department || slas[0].urgency != slas[k].urgency;
      }
      assert SlaKeysUnique(slas[1..]) by {
        forall i, j | 0 <= i < j < |slas| - 1
          ensures slas[1..][i].department != slas[1..][j].department || slas[1..][i].urgency != slas[1..][j].urgency
        {
          assert slas[1..][i] == slas[i + 1] && slas[1..][j] == slas[j + 1];
        }
      }
      FindSlaUnique(slas[1..], d, u, k - 1);
    }
  }

  // ---------------------------------------------------------------- Petition

  datatype Status = Submitted | UnderReview | Assigned | InProgress | Resolved | Rejected | Closed

  const AllStatuses: seq<Status> := [Submitted, UnderReview, Assigned, InProgress, Resolved, Rejected, Closed]

  function StatusName(s: Status): string {
    match s
    case Submitted => "SUBMITTED"
    case UnderReview => "UNDER_REVIEW"
    case Assigned => "ASSIGNED"
    case InProgress => "IN_PROGRESS"
    case Resolved => "RESOLVED"
    case Rejected => "REJECTED"
    case Closed => "CLOSED"
  }

  /** The statuses the assignment workload and the SLA sweep both treat as still open. */
  predicate IsPending(s: Status) {
    s == Submitted || s == UnderReview || s == Assigned || s == InProgress
  }

  /** Status has exactly seven values; four are pending and three are terminal. */
  lemma StatusIsSevenValued()
    ensures |AllStatuses| == 7
    ensures forall s: Status :: s in AllStatuses
    ensures forall i, j :: 0 <= i < j < |AllStatuses| ==>
      StatusName(AllStatuses[i]) != StatusName(AllStatuses[j])
    ensures forall s :: !IsPending(s) <==> s in {Resolved, Rejected, Closed}
  {
    forall s: Status ensures s in AllStatuses {
      match s
      case Submitted => assert AllStatuses[0] == s;
      case UnderReview => assert AllStatuses[1] == s;
      case Assigned => assert AllStatuses[2] == s;
      case InProgress => assert AllStatuses[3] == s;
      case Resolved => assert AllStatuses[4] == s;
      case Rejected => assert AllStatuses[5] == s;
      case Closed => assert AllStatuses[6] == s;
    }
  }

  datatype Petition = Petition(
    id: PetitionId,
    title: string,
    description: string,
    citizen: UserId,
    department: Option<DepartmentId>,
    assignedOfficer: Option<UserId>,
    status: Status,
    urgency: Urgency,
    isDuplicate: bool,
    createdAt: Timestamp,
    updatedAt: Timestamp)

  /** A freshly created petition: every field the caller does not give takes its default. */
  function NewPetition(id: PetitionId, title: string, description: string, citizen: UserId,
                       now: Timestamp): (p: Petition)
    ensures p.id == id && p.title == title && p.description == description && p.citizen == citizen
    ensures p.status == Submitted && p.urgency == Low && !p.isDuplicate
    ensures p.department.None? && p.assignedOfficer.None?
    ensures p.createdAt == now && p.updatedAt == now
  {
    Petition(id, title, description, citizen, None, None, Submitted, Low, false, now, now)
  }

  /** Petition ids are unique in a table. */
  ghost predicate PetitionIdsUnique(ps: seq<Petition>) {
    forall i, j :: 0 <= i < j < |ps| ==> ps[i].id != ps[j].id
  }

  /** The petition with id `id`, or None (the query's DoesNotExist). */
  function FindPetition(ps: seq<Petition>, id: PetitionId): (r: Option<Petition>)
    ensures r.Some? ==> r.value in ps && r.value.id == id
    ensures r.None? <==> forall k :: 0 <= k < |ps| ==> ps[k].id != id
  {
    if ps == [] then None
    else if ps[0].id == id then Some(ps[0])
    else FindPetition(ps[1..], id)
  }

  // ---------------------------------------------------------------- Users

  datatype Role = Citizen | Officer | Admin

  /**
   * A user. The department and the officer flag are the attributes the
   * assignment filter asks of an officer.
   */
  datatype User = User(
    id: UserId,
    username: string,
    role: Role,
    department: Option<DepartmentId>,
    isActiveOfficer: bool,
    isActive: bool)

  ghost predicate UserIdsUnique(us: seq<User>) {
    forall i, j :: 0 <= i < j < |us| ==> us[i].id != us[j].id
  }

  // ---------------------------------------------------------------- Audit log

  datatype AuditAction = Created | StatusChanged | AssignedToOfficer | DocumentUploaded | Updated

  function AuditActionName(a: AuditAction): string {
    match a
    case Created => "CREATED"
    case StatusChanged => "STATUS_CHANGED"
    case AssignedToOfficer => "ASSIGNED"
    case DocumentUploaded => "DOCUMENT_UPLOADED"
    case Updated => "UPDATED"
  }

  /** Distinct audit actions are stored under distinct names. */
  lemma AuditActionNamesDistinct(a: AuditAction, b: AuditAction)
    ensures AuditActionName(a) == AuditActionName(b) ==> a == b
  {
  }
}

/**
 * Auto-assignment: a petition with a department goes to an eligible officer
 * of that department whose workload (open petitions assigned to them) is
 * least, and the petition becomes ASSIGNED to that officer.
 */
module Assignment {
  import opened Wrappers
  import opened Models

  /** The candidate filter: role OFFICER, the given department, officer flag set, account active. */
  predicate IsEligible(u: User, d: DepartmentId) {
    u.role == Officer && u.department == Some(d) && u.isActiveOfficer && u.isActive
  }

  /** A petition adds to an officer's workload when it is assigned to them and still open. */
  predicate CountsToward(p: Petition, officer: UserId) {
    p.assignedOfficer == Some(officer) && IsPending(p.status)
  }

  /** Number of petitions in `ps` that count toward `officer`'s workload. */
  function Workload(ps: seq<Petition>, officer: UserId): (n: nat)
    ensures n <= |ps|
  {
    if ps == [] then 0
    else
      var init := ps[..|ps| - 1];
      assert forall k :: 0 <= k < |init| ==> init[k] == ps[k];
      Workload(init, officer) + (if CountsToward(ps[|ps| - 1], officer) then 1 else 0)
  }

  /** An officer has no workload exactly when no petition of the table counts toward them. */
  lemma {:induction false} WorkloadZeroIffIdle(ps: seq<Petition>, officer: UserId)
    ensures Workload(ps, officer) == 0 <==> forall k :: 0 <= k < |ps| ==> !CountsToward(ps[k], officer)
  {
    if ps != [] {
      var n := |ps| - 1;
      WorkloadZeroIffIdle(ps[..n], officer);
      assert forall k :: 0 <= k < n ==> ps[..n][k] == ps[k];
    }
  }

  /** The positions in the table of the petitions that count toward `officer`. */
  ghost function CountedPositions(ps: seq<Petition>, officer: UserId): set<int> {
    set k | 0 <= k < |ps| && CountsToward(ps[k], officer)
  }

  /** The workload is exactly the number of open petitions assigned to the officer. */
  lemma {:induction false} WorkloadCountsPositions(ps: seq<Petition>, officer: UserId)
    ensures Workload(ps, officer) == |CountedPositions(ps, officer)|
  {
    if ps != [] {
      var n := |ps| - 1;
      var init := ps[..n];
      WorkloadCountsPositions(init, officer);
      var a := CountedPositions(init, officer);
      assert forall k :: 0 <= k < n ==> init[k] == ps[k];
      if CountsToward(ps[n], officer) {
        assert CountedPositions(ps, officer) == a + {n};
        assert n !in a;
      } else {
        assert CountedPositions(ps, officer) == a;
      }
    }
  }

  /** `get_officer_workload`: zero for a non-officer, else the count of their open petitions. */
  function GetOfficerWorkload(u: User, ps: seq<Petition>): (n: nat)
    ensures u.role != Officer ==> n == 0
    ensures u.role == Officer ==> n == |CountedPositions(ps, u.id)|
  {
    if u.role != Officer then 0
    else
      WorkloadCountsPositions(ps, u.id);
      Workload(ps, u.id)
  }

  /** `get_department_officers`: the users passing the candidate filter, in table order. */
  function DepartmentOfficers(users: seq<User>, d: DepartmentId): (r: seq<User>)
    ensures |r| <= |users|
    ensures forall u :: u in r <==> u in users && IsEligible(u, d)
  {
    if users == [] then []
    else
      var init := users[..|users| - 1];
      assert forall k :: 0 <= k < |init| ==> init[k] == users[k];
      DepartmentOfficers(init, d) + (if IsEligible(users[|users| - 1], d) then [users[|users| - 1]] else [])
  }

  /** The positions in the user table of the users passing the candidate filter. */
  ghost function EligiblePositions(users: seq<User>, d: DepartmentId): set<int> {
    set k | 0 <= k < |users| && IsEligible(users[k], d)
  }

  /** Extending the user table by one user adds its position exactly when it passes the filter. */
  lemma EligiblePositionsSnoc(users: seq<User>, d: DepartmentId)
    requires users != []
    ensures var n := |users| - 1;
      EligiblePositions(users, d) ==
        EligiblePositions(users[..n], d) + (if IsEligible(users[n], d) then {n} else {})
  {
    var n := |users| - 1;
    assert forall k :: 0 <= k < n ==> users[..n][k] == users[k];
  }

  /** Each eligible user is returned once: the result has one entry per eligible position. */
  lemma {:induction false} DepartmentOfficersCount(users: seq<User>, d: DepartmentId)
    ensures |DepartmentOfficers(users, d)| == |EligiblePositions(users, d)|
  {
    if users != [] {
      var n := |users| - 1;
      DepartmentOfficersCount(users[..n], d);
      EligiblePositionsSnoc(users, d);
      assert n !in EligiblePositions(users[..n], d);
    }
  }

  /** The filter distributes over concatenation, so officers come in the order of the user table. */
  lemma {:induction false} DepartmentOfficersAppend(xs: seq<User>, ys: seq<User>, d: DepartmentId)
    ensures DepartmentOfficers(xs + ys, d) == DepartmentOfficers(xs, d) + DepartmentOfficers(ys, d)
  {
    if ys != [] {
      var n := |ys| - 1;
      assert (xs + ys)[..|xs + ys| - 1] == xs + ys[..n];
      assert (xs + ys)[|xs + ys| - 1] == ys[n];
      DepartmentOfficersAppend(xs, ys[..n], d);
    } else {
      assert xs + ys == xs;
    }
  }

  /** `o` has no more workload than any eligible officer of department `d`. */
  ghost predicate HasLeastWorkload(ps: seq<Petition>, users: seq<User>, d: DepartmentId, o: User) {
    forall u :: u in users && IsEligible(u, d) ==> Workload(ps, o.id) <= Workload(ps, u.id)
  }

  /**
   * The least-workload choice: the position of an eligible officer of
   * department `d` whose workload is minimal, or None when there is none.
   */
  method SelectOfficer(users: seq<User>, ps: seq<Petition>, d: DepartmentId) returns (r: Option<nat>)
    ensures r.None? <==> DepartmentOfficers(users, d) == []
    ensures r.Some? ==> r.value < |users| && IsEligible(users[r.value], d)
    ensures r.Some? ==> HasLeastWorkload(ps, users, d, users[r.value])
  {
    r := None;
    var best := 0;
    var k := 0;
    while k < |users|
      invariant 0 <= k <= |users|
      invariant r.None? <==> forall u :: u in users[..k] ==> !IsEligible(u, d)
      invariant r.Some? ==> r.value < k && IsEligible(users[r.value], d)
      invariant r.Some? ==> best == Workload(ps, users[r.value].id)
      invariant r.Some? ==> forall u :: u in users[..k] && IsEligible(u, d) ==> best <= Workload(ps, u.id)
    {
      assert users[..k + 1] == users[..k] + [users[k]];
      if IsEligible(users[k], d) {
        var w := Workload(ps, users[k].id);
        if r.None? || w < best {
          r := Some(k);
          best := w;
        }
      }
      k := k + 1;
    }
    assert users[..k] == users;
    var officers := DepartmentOfficers(users, d);
    assert officers != [] ==> officers[0] in officers;
    assert r.Some? ==> users[r.value] in officers;
  }

  /** The petition fields that assignment leaves alone are equal in `p` and `q`. */
  predicate SameApartFromAssignment(p: Petition, q: Petition) {
    && p.id == q.id && p.title == q.title && p.description == q.description
    && p.citizen == q.citizen && p.department == q.department && p.urgency == q.urgency
    && p.isDuplicate == q.isDuplicate && p.createdAt == q.createdAt
  }

  /** The petition after it is assigned to `officer` and saved at time `now`. */
  function AssignedTo(p: Petition, officer: UserId, now: Timestamp): (q: Petition)
    ensures SameApartFromAssignment(p, q)
    ensures q.assignedOfficer == Some(officer) && q.status == Assigned && q.updatedAt == now
  {
    p.(assignedOfficer := Some(officer), status := Assigned, updatedAt := now)
  }

  /**
   * Assigning petition `i` to `o` moves its weight: `o` gains one unless it
   * already counted toward `o`, and any other officer loses one if it counted
   * toward them.
   */
  lemma {:induction false} AssignmentMovesWorkload(ps: seq<Petition>, i: nat, o: UserId, now: Timestamp, x: UserId)
    requires i < |ps|
    ensures Workload(ps[i := AssignedTo(ps[i], o, now)], x) ==
      Workload(ps, x) - (if CountsToward(ps[i], x) then 1 else 0) + (if x == o then 1 else 0)
  {
    var n := |ps| - 1;
    var qs := ps[i := AssignedTo(ps[i], o, now)];
    assert Workload(qs, x) == Workload(qs[..n], x) + (if CountsToward(qs[n], x) then 1 else 0);
    assert Workload(ps, x) == Workload(ps[..n], x) + (if CountsToward(ps[n], x) then 1 else 0);
    if i == n {
      assert qs[..n] == ps[..n];
    } else {
      assert qs[..n] == ps[..n][i := AssignedTo(ps[..n][i], o, now)];
      AssignmentMovesWorkload(ps[..n], i, o, now, x);
    }
  }

  /** The petition table and the user table, as the assignment engine sees them. */
  class PetitionRegistry {
    var petitions: seq<Petition>
    var users: seq<User>

    ghost predicate Valid()
      reads this
    {
      PetitionIdsUnique(petitions) && UserIdsUnique(users)
    }

    constructor (ps: seq<Petition>, us: seq<User>)
      requires PetitionIdsUnique(ps) && UserIdsUnique(us)
      ensures Valid() && petitions == ps && users == us
    {
      petitions := ps;
      users := us;
    }

    /**
     * `assign_to_officer` on the petition at position `i`, saved at time `now`.
     * Without a department, or without an eligible officer, it returns None and
     * changes nothing; otherwise it returns a least-loaded eligible officer and
     * that petition alone is updated.
     */
    method AssignToOfficer(i: nat, now: Timestamp) returns (r: Option<User>)
      requires Valid() && i < |petitions|
      modifies this
      ensures Valid() && users == old(users)
      ensures r.None? <==>
        old(petitions)[i].department.None? ||
        DepartmentOfficers(users, old(petitions)[i].department.value) == []
      ensures r.None? ==> petitions == old(petitions)
      ensures r.Some? ==> (
        old(petitions)[i].department.Some? &&
        var d := old(petitions)[i].department.value;
        && r.value in users && IsEligible(r.value, d)
        && HasLeastWorkload(old(petitions), users, d, r.value)
        && petitions == old(petitions)[i := AssignedTo(old(petitions)[i], r.value.id, now)])
    {
      var p := petitions[i];
      if p.department.None? {
        return None;
      }
      var k := SelectOfficer(users, petitions, p.department.value);
      if k.None? {
        return None;
      }
      var officer := users[k.value];
      var updated := AssignedTo(p, officer.id, now);
      ghost var before := petitions;
      petitions := petitions[i := updated];
      assert forall j :: 0 <= j < |petitions| ==> petitions[j].id == before[j].id;
      r := Some(officer);
    }
  }

  // Officers Asha and Chitra (one open petition each) and Bala (none), all in department 7.
  const Asha := User(1, "asha", Officer, Some(7), true, true)
  const Bala := User(2, "bala", Officer, Some(7), true, true)
  const Chitra := User(3, "chitra", Officer, Some(7), true, true)
  const ScenarioTable := [
    Petition(10, "leak", "", 9, Some(7), Some(1), Assigned, Low, false, 0, 0),
    Petition(12, "pressure", "", 9, Some(7), Some(3), UnderReview, Medium, false, 0, 0),
    Petition(13, "pipe", "", 9, Some(7), None, Submitted, Low, false, 0, 0)]

  lemma ScenarioWorkloads()
    ensures Workload(ScenarioTable, Bala.id) == 0
    ensures Workload(ScenarioTable, Asha.id) > 0 && Workload(ScenarioTable, Chitra.id) > 0
  {
    WorkloadZeroIffIdle(ScenarioTable, 1);
    WorkloadZeroIffIdle(ScenarioTable, 2);
    WorkloadZeroIffIdle(ScenarioTable, 3);
    assert CountsToward(ScenarioTable[0], 1);
    assert CountsToward(ScenarioTable[1], 3);
  }

  /** Assigning the unassigned petition picks Bala, the one officer without open work. */
  method EvenLoadScenario() returns (chosen: Option<User>, saved: Petition)
    ensures chosen == Some(Bala)
    ensures saved.assignedOfficer == Some(Bala.id) && saved.status == Assigned && saved.updatedAt == 60
  {
    ScenarioWorkloads();
    var us := [Asha, Bala, Chitra];
    assert Asha in DepartmentOfficers(us, 7);
    var registry := new PetitionRegistry(ScenarioTable, us);
    var r := registry.AssignToOfficer(2, 60);
    assert r.Some?;
    var officer := r.value;
    assert officer == Asha || officer == Bala || officer == Chitra;
    assert Workload(ScenarioTable, officer.id) <= Workload(ScenarioTable, Bala.id) by {
      assert Bala in us && IsEligible(Bala, 7);
    }
    chosen := r;
    saved := registry.petitions[2];
  }
}

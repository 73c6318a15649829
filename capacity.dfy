/** The capacity report of `GET /api/engineers/:id/capacity`: an engineer's
    maximum capacity, the sum of the allocation percentages of all of their
    assignments, and the difference of the two. */
module Capacity {
  import opened Types
  import opened Tables
  import AssignmentModel
  import opened UserModel

  type Assignment = AssignmentModel.Assignment

  /** The allocation percentages of one engineer's assignments, in the order
      the store returns them (`Assignment.find({ engineerId })`). Nothing
      else is filtered on: not the dates, not the project's status. */
  function Allocations(assignments: seq<Doc<Assignment>>, engineer: Id): (ps: seq<int>)
    ensures |ps| <= |assignments|
  {
    if assignments == [] then []
    else
      var last := assignments[|assignments| - 1];
      Allocations(assignments[..|assignments| - 1], engineer)
      + (if last.body.engineerId == engineer then [last.body.allocationPercentage] else [])
  }

  /** `reduce((sum, a) => sum + a.allocationPercentage, 0)`: a left fold
      from 0. */
  function SumLeft(ps: seq<int>): int
  {
    if ps == [] then 0 else SumLeft(ps[..|ps| - 1]) + ps[|ps| - 1]
  }

  /** The `currentAllocation` the handler computes: the fold over the
      engineer's percentages, which equals the reference sum. */
  function TotalAllocation(assignments: seq<Doc<Assignment>>, engineer: Id): (t: int)
    ensures t == Committed(assignments, engineer)
  {
    TotalIsCommitted(assignments, engineer);
    SumLeft(Allocations(assignments, engineer))
  }

  /** What one stored assignment contributes to an engineer's allocation. */
  function Weight(d: Doc<Assignment>, engineer: Id): int
  {
    if d.body.engineerId == engineer then d.body.allocationPercentage else 0
  }

  /** The reference definition of an engineer's committed allocation: the
      sum, over every stored assignment, of its percentage when it names
      the engineer and 0 otherwise. */
  function Committed(assignments: seq<Doc<Assignment>>, engineer: Id): int
  {
    if assignments == [] then 0 else Weight(assignments[0], engineer) + Committed(assignments[1..], engineer)
  }

  lemma {:induction false} CommittedAppend(a: seq<Doc<Assignment>>, b: seq<Doc<Assignment>>, engineer: Id)
    ensures Committed(a + b, engineer) == Committed(a, engineer) + Committed(b, engineer)
  {
    if a != [] {
      assert (a + b)[1..] == a[1..] + b;
      CommittedAppend(a[1..], b, engineer);
    } else {
      assert a + b == b;
    }
  }

  /** One more term adds its value to the fold. */
  lemma SumLeftSnoc(ps: seq<int>, x: int)
    ensures SumLeft(ps + [x]) == SumLeft(ps) + x
  {
    assert (ps + [x])[..|ps|] == ps;
  }

  /** The fold the handler runs computes the reference sum. */
  lemma {:induction false} TotalIsCommitted(assignments: seq<Doc<Assignment>>, engineer: Id)
    ensures SumLeft(Allocations(assignments, engineer)) == Committed(assignments, engineer)
  {
    if assignments != [] {
      var n := |assignments|;
      var init, last := assignments[..n - 1], assignments[n - 1];
      assert init + [last] == assignments;
      TotalIsCommitted(init, engineer);
      CommittedAppend(init, [last], engineer);
      assert Committed([last], engineer) == Weight(last, engineer);
      var ps := Allocations(init, engineer);
      if last.body.engineerId == engineer {
        assert Allocations(assignments, engineer) == ps + [last.body.allocationPercentage];
        SumLeftSnoc(ps, last.body.allocationPercentage);
      } else {
        assert Allocations(assignments, engineer) == ps;
      }
    }
  }

  /** An engineer with no stored assignment has allocation 0. */
  lemma {:induction false} NoAssignmentsNoAllocation(assignments: seq<Doc<Assignment>>, engineer: Id)
    requires forall i :: 0 <= i < |assignments| ==> assignments[i].body.engineerId != engineer
    ensures Committed(assignments, engineer) == 0
    ensures TotalAllocation(assignments, engineer) == 0
  {
    TotalIsCommitted(assignments, engineer);
    if assignments != [] {
      NoAssignmentsNoAllocation(assignments[1..], engineer);
    }
  }

  lemma MultisetRemove<T>(b: seq<T>, k: nat)
    requires k < |b|
    ensures multiset(b[..k] + b[k + 1..]) == multiset(b) - multiset{b[k]}
  {
    assert b == b[..k] + [b[k]] + b[k + 1..];
  }

  /** The order the store returns assignments in does not matter: any
      permutation of the collection gives the same sum. */
  lemma {:induction false} CommittedPermutation(a: seq<Doc<Assignment>>, b: seq<Doc<Assignment>>, engineer: Id)
    requires multiset(a) == multiset(b)
    ensures Committed(a, engineer) == Committed(b, engineer)
    decreases |a|
  {
    if a == [] {
      assert |b| == |multiset(b)| == 0;
    } else {
      var x := a[0];
      assert x in multiset(b);
      var k :| 0 <= k < |b| && b[k] == x;
      MultisetRemove(b, k);
      MultisetRemove(a, 0);
      assert a[..0] + a[1..] == a[1..];
      CommittedPermutation(a[1..], b[..k] + b[k + 1..], engineer);
      AllocationAfterDelete(b, k, engineer);
    }
  }

  /** Storing one more assignment adds its percentage to its own engineer's
      allocation and nothing to anyone else's. */
  lemma AllocationAfterInsert(a: seq<Doc<Assignment>>, d: Doc<Assignment>, engineer: Id)
    ensures Committed(a + [d], engineer) == Committed(a, engineer) + Weight(d, engineer)
  {
    CommittedAppend(a, [d], engineer);
  }

  /** Deleting the assignment at position `k` takes exactly its percentage
      off its own engineer's allocation. */
  lemma AllocationAfterDelete(a: seq<Doc<Assignment>>, k: nat, engineer: Id)
    requires k < |a|
    ensures Committed(a[..k] + a[k + 1..], engineer) == Committed(a, engineer) - Weight(a[k], engineer)
  {
    CommittedAppend(a[..k], a[k + 1..], engineer);
    CommittedAppend(a[..k], [a[k]] + a[k + 1..], engineer);
    CommittedAppend([a[k]], a[k + 1..], engineer);
    assert a[..k] + ([a[k]] + a[k + 1..]) == a;
  }

  /** Replacing the record at position `k` swaps its old contribution for
      the new one. */
  lemma AllocationAfterReplace(a: seq<Doc<Assignment>>, k: nat, body: Assignment, engineer: Id)
    requires k < |a|
    ensures Committed(a[k := Doc(a[k].id, body)], engineer)
         == Committed(a, engineer) - Weight(a[k], engineer) + Weight(Doc(a[k].id, body), engineer)
  {
    var b := a[k := Doc(a[k].id, body)];
    AllocationAfterDelete(a, k, engineer);
    AllocationAfterDelete(b, k, engineer);
    assert b[..k] + b[k + 1..] == a[..k] + a[k + 1..];
  }

  /** A left fold of percentages each in 0..100 lies between 0 and 100 per term. */
  lemma {:induction false} SumBounds(ps: seq<int>)
    requires forall i :: 0 <= i < |ps| ==> 0 <= ps[i] <= 100
    ensures 0 <= SumLeft(ps) <= 100 * |ps|
  {
    if ps != [] {
      SumBounds(ps[..|ps| - 1]);
    }
  }

  /** Every percentage the handler adds up comes from a stored record. */
  lemma {:induction false} AllocationsInRange(a: seq<Doc<Assignment>>, engineer: Id)
    requires forall i :: 0 <= i < |a| ==> AssignmentModel.ValidRecord(a[i].body)
    ensures forall i :: 0 <= i < |Allocations(a, engineer)| ==> 0 <= Allocations(a, engineer)[i] <= 100
  {
    if a != [] {
      AllocationsInRange(a[..|a| - 1], engineer);
    }
  }

  /** With every assignment saved through the schema (each percentage in
      0..100), an engineer's allocation lies between 0 and 100 times the
      number of their assignments: it can exceed 100, but never goes below 0. */
  lemma AllocationBounds(a: seq<Doc<Assignment>>, engineer: Id)
    requires forall i :: 0 <= i < |a| ==> AssignmentModel.ValidRecord(a[i].body)
    ensures 0 <= TotalAllocation(a, engineer) <= 100 * |Allocations(a, engineer)|
  {
    AllocationsInRange(a, engineer);
    SumBounds(Allocations(a, engineer));
  }

  /** The capacity object the handler returns. */
  datatype CapacityReport = CapacityReport(maxCapacity: int, currentAllocation: int, availableCapacity: int)

  const ENGINEER_NOT_FOUND: string := "Engineer not found"

  /** Whether the store holds a user with this id whose role is engineer. */
  predicate IsEngineer(users: seq<Doc<User>>, id: Id): (v: bool)
    ensures v ==> exists k :: 0 <= k < |users| && users[k].id == id && users[k].body.role == Engineer
    ensures DistinctIds(users) ==>
              (v <==> exists k :: 0 <= k < |users| && users[k].id == id && users[k].body.role == Engineer)
  {
    Find(users, id).Some? && Find(users, id).value.role == Engineer
  }

  /** The handler of `GET /api/engineers/:id/capacity`, once the token is
      accepted. `fault` stands for a query that throws. */
  function EngineerCapacity(users: seq<Doc<User>>, assignments: seq<Doc<Assignment>>, id: Id, fault: bool)
    : (r: Response<CapacityReport>)
    ensures fault ==> r == ServerError()
    ensures !fault ==> (r.Success? <==> IsEngineer(users, id))
    ensures !fault && !IsEngineer(users, id) ==> r == Failed(NOT_FOUND, Message(ENGINEER_NOT_FOUND))
    ensures r.Success? ==> r.status == OK
    ensures r.Success? ==> r.value.maxCapacity == Find(users, id).value.maxCapacity
    ensures r.Success? ==> r.value.currentAllocation == Committed(assignments, id)
    ensures r.Success? ==> r.value.availableCapacity == r.value.maxCapacity - r.value.currentAllocation
  {
    if fault then ServerError()
    else if !IsEngineer(users, id) then Failed(NOT_FOUND, Message(ENGINEER_NOT_FOUND))
    else
      var engineer := Find(users, id).value;
      var total := TotalAllocation(assignments, id);
      Success(OK, CapacityReport(engineer.maxCapacity, total, engineer.maxCapacity - total))
  }

  /** Validity is decided per record: a valid body for an engineer is accepted
      whatever they are already allocated, and raises their allocation by its
      percentage, past `maxCapacity` if need be. */
  lemma ValidityIgnoresCapacity(assignments: seq<Doc<Assignment>>, f: AssignmentModel.AssignmentFields, id: Id, engineer: Id)
    requires AssignmentModel.Valid(f) && f.engineerId == Some(engineer)
    ensures AssignmentModel.Create(f).Ok?
    ensures Committed(assignments + [Doc(id, AssignmentModel.Create(f).value)], engineer)
         == Committed(assignments, engineer) + f.allocationPercentage.value
  {
    AllocationAfterInsert(assignments, Doc(id, AssignmentModel.Create(f).value), engineer);
  }

  /** The seeded engineer John Doe (maxCapacity 100) with a 100% and a 50%
      assignment, beside other engineers' assignments, is reported as
      allocated 150 with -50 available. */
  lemma SeedScenario()
    ensures
      var john := User("john.doe@resourcely.com", "John Doe", "hash", Engineer, ["React", "Node.js", "MongoDB"],
                       Senior, 100, Some("Engineering"));
      var jane := User("jane.smith@resourcely.com", "Jane Smith", "hash", Engineer, ["Python", "Django", "PostgreSQL"],
                       Mid, 50, Some("Engineering"));
      var users := [Doc(1, john), Doc(2, jane)];
      var assignments := [
        Doc(10, AssignmentModel.Assignment(1, 20, 100, 20250601, 20250630, "Tech Lead")),
        Doc(11, AssignmentModel.Assignment(1, 21, 50, 20250501, 20250731, "Developer")),
        Doc(12, AssignmentModel.Assignment(2, 20, 100, 20250601, 20250630, "Developer"))];
      EngineerCapacity(users, assignments, 1, false) == Success(OK, CapacityReport(100, 150, -50))
  {
    var john := User("john.doe@resourcely.com", "John Doe", "hash", Engineer, ["React", "Node.js", "MongoDB"],
                     Senior, 100, Some("Engineering"));
    var jane := User("jane.smith@resourcely.com", "Jane Smith", "hash", Engineer, ["Python", "Django", "PostgreSQL"],
                     Mid, 50, Some("Engineering"));
    var users := [Doc(1, john), Doc(2, jane)];
    assert Find(users, 1) == Some(john);
    var assignments := [
      Doc(10, AssignmentModel.Assignment(1, 20, 100, 20250601, 20250630, "Tech Lead")),
      Doc(11, AssignmentModel.Assignment(1, 21, 50, 20250501, 20250731, "Developer")),
      Doc(12, AssignmentModel.Assignment(2, 20, 100, 20250601, 20250630, "Developer"))];
    assert Committed(assignments, 1) == 150;
  }
}

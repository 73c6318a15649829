/** The request handlers over the shared document store. The store is an
    object whose three collections the handlers change in place. Each
    protected route runs the token gate first and its handler only when the
    gate admits the request; login has no gate. `InsertUser` is not a route:
    it is the store's insert of a user, where the unique `email` index acts. */
module Server {
  import opened Types
  import opened Tables
  import opened UserModel
  import AssignmentModel
  import ProjectModel
  import opened Auth
  import Capacity

  type Assignment = AssignmentModel.Assignment
  type Project = ProjectModel.Project

  const ASSIGNMENT_NOT_FOUND: string := "Assignment not found"
  const ASSIGNMENT_DELETED: string := "Assignment deleted successfully"

  /** `populate('engineerId', 'name email')`: the referenced user's id,
      name and email. */
  datatype UserRef = UserRef(id: Id, name: string, email: string)

  /** `populate('projectId', 'name')`: the referenced project's id and name. */
  datatype ProjectRef = ProjectRef(id: Id, name: string)

  /** An assignment as the POST and PUT routes return it: each reference
      replaced by a summary of what it names, or by null (`None`) when it
      names no stored document. */
  datatype PopulatedAssignment = PopulatedAssignment(
    id: Id,
    engineer: Option<UserRef>,
    project: Option<ProjectRef>,
    allocationPercentage: int,
    startDate: Date,
    endDate: Date,
    role: string)

  /** The read-time join of an assignment with the user and the project it
      references. The stored document keeps its raw ids. */
  function Populate(users: seq<Doc<User>>, projects: seq<Doc<Project>>, d: Doc<Assignment>)
    : (p: PopulatedAssignment)
    ensures p.id == d.id && p.role == d.body.role
    ensures p.allocationPercentage == d.body.allocationPercentage
    ensures p.startDate == d.body.startDate && p.endDate == d.body.endDate
    ensures p.engineer.Some? <==> d.body.engineerId in IdSet(users)
    ensures p.engineer.Some? ==>
              p.engineer.value.id == d.body.engineerId
              && exists k :: 0 <= k < |users| && users[k].id == d.body.engineerId
                           && users[k].body.name == p.engineer.value.name
                           && users[k].body.email == p.engineer.value.email
    ensures p.project.Some? <==> d.body.projectId in IdSet(projects)
    ensures p.project.Some? ==>
              p.project.value.id == d.body.projectId
              && exists k :: 0 <= k < |projects| && projects[k].id == d.body.projectId
                           && projects[k].body.name == p.project.value.name
  {
    var engineer :=
      match Find(users, d.body.engineerId)
      case None => None
      case Some(u) => Some(UserRef(d.body.engineerId, u.name, u.email));
    var project :=
      match Find(projects, d.body.projectId)
      case None => None
      case Some(pr) => Some(ProjectRef(d.body.projectId, pr.name));
    PopulatedAssignment(d.id, engineer, project, d.body.allocationPercentage,
                        d.body.startDate, d.body.endDate, d.body.role)
  }

  /** `User.find({ role: 'engineer' })`: the stored engineers, in store order,
      as full documents. */
  function Engineers(users: seq<Doc<User>>): (r: seq<Doc<User>>)
    ensures |r| <= |users|
    ensures forall i :: 0 <= i < |r| ==> r[i].body.role == Engineer
  {
    if users == [] then []
    else
      var rest := Engineers(users[1..]);
      if users[0].body.role == Engineer then [users[0]] + rest else rest
  }

  /** The query lists exactly the stored engineers. */
  lemma {:induction false} EngineersMembers(users: seq<Doc<User>>)
    ensures forall d :: d in Engineers(users) <==> d in users && d.body.role == Engineer
  {
    if users != [] {
      EngineersMembers(users[1..]);
      assert forall d :: d in users <==> d == users[0] || d in users[1..];
    }
  }

  /** The query keeps the store's order and each document's multiplicity:
      it distributes over concatenation, and on one document it keeps
      exactly the engineers. Together these fix the result for every store. */
  lemma {:induction false} EngineersAppend(a: seq<Doc<User>>, b: seq<Doc<User>>)
    ensures Engineers(a + b) == Engineers(a) + Engineers(b)
  {
    if a == [] {
      assert a + b == b;
    } else {
      var ab := a + b;
      assert ab[0] == a[0];
      assert ab[1..] == a[1..] + b;
      EngineersAppend(a[1..], b);
      var head := if a[0].body.role == Engineer then [a[0]] else [];
      assert Engineers(ab) == head + Engineers(ab[1..]);
      assert Engineers(a) == head + Engineers(a[1..]);
      assert head + (Engineers(a[1..]) + Engineers(b)) == (head + Engineers(a[1..])) + Engineers(b);
    }
  }

  /** On one document the query keeps it exactly when it is an engineer. */
  lemma EngineersSingle(d: Doc<User>)
    ensures Engineers([d]) == if d.body.role == Engineer then [d] else []
  {
    assert [d][1..] == [];
  }

  /** A store with distinct ids lists each engineer once. */
  lemma {:induction false} EngineersDistinct(users: seq<Doc<User>>)
    requires DistinctIds(users)
    ensures DistinctIds(Engineers(users))
  {
    if users != [] {
      EngineersDistinct(users[1..]);
      var rest := Engineers(users[1..]);
      if users[0].body.role == Engineer {
        EngineersMembers(users[1..]);
        forall j | 0 <= j < |rest| ensures rest[j].id != users[0].id {
          assert rest[j] in users[1..];
        }
      }
    }
  }

  /** The application: the token and password functions it was configured
      with, and the three collections of the store. */
  class Api {
    const verify: string -> Option<Claims>
    const sign: Claims -> string
    const compare: (string, string) -> bool
    var users: seq<Doc<User>>
    var projects: seq<Doc<Project>>
    var assignments: seq<Doc<Assignment>>

    /** The store's invariants: ids are keys, emails are unique, and every
        stored user and project passed its schema. */
    ghost predicate Valid()
      reads this
    {
      && DistinctIds(users) && DistinctIds(projects) && DistinctIds(assignments)
      && UniqueEmails(users)
      && (forall i :: 0 <= i < |users| ==> UserModel.ValidRecord(users[i].body))
      && (forall i :: 0 <= i < |projects| ==> ProjectModel.ValidRecord(projects[i].body))
    }

    constructor (verify: string -> Option<Claims>, sign: Claims -> string, compare: (string, string) -> bool)
      ensures Valid()
      ensures this.verify == verify && this.sign == sign && this.compare == compare
      ensures users == [] && projects == [] && assignments == []
    {
      this.verify, this.sign, this.compare := verify, sign, compare;
      users, projects, assignments := [], [], [];
    }

    /** Saving a new user: schema validation first, then the unique indexes
        on `_id` and `email`. No route creates users; this is how the
        unique `email` index keeps emails unique. */
    method InsertUser(body: UserFields, newId: Id, fault: bool) returns (r: Result<Doc<User>, Failure>)
      requires Valid()
      modifies this`users
      ensures Valid()
      ensures r.Ok? <==>
                UserModel.Create(body).Ok? && !fault && newId !in IdSet(old(users))
                && !EmailTaken(old(users), UserModel.Create(body).value.email)
      ensures UserModel.Create(body).Err? ==> r == Err(ValidationFailed(UserModel.Create(body).error))
      ensures r.Ok? ==> r.value == Doc(newId, UserModel.Create(body).value) && users == old(users) + [r.value]
      ensures r.Ok? ==> Table(users) == old(Table(users))[newId := r.value.body]
      ensures r.Err? ==> users == old(users)
    {
      var created := UserModel.Create(body);
      if created.Err? {
        return Err(ValidationFailed(created.error));
      }
      if fault {
        return Err(StoreError);
      }
      if IndexOf(users, newId).Some? {
        return Err(DuplicateKey("_id"));
      }
      if FindByEmail(users, created.value.email).Some? {
        return Err(DuplicateKey("email"));
      }
      var doc := Doc(newId, created.value);
      TableAppend(users, doc);
      InsertKeepsEmailsUnique(users, doc);
      users := users + [doc];
      r := Ok(doc);
    }

    /** `POST /api/auth/login`: no token gate. */
    method PostLogin(email: string, password: string, fault: bool) returns (r: Response<Session>)
      ensures r == Login(users, email, password, compare, sign, fault)
    {
      r := Login(users, email, password, compare, sign, fault);
    }

    /** `GET /api/engineers`. */
    method GetEngineers(authorization: Option<string>, fault: bool) returns (r: Response<seq<Doc<User>>>)
      ensures Authenticate(authorization, verify).Refuse? ==> r == Refusal(Authenticate(authorization, verify))
      ensures Authenticate(authorization, verify).Admit? && fault ==> r == ServerError()
      ensures Authenticate(authorization, verify).Admit? && !fault ==> r == Success(OK, Engineers(users))
    {
      var gate := Authenticate(authorization, verify);
      if gate.Refuse? {
        return Refusal(gate);
      }
      if fault {
        return ServerError();
      }
      r := Success(OK, Engineers(users));
    }

    /** `GET /api/engineers/:id/capacity`. */
    method GetCapacity(authorization: Option<string>, id: Id, fault: bool) returns (r: Response<Capacity.CapacityReport>)
      ensures Authenticate(authorization, verify).Refuse? ==> r == Refusal(Authenticate(authorization, verify))
      ensures Authenticate(authorization, verify).Admit? ==> r == Capacity.EngineerCapacity(users, assignments, id, fault)
    {
      var gate := Authenticate(authorization, verify);
      if gate.Refuse? {
        return Refusal(gate);
      }
      r := Capacity.EngineerCapacity(users, assignments, id, fault);
    }

    /** `POST /api/projects`: validate the body with its defaults filled in,
        then store it under a new id. Every failure is a 400 carrying the
        store's error. */
    method PostProject(authorization: Option<string>, body: ProjectModel.ProjectFields, newId: Id, fault: bool)
      returns (r: Response<Doc<Project>>)
      requires Valid()
      modifies this`projects
      ensures Valid()
      ensures Authenticate(authorization, verify).Refuse? ==>
                r == Refusal(Authenticate(authorization, verify)) && projects == old(projects)
      ensures Authenticate(authorization, verify).Admit? ==>
                (r.Success? <==> ProjectModel.Create(body).Ok? && !fault && newId !in IdSet(old(projects)))
      ensures Authenticate(authorization, verify).Admit? && r.Failed? ==> r.status == BAD_REQUEST
      ensures Authenticate(authorization, verify).Admit? && ProjectModel.Create(body).Err? ==>
                r == Failed(BAD_REQUEST, ValidationFailed(ProjectModel.Create(body).error))
      ensures r.Success? ==> r == Success(CREATED, Doc(newId, ProjectModel.Create(body).value))
      ensures r.Success? ==> projects == old(projects) + [r.value]
      ensures r.Success? ==> Table(projects) == old(Table(projects))[newId := r.value.body]
      ensures r.Failed? ==> projects == old(projects)
    {
      var gate := Authenticate(authorization, verify);
      if gate.Refuse? {
        return Refusal(gate);
      }
      var created := ProjectModel.Create(body);
      if created.Err? {
        return Failed(BAD_REQUEST, ValidationFailed(created.error));
      }
      if fault {
        return Failed(BAD_REQUEST, StoreError);
      }
      if IndexOf(projects, newId).Some? {
        return Failed(BAD_REQUEST, DuplicateKey("_id"));
      }
      var doc := Doc(newId, created.value);
      TableAppend(projects, doc);
      projects := projects + [doc];
      r := Success(CREATED, doc);
    }

    /** `POST /api/assignments`: validate the body, store it under a new id
        and return it populated. Nothing compares the new allocation with
        the engineer's capacity. Every failure is a 400. */
    method PostAssignment(authorization: Option<string>, body: AssignmentModel.AssignmentFields, newId: Id, fault: bool)
      returns (r: Response<PopulatedAssignment>)
      requires Valid()
      modifies this`assignments
      ensures Valid()
      ensures Authenticate(authorization, verify).Refuse? ==>
                r == Refusal(Authenticate(authorization, verify)) && assignments == old(assignments)
      ensures Authenticate(authorization, verify).Admit? ==>
                (r.Success? <==> AssignmentModel.Create(body).Ok? && !fault && newId !in IdSet(old(assignments)))
      ensures Authenticate(authorization, verify).Admit? && r.Failed? ==> r.status == BAD_REQUEST
      ensures Authenticate(authorization, verify).Admit? && AssignmentModel.Create(body).Err? ==>
                r == Failed(BAD_REQUEST, ValidationFailed(AssignmentModel.Create(body).error))
      ensures r.Success? ==> assignments == old(assignments) + [Doc(newId, AssignmentModel.Create(body).value)]
      ensures r.Success? ==>
                Table(assignments) == old(Table(assignments))[newId := AssignmentModel.Create(body).value]
      ensures r.Success? ==>
                r == Success(CREATED, Populate(users, projects, Doc(newId, AssignmentModel.Create(body).value)))
      ensures r.Failed? ==> assignments == old(assignments)
    {
      var gate := Authenticate(authorization, verify);
      if gate.Refuse? {
        return Refusal(gate);
      }
      var created := AssignmentModel.Create(body);
      if created.Err? {
        return Failed(BAD_REQUEST, ValidationFailed(created.error));
      }
      if fault {
        return Failed(BAD_REQUEST, StoreError);
      }
      if IndexOf(assignments, newId).Some? {
        return Failed(BAD_REQUEST, DuplicateKey("_id"));
      }
      var doc := Doc(newId, created.value);
      TableAppend(assignments, doc);
      assignments := assignments + [doc];
      r := Success(CREATED, Populate(users, projects, doc));
    }

    /** `PUT /api/assignments/:id`: `findByIdAndUpdate` with `{ new: true }`.
        `rejected` stands for the store refusing the update (a value that
        does not cast, or a validator if the store runs one), which is a 400
        whether or not the id exists. Otherwise a missing id is a 404, and an
        existing one has the body's fields written over it and is returned as
        it is after the update, populated. */
    method PutAssignment(authorization: Option<string>, id: Id, patch: AssignmentModel.AssignmentFields, rejected: bool)
      returns (r: Response<PopulatedAssignment>)
      requires Valid()
      modifies this`assignments
      ensures Valid()
      ensures Authenticate(authorization, verify).Refuse? ==>
                r == Refusal(Authenticate(authorization, verify)) && assignments == old(assignments)
      ensures Authenticate(authorization, verify).Admit? && rejected ==>
                r == Failed(BAD_REQUEST, StoreError) && assignments == old(assignments)
      ensures Authenticate(authorization, verify).Admit? && !rejected && id !in IdSet(old(assignments)) ==>
                r == Failed(NOT_FOUND, Message(ASSIGNMENT_NOT_FOUND)) && assignments == old(assignments)
      ensures r.Success? <==>
                Authenticate(authorization, verify).Admit? && !rejected && id in IdSet(old(assignments))
      ensures r.Success? ==>
                var updated := AssignmentModel.Merge(old(Table(assignments))[id], patch);
                && Table(assignments) == old(Table(assignments))[id := updated]
                && r == Success(OK, Populate(users, projects, Doc(id, updated)))
      ensures r.Success? ==>
                var k := IndexOf(old(assignments), id).value;
                assignments == old(assignments)[k := Doc(id, AssignmentModel.Merge(old(assignments)[k].body, patch))]
    {
      var gate := Authenticate(authorization, verify);
      if gate.Refuse? {
        return Refusal(gate);
      }
      if rejected {
        return Failed(BAD_REQUEST, StoreError);
      }
      var found := IndexOf(assignments, id);
      if found.None? {
        return Failed(NOT_FOUND, Message(ASSIGNMENT_NOT_FOUND));
      }
      var k := found.value;
      var updated := AssignmentModel.Merge(assignments[k].body, patch);
      TableReplace(assignments, k, updated);
      assignments := assignments[k := Doc(id, updated)];
      r := Success(OK, Populate(users, projects, Doc(id, updated)));
    }

    /** `DELETE /api/assignments/:id`: `findByIdAndDelete`. A store failure
        is a 500, a missing id a 404; otherwise exactly that assignment is
        removed and the others stay as they were, in the same order. */
    method DeleteAssignment(authorization: Option<string>, id: Id, fault: bool) returns (r: Response<string>)
      requires Valid()
      modifies this`assignments
      ensures Valid()
      ensures Authenticate(authorization, verify).Refuse? ==>
                r == Refusal(Authenticate(authorization, verify)) && assignments == old(assignments)
      ensures Authenticate(authorization, verify).Admit? && fault ==>
                r == ServerError() && assignments == old(assignments)
      ensures Authenticate(authorization, verify).Admit? && !fault && id !in IdSet(old(assignments)) ==>
                r == Failed(NOT_FOUND, Message(ASSIGNMENT_NOT_FOUND)) && assignments == old(assignments)
      ensures r.Success? <==> Authenticate(authorization, verify).Admit? && !fault && id in IdSet(old(assignments))
      ensures r.Success? ==> r == Success(OK, ASSIGNMENT_DELETED)
      ensures r.Success? ==> Table(assignments) == old(Table(assignments)) - {id}
      ensures r.Success? ==>
                var k := IndexOf(old(assignments), id).value;
                assignments == old(assignments)[..k] + old(assignments)[k + 1..]
    {
      var gate := Authenticate(authorization, verify);
      if gate.Refuse? {
        return Refusal(gate);
      }
      if fault {
        return ServerError();
      }
      var found := IndexOf(assignments, id);
      if found.None? {
        return Failed(NOT_FOUND, Message(ASSIGNMENT_NOT_FOUND));
      }
      var k := found.value;
      TableRemove(assignments, k);
      assignments := assignments[..k] + assignments[k + 1..];
      r := Success(OK, ASSIGNMENT_DELETED);
    }
  }
}

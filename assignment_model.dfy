/** The assignment schema: which assignment documents the store accepts. */
module AssignmentModel {
  import opened Types

  /** The assignment fields a request body supplies, each present or absent. */
  datatype AssignmentFields = AssignmentFields(
    engineerId: Option<Id>,
    projectId: Option<Id>,
    allocationPercentage: Option<int>,
    startDate: Option<Date>,
    endDate: Option<Date>,
    role: Option<string>)

  /** A stored assignment: one engineer's share of one project. `role` is a
      free-text label such as "Tech Lead". */
  datatype Assignment = Assignment(
    engineerId: Id,
    projectId: Id,
    allocationPercentage: int,
    startDate: Date,
    endDate: Date,
    role: string)

  const MIN_ALLOCATION: int := 0
  const MAX_ALLOCATION: int := 100

  /** The schema's rules: every path is required and the percentage lies in
      0..100 inclusive. Nothing relates the two dates, and nothing looks
      beyond this one record. A body is valid exactly when no declared path
      has a failing validator. */
  predicate Valid(f: AssignmentFields)
  {
    && f.engineerId.Some?
    && f.projectId.Some?
    && f.allocationPercentage.Some?
    && MIN_ALLOCATION <= f.allocationPercentage.value <= MAX_ALLOCATION
    && f.startDate.Some?
    && f.endDate.Some?
    && PresentString(f.role)
  }

  /** The rules a stored assignment satisfies when it was saved through the schema. */
  predicate ValidRecord(a: Assignment)
  {
    MIN_ALLOCATION <= a.allocationPercentage <= MAX_ALLOCATION && |a.role| > 0
  }

  /** A stored assignment written back as a full request body. */
  function Fields(a: Assignment): AssignmentFields
  {
    AssignmentFields(Some(a.engineerId), Some(a.projectId), Some(a.allocationPercentage),
                     Some(a.startDate), Some(a.endDate), Some(a.role))
  }

  /** The paths the assignment schema declares. */
  const ASSIGNMENT_PATHS: set<Path> :=
    {EngineerId, ProjectId, AllocationPercentage, StartDate, EndDate, Role}

  /** The first validator of path `p` that a body breaks, if any. */
  function PathViolation(f: AssignmentFields, p: Path): Option<Violation>
  {
    match p
    case EngineerId => if f.engineerId.Some? then None else Some(Required)
    case ProjectId => if f.projectId.Some? then None else Some(Required)
    case AllocationPercentage =>
      if f.allocationPercentage.None? then Some(Required)
      else if f.allocationPercentage.value < MIN_ALLOCATION then Some(Min)
      else if f.allocationPercentage.value > MAX_ALLOCATION then Some(Max)
      else None
    case StartDate => if f.startDate.Some? then None else Some(Required)
    case EndDate => if f.endDate.Some? then None else Some(Required)
    case Role => if PresentString(f.role) then None else Some(Required)
    case _ => None
  }

  /** A body is valid exactly when none of the declared paths has a failing
      validator. */
  lemma ValidIffNoViolation(f: AssignmentFields)
    ensures Valid(f) <==> forall p :: p in ASSIGNMENT_PATHS ==> PathViolation(f, p).None?
  {
    assert PathViolation(f, EngineerId).None? && PathViolation(f, ProjectId).None?
           && PathViolation(f, AllocationPercentage).None? && PathViolation(f, StartDate).None?
           && PathViolation(f, EndDate).None? && PathViolation(f, Role).None?
           ==> forall p :: p in ASSIGNMENT_PATHS ==> PathViolation(f, p).None?;
  }

  /** The validation error the schema reports for a body: each path whose
      rule the body breaks, with the rule it breaks, and no other path. */
  function Errors(f: AssignmentFields): (errs: ValidationErrors)
    ensures errs.Keys <= ASSIGNMENT_PATHS
    ensures errs == map[] <==> Valid(f)
  {
    var errs := map p | p in ASSIGNMENT_PATHS && PathViolation(f, p).Some? :: PathViolation(f, p).value;
    assert Valid(f) ==> errs.Keys == {};
    assert Valid(f) ==> errs == map[];
    assert !Valid(f) ==> EngineerId in errs || ProjectId in errs || AllocationPercentage in errs
                         || StartDate in errs || EndDate in errs || Role in errs;
    errs
  }

  /** Which paths the validation error names, and with which rule: each
      path whose rule the body breaks, the first failing rule of that path. */
  lemma ErrorsByPath(f: AssignmentFields)
    ensures EngineerId in Errors(f) <==> f.engineerId.None?
    ensures ProjectId in Errors(f) <==> f.projectId.None?
    ensures StartDate in Errors(f) <==> f.startDate.None?
    ensures EndDate in Errors(f) <==> f.endDate.None?
    ensures Role in Errors(f) <==> !PresentString(f.role)
    ensures forall p :: p in Errors(f) && p != AllocationPercentage ==> Errors(f)[p] == Required
    ensures AllocationPercentage in Errors(f) <==>
              !(f.allocationPercentage.Some? && MIN_ALLOCATION <= f.allocationPercentage.value <= MAX_ALLOCATION)
    ensures AllocationPercentage in Errors(f) ==>
              Errors(f)[AllocationPercentage] == (match f.allocationPercentage
                                                  case None => Required
                                                  case Some(p) => if p < MIN_ALLOCATION then Min else Max)
  {
  }

  /** `new Assignment(body)` followed by the validation `save` runs: the
      record to store, or the validation errors. */
  function Create(f: AssignmentFields): (r: Result<Assignment, ValidationErrors>)
    ensures r.Ok? <==> Valid(f)
    ensures r.Ok? ==> Fields(r.value) == f && ValidRecord(r.value)
    ensures r.Err? ==> r.error == Errors(f) && r.error != map[]
  {
    if Errors(f) == map[] then
      Ok(Assignment(f.engineerId.value, f.projectId.value, f.allocationPercentage.value,
                    f.startDate.value, f.endDate.value, f.role.value))
    else
      Err(Errors(f))
  }

  /** A record is accepted exactly when its own fields satisfy the schema,
      and creating it from its fields gives the record back. */
  lemma CreateRoundTrip(a: Assignment)
    ensures Valid(Fields(a)) <==> ValidRecord(a)
    ensures ValidRecord(a) ==> Create(Fields(a)) == Ok(a)
  {
  }

  /** The two dates are not compared: an assignment that ends before it
      starts is accepted like any other. */
  lemma EndBeforeStartAccepted(f: AssignmentFields)
    requires f.startDate.Some? && f.endDate.Some? && f.endDate.value < f.startDate.value
    requires f.engineerId.Some? && f.projectId.Some? && PresentString(f.role)
    requires f.allocationPercentage.Some? && 0 <= f.allocationPercentage.value <= 100
    ensures Create(f).Ok?
    ensures Create(f).value.endDate < Create(f).value.startDate
  {
  }

  /** `role` is free text: any non-empty label is accepted, whatever the
      other fields of a valid body are. */
  lemma AnyRoleAccepted(f: AssignmentFields, text: string)
    requires Valid(f) && |text| > 0
    ensures Create(f.(role := Some(text))).Ok?
    ensures Create(f.(role := Some(text))).value.role == text
  {
  }

  /** The update a `findByIdAndUpdate` body makes: every field the body
      supplies replaces the stored one; the rest keep their stored values.
      A stored record patched with in-range values stays within the schema. */
  function Merge(a: Assignment, patch: AssignmentFields): (r: Assignment)
    ensures ValidRecord(a)
            && (patch.allocationPercentage.Some? ==>
                  MIN_ALLOCATION <= patch.allocationPercentage.value <= MAX_ALLOCATION)
            && (patch.role.Some? ==> |patch.role.value| > 0)
            ==> ValidRecord(r)
  {
    Assignment(
      if patch.engineerId.Some? then patch.engineerId.value else a.engineerId,
      if patch.projectId.Some? then patch.projectId.value else a.projectId,
      if patch.allocationPercentage.Some? then patch.allocationPercentage.value else a.allocationPercentage,
      if patch.startDate.Some? then patch.startDate.value else a.startDate,
      if patch.endDate.Some? then patch.endDate.value else a.endDate,
      if patch.role.Some? then patch.role.value else a.role)
  }

  /** A partial body: each field it supplies replaces the stored one, and
      each field it leaves out keeps its stored value. */
  lemma MergeByField(a: Assignment, patch: AssignmentFields)
    ensures patch.engineerId.Some? ==> Merge(a, patch).engineerId == patch.engineerId.value
    ensures patch.engineerId.None? ==> Merge(a, patch).engineerId == a.engineerId
    ensures patch.projectId.Some? ==> Merge(a, patch).projectId == patch.projectId.value
    ensures patch.projectId.None? ==> Merge(a, patch).projectId == a.projectId
    ensures patch.allocationPercentage.Some? ==> Merge(a, patch).allocationPercentage == patch.allocationPercentage.value
    ensures patch.allocationPercentage.None? ==> Merge(a, patch).allocationPercentage == a.allocationPercentage
    ensures patch.startDate.Some? ==> Merge(a, patch).startDate == patch.startDate.value
    ensures patch.startDate.None? ==> Merge(a, patch).startDate == a.startDate
    ensures patch.endDate.Some? ==> Merge(a, patch).endDate == patch.endDate.value
    ensures patch.endDate.None? ==> Merge(a, patch).endDate == a.endDate
    ensures patch.role.Some? ==> Merge(a, patch).role == patch.role.value
    ensures patch.role.None? ==> Merge(a, patch).role == a.role
  {
  }

  /** An empty body changes nothing, a full body replaces the whole record,
      and applying the same body twice is the same as applying it once. */
  lemma MergeLaws(a: Assignment, b: Assignment, patch: AssignmentFields)
    ensures Merge(a, AssignmentFields(None, None, None, None, None, None)) == a
    ensures Merge(a, Fields(b)) == b
    ensures Merge(Merge(a, patch), patch) == Merge(a, patch)
  {
  }
}

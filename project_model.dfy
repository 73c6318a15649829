/** The project schema: which project documents the store accepts, and the
    default it fills in. */
module ProjectModel {
  import opened Types

  datatype ProjectStatus = Planning | Active | Completed

  /** The spelling of a status in a stored document. */
  function StatusName(s: ProjectStatus): string
  {
    match s
    case Planning => "planning"
    case Active => "active"
    case Completed => "completed"
  }

  /** The `enum` rule on `status`: the status a string spells, if any. */
  function ParseStatus(text: string): (r: Option<ProjectStatus>)
    ensures r.Some? ==> StatusName(r.value) == text
    ensures r.None? ==> forall s :: StatusName(s) != text
  {
    if text == "planning" then Some(Planning)
    else if text == "active" then Some(Active)
    else if text == "completed" then Some(Completed)
    else None
  }

  /** Every status reads back as itself. */
  lemma StatusRoundTrip(s: ProjectStatus)
    ensures ParseStatus(StatusName(s)) == Some(s)
  {
  }

  const DEFAULT_STATUS: string := "planning"
  const MIN_TEAM_SIZE: int := 1

  /** The project fields a request body supplies, each present or absent. */
  datatype ProjectFields = ProjectFields(
    name: Option<string>,
    description: Option<string>,
    startDate: Option<Date>,
    endDate: Option<Date>,
    requiredSkills: Option<seq<string>>,
    teamSize: Option<int>,
    status: Option<string>,
    managerId: Option<Id>)

  /** A stored project. `managerId` is a bare reference: nothing checks that
      it names a user, let alone a manager. */
  datatype Project = Project(
    name: string,
    description: string,
    startDate: Date,
    endDate: Date,
    requiredSkills: seq<string>,
    teamSize: int,
    status: ProjectStatus,
    managerId: Id)

  /** A stored project written back as a full request body. */
  function Fields(p: Project): ProjectFields
  {
    ProjectFields(Some(p.name), Some(p.description), Some(p.startDate), Some(p.endDate),
                  Some(p.requiredSkills), Some(p.teamSize), Some(StatusName(p.status)), Some(p.managerId))
  }

  /** The defaults a new document receives before validation: `status`
      becomes "planning" when it is absent, and the `requiredSkills` array
      starts empty. Supplied values are kept as they are. */
  function WithDefaults(f: ProjectFields): (g: ProjectFields)
    ensures g.status.Some? && g.requiredSkills.Some?
    ensures f.status.Some? ==> g.status == f.status
    ensures f.status.None? ==> g.status == Some(DEFAULT_STATUS)
    ensures f.requiredSkills.Some? ==> g.requiredSkills == f.requiredSkills
    ensures f.requiredSkills.None? ==> g.requiredSkills == Some([])
    ensures g.(status := f.status, requiredSkills := f.requiredSkills) == f
  {
    f.(status := Some(if f.status.Some? then f.status.value else DEFAULT_STATUS),
       requiredSkills := Some(if f.requiredSkills.Some? then f.requiredSkills.value else []))
  }

  /** Filling in defaults twice is filling them in once. */
  lemma DefaultsIdempotent(f: ProjectFields)
    ensures WithDefaults(WithDefaults(f)) == WithDefaults(f)
  {
  }

  /** The schema's rules for a body: the six required paths are present,
      `teamSize` is at least 1, and a supplied `status` is one of the three
      names (an absent one is defaulted). `requiredSkills` is optional, the
      dates are not compared and `managerId` may name anyone. */
  predicate Valid(f: ProjectFields)
  {
    && PresentString(f.name)
    && PresentString(f.description)
    && f.startDate.Some?
    && f.endDate.Some?
    && f.teamSize.Some? && f.teamSize.value >= MIN_TEAM_SIZE
    && (f.status.None? || ParseStatus(f.status.value).Some?)
    && f.managerId.Some?
  }

  /** The rules a stored project satisfies when it was saved through the schema. */
  predicate ValidRecord(p: Project)
  {
    |p.name| > 0 && |p.description| > 0 && p.teamSize >= MIN_TEAM_SIZE
  }

  /** The paths the project schema declares. */
  const PROJECT_PATHS: set<Path> :=
    {Name, Description, StartDate, EndDate, RequiredSkills, TeamSize, Status, ManagerId}

  /** The first validator of path `p` that a body breaks, if any. */
  function PathViolation(f: ProjectFields, p: Path): Option<Violation>
  {
    match p
    case Name => if PresentString(f.name) then None else Some(Required)
    case Description => if PresentString(f.description) then None else Some(Required)
    case StartDate => if f.startDate.Some? then None else Some(Required)
    case EndDate => if f.endDate.Some? then None else Some(Required)
    case TeamSize =>
      if f.teamSize.None? then Some(Required)
      else if f.teamSize.value < MIN_TEAM_SIZE then Some(Min)
      else None
    case Status =>
      if f.status.Some? && ParseStatus(f.status.value).None? then Some(Enum) else None
    case ManagerId => if f.managerId.Some? then None else Some(Required)
    case _ => None
  }

  /** A body is valid exactly when none of the declared paths has a failing
      validator. */
  lemma ValidIffNoViolation(f: ProjectFields)
    ensures Valid(f) <==> forall p :: p in PROJECT_PATHS ==> PathViolation(f, p).None?
  {
    assert PathViolation(f, Name).None? && PathViolation(f, Description).None?
           && PathViolation(f, StartDate).None? && PathViolation(f, EndDate).None?
           && PathViolation(f, TeamSize).None? && PathViolation(f, Status).None?
           && PathViolation(f, ManagerId).None?
           ==> forall p :: p in PROJECT_PATHS ==> PathViolation(f, p).None?;
  }

  /** The validation error the schema reports for a body whose defaults are
      already filled in: each path whose rule it breaks, with the rule, and
      no other path. */
  function Errors(f: ProjectFields): (errs: ValidationErrors)
    ensures errs.Keys <= PROJECT_PATHS - {RequiredSkills}
    ensures errs == map[] <==> Valid(f)
  {
    var errs := map p | p in PROJECT_PATHS && PathViolation(f, p).Some? :: PathViolation(f, p).value;
    assert Valid(f) ==> errs.Keys == {};
    assert Valid(f) ==> errs == map[];
    assert !Valid(f) ==> Name in errs || Description in errs || StartDate in errs || EndDate in errs
                         || TeamSize in errs || Status in errs || ManagerId in errs;
    errs
  }

  /** Which paths the validation error names, and with which rule: each
      path whose rule the body breaks, the first failing rule of that path. */
  lemma ErrorsByPath(f: ProjectFields)
    ensures Name in Errors(f) <==> !PresentString(f.name)
    ensures Description in Errors(f) <==> !PresentString(f.description)
    ensures StartDate in Errors(f) <==> f.startDate.None?
    ensures EndDate in Errors(f) <==> f.endDate.None?
    ensures ManagerId in Errors(f) <==> f.managerId.None?
    ensures TeamSize in Errors(f) <==> !(f.teamSize.Some? && f.teamSize.value >= MIN_TEAM_SIZE)
    ensures TeamSize in Errors(f) ==> Errors(f)[TeamSize] == if f.teamSize.None? then Required else Min
    ensures Status in Errors(f) <==> f.status.Some? && ParseStatus(f.status.value).None?
    ensures Status in Errors(f) ==> Errors(f)[Status] == Enum
    ensures forall p :: p in Errors(f) && p != TeamSize && p != Status ==> Errors(f)[p] == Required
  {
  }

  /** `new Project(body)` followed by the validation `save` runs: defaults
      are filled in, then the record to store or the validation errors. */
  function Create(f: ProjectFields): (r: Result<Project, ValidationErrors>)
    ensures r.Ok? <==> Valid(f)
    ensures r.Ok? ==> ValidRecord(r.value)
    ensures r.Ok? ==> Fields(r.value) == WithDefaults(f)
    ensures r.Ok? && f.status.None? ==> r.value.status == Planning
    ensures r.Err? ==> r.error == Errors(WithDefaults(f)) && r.error != map[]
  {
    var g := WithDefaults(f);
    if Errors(g) == map[] then
      Ok(Project(g.name.value, g.description.value, g.startDate.value, g.endDate.value,
                 g.requiredSkills.value, g.teamSize.value, ParseStatus(g.status.value).value, g.managerId.value))
    else
      Err(Errors(g))
  }

  /** A record is accepted exactly when it satisfies the schema, and creating
      it from its own fields gives it back. */
  lemma CreateRoundTrip(p: Project)
    ensures Valid(Fields(p)) <==> ValidRecord(p)
    ensures ValidRecord(p) ==> Create(Fields(p)) == Ok(p)
  {
    StatusRoundTrip(p.status);
  }

  /** A supplied valid status is kept, and no status at all means "planning". */
  lemma StatusDefault(f: ProjectFields, s: ProjectStatus)
    requires Valid(f)
    ensures f.status == Some(StatusName(s)) ==> Create(f).value.status == s
    ensures f.status.None? ==> Create(f).value.status == Planning
  {
    StatusRoundTrip(s);
  }

  /** A body without `teamSize` is refused with a `required` error on it. */
  lemma MissingTeamSizeRejected(f: ProjectFields)
    requires f.teamSize.None?
    ensures Create(f).Err? && Create(f).error[TeamSize] == Required
  {
  }

  /** A team of zero, or a status outside the three names, is refused. */
  lemma BoundsRejected(f: ProjectFields)
    ensures f.teamSize.Some? && f.teamSize.value < 1 ==> Create(f).Err? && Create(f).error[TeamSize] == Min
    ensures f.status.Some? && f.status.value !in {"planning", "active", "completed"} ==>
              Create(f).Err? && Create(f).error[Status] == Enum
  {
  }

  /** What the schema leaves unchecked: a body whose project ends before it
      starts, with no required skills, is accepted whatever `managerId` it
      names. */
  lemma UncheckedFields(f: ProjectFields, manager: Id)
    requires Valid(f) && f.startDate.value > f.endDate.value && f.requiredSkills.None?
    ensures Create(f.(managerId := Some(manager))).Ok?
    ensures Create(f.(managerId := Some(manager))).value.managerId == manager
    ensures Create(f.(managerId := Some(manager))).value.requiredSkills == []
  {
  }
}

/** The user schema: which user documents the store accepts, the defaults it
    fills in, and the unique index on `email`. */
module UserModel {
  import opened Types

  datatype UserRole = Engineer | Manager

  datatype SeniorityLevel = Junior | Mid | Senior

  function RoleName(r: UserRole): string
  {
    match r
    case Engineer => "engineer"
    case Manager => "manager"
  }

  /** The `enum` rule on `role`: the role a string spells, if any. */
  function ParseRole(text: string): (r: Option<UserRole>)
    ensures r.Some? ==> RoleName(r.value) == text
    ensures r.None? ==> forall x :: RoleName(x) != text
  {
    if text == "engineer" then Some(Engineer)
    else if text == "manager" then Some(Manager)
    else None
  }

  function SeniorityName(s: SeniorityLevel): string
  {
    match s
    case Junior => "junior"
    case Mid => "mid"
    case Senior => "senior"
  }

  /** The `enum` rule on `seniority`: the level a string spells, if any. */
  function ParseSeniority(text: string): (r: Option<SeniorityLevel>)
    ensures r.Some? ==> SeniorityName(r.value) == text
    ensures r.None? ==> forall x :: SeniorityName(x) != text
  {
    if text == "junior" then Some(Junior)
    else if text == "mid" then Some(Mid)
    else if text == "senior" then Some(Senior)
    else None
  }

  /** Every role and every level reads back as itself. */
  lemma NamesRoundTrip(r: UserRole, s: SeniorityLevel)
    ensures ParseRole(RoleName(r)) == Some(r)
    ensures ParseSeniority(SeniorityName(s)) == Some(s)
  {
  }

  const DEFAULT_SENIORITY: string := "junior"
  const DEFAULT_MAX_CAPACITY: int := 100

  /** The user fields a request body or a seed record supplies, each present
      or absent. `password` holds the bcrypt hash. */
  datatype UserFields = UserFields(
    email: Option<string>,
    name: Option<string>,
    password: Option<string>,
    role: Option<string>,
    skills: Option<seq<string>>,
    seniority: Option<string>,
    maxCapacity: Option<int>,
    department: Option<string>)

  /** A stored user. `password` is the stored hash, never the plain text. */
  datatype User = User(
    email: string,
    name: string,
    password: string,
    role: UserRole,
    skills: seq<string>,
    seniority: SeniorityLevel,
    maxCapacity: int,
    department: Option<string>)

  /** A stored user written back as a full body. */
  function Fields(u: User): UserFields
  {
    UserFields(Some(u.email), Some(u.name), Some(u.password), Some(RoleName(u.role)), Some(u.skills),
               Some(SeniorityName(u.seniority)), Some(u.maxCapacity), u.department)
  }

  /** The defaults a new document receives before validation: `seniority`
      becomes "junior", `maxCapacity` 100 and `skills` the empty array when
      absent. Supplied values, and every other field, are kept. */
  function WithDefaults(f: UserFields): (g: UserFields)
    ensures g.seniority.Some? && g.maxCapacity.Some? && g.skills.Some?
    ensures g.seniority == if f.seniority.Some? then f.seniority else Some(DEFAULT_SENIORITY)
    ensures g.maxCapacity == if f.maxCapacity.Some? then f.maxCapacity else Some(DEFAULT_MAX_CAPACITY)
    ensures g.skills == if f.skills.Some? then f.skills else Some([])
    ensures g.(seniority := f.seniority, maxCapacity := f.maxCapacity, skills := f.skills) == f
  {
    f.(seniority := Some(if f.seniority.Some? then f.seniority.value else DEFAULT_SENIORITY),
       maxCapacity := Some(if f.maxCapacity.Some? then f.maxCapacity.value else DEFAULT_MAX_CAPACITY),
       skills := Some(if f.skills.Some? then f.skills.value else []))
  }

  /** Filling in defaults twice is filling them in once. */
  lemma DefaultsIdempotent(f: UserFields)
    ensures WithDefaults(WithDefaults(f)) == WithDefaults(f)
  {
  }

  /** The schema's rules for a body: `email`, `name`, `password` and `role`
      are present, `role` is "engineer" or "manager", and a supplied
      `seniority` is one of the three levels. `maxCapacity` has no bounds;
      `skills` and `department` are optional. */
  predicate Valid(f: UserFields)
  {
    && PresentString(f.email)
    && PresentString(f.name)
    && PresentString(f.password)
    && PresentString(f.role) && ParseRole(f.role.value).Some?
    && (f.seniority.None? || ParseSeniority(f.seniority.value).Some?)
  }

  /** The rules a stored user satisfies when it was saved through the schema. */
  predicate ValidRecord(u: User)
  {
    |u.email| > 0 && |u.name| > 0 && |u.password| > 0
  }

  /** The paths the user schema declares. */
  const USER_PATHS: set<Path> :=
    {Email, Name, Password, Role, Skills, Seniority, MaxCapacity, Department}

  /** The first validator of path `p` that a body breaks, if any. */
  function PathViolation(f: UserFields, p: Path): Option<Violation>
  {
    match p
    case Email => if PresentString(f.email) then None else Some(Required)
    case Name => if PresentString(f.name) then None else Some(Required)
    case Password => if PresentString(f.password) then None else Some(Required)
    case Role =>
      if !PresentString(f.role) then Some(Required)
      else if ParseRole(f.role.value).None? then Some(Enum)
      else None
    case Seniority =>
      if f.seniority.Some? && ParseSeniority(f.seniority.value).None? then Some(Enum) else None
    case _ => None
  }

  /** A body is valid exactly when none of the declared paths has a failing
      validator. */
  lemma ValidIffNoViolation(f: UserFields)
    ensures Valid(f) <==> forall p :: p in USER_PATHS ==> PathViolation(f, p).None?
  {
    assert PathViolation(f, Email).None? && PathViolation(f, Name).None?
           && PathViolation(f, Password).None? && PathViolation(f, Role).None?
           && PathViolation(f, Seniority).None?
           ==> forall p :: p in USER_PATHS ==> PathViolation(f, p).None?;
  }

  /** The validation error the schema reports for a body whose defaults are
      already filled in: each path whose rule it breaks, with the rule, and
      no other path. */
  function Errors(f: UserFields): (errs: ValidationErrors)
    ensures errs.Keys <= {Email, Name, Password, Role, Seniority}
    ensures errs == map[] <==> Valid(f)
  {
    var errs := map p | p in USER_PATHS && PathViolation(f, p).Some? :: PathViolation(f, p).value;
    assert Valid(f) ==> errs.Keys == {};
    assert Valid(f) ==> errs == map[];
    assert !Valid(f) ==> Email in errs || Name in errs || Password in errs || Role in errs || Seniority in errs;
    errs
  }

  /** Which paths the validation error names, and with which rule: each
      path whose rule the body breaks, the first failing rule of that path. */
  lemma ErrorsByPath(f: UserFields)
    ensures Email in Errors(f) <==> !PresentString(f.email)
    ensures Name in Errors(f) <==> !PresentString(f.name)
    ensures Password in Errors(f) <==> !PresentString(f.password)
    ensures Role in Errors(f) <==> !(PresentString(f.role) && ParseRole(f.role.value).Some?)
    ensures Role in Errors(f) ==> Errors(f)[Role] == if PresentString(f.role) then Enum else Required
    ensures Seniority in Errors(f) <==> f.seniority.Some? && ParseSeniority(f.seniority.value).None?
    ensures Seniority in Errors(f) ==> Errors(f)[Seniority] == Enum
    ensures forall p :: p in Errors(f) && p != Role && p != Seniority ==> Errors(f)[p] == Required
  {
  }

  /** `new User(fields)` followed by the validation `save` runs: defaults are
      filled in, then the record to store or the validation errors. */
  function Create(f: UserFields): (r: Result<User, ValidationErrors>)
    ensures r.Ok? <==> Valid(f)
    ensures r.Ok? ==> ValidRecord(r.value)
    ensures r.Ok? ==> Fields(r.value) == WithDefaults(f)
    ensures r.Err? ==> r.error == Errors(WithDefaults(f)) && r.error != map[]
  {
    var g := WithDefaults(f);
    if Errors(g) == map[] then
      Ok(User(g.email.value, g.name.value, g.password.value, ParseRole(g.role.value).value, g.skills.value,
              ParseSeniority(g.seniority.value).value, g.maxCapacity.value, g.department))
    else
      Err(Errors(g))
  }

  /** A record is accepted exactly when it satisfies the schema, and creating
      it from its own fields gives it back. */
  lemma CreateRoundTrip(u: User)
    ensures Valid(Fields(u)) <==> ValidRecord(u)
    ensures ValidRecord(u) ==> Create(Fields(u)) == Ok(u)
  {
    NamesRoundTrip(u.role, u.seniority);
  }

  /** Omitted `seniority` and `maxCapacity` are stored as "junior" and 100;
      omitted `skills` as the empty array; omitted `department` stays absent. */
  lemma DefaultsStored(f: UserFields)
    requires Valid(f) && f.seniority.None? && f.maxCapacity.None? && f.skills.None? && f.department.None?
    ensures Create(f).Ok?
    ensures Create(f).value.seniority == Junior
    ensures Create(f).value.maxCapacity == 100
    ensures Create(f).value.skills == [] && Create(f).value.department.None?
  {
  }

  /** `maxCapacity` has no declared bounds: any supplied number is stored as is. */
  lemma AnyMaxCapacityStored(f: UserFields, capacity: int)
    requires Valid(f)
    ensures Create(f.(maxCapacity := Some(capacity))).Ok?
    ensures Create(f.(maxCapacity := Some(capacity))).value.maxCapacity == capacity
  {
  }

  /** A role outside the two names is refused, and so is a missing one. */
  lemma RoleRejected(f: UserFields)
    requires f.role.None? || f.role.value !in {"engineer", "manager"}
    ensures Create(f).Err? && Role in Create(f).error
  {
  }

  /** Whether a stored user already has this email. */
  predicate EmailTaken(users: seq<Doc<User>>, email: string)
  {
    exists i :: 0 <= i < |users| && users[i].body.email == email
  }

  /** The unique index on `email`: no two stored users share one. */
  predicate UniqueEmails(users: seq<Doc<User>>)
  {
    forall i, j :: 0 <= i < j < |users| ==> users[i].body.email != users[j].body.email
  }

  /** Emails are unique exactly when each user's email was not yet taken by
      the users stored before it, as the index checks on every insert. */
  lemma UniqueEmailsByInsertion(users: seq<Doc<User>>)
    ensures UniqueEmails(users) <==> forall i :: 0 <= i < |users| ==> !EmailTaken(users[..i], users[i].body.email)
  {
  }

  /** Inserting a user whose email is not taken keeps emails unique. */
  lemma {:induction false} InsertKeepsEmailsUnique(users: seq<Doc<User>>, d: Doc<User>)
    requires UniqueEmails(users) && !EmailTaken(users, d.body.email)
    ensures UniqueEmails(users + [d])
  {
    var s := users + [d];
    forall i, j | 0 <= i < j < |s| ensures s[i].body.email != s[j].body.email {
      if j == |users| {
        assert s[i] == users[i];
      } else {
        assert s[i] == users[i] && s[j] == users[j];
      }
    }
  }
}

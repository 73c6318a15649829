/** Authentication: the token gate every protected route runs first, and
    the login handler that issues tokens. Signing, verifying and password
    comparison are library calls whose workings are not modelled: they are
    passed in as functions. */
module Auth {
  import opened Types
  import opened UserModel

  /** The payload a token carries: exactly `{ id, role }`. */
  datatype Claims = Claims(id: Id, role: UserRole)

  /** The outcome of the token gate: the handler runs with the decoded
      claims, or the request ends with a 401 carrying `message`. */
  datatype Gate = Admit(claims: Claims) | Refuse(message: string)

  const NO_TOKEN: string := "No token provided"
  const INVALID_TOKEN: string := "Invalid token"
  const INVALID_CREDENTIALS: string := "Invalid credentials"

  /** The auth middleware. `authorization` is the raw `Authorization` header
      (used verbatim, with no "Bearer " prefix); `verify` is the token
      check, which yields the claims of a well-formed, correctly signed,
      unexpired token and nothing otherwise. An empty header counts as no
      header. */
  function Authenticate(authorization: Option<string>, verify: string -> Option<Claims>): (g: Gate)
    ensures g.Admit? <==> authorization.Some? && authorization.value != "" && verify(authorization.value).Some?
    ensures g.Admit? ==> g.claims == verify(authorization.value).value
    ensures g.Refuse? ==> g.message in {NO_TOKEN, INVALID_TOKEN}
    ensures g.Refuse? ==> (g.message == NO_TOKEN <==> authorization.None? || authorization.value == "")
  {
    match authorization
    case None => Refuse(NO_TOKEN)
    case Some(token) =>
      if token == "" then Refuse(NO_TOKEN)
      else match verify(token)
        case None => Refuse(INVALID_TOKEN)
        case Some(claims) => Admit(claims)
  }

  /** The response a refused request gets. */
  function Refusal<T>(g: Gate): Response<T>
    requires g.Refuse?
  {
    Failed(UNAUTHORIZED, Message(g.message))
  }

  /** The user fields a login response shows: never the password hash. */
  datatype UserSummary = UserSummary(id: Id, name: string, email: string, role: UserRole)

  /** The body of a successful login. */
  datatype Session = Session(token: string, user: UserSummary)

  /** `User.findOne({ email })`: the position of the first stored user with
      this email, if any. */
  function FindByEmail(users: seq<Doc<User>>, email: string): (r: Option<nat>)
    ensures r.Some? ==> r.value < |users| && users[r.value].body.email == email
    ensures r.Some? ==> forall j :: 0 <= j < r.value ==> users[j].body.email != email
    ensures r.None? <==> !EmailTaken(users, email)
  {
    if users == [] then None
    else if users[0].body.email == email then Some(0)
    else
      match FindByEmail(users[1..], email)
      case None =>
        assert forall i :: 0 < i < |users| ==> users[i] == users[1..][i - 1];
        None
      case Some(k) => Some(k + 1)
  }

  /** Whether `sign` and `verify` are a matching pair: every token signed is
      non-empty and verifies back to the claims it was signed over. */
  ghost predicate TokensRoundTrip(sign: Claims -> string, verify: string -> Option<Claims>)
  {
    forall c :: sign(c) != "" && verify(sign(c)) == Some(c)
  }

  /** The login handler. `compare` is the password check (plain text against
      stored hash); `sign` issues a token over the given claims; `fault`
      stands for a lookup or comparison that throws. */
  function Login(users: seq<Doc<User>>, email: string, password: string,
                 compare: (string, string) -> bool, sign: Claims -> string, fault: bool): (r: Response<Session>)
    ensures fault ==> r == ServerError()
    ensures !fault ==>
              (r.Success? <==>
                 FindByEmail(users, email).Some? && compare(password, users[FindByEmail(users, email).value].body.password))
    ensures !fault && r.Failed? ==> r == Failed(UNAUTHORIZED, Message(INVALID_CREDENTIALS))
    ensures r.Success? ==> r.status == OK
    ensures r.Success? ==>
              var u := users[FindByEmail(users, email).value];
              && r.value.token == sign(Claims(u.id, u.body.role))
              && r.value.user == UserSummary(u.id, u.body.name, u.body.email, u.body.role)
  {
    if fault then ServerError()
    else match FindByEmail(users, email)
      case None => Failed(UNAUTHORIZED, Message(INVALID_CREDENTIALS))
      case Some(k) =>
        var u := users[k];
        if !compare(password, u.body.password) then Failed(UNAUTHORIZED, Message(INVALID_CREDENTIALS))
        else
          var token := sign(Claims(u.id, u.body.role));
          Success(OK, Session(token, UserSummary(u.id, u.body.name, u.body.email, u.body.role)))
  }

  /** With emails unique, login succeeds exactly when some stored user has
      this email and the password matches that user's hash; the session is
      that user's. */
  lemma LoginWithUniqueEmails(users: seq<Doc<User>>, email: string, password: string,
                              compare: (string, string) -> bool, sign: Claims -> string, i: nat)
    requires UniqueEmails(users) && i < |users| && users[i].body.email == email
    ensures Login(users, email, password, compare, sign, false).Success? <==> compare(password, users[i].body.password)
    ensures Login(users, email, password, compare, sign, false).Success? ==>
              Login(users, email, password, compare, sign, false).value.user.id == users[i].id
  {
  }

  /** An unknown email and a wrong password are told apart by nothing: both
      get the same 401 "Invalid credentials" and no token. */
  lemma FailuresIndistinguishable(users: seq<Doc<User>>, unknown: string, known: string, guess: string,
                                  password: string, compare: (string, string) -> bool, sign: Claims -> string)
    requires !EmailTaken(users, unknown)
    requires FindByEmail(users, known).Some?
    requires !compare(password, users[FindByEmail(users, known).value].body.password)
    ensures Login(users, unknown, guess, compare, sign, false) == Login(users, known, password, compare, sign, false)
    ensures Login(users, unknown, guess, compare, sign, false) == Failed(UNAUTHORIZED, Message(INVALID_CREDENTIALS))
  {
  }

  /** A token from a successful login passes the gate and carries the id and
      role of the user who logged in. */
  lemma LoginThenAuthenticate(users: seq<Doc<User>>, email: string, password: string,
                              compare: (string, string) -> bool, sign: Claims -> string,
                              verify: string -> Option<Claims>)
    requires TokensRoundTrip(sign, verify)
    requires Login(users, email, password, compare, sign, false).Success?
    ensures
      var s := Login(users, email, password, compare, sign, false).value;
      Authenticate(Some(s.token), verify) == Admit(Claims(s.user.id, s.user.role))
  {
    var s := Login(users, email, password, compare, sign, false).value;
    var c := Claims(s.user.id, s.user.role);
    assert s.token == sign(c);
    assert sign(c) != "" && verify(sign(c)) == Some(c);
  }
}

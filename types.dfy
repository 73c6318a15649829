/** Values shared by every part of the model: optional values, results,
    document ids, stored documents, validation errors and HTTP responses. */
module Types {

  datatype Option<+T> = None | Some(value: T)

  datatype Result<+T, +E> = Ok(value: T) | Err(error: E)

  /** A document id (a MongoDB ObjectId): only its identity matters. */
  type Id = nat

  /** A stored date, as an opaque integer whose only meaning is its order. */
  type Date = int

  /** A stored document: its `_id` and its fields. */
  datatype Doc<+T> = Doc(id: Id, body: T)

  /** Mongoose's `required` rule for a string path: the value is present and
      is not the empty string. */
  predicate PresentString(s: Option<string>)
  {
    s.Some? && |s.value| > 0
  }

  /** The field paths the three schemas declare. */
  datatype Path =
    // user
    | Email | Name | Password | Role | Skills | Seniority | MaxCapacity | Department
    // project (besides Name)
    | Description | StartDate | EndDate | RequiredSkills | TeamSize | Status | ManagerId
    // assignment (besides StartDate, EndDate and Role)
    | EngineerId | ProjectId | AllocationPercentage

  /** The kind of a failed validator, as Mongoose names it. */
  datatype Violation = Required | Min | Max | Enum

  /** A schema validation error: Mongoose keys its entries by field path, so
      a path carries at most one violation, that of the first of its
      validators that fails (`required` first). */
  type ValidationErrors = map<Path, Violation>

  /** The `message` of a JSON error body. A 400 reply forwards the message of
      the exception the store raised, which the model keeps as the kind of
      that exception rather than as its text. */
  datatype Failure =
    | Message(text: string)
    | ValidationFailed(errors: ValidationErrors)
    | DuplicateKey(path: string)
    | StoreError

  /** One HTTP response: a status and a JSON body. */
  datatype Response<+T> = Success(status: int, value: T) | Failed(status: int, failure: Failure)

  const OK: int := 200
  const CREATED: int := 201
  const BAD_REQUEST: int := 400
  const UNAUTHORIZED: int := 401
  const NOT_FOUND: int := 404
  const SERVER_ERROR: int := 500

  const SERVER_ERROR_MESSAGE: string := "Server error"

  /** The reply every route's catch-all writes for an unexpected failure. */
  function ServerError<T>(): Response<T>
  {
    Failed(SERVER_ERROR, Message(SERVER_ERROR_MESSAGE))
  }
}

# Resourcely backend: a Dafny model

Resourcely is an HTTP backend that tracks engineers, projects and
percentage-based assignments between them. This project models its logic
in Dafny:

- the token gate that every protected route runs first;
- the login handler;
- the engineer capacity report, a fold over the engineer's assignments;
- the write handlers for projects and assignments;
- the list of engineers;
- the three document schemas: users, projects and assignments.

The document store is modelled in memory. Each collection is a sequence of
documents in the store's natural order, each with its own `_id`
(`Tables`). Its keyed view, `Tables.Table`, is a map from id to record, and
the write handlers are also stated against that map.

Modules, one per source component:

- `Types`: options, results, ids, validation errors and responses.
- `Tables`: a collection, the `findById` lookup, and the map view with its
  insert, replace and remove laws.
- `AssignmentModel`, `ProjectModel`, `UserModel`: one module per schema
  file. Each has a validity predicate, the validation error a body gets,
  and record creation. The project and user modules also fill in their
  schema's defaults; the assignment schema declares none. `AssignmentModel`
  also holds the field-by-field update. `UserModel` also holds the
  unique-email invariant.
- `Auth`: the token gate and login (`server.js` lines 23-76).
- `Capacity`: the capacity report (`server.js` lines 104-125), with a second
  definition of the sum and the laws that connect it to store writes.
- `Server`: the `Api` class. It holds the three collections and the
  configured token and password functions. It has one method per modelled
  route, plus `InsertUser`, the store's insert of a user, where the unique
  `email` index acts. Each protected route runs the gate before its
  handler; login has no gate.

Library semantics the model spells out:

- Mongoose's `required` refuses an absent value, and for a string also the
  empty string.
- A validation error has at most one entry per path: the first of that
  path's validators that fails, with `required` checked first.
- Array paths (`skills`, `requiredSkills`) start empty.
- Defaults are filled in before validation.
- An `Authorization` header that is present but empty is treated like a
  missing one ("No token provided"), because the check in the source is
  a falsiness test.

Facts about the code that the model keeps:

- The two token failures get different 401 messages, "No token provided"
  and "Invalid token" (server.js:28 and 38).
- No schema restricts `skills` to engineers, and nothing checks that a
  project's `managerId` names a manager, or any user at all.
- Login answers 401 "Invalid credentials" for an unknown email and for a
  wrong password alike (server.js:48-56). Only a lookup or comparison that
  throws gives the 500 of the catch at server.js:73-75.
- `GET /api/engineers` returns whole user documents, password hash
  included. Only the login response leaves the hash out.

## Model

| member | source | states |
|---|---|---|
| `Tables.IndexOf` | server.js:193-201 | the lookup by id finds the first document with that id, and finds nothing exactly when no stored document has it |
| `Tables.Find` | server.js:106-107 | `findById` returns a record exactly when the id is stored, and that record is stored under the id |
| `Tables.FindInTable` | server.js:106 | with distinct ids, `findById` answers exactly what the keyed map holds under the id |
| `Tables.TableAppend` | server.js:178-179 | saving under a fresh id keeps ids distinct and adds exactly that entry to the keyed map |
| `Tables.TableReplace` | server.js:193-197 | an update in place keeps the ids, and changes only that id's entry in the keyed map |
| `Tables.TableRemove` | server.js:211-213 | a delete keeps ids distinct and removes exactly that id from the keyed map; every other entry is unchanged |
| `AssignmentModel.ValidIffNoViolation` | models/assignment.model.js:3-31 | the schema predicate `Valid` holds exactly when none of the six declared paths has a failing validator |
| `AssignmentModel.Errors` | models/assignment.model.js:3-31 | the validation error names only declared paths, and it is empty exactly when the body is valid |
| `AssignmentModel.ErrorsByPath` | models/assignment.model.js:3-31 | the error names each missing required path with `required`, and an out-of-range percentage with `min` below 0 or `max` above 100; it names no path whose rules hold |
| `AssignmentModel.Create` | models/assignment.model.js:3-34 | a body is stored exactly when it satisfies the schema; the record has the body's fields and a percentage in 0..100; otherwise the reply is the non-empty validation error |
| `AssignmentModel.CreateRoundTrip` | models/assignment.model.js:14-31 | a record's own fields are valid exactly when its percentage is in 0..100 and its role is non-empty; creating from them gives the record back |
| `AssignmentModel.EndBeforeStartAccepted` | models/assignment.model.js:20-27 | no ordering between `startDate` and `endDate`: an assignment ending before it starts is stored |
| `AssignmentModel.AnyRoleAccepted` | models/assignment.model.js:28-31 | `role` is free text: any non-empty label is accepted and stored |
| `AssignmentModel.Merge` | server.js:193-197 | the update keeps a stored record within the schema when every supplied percentage is in 0..100 and every supplied role is non-empty |
| `AssignmentModel.MergeByField` | server.js:193-197 | an update body overwrites exactly the fields it supplies: each supplied field takes the body's value, and each omitted field keeps the stored value |
| `AssignmentModel.MergeLaws` | server.js:193-197 | an empty body changes nothing, a full body replaces the record, and applying a body twice equals applying it once |
| `ProjectModel.ParseStatus` | models/project.model.js:30-34 | the status enum accepts exactly the three names "planning", "active" and "completed" |
| `ProjectModel.StatusRoundTrip` | models/project.model.js:30-34 | every status reads back as itself |
| `ProjectModel.WithDefaults` | models/project.model.js:22-34 | a missing `status` becomes "planning" and missing `requiredSkills` becomes empty; supplied values and all other fields are kept |
| `ProjectModel.DefaultsIdempotent` | models/project.model.js:30-34 | filling in defaults twice is the same as filling them in once |
| `ProjectModel.ValidIffNoViolation` | models/project.model.js:3-39 | the schema predicate `Valid` holds exactly when none of the declared paths has a failing validator |
| `ProjectModel.Errors` | models/project.model.js:3-39 | the validation error names only declared paths other than `requiredSkills`, and it is empty exactly when the body is valid |
| `ProjectModel.ErrorsByPath` | models/project.model.js:3-39 | the error names each missing required path with `required`, a `teamSize` below 1 with `min` and a status outside the enum with `enum`; it names no path whose rules hold |
| `ProjectModel.Create` | models/project.model.js:3-42 | a body is stored exactly when it is valid; the record has the body's fields with defaults filled in, `teamSize` at least 1, and status `planning` when none was given |
| `ProjectModel.CreateRoundTrip` | models/project.model.js:3-39 | a record's own fields are valid exactly when its name and description are non-empty and its team size is at least 1; creating from them gives the record back |
| `ProjectModel.StatusDefault` | models/project.model.js:33 | a supplied valid status is stored unchanged, and an omitted one is stored as planning |
| `ProjectModel.MissingTeamSizeRejected` | models/project.model.js:25-29 | a body without `teamSize` is refused with a `required` error on that path |
| `ProjectModel.BoundsRejected` | models/project.model.js:25-34 | a team size below 1 is refused with `min`; a status outside the three names is refused with `enum` |
| `ProjectModel.UncheckedFields` | models/project.model.js:14-39 | `requiredSkills` is optional, end before start is accepted, and `managerId` may name any id |
| `UserModel.ParseRole` | models/user.model.js:18-22 | the role enum accepts exactly "engineer" and "manager" |
| `UserModel.ParseSeniority` | models/user.model.js:26-30 | the seniority enum accepts exactly "junior", "mid" and "senior" |
| `UserModel.NamesRoundTrip` | models/user.model.js:18-30 | every role and seniority level reads back as itself |
| `UserModel.WithDefaults` | models/user.model.js:23-34 | a missing `seniority` becomes "junior", `maxCapacity` becomes 100 and `skills` becomes empty; everything else is kept |
| `UserModel.DefaultsIdempotent` | models/user.model.js:26-34 | filling in defaults twice is the same as filling them in once |
| `UserModel.ValidIffNoViolation` | models/user.model.js:4-37 | the schema predicate `Valid` holds exactly when none of the declared paths has a failing validator |
| `UserModel.Errors` | models/user.model.js:4-37 | the validation error names only `email`, `name`, `password`, `role` or `seniority`, and it is empty exactly when the body is valid |
| `UserModel.ErrorsByPath` | models/user.model.js:4-37 | the error names each missing required path with `required`, and a role or seniority outside its enum with `enum`; it names no path whose rules hold |
| `UserModel.Create` | models/user.model.js:4-40 | a body is stored exactly when it is valid, with its defaults filled in |
| `UserModel.CreateRoundTrip` | models/user.model.js:4-37 | a record's own fields are valid exactly when email, name and password are non-empty; creating from them gives the record back |
| `UserModel.DefaultsStored` | models/user.model.js:23-37 | omitted seniority and capacity are stored as junior and 100; omitted skills become empty and omitted department stays absent |
| `UserModel.AnyMaxCapacityStored` | models/user.model.js:31-34 | `maxCapacity` has no bounds: any number is stored as given |
| `UserModel.RoleRejected` | models/user.model.js:18-22 | a missing role, or one other than engineer or manager, is refused with an error on `role` |
| `UserModel.UniqueEmailsByInsertion` | models/user.model.js:8 | the unique index `UniqueEmails` (no two stored users share an email) holds exactly when each user's email was not taken by the users stored before it |
| `UserModel.InsertKeepsEmailsUnique` | models/user.model.js:5-9 | adding a user whose email is not taken keeps every stored email unique |
| `Auth.Authenticate` | server.js:23-40 | a request passes exactly when the header is present, non-empty and verifies, and it passes with the decoded `{id, role}`; otherwise the message is "No token provided" when the header is missing or empty and "Invalid token" otherwise |
| `Auth.FindByEmail` | server.js:46 | `findOne({ email })` returns the first user with that email, and nothing exactly when no user has it |
| `Auth.Login` | server.js:43-76 | login succeeds exactly when a user has the email and the password matches its hash; every other outcome is 401 "Invalid credentials" (500 on a thrown error); success returns a token signed over exactly `{id, role}` and the summary `{id, name, email, role}` |
| `Auth.LoginWithUniqueEmails` | server.js:46-56 | with unique emails, login succeeds exactly when the password matches the one user with that email, and the session is that user's |
| `Auth.FailuresIndistinguishable` | server.js:48-56 | an unknown email and a wrong password get the identical 401 "Invalid credentials" reply, with no token |
| `Auth.LoginThenAuthenticate` | server.js:58-71 | a token from a successful login passes the gate, with the id and role of the user who logged in |
| `Capacity.TotalAllocation` | server.js:112-115 | the `reduce` over the engineer's percentages equals the reference sum `Committed` |
| `Capacity.TotalIsCommitted` | server.js:111-115 | the left fold the handler runs over the engineer's assignments equals the per-document reference sum |
| `Capacity.CommittedAppend` | server.js:112-115 | the reference sum over two concatenated collections is the sum of the two |
| `Capacity.NoAssignmentsNoAllocation` | server.js:111-115 | an engineer with no assignment has allocation 0 |
| `Capacity.CommittedPermutation` | server.js:111 | the order the store returns assignments in does not change the sum |
| `Capacity.AllocationAfterInsert` | server.js:176-179 | storing an assignment adds its percentage to its own engineer's allocation and nothing to any other engineer's |
| `Capacity.AllocationAfterDelete` | server.js:211-219 | deleting an assignment takes exactly its percentage off its engineer's allocation |
| `Capacity.AllocationAfterReplace` | server.js:191-205 | updating an assignment replaces its old contribution with the new one |
| `Capacity.AllocationBounds` | models/assignment.model.js:14-19 | with every percentage in 0..100, an engineer's allocation is at least 0 and at most 100 times their number of assignments, so it can exceed 100 |
| `Capacity.IsEngineer` | server.js:106-107 | passing the guard means some stored user has the id and is an engineer; with distinct ids, it passes exactly then |
| `Capacity.EngineerCapacity` | server.js:104-125 | 404 "Engineer not found" exactly when no user has the id or the user is not an engineer; otherwise `currentAllocation` is the sum over every assignment naming the engineer, with no date or status filter, and `availableCapacity` is `maxCapacity` minus that sum, which may be negative |
| `Capacity.ValidityIgnoresCapacity` | server.js:176-179 | a valid body is accepted whatever the engineer already has, and raises their allocation by its percentage, even past `maxCapacity` |
| `Capacity.SeedScenario` | seed.js:141-157 | seeded John Doe (capacity 100, assignments of 100 and 50) is reported as 100 / 150 / -50 |
| `Server.Populate` | server.js:181-183 | the populated assignment keeps its id and fields; each reference becomes the referenced user's `{id, name, email}` or project's `{id, name}`, or null when it names nothing |
| `Server.Engineers` | server.js:96 | every listed document is an engineer, and the list is no longer than the store |
| `Server.EngineersMembers` | server.js:96 | the list holds exactly the stored users whose role is engineer |
| `Server.EngineersAppend` | server.js:96 | the query distributes over concatenation of the store, so it keeps store order and each document's multiplicity |
| `Server.EngineersSingle` | server.js:96 | on one document the query keeps it exactly when it is an engineer; with `EngineersAppend` this fixes the result for every store |
| `Server.EngineersDistinct` | server.js:96 | with distinct ids in the store, each engineer is listed once |
| `Server.Api.InsertUser` | models/user.model.js:5-9 | a new user is stored only if it is valid and its `_id` and email are both new; otherwise the store is unchanged; emails stay unique |
| `Server.Api.PostLogin` | server.js:43-76 | the login route answers as `Auth.Login` over the stored users |
| `Server.Api.GetEngineers` | server.js:94-102 | 401 when the gate refuses; otherwise the stored engineers, or 500 on a failed query |
| `Server.Api.GetCapacity` | server.js:104-125 | 401 when the gate refuses; otherwise the capacity report |
| `Server.Api.PostProject` | server.js:137-145 | 401 when the gate refuses; otherwise 201 with the created project exactly when the body is valid, the store does not fail and the id is new; every other outcome is 400 with the store unchanged |
| `Server.Api.PostAssignment` | server.js:176-189 | 401 when the gate refuses; otherwise 201 with the populated new assignment exactly when the body is valid and the write succeeds; every other outcome is 400 with the store unchanged; no capacity check |
| `Server.Api.PutAssignment` | server.js:191-209 | 401 when the gate refuses; 400 when the store rejects the update; 404 "Assignment not found" for a missing id; otherwise only that assignment changes, and the reply is the record after the update, populated |
| `Server.Api.DeleteAssignment` | server.js:211-223 | 401 when the gate refuses; 500 on a store failure; 404 for a missing id with the store unchanged; otherwise only that assignment is removed, the others keep their order, and the reply is "Assignment deleted successfully" |

## Left out

- Express wiring, CORS, JSON parsing, the liveness route `GET /` and the
  module export: these are I/O plumbing.
- The database connection, and the mechanics of Mongoose queries. The store
  is the in-memory `Api` object, and `populate` is the projection
  `Server.Populate`.
- Token signing, token verification with its one-day expiry, and bcrypt
  hashing and comparison. These are cryptographic library calls. They are
  the functions `Api.sign`, `Api.verify` and `Api.compare`. Expiry and time
  are inside `verify`, so the model does not capture them.
- Exceptions from the store or the libraries are a `fault` flag per
  request, mapped to each route's catch status. The model does not say
  where inside a handler the exception happens. In particular, a POST
  assignment whose save succeeds but whose later populate query throws is
  not modelled: the source still answers 400 in that case.
- Whether `findByIdAndUpdate` runs the schema validators. The update
  method's `rejected` flag stands for any refusal by the store, so the
  model asserts neither behaviour.
- Type casting of request values (strings to numbers, dates or ids) and
  cast errors. Fields arrive already typed. Malformed ids are not modelled
  beyond the catch branch's status.
- Allocation percentages, team sizes and capacities are JavaScript numbers
  (floating point). The model uses integers.
- An `email` or `password` missing from the login body.
- `null` values in request bodies. A field is either supplied with a value
  or absent.
- `timestamps` (createdAt and updatedAt), because they depend on the clock.
  Dates are opaque integers.
- Which key a duplicate-key error names when both the new `_id` and the
  email collide. The model reports `_id`.
- The routes `GET /api/auth/profile`, `GET /api/projects`,
  `GET /api/projects/:id` and `GET /api/assignments`. They are single
  lookups or listings with a `populate`, and lie outside the modelled core.
- The seed script, apart from its data, which `Capacity.SeedScenario` uses.
- Concurrent requests racing on the same document (last write wins).

# Maker-checker request engine, modelled in Dafny

This project models the authorization and lifecycle engine of a small
maker-checker module. A *requester* submits a typed *request*. An *approver*
whose allowed types include the request's type may approve or reject it
before it expires. The model covers the following:

- the entity records: `Requester`, `Approver`, `Request` over the tags
  `A | B | C`, with statuses `PENDING`, `APPROVED` and `REJECTED`;
- the admission guard of `RequestService.create`;
- the guard chain of `canApproveRequest` and the status transition of
  `processRequest`;
- the parts of the relational store these rely on, as an abstract map store.

Design choices:

- The wall clock becomes an explicit integer `now`. Dates are integers on the
  same clock.
- Storage is a value `Db.Store` that is passed into and returned from every
  operation.
- Every thrown error becomes a `Results.Error` value.

Files and modules:

- `results.dfy` (`Results`): `Option`, `Error`, `Result`.
- `domain.dfy` (`Domain`): the entities, `IsExpired`, the default PENDING status.
- `db.dfy` (`Db`): the two relations as maps. It covers the primary-key and
  foreign-key discipline (`Valid`), the insert that never writes the status
  column (so a stored request always starts PENDING), the join that rebuilds a
  request with its requester, and the status update.
- `request_service.dfy` (`RequestService`): `Get`, `Create`, `CanApprove` and
  `Process`. The `approve` flag of `Process` defaults to `true`.
- `lifecycle.dfy` (`Lifecycle`): arbitrary sequences of calls. It proves that
  terminal statuses are absorbing, that each request is decided at most once,
  and that the store discipline is preserved.
- `scenarios.dfy` (`Scenarios`): the repository's module test replayed as
  lemmas.

Behaviour of the code that the model keeps:

- Creation refuses a request only when its expiration date is strictly
  before `now`. A request expiring exactly at `now` is admitted.
- Creation compares the request type with the role of the requester value
  *passed in by the caller*, not with the role stored for that requester id.
  The stored request keeps only the requester id. `Scenarios.CreateTrustsCallerRequester`
  shows a run in which the stored type then differs from the stored
  requester's role. `RequestService.CreateKeepsTypesMatchingRoles` shows that
  type and role stay equal when callers pass the stored requester.
- An approver's allowed types are an array searched by membership, so
  duplicates are possible and harmless.
- The last line of `canApproveRequest` repeats a check that has already
  passed. So it never answers `false`, and the "no permission" error of
  `processRequest` is unreachable. Both are modelled as written, and
  `CanApprove` and `Process` state that they never produce those outcomes.
- A store insert that violates both the primary key and the foreign key
  reports the duplicate id. PostgreSQL checks the unique index before it
  checks the foreign key.

## Model

| member | source | states |
|---|---|---|
| Domain.IsExpired | src/domain/request.ts:27-29 | a request is live up to and including its expiration instant, and expired at every time strictly after it |
| Domain.NewRequestIsPending | src/domain/request.ts:15-21 | a request built without a status is PENDING, and every field equals its constructor argument |
| Domain.NotExpiredAtDeadline | src/domain/request.ts:27-29 | a request is not expired at its own expiration instant |
| Domain.ExpiryIsMonotone | src/domain/request.ts:28 | a request expired at time t is expired at every later time |
| Db.EmptyIsValid | src/db/db.service.ts:34-42 | the empty store satisfies the key discipline and holds no readable request |
| Db.GetRequester | src/db/db.service.ts:82-94 | a requester is found iff a row has that key; the row found is the stored one, and under the key discipline it carries the id asked for |
| Db.InsertRequester | src/db/db.service.ts:64-75 | inserting a requester succeeds iff its id is new (else DuplicateId), makes it readable, changes no other requester or request, and keeps the key discipline |
| Db.GetRequest | src/db/db.service.ts:139-165 | the inner join yields a request iff the row exists and its requester is stored; the result carries the asked id, the row's requester id, type, date and status, and the stored requester's name and role |
| Db.GetRequestOfValid | src/db/db.service.ts:139-165 | under the key discipline a request is readable iff its row exists, and it is read back with the row's type, date and status and the stored requester |
| Db.InsertRequest | src/db/db.service.ts:100-115 | insert succeeds iff the id is new and the requester is stored; duplicate id wins over a missing requester; old rows are kept; the new row is PENDING whatever status the value carried, and it reads back as the value with the stored requester |
| Db.UpdateRequestStatus | src/db/db.service.ts:122-132 | only the named row's status changes, to the terminal status given; a missing id changes nothing; the key discipline is kept |
| RequestService.Get | src/service/request.service.ts:48-55 | a missing request yields RequestNotFound; a found one carries the stored row's id, requester, type, date and status |
| RequestService.Create | src/service/request.service.ts:62-70 | expired requests fail with RequestExpired before the type check; otherwise a type/role mismatch fails with TypeRoleMismatch; success iff both pass and the store accepts the row; on success the request reads back PENDING, no other request changes, the requester relation is untouched and the only new key is the request's id |
| RequestService.CreateThenGet | src/db/db.service.ts:100-111 | after a successful create with the stored requester, reading the id returns the request with status PENDING even if it was passed with another status |
| RequestService.CreateKeepsTypesMatchingRoles | src/service/request.service.ts:66-69 | when the caller passes the stored requester, creation keeps every stored request's type equal to its requester's role |
| RequestService.CanApprove | src/service/request.service.ts:72-91 | checks run in order (expired, not PENDING, type not allowed, requester role A) and the first failure is reported; it succeeds iff all pass, and never answers false |
| RequestService.Decision | src/service/request.service.ts:35-39 | the written status is terminal, and it is APPROVED iff the approve flag is set |
| RequestService.Process | src/service/request.service.ts:22-40 | a missing id fails with RequestNotFound; otherwise the guard chain's first failure is reported; success iff every check passes; on success exactly this request's status becomes APPROVED or REJECTED by the flag and nothing else changes; NoPermission never occurs |
| RequestService.DecidedRequestIsAbsorbing | src/service/request.service.ts:77-79 | after a successful decision every later process call on that id fails, whatever the approver, flag or time, and before expiry it fails with AlreadyProcessed |
| RequestService.RoleARequestsAreUndecidable | src/service/request.service.ts:85-88 | a request from a role-A requester is never decided, even by an approver allowed type A |
| Lifecycle.StepKeepsRequests | src/service/request.service.ts:27-39 | no call removes a request or changes its requester, type or date; a status changes only from PENDING to terminal, and only by a call that decides that request |
| Lifecycle.TerminalIsAbsorbing | src/service/request.service.ts:77-79 | an APPROVED or REJECTED request keeps its row unchanged through any sequence of later calls |
| Lifecycle.AtMostOneDecision | src/service/request.service.ts:27-39 | in any sequence of calls at most one decides a given request, and none does if it is already decided |
| Lifecycle.RunKeepsValid | src/db/db.service.ts:34-42 | every sequence of calls preserves the primary-key and foreign-key discipline |
| Scenarios.WithRequesters | test/module-test.spec.ts:36-42 | the store built by inserting the three requesters into the empty store keeps the key discipline, reads each requester back as written, and answers RequestNotFound for every request id |
| Scenarios.RequestersAreAdmitted | test/module-test.spec.ts:36-42 | each of the three requester inserts succeeds on the store left by the previous one, starting from the empty store |
| Scenarios.CreateAndReadBack | test/module-test.spec.ts:63-66 | after all four creates, reading request "1" back returns the very request value created |
| Scenarios.ExpiredIsRefused | test/module-test.spec.ts:78-82 | the request that expired before now is refused with RequestExpired in any store |
| Scenarios.CreatesYieldSeeded | test/module-test.spec.ts:54-61 | the four live requests are all admitted, each stored PENDING |
| Scenarios.TypeNotInAllowedTypes | test/module-test.spec.ts:85-89 | an approver allowed only B cannot decide a type-A request |
| Scenarios.RoleAIsForbidden | test/module-test.spec.ts:91-95 | an approver allowed A and B cannot decide the role-A requester's request |
| Scenarios.ApproveB | test/module-test.spec.ts:97-101 | the type-B request is approved by the approver allowed A and B |
| Scenarios.ApproveC | test/module-test.spec.ts:103-107 | on the store left by the previous approval, the type-C request is approved by the approver allowed A, B and C |
| Scenarios.RejectX | test/module-test.spec.ts:109-113 | on the store left by both approvals, processing with the flag false rejects the request, and the two earlier decisions stay in place |
| Scenarios.CreateTrustsCallerRequester | src/service/request.service.ts:66-69 | a request carrying a requester value whose role differs from the stored one is admitted, and the stored type then differs from the stored requester's role |

## Left out

- SQL, connection pooling, transactions, and table creation and dropping
  (`createTables`, `deleteTables`): these are I/O through an external
  PostgreSQL client. The store is an abstract pair of maps.
- The approver relation and `ApproverService`, and `RequesterService`: they
  are get/insert façades whose only logic is "not found is an error". The
  engine receives the approver as a value, so the store holds no approvers.
  The schema's 1..3 bound on `allowed_types` is not enforced by the engine
  and is not modelled.
- `VARCHAR(255)` length limits and `NOT NULL` column checks: these are
  storage constraints with no counterpart in the engine.
- Storage failures other than duplicate key and missing foreign key, such as
  lost connections: these are outside the engine.
- `Date` values, invalid dates, time-zone setting and ISO-string conversion:
  time is an integer clock reading, assumed to survive the store unchanged.
- `src/main.ts`: it wires services together, sets the time zone, and drops
  and recreates the tables on every init. The model starts from `Db.Empty`
  for that reason; the wiring and the time zone are left out.
- Concurrency (`Promise.all` in the test, concurrent decisions on one
  request): the model is sequential. `Lifecycle.AtMostOneDecision` holds
  for sequential runs only and relies on no isolation guarantee.
- Field types: "type is one of A, B, C", "status is one of the three
  statuses" and "fields are read-only" hold by construction of the Dafny
  datatypes. No member states them.

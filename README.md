# Task-management API core, modelled in Dafny

This project models the core of a NestJS task-management API and proves
properties about it:

- **Refresh-token rotation.** `AuthService` and its `auth_refresh_tokens` table implement login,
  registration, refresh-token rotation with family-wide revocation on reuse, and logout.
- **Task domain.** This covers the `Task` aggregate and its event list, the aggregate/entity mapper,
  the read repository's filtered, sorted and paged listing with keyset and offset paging, and
  `TasksService`. It also covers the two batch command handlers (status update, soft delete) and the
  queue processor that splits status batches into chunks of 500 ids.
- **Request-side helpers.** These are the Redis sliding-window rate limiter (its Lua script and the
  guard's key and header logic), the logging interceptor's redaction and preview helpers and its skip
  rules, and the HTTP exception filter's error normalisation, sanitising and response body.

Layout:

- **One module per source file:** `RefreshTokens`, `Auth`, `TaskDomain`, `TaskMapper`,
  `TaskReadRepository`, `TasksService`, `BatchUpdateStatusHandler`, `BatchRemoveHandler`,
  `TaskProcessor`, `RateLimitGuard`, `LoggingInterceptor` and `HttpExceptionFilter`.
- **Shared modules:**
  - `TaskTable`: the `tasks` table with its soft-delete set, as TypeORM's `find`, `update`,
    `delete`, `softDelete` and `save` treat it. The table is taken to have the delete-date column
    that `softDelete` needs (see Findings). `find` and `findOne` skip soft-deleted rows, while
    `update` and `delete` reach every stored row, soft-deleted or not.
  - `TaskQuery`: query-builder semantics, meaning conjunctive `WHERE`, `ORDER BY` with an id
    tie-break, `skip`/`take` and `ceil`.
  - `TaskBatch`: the success/failed batch partition.
  - `Json`: the JSON value both the logging and the error helpers work on.
  - `Text`: ASCII case mapping, substrings and decimal rendering.
  - `Wrappers`: `Option` and `Result`.

Where the source changes state step by step, the model is imperative:

- `AuthService` over its user list and a token map keyed by `jti`.
- `Task` with its `props` and `events` fields.
- The `Table`.
- The Redis `WindowStore` with the `Eval` method that runs the Lua script command by command.
- The `andWhere` condition builder.
- The loops of `redactValue`, `deepRedact`, `sanitizeHeaders`, `sanitize`, the failed-list loops and
  the 500-id chunk loop.

Each method is proved equal to a pure step function, and the properties hold of those functions.

Outside collaborators become parameters:

- **JWT signing and verification** is a `Codec` of function values: `verify` returns
  `Verified(payload)`, `Expired` or `Invalid`.
- **SHA-256 and bcrypt** are a `Hasher`; its one law is that `compare(x, hash(x))` holds.
- **`randomUUID`** becomes id parameters that are non-empty and unused in the store.
- **`Date.now()` / `new Date()`** becomes a `now` parameter in milliseconds.
- **NestJS's `HttpStatus` name table** becomes a `map<int, string>` parameter.
- **`JSON.stringify` and `Buffer.byteLength`** are partial functions passed in; `None` means the call throws.

Behaviour worth noting:

- **Second refresh of a consumed token.** Presenting a consumed refresh token again fails with
  "Refresh token invalidated", because its row is `used`. It does not give "reuse detected".
  "Reuse detected" is reserved for a fingerprint mismatch on an otherwise valid row.
- **Marking a token used.** The `used` flag is set by reading the row and then saving it, not by a
  conditional update. So the model is sequential, and no lost-race outcome exists.
- **Revocation target.** Violations revoke the family named in the token's `fam` claim, not the
  row's family.

## Model

| member | source | states |
|---|---|---|
| RefreshTokens.NewRecord | src/modules/auth/entities/refresh-token.entity.ts:11-33 | a new row carries the given user, family, jti, hash, expiry and creation time and starts with `revoked` and `used` false (the column defaults) |
| RefreshTokens.Insert | src/modules/auth/entities/refresh-token.entity.ts:6 | saving a row with an unused jti adds exactly that key, keeps every other row and preserves the unique-jti invariant |
| RefreshTokens.FamilyRecords | src/modules/auth/entities/refresh-token.entity.ts:5 | the family index: exactly the jtis whose row has that family id |
| RefreshTokens.UserRecords | src/modules/auth/entities/refresh-token.entity.ts:4 | the user index: exactly the jtis whose row has that user id |
| Auth.FindUser | src/modules/auth/auth.service.ts:32 | `findByEmail` (login, registration) and `findOne` by id (lines 215-219): returns a user whose email, or id, is the key, and nothing exactly when no user has it |
| Auth.WellFormed | src/modules/auth/auth.service.ts:94 | a refresh payload needs a non-empty subject, jti and family |
| Auth.Anomalous | src/modules/auth/auth.service.ts:97-103 | the row check: missing, revoked, used, owned by another user, or expired strictly before now |
| Auth.FingerprintMatches | src/modules/auth/auth.service.ts:108 | `bcrypt.compare` of the token's fingerprint with the stored hash |
| Auth.Rotatable | src/modules/auth/auth.service.ts:96-112 | a token may rotate when it passes the stateless checks, its row is not anomalous and its fingerprint matches |
| Auth.Fingerprint | src/modules/auth/auth.service.ts:201 | the SHA-256 hex digest of the token |
| Auth.AccessToken | src/modules/auth/auth.service.ts:166-173 | the access token is signed over subject, email and role only, with the access lifetime |
| Auth.MintRefreshToken | src/modules/auth/auth.service.ts:175-199 | the token is the signed payload with the new jti and family; the row is live, belongs to that user and family, expires `refreshTtlSec` seconds after `now`, and its hash matches the token's fingerprint under the bcrypt law |
| Auth.RevokedFamily | src/modules/auth/auth.service.ts:205-212 | same keys; a row becomes revoked exactly when it was revoked or is in the family; no other field of any row changes |
| Auth.RetiredOne | src/modules/auth/auth.service.ts:138 | only the named row changes, and it gets `revoked` and `used` true with every other field kept |
| Auth.Lookup | src/modules/auth/auth.service.ts:96 | `findOne({ where: { jti } })`: the row exactly when the jti is stored |
| Auth.CheckPresented | src/modules/auth/auth.service.ts:82-94 | an empty token, a failed verification and a payload lacking `sub`, `jti` or `fam` are rejected with their three distinct errors; otherwise the verified payload is returned |
| Auth.RefreshStep | src/modules/auth/auth.service.ts:81-126 | a rejected token leaves the store unchanged; a missing, revoked, used, foreign-user or strictly expired row revokes the claimed family and fails "invalidated"; a fingerprint mismatch revokes it and fails "reuse detected"; otherwise the consumed row is marked used and exactly one live row is added in the same family, for the same user, with the new jti and expiry `now + refreshTtl`, and the new jti is returned |
| Auth.LogoutTarget | src/modules/auth/auth.service.ts:129-164 | which jti logout retires: none without a token, when verification fails, or when the verified payload has no jti; otherwise the verified payload's jti; for an expired token exactly the jti of the payload verified ignoring expiry |
| Auth.LogoutStep | src/modules/auth/auth.service.ts:129-164 | same keys; with no target nothing changes; only the target row changes, getting `revoked` and `used` true |
| Auth.LoginStep | src/modules/auth/auth.service.ts:31-54 | an unknown email or a wrong password fails with "Invalid credentials" and writes nothing; success is exactly a known email with a matching password, returns the profile, the new family and jti, and adds exactly one live row for that user and family |
| Auth.RegisterStep | src/modules/auth/auth.service.ts:56-79 | an existing email fails with "Email already exists" and changes nothing; otherwise the user is appended with the bcrypt-hashed password and exactly one live row is added under the new family |
| Auth.ValidateUserRoles | src/modules/auth/auth.service.ts:218-223 | true exactly when the user exists and either no roles are required or the user's role is among them |
| Auth.AuthService.constructor | src/modules/auth/auth.service.ts:24-29 | starts with the given users and an empty token table |
| Auth.AuthService.IssueAccessToken | src/modules/auth/auth.service.ts:166-173 | the access token is the payload `{sub, email, role}` signed for `accessTtlSec` |
| Auth.AuthService.IssueRefreshToken | src/modules/auth/auth.service.ts:175-199 | returns the minted token and inserts its row into the store |
| Auth.AuthService.RevokeFamily | src/modules/auth/auth.service.ts:205-212 | the store becomes `RevokedFamily` of the old store |
| Auth.AuthService.Login | src/modules/auth/auth.service.ts:31-54 | result and new state are those of `LoginStep` |
| Auth.AuthService.Register | src/modules/auth/auth.service.ts:56-79 | result and new state are those of `RegisterStep` |
| Auth.AuthService.Refresh | src/modules/auth/auth.service.ts:81-126 | result and new store are those of `RefreshStep`; the row is read, checked, then saved with `used = true` |
| Auth.AuthService.Logout | src/modules/auth/auth.service.ts:129-164 | the new store is that of `LogoutStep`; logout never fails |
| Auth.AuthService.ValidateRoles | src/modules/auth/auth.service.ts:218-223 | agrees with `ValidateUserRoles` |
| AuthProperties.EvolvesTransitive | src/modules/auth/auth.service.ts:114 | the "flags only go from false to true, rows are never deleted" relation composes |
| AuthProperties.RevokedFamilyIdempotent | src/modules/auth/auth.service.ts:205-212 | revoking a family twice is revoking it once |
| AuthProperties.RevokedFamilyScope | src/modules/auth/auth.service.ts:205-212 | rows of other families are untouched and every row of the family ends revoked |
| AuthProperties.ApplyEvolves | src/modules/auth/auth.service.ts:114 | any single operation keeps jtis unique and never resets `used` or `revoked` or removes a row |
| AuthProperties.LoginEvolves | src/modules/auth/auth.service.ts:31-54 | login keeps jtis unique and only adds rows |
| AuthProperties.RegisterEvolves | src/modules/auth/auth.service.ts:56-79 | registration keeps jtis unique and only adds rows |
| AuthProperties.RefreshEvolves | src/modules/auth/auth.service.ts:114-115 | refresh keeps jtis unique and only raises flags or adds rows |
| AuthProperties.LogoutEvolves | src/modules/auth/auth.service.ts:138 | logout keeps jtis unique and only raises flags |
| AuthProperties.RunEvolves | src/modules/auth/auth.service.ts:114 | over any sequence of operations jtis stay unique and no flag is ever reset |
| AuthProperties.RetiredRowRejected | src/modules/auth/auth.service.ts:97-105 | presenting a token whose row is used or revoked fails "invalidated" and revokes the claimed family |
| AuthProperties.SingleUse | src/modules/auth/auth.service.ts:114 | once a token has been rotated it can never be rotated again, whatever operations happen in between |
| AuthProperties.ViolationKillsFamily | src/modules/auth/auth.service.ts:104-111 | after a violation any other token of the same family is refused "invalidated", whatever operations follow |
| AuthProperties.LogoutRetires | src/modules/auth/auth.service.ts:137-139 | a token that was logged out can no longer be refreshed |
| AuthProperties.RetiringKeepsOneLive | src/modules/auth/auth.service.ts:205-212 | retiring rows keeps "at most one live row per family" |
| AuthProperties.NewFamilyKeepsOneLive | src/modules/auth/auth.service.ts:39 | adding a row under a fresh family keeps at most one live row per family |
| AuthProperties.SuccessionKeepsOneLive | src/modules/auth/auth.service.ts:114-123 | replacing a family's live row by a new one keeps at most one live row per family |
| AuthProperties.RefreshKeepsOneLive | src/modules/auth/auth.service.ts:81-126 | refresh keeps at most one live row per family when the token's `fam` claim names its row's family |
| AuthProperties.ApplyKeepsOneLive | src/modules/auth/auth.service.ts:31-164 | every operation keeps at most one live row per family, a refresh provided the token's `fam` claim names its row's family |
| AuthProperties.RotationSucceeds | src/modules/auth/auth.service.ts:96-115 | a verified, well-formed token whose row is live, owned by its subject, not yet expired and matching the fingerprint is rotated |
| AuthProperties.RotateThenReplay | src/modules/auth/auth.service.ts:81-126 | rotating a token succeeds; replaying the consumed token fails "invalidated" and revokes the family; then the new, unused token is refused as well and the store stays as it was |
| AuthProperties.ReplayScenario | src/modules/auth/auth.service.ts:31-126 | login, refresh, replay of the first token, refresh of the second: the second and third steps end "invalidated", with the family revoked |
| AuthProperties.RunKeepsIndexes | src/modules/auth/entities/refresh-token.entity.ts:4-5 | over any admissible run, the rows the user and family indexes select only grow: a row is never deleted, only marked used or revoked |
| TaskDomain.ParseStatus | src/queues/task-processor/task-processor.service.ts:12-14 | accepts exactly the three status strings and returns the status of that name |
| TaskDomain.StatusNameRoundTrip | src/modules/tasks/domain/task.aggregate.ts:5 | parsing a status's name gives the status back |
| TaskDomain.OrNull | src/modules/tasks/domain/task.aggregate.ts:26 | `x ?? null`: never undefined, keeps a given value (including null), and maps undefined to null |
| TaskDomain.Created | src/modules/tasks/domain/task.aggregate.ts:13-37 | status defaults to PENDING, absent optional fields become null, `createdAt == updatedAt == now`, id, title and priority are copied |
| TaskDomain.Patched | src/modules/tasks/domain/task.aggregate.ts:43-59 | only fields that are not undefined change; id, owner and creation time stay; `updatedAt` becomes `now` |
| TaskDomain.PatchEvents | src/modules/tasks/domain/task.aggregate.ts:54-57 | one `TaskStatusChanged(id, from, to)` event exactly when a status is given and differs from the current one, none otherwise |
| TaskDomain.PatchIdempotent | src/modules/tasks/domain/task.aggregate.ts:43-59 | applying the same update twice equals applying it once, and the second application records no event |
| TaskDomain.EmptyPatch | src/modules/tasks/domain/task.aggregate.ts:43-59 | an update with no fields only advances `updatedAt` and records nothing |
| TaskDomain.StatusChanged | src/modules/tasks/domain/task.aggregate.ts:61-67 | changing to the current status is a complete no-op (not even `updatedAt`); a different status is set and `updatedAt` advanced |
| TaskDomain.StatusEvents | src/modules/tasks/domain/task.aggregate.ts:61-67 | `changeStatus` records the same event `update` would for that status |
| TaskDomain.ChangeStatusAgreesWithUpdate | src/modules/tasks/domain/task.aggregate.ts:43-67 | `changeStatus(to)` and `update({status: to})` give the same state and events, except that a no-op update still advances `updatedAt` |
| TaskDomain.ChangeStatusIdempotent | src/modules/tasks/domain/task.aggregate.ts:61-67 | a second `changeStatus` to the same status changes nothing and records nothing |
| TaskDomain.Task.Create | src/modules/tasks/domain/task.aggregate.ts:13-37 | `create`: the props are `Created(...)` and exactly one `TaskCreated` event is recorded |
| TaskDomain.Task.Rehydrate | src/modules/tasks/domain/task.aggregate.ts:39-41 | `rehydrate`: the props are copied and no event is pending |
| TaskDomain.Task.Data | src/modules/tasks/domain/task.aggregate.ts:81 | `get data()`: a copy of the props |
| TaskDomain.Task.Record | src/modules/tasks/domain/task.aggregate.ts:74-76 | appends the event to the list |
| TaskDomain.Task.Update | src/modules/tasks/domain/task.aggregate.ts:43-59 | field-by-field assignment yields exactly `Patched`, and the event list grows by exactly `PatchEvents` |
| TaskDomain.Task.ChangeStatus | src/modules/tasks/domain/task.aggregate.ts:61-67 | the props become `StatusChanged` and the events grow by `StatusEvents` |
| TaskDomain.Task.PullEvents | src/modules/tasks/domain/task.aggregate.ts:69-73 | returns the recorded events in order and leaves the list empty |
| TaskMapper.Normalized | src/modules/tasks/infra/typeorm/task.mapper.ts:12-17 | undefined optional fields become null, and props are unchanged exactly when none was undefined |
| TaskMapper.ToEntity | src/modules/tasks/infra/typeorm/task.mapper.ts:7-21 | id, title, status, priority and both timestamps are copied; the four optional fields go through `?? null` |
| TaskMapper.PropsOf | src/modules/tasks/infra/typeorm/task.mapper.ts:23-34 | the same copy in the other direction |
| TaskMapper.ToDomain | src/modules/tasks/infra/typeorm/task.mapper.ts:22-36 | a fresh aggregate with those props and no pending events |
| TaskMapper.DomainRoundTrip | src/modules/tasks/infra/typeorm/task.mapper.ts:7-36 | `toDomain(toEntity(t)).data` is `t.data` with undefined fields normalised to null, and is exactly `t.data` when none was undefined |
| TaskMapper.EntityRoundTrip | src/modules/tasks/infra/typeorm/task.mapper.ts:7-36 | entity to domain to entity is stable after one trip and is the identity exactly when no field was undefined |
| TaskMapper.NormalizedIdempotent | src/modules/tasks/infra/typeorm/task.mapper.ts:12-17 | normalising twice is normalising once |
| TaskTable.Live | src/modules/tasks/infra/typeorm/task.read.repository.impl.ts:67 | `withDeleted: false`: exactly the rows that are not soft-deleted |
| TaskTable.Stored | src/modules/tasks/tasks.service.ts:185 | a row with that id is stored, soft-deleted or not: what `update` and `delete` reach |
| TaskTable.Present | src/modules/tasks/tasks.service.ts:121-124 | a row with that id is stored and not soft-deleted: what `find` and `findOne` see |
| TaskTable.Existing | src/modules/tasks/tasks.service.ts:246-250 | `find({ id: In(ids) })` returns exactly the requested ids that are present |
| TaskTable.ExistingDistinct | src/modules/tasks/tasks.service.ts:246-250 | with unique row ids the found ids are distinct |
| TaskTable.Lookup | src/modules/tasks/tasks.service.ts:121-124 | the row with that id exactly when one is present |
| TaskTable.Affected | src/modules/tasks/tasks.service.ts:186 | the affected-row count is at most the table size, and zero exactly when no requested id is stored (soft-deleted rows count) |
| TaskTable.Restatus | src/modules/tasks/tasks.service.ts:254-259 | exactly the stored rows whose id is requested, soft-deleted or not, get the status and the `updatedAt` bump; every other row is unchanged, and ids and length are kept |
| TaskTable.Removed | src/modules/tasks/tasks.service.ts:288 | exactly the stored rows whose id is requested, soft-deleted or not, are deleted; every other row stays |
| TaskTable.Trashed | src/modules/tasks/application/handlers/batch-remove.handler.ts:20 | `softDelete` with a delete-date column: exactly the requested ids visible to `find` join the soft-deleted set |
| TaskTable.Saved | src/modules/tasks/tasks.service.ts:151 | `save` replaces the row with the same id and changes nothing else |
| TaskTable.RestatusKeepsIds | src/modules/tasks/tasks.service.ts:254-259 | a status update keeps ids unique and the same ids stored |
| TaskTable.RestatusNothing | src/modules/tasks/tasks.service.ts:253 | an update whose ids match no stored row leaves the table unchanged |
| TaskTable.RestatusIdempotent | src/modules/tasks/tasks.service.ts:254-259 | repeating the same status update changes nothing more |
| TaskTable.RemovedFacts | src/modules/tasks/tasks.service.ts:288 | after a delete, ids stay unique, no deleted id is stored and every other id is stored as before |
| TaskTable.Table.UpdateStatusWhereIn | src/modules/tasks/tasks.service.ts:254-259 | the rows become `Restatus` of the old rows and the affected count is returned |
| TaskTable.Table.DeleteWhereIn | src/modules/tasks/tasks.service.ts:185 | the rows become `Removed` of the old rows and the affected count is returned |
| TaskTable.Table.SoftDeleteWhereIn | src/modules/tasks/application/handlers/batch-remove.handler.ts:20 | the soft-deleted set becomes `Trashed`; the rows are untouched |
| TaskTable.Table.Save | src/modules/tasks/tasks.service.ts:151 | the rows become `Saved` |
| TaskQuery.HoldsExtended | src/modules/tasks/infra/typeorm/task.read.repository.impl.ts:19-28 | appending an `andWhere` condition conjoins it |
| TaskQuery.Extended | src/modules/tasks/infra/typeorm/task.read.repository.impl.ts:19-28 | an optional condition is conjoined when present and ignored when absent |
| TaskQuery.Holds | src/modules/tasks/infra/typeorm/task.read.repository.impl.ts:19-28 | what one `WHERE` condition demands of a row |
| TaskQuery.KeyOf | src/modules/tasks/infra/typeorm/task.read.repository.impl.ts:32 | the sort key of a row: the chosen column (with its null rank) and then the id |
| TaskQuery.KeyLe | src/modules/tasks/infra/typeorm/task.read.repository.impl.ts:32 | lexicographic order on the sort key: null rank, value, then id |
| TaskQuery.Precedes | src/modules/tasks/infra/typeorm/task.read.repository.impl.ts:32 | `orderBy(sort, order).addOrderBy(id, order)`: the key order, reversed for DESC |
| TaskQuery.Where | src/modules/tasks/infra/typeorm/task.read.repository.impl.ts:17-28 | exactly the rows satisfying every condition, a sub-multiset of the input |
| TaskQuery.KeyLeTotal | src/modules/tasks/infra/typeorm/task.read.repository.impl.ts:32 | any two sort keys are comparable |
| TaskQuery.KeyLeTrans | src/modules/tasks/infra/typeorm/task.read.repository.impl.ts:32 | the key order is transitive |
| TaskQuery.PrecedesTotal | src/modules/tasks/infra/typeorm/task.read.repository.impl.ts:32 | `ORDER BY field, id` in either direction orders any two rows |
| TaskQuery.PrecedesTrans | src/modules/tasks/infra/typeorm/task.read.repository.impl.ts:32 | that order is transitive |
| TaskQuery.CreatedAtOrderIsKeyset | src/modules/tasks/infra/typeorm/task.read.repository.impl.ts:32-45 | under the createdAt sort, a row comes after another exactly when its `(createdAt, id)` is past the other's as a cursor, so the keyset condition continues the order |
| TaskQuery.Insert | src/modules/tasks/infra/typeorm/task.read.repository.impl.ts:32 | insertion into an ordered list adds exactly that row |
| TaskQuery.ConsSorted | src/modules/tasks/infra/typeorm/task.read.repository.impl.ts:32 | a row that precedes every element of an ordered list can head it |
| TaskQuery.HeadPrecedes | src/modules/tasks/infra/typeorm/task.read.repository.impl.ts:32 | the head of an ordered list precedes every later row |
| TaskQuery.InsertMember | src/modules/tasks/infra/typeorm/task.read.repository.impl.ts:32 | every row of an insertion is the inserted row or an old one |
| TaskQuery.InsertSorted | src/modules/tasks/infra/typeorm/task.read.repository.impl.ts:32 | insertion keeps a list ordered |
| TaskQuery.Sort | src/modules/tasks/infra/typeorm/task.read.repository.impl.ts:32 | the `ORDER BY` result is ordered and a permutation of its input |
| TaskQuery.Window | src/modules/tasks/infra/typeorm/task.read.repository.impl.ts:58 | `skip`/`take`: at most `take` rows, exactly `take` when enough remain, the slice starting at `skip`, empty past the end |
| TaskQuery.WindowOfSorted | src/modules/tasks/infra/typeorm/task.read.repository.impl.ts:58 | a page of an ordered list is ordered and drawn from it |
| TaskQuery.Execute | src/modules/tasks/infra/typeorm/task.read.repository.impl.ts:58-59 | `getManyAndCount`: the count of matching rows and one ordered page of at most `take` matching rows |
| TaskQuery.CeilDiv | src/modules/tasks/infra/typeorm/task.read.repository.impl.ts:60 | `Math.ceil(total / limit)` is the least page count covering `total` |
| TaskQuery.CeilDivBounds | src/modules/tasks/tasks.service.ts:111 | arithmetic helper for the paging lemmas: the page count times the limit covers the total by less than one page |
| TaskQuery.OffsetBelowTotal | src/modules/tasks/infra/typeorm/task.read.repository.impl.ts:56-60 | for a page up to the page count, the skip lands inside the matching rows |
| TaskReadRepository.Selected | src/modules/tasks/infra/typeorm/task.read.repository.impl.ts:19-45 | exactly the rows where every present filter holds and, in keyset mode, the row is past the cursor |
| TaskReadRepository.OrderOf | src/modules/tasks/infra/typeorm/task.read.repository.impl.ts:31 | the order defaults to DESC, is upper-cased, and anything but ASC or DESC is an error |
| TaskReadRepository.Matches | src/modules/tasks/infra/typeorm/task.read.repository.impl.ts:19-28 | a row passes every filter the request sets |
| TaskReadRepository.SortOf | src/modules/tasks/infra/typeorm/task.read.repository.impl.ts:30 | the sort field defaults to `createdAt` |
| TaskReadRepository.KeysetMode | src/modules/tasks/infra/typeorm/task.read.repository.impl.ts:35 | keyset paging is on when both `cursorCreatedAt` and a non-empty `cursorId` are given |
| TaskReadRepository.CursorOf | src/modules/tasks/infra/typeorm/task.read.repository.impl.ts:37-44 | the cursor is the `(createdAt, id)` pair of the request |
| TaskReadRepository.PastCursor | src/modules/tasks/infra/typeorm/task.read.repository.impl.ts:36-45 | a row lies strictly before the cursor in descending order, strictly after it in ascending order |
| TaskReadRepository.ClampLimit | src/modules/tasks/infra/typeorm/task.read.repository.impl.ts:47 | the limit defaults to 20 and is clamped to [1, 100] |
| TaskReadRepository.ClampPage | src/modules/tasks/infra/typeorm/task.read.repository.impl.ts:56 | the page defaults to 1 and is at least 1 |
| TaskReadRepository.WindowFacts | src/modules/tasks/infra/typeorm/task.read.repository.impl.ts:30-60 | any page of the sorted selection is ordered, within the limit and only holds selected rows |
| TaskReadRepository.KeysetListing | src/modules/tasks/infra/typeorm/task.read.repository.impl.ts:35-53 | keyset mode returns the first `limit` selected rows in order, all past the cursor and matching the filters, `page` and `totalPages` 0, and the last row's `(createdAt, id)` as next cursor (none for an empty page) |
| TaskReadRepository.OffsetListing | src/modules/tasks/infra/typeorm/task.read.repository.impl.ts:55-60 | offset mode returns page `max(page, 1)` of the ordered selection, the total, the clamped limit and `ceil(total / limit)` pages |
| TaskReadRepository.Listed | src/modules/tasks/infra/typeorm/task.read.repository.impl.ts:12-61 | fails exactly on a bad order; otherwise keyset mode exactly when both cursor fields are present |
| TaskReadRepository.AndWhere | src/modules/tasks/infra/typeorm/task.read.repository.impl.ts:19 | one `andWhere` appends one condition that is conjoined with the rest |
| TaskReadRepository.CursorCond | src/modules/tasks/infra/typeorm/task.read.repository.impl.ts:35-45 | a cursor condition exists exactly in keyset mode and holds exactly past the cursor: tuple-less under DESC, tuple-greater under ASC |
| TaskReadRepository.AttributeConditions | src/modules/tasks/infra/typeorm/task.read.repository.impl.ts:19-24 | the accumulated conditions hold exactly when the status, priority, search, user and assignee filters hold |
| TaskReadRepository.DateConditions | src/modules/tasks/infra/typeorm/task.read.repository.impl.ts:25-28 | adds the inclusive due-date and creation-date bounds |
| TaskReadRepository.BuildConditions | src/modules/tasks/infra/typeorm/task.read.repository.impl.ts:13-45 | the whole builder's conditions hold exactly for the selected rows |
| TaskReadRepository.WhereIsSelected | src/modules/tasks/infra/typeorm/task.read.repository.impl.ts:13-45 | filtering by those conditions is the selection |
| TaskReadRepository.List | src/modules/tasks/infra/typeorm/task.read.repository.impl.ts:12-61 | the imperative listing returns `Listed` |
| TaskReadRepository.OffsetPagesNonEmpty | src/modules/tasks/infra/typeorm/task.read.repository.impl.ts:56-60 | every page up to `totalPages` holds at least one row |
| TaskBatch.Missing | src/modules/tasks/tasks.service.ts:251 | `ids.filter(id => !existing.includes(id))`: an id is in the result exactly when it was requested and not found, and the result is no longer than its input |
| TaskBatch.Failures | src/modules/tasks/tasks.service.ts:263 | one `'Task not found'` failure per id, in order |
| TaskBatch.FailedIds | src/modules/tasks/tasks.service.ts:263 | the ids of a failure list, position by position |
| TaskBatch.Partition | src/modules/tasks/tasks.service.ts:243-264 | no ids gives an empty result; otherwise `success` is the found ids and the failed ids are the missing input ids, all with `'Task not found'` |
| TaskBatch.FailedIdsOfFailures | src/modules/tasks/tasks.service.ts:263 | the failures name exactly the missing ids |
| TaskBatch.MissingCount | src/modules/tasks/tasks.service.ts:251 | a missing id fails once per occurrence in the input (duplicates kept) and a found id never fails |
| TaskBatch.MissingConcat | src/modules/tasks/tasks.service.ts:251 | filtering distributes over concatenation, so chunking keeps input order |
| TaskBatch.FailuresConcat | src/modules/tasks/tasks.service.ts:263 | failure lists distribute over concatenation |
| TaskBatch.PartitionCovers | src/modules/tasks/tasks.service.ts:250-264 | every input id either succeeds or fails, and none does both |
| TaskBatch.IdSet | src/modules/tasks/tasks.service.ts:258 | the `IN (...)` list has exactly the found ids |
| TaskBatch.BatchStatusStep | src/modules/tasks/tasks.service.ts:236-269 | the result is the partition of the ids by `find`, and exactly the rows found get the status while all others stay unchanged |
| TaskBatch.BatchRemoveStep | src/modules/tasks/tasks.service.ts:271-298 | the result is the partition of the ids by `find`, and exactly the rows found are deleted |
| TaskBatch.BatchTrashStep | src/modules/tasks/application/handlers/batch-remove.handler.ts:11-24 | with a delete-date column: the result is the partition, and exactly the ids found become soft-deleted |
| TaskBatch.TrashedNotFound | src/modules/tasks/application/handlers/batch-remove.handler.ts:20 | with a delete-date column: after a batch soft delete no id of the batch is found by `find` |
| TasksService.StatusJob | src/modules/tasks/tasks.service.ts:156-158 | the `task-status-update` job carries the updated id and a status string the processor parses back to the status |
| TasksService.PageNum | src/modules/tasks/tasks.service.ts:85 | the page is itself when positive, else 1 |
| TasksService.PatchOf | src/modules/tasks/tasks.service.ts:149 | `Object.assign(task, dto)` on the aggregate's fields: the DTO's title, description, priority, due date and status form the patch, `assigneeId` is left untouched, and `userId`, which the aggregate's update does not take, is not part of it |
| TasksService.LimitNum | src/modules/tasks/tasks.service.ts:86 | the limit lies in [1, 100], is 10 when missing or 0, and is clamped otherwise |
| TasksService.FindAllConds | src/modules/tasks/tasks.service.ts:96-102 | the two optional filters combine conjunctively |
| TasksService.Paged | src/modules/tasks/tasks.service.ts:72-117 | the result is newest first with id tie-break, skip `(pageNum-1)*limitNum`, at most `limitNum` matching rows, the matching total, and `ceil(total/limitNum)` pages |
| TasksService.PagesUpToCountNonEmpty | src/modules/tasks/tasks.service.ts:93-111 | every page up to the page count holds at least one row |
| TasksService.Assigned | src/modules/tasks/tasks.service.ts:149 | `Object.assign`: every sent field overwrites the loaded one, including the `userId` the DTO inherits from `CreateTaskDto`, so a sent `userId` reassigns the owner; id, `assigneeId` and timestamps are kept |
| TasksService.SavedRow | src/modules/tasks/tasks.service.ts:151 | every column of the saved row but `updatedAt` is the assigned one (owner included); `updatedAt` stays when nothing changed and is `now` otherwise; the row equals the loaded one exactly when the assignment changed no column other than an `updatedAt` that already equals `now` |
| TasksService.UpdateJobs | src/modules/tasks/tasks.service.ts:154-170 | a status job is queued exactly when a different status was sent |
| TasksService.UpdateJobsAgreeWithEvents | src/modules/tasks/tasks.service.ts:148-170 | the service queues a job exactly when the aggregate would record a status change |
| TasksService.RemoveResult | src/modules/tasks/tasks.service.ts:183-194 | success exactly when a row with the id is stored (`delete` reaches soft-deleted rows), else NotFound with the id in the message |
| TasksService.StatusResult | src/modules/tasks/tasks.service.ts:211-234 | a value outside the enum fails as an internal error; an id with no stored row is NotFound; a soft-deleted row is updated but not found afterwards ("not found after update"); success exactly for a valid status and a visible row, which comes back with the new status |
| TasksService.LookupRestatus | src/modules/tasks/tasks.service.ts:223-226 | reading the row after the update finds the updated row |
| TasksService.TasksService.constructor | src/modules/tasks/tasks.service.ts:23-29 | a service over the given table with an empty job queue |
| TasksService.TasksService.FindAll | src/modules/tasks/tasks.service.ts:72-117 | the query builder's result is `Paged` over the visible rows |
| TasksService.TasksService.FindOne | src/modules/tasks/tasks.service.ts:119-136 | the row exactly when it is present, else NotFound |
| TasksService.TasksService.Update | src/modules/tasks/tasks.service.ts:138-181 | a missing id is NotFound and changes nothing; otherwise the row is saved as `SavedRow`, with any sent `userId` as the new owner, and the job queue grows by `UpdateJobs` |
| TasksService.TasksService.Remove | src/modules/tasks/tasks.service.ts:183-194 | the rows become `Removed` of the old rows for that id, and the result is `RemoveResult` |
| TasksService.TasksService.UpdateStatus | src/modules/tasks/tasks.service.ts:211-234 | reports `StatusResult`; an invalid status changes nothing, a valid one makes the rows `Restatus` of the old rows for that id |
| TasksService.TasksService.BatchUpdateStatus | src/modules/tasks/tasks.service.ts:236-269 | result and table are those of `BatchStatusStep` |
| TasksService.TasksService.BatchRemove | src/modules/tasks/tasks.service.ts:271-298 | result and table are those of `BatchRemoveStep` |
| TasksService.FailAll | src/modules/tasks/tasks.service.ts:263 | the failed-list loop yields `Failures(missing)` |
| BatchUpdateStatusHandler.Execute | src/modules/tasks/application/handlers/batch-update-status.handler.ts:11-31 | result and table are those of `BatchStatusStep`: empty input gives an empty result with no query, the partition otherwise, and the update only when some id exists |
| BatchRemoveHandler.Execute | src/modules/tasks/application/handlers/batch-remove.handler.ts:11-24 | with a delete-date column: rows are untouched; result and soft-deleted set are those of `BatchTrashStep` |
| BatchRemoveHandler.ExecuteAsWritten | src/modules/tasks/application/handlers/batch-remove.handler.ts:20 | on the entity as declared, without a delete-date column: fails exactly when some requested id is found, otherwise returns the partition with nothing soft-deleted |
| BatchRemoveHandler.AsWrittenFailsWhereSoftDeleteActs | src/modules/tasks/application/handlers/batch-remove.handler.ts:20 | the as-written handler fails exactly when the corrected one would soft-delete something, and agrees with it otherwise |
| BatchRemoveHandler.OneRowAsWrittenVsCorrected | src/modules/tasks/application/handlers/batch-remove.handler.ts:20 | a one-row example of `AsWrittenFailsWhereSoftDeleteActs`: for a batch naming the only row, the as-written handler fails and the row is still stored, while the corrected step soft-deletes it with that id as the only success |
| TaskProcessor.IsValidStatus | src/queues/task-processor/task-processor.service.ts:12-14 | holds exactly for the name of a `TaskStatus` |
| TaskProcessor.NormalizedStatus | src/queues/task-processor/task-processor.service.ts:66-69 | a status is accepted exactly when its upper-cased form is a valid status name, and it is that status |
| TaskProcessor.Chunks | src/queues/task-processor/task-processor.service.ts:93-97 | every chunk has 1 to 500 ids, and the chunks concatenate back to the input |
| TaskProcessor.RunChunks | src/queues/task-processor/task-processor.service.ts:96-101 | running the chunks in order keeps the number of rows |
| TaskProcessor.Absent | src/queues/task-processor/task-processor.service.ts:98 | the ids not present in the table, in order |
| TaskProcessor.AbsentMembers | src/queues/task-processor/task-processor.service.ts:98 | an id is absent exactly when it is in the input and not present |
| TaskProcessor.AbsentConcat | src/queues/task-processor/task-processor.service.ts:96-101 | absence distributes over concatenation |
| TaskProcessor.MissingIsAbsent | src/modules/tasks/tasks.service.ts:250-251 | the per-batch missing list is the list of absent ids |
| TaskProcessor.MissingAgree | src/modules/tasks/tasks.service.ts:251 | the missing list only depends on which requested ids were found |
| TaskProcessor.StepKeepsIds | src/queues/task-processor/task-processor.service.ts:98 | a chunk's status update keeps ids unique and the same ids stored, so later chunks see the same ids |
| TaskProcessor.ChunkedFailures | src/queues/task-processor/task-processor.service.ts:96-101 | the aggregated failures are exactly one per absent input id, in input order, as without chunking |
| TaskProcessor.AbsentAgree | src/queues/task-processor/task-processor.service.ts:96-101 | tables with the same stored ids (and the same soft-deleted set) find the same ids missing |
| TaskProcessor.ChunkedSuccess | src/queues/task-processor/task-processor.service.ts:96-101 | an id is among the aggregated successes exactly when it is an input id that `find` sees |
| TaskProcessor.Flatten | src/queues/task-processor/task-processor.service.ts:96-101 | the slices concatenated in order |
| TaskProcessor.Appended | src/queues/task-processor/task-processor.service.ts:99-100 | `results.success.push(...)` and `results.failed.push(...)`: both lists extended in order |
| TaskProcessor.StatusUpdateSpec | src/queues/task-processor/task-processor.service.ts:59-73 | missing data, then an invalid status, fail without an update; otherwise the upper-cased status is written: a visible id gives `StatusUpdated`, an id with no stored row gives NotFound with the table unchanged, and a soft-deleted one gives "not found after update" with the row updated |
| TaskProcessor.StatusBatchSpec | src/queues/task-processor/task-processor.service.ts:80-104 | a non-array or empty `taskIds`, then an invalid status, fail with no change; otherwise the job always reports the chunked run's results, with `updated` equal to the success count |
| TaskProcessor.ProcessSpec | src/queues/task-processor/task-processor.service.ts:28-53 | routes by job name; the overdue stub succeeds; an unknown name returns failure without throwing and changes nothing |
| TaskProcessor.FailedJobChangesNothing | src/queues/task-processor/task-processor.service.ts:28-104 | a job that returns failure leaves the table unchanged |
| TaskProcessor.ChunksStep | src/queues/task-processor/task-processor.service.ts:96-97 | the chunks from position `i` are the slice `[i, i+500)` followed by the chunks from `i+500` |
| TaskProcessor.RunChunksCons | src/queues/task-processor/task-processor.service.ts:98-100 | running a chunk then the rest concatenates their results |
| TaskProcessor.AppendedAssoc | src/queues/task-processor/task-processor.service.ts:99-100 | pushing results is associative |
| TaskProcessor.AppendedUnit | src/queues/task-processor/task-processor.service.ts:94 | the empty results are the unit of pushing |
| TaskProcessor.TaskProcessorService.constructor | src/queues/task-processor/task-processor.service.ts:21-23 | a processor over the given service |
| TaskProcessor.TaskProcessorService.Process | src/queues/task-processor/task-processor.service.ts:28-53 | result and table are `ProcessSpec` |
| TaskProcessor.TaskProcessorService.HandleStatusUpdate | src/queues/task-processor/task-processor.service.ts:59-73 | result and table are `StatusUpdateSpec` |
| TaskProcessor.TaskProcessorService.HandleStatusBatch | src/queues/task-processor/task-processor.service.ts:80-104 | result and table are `StatusBatchSpec` |
| TaskProcessor.TaskProcessorService.ProcessChunks | src/queues/task-processor/task-processor.service.ts:93-101 | the `i += 500` loop gives the same table and results as `RunChunks` over `Chunks` |
| RateLimitGuard.Pruned | src/common/decorators/rate-limit.guard.ts:18 | `ZREMRANGEBYSCORE` never grows the set |
| RateLimitGuard.RateKey | src/common/decorators/rate-limit.guard.ts:73-76 | the key is the parts joined with `:` |
| RateLimitGuard.KeyedByUser | src/common/decorators/rate-limit.guard.ts:70 | the user part is added when `byUser` (defaulting to whether a user is present) holds and the user id is non-empty |
| RateLimitGuard.KeyedByIp | src/common/decorators/rate-limit.guard.ts:71 | the ip part is added when `byIp` holds, which defaults to true |
| RateLimitGuard.Unexpired | src/common/decorators/rate-limit.guard.ts:28 | a key whose expiry deadline has passed is gone before the script reads it |
| RateLimitGuard.RangeRemoved | src/common/decorators/rate-limit.guard.ts:18 | `ZREMRANGEBYSCORE`: the scores in the range are removed and a set left empty is deleted |
| RateLimitGuard.Card | src/common/decorators/rate-limit.guard.ts:19 | `ZCARD`: the number of scores, 0 for a missing key |
| RateLimitGuard.Pttl | src/common/decorators/rate-limit.guard.ts:22 | `PTTL`: -2 for a missing key, -1 for a key without expiry, else the milliseconds left |
| RateLimitGuard.Added | src/common/decorators/rate-limit.guard.ts:27 | `ZADD`: the score joins the set, which is created when missing |
| RateLimitGuard.Expiring | src/common/decorators/rate-limit.guard.ts:28 | `PEXPIRE`: sets the deadline `now + ms`; a non-positive time deletes the key; a missing key is untouched |
| RateLimitGuard.KeptAt | src/common/decorators/rate-limit.guard.ts:18-19 | the scores the script counts: those of the unexpired key that lie inside the window |
| RateLimitGuard.Script | src/common/decorators/rate-limit.guard.ts:12-32 | allowed exactly when fewer than `limit` entries remain after pruning scores `<= now - window`; the count is the remaining entries plus one when allowed, so at most `limit`; an allowed call adds `now` and sets the TTL to the window; a denied call adds nothing |
| RateLimitGuard.ScriptOtherKeys | src/common/decorators/rate-limit.guard.ts:12-32 | the script touches only its own key |
| RateLimitGuard.PrunedMembers | src/common/decorators/rate-limit.guard.ts:18 | pruning removes exactly the scores in the range |
| RateLimitGuard.PrunedTwice | src/common/decorators/rate-limit.guard.ts:18 | pruning up to `h1` then up to `h2 >= h1` is pruning up to `h2` |
| RateLimitGuard.PruneInvisible | src/common/decorators/rate-limit.guard.ts:18 | the pruning a call does is invisible to any later call |
| RateLimitGuard.ScriptDenied | src/common/decorators/rate-limit.guard.ts:21-25 | a denied call leaves unchanged everything any later call on the key sees |
| RateLimitGuard.ScriptAllowed | src/common/decorators/rate-limit.guard.ts:27-31 | after an allowed call a later call sees the old window pruned at its own time plus `now`, or nothing once the key has expired |
| RateLimitGuard.AllowedAt | src/common/decorators/rate-limit.guard.ts:27-31 | the same, at one later time |
| RateLimitGuard.Above | src/common/decorators/rate-limit.guard.ts:18 | the scores above the cut are no more than the scores |
| RateLimitGuard.PrunedNonNegative | src/common/decorators/rate-limit.guard.ts:18 | for non-negative scores, pruning everything up to `h` from the scores above a smaller cut leaves exactly the scores above `h` |
| RateLimitGuard.Run | src/common/decorators/rate-limit.guard.ts:79-86 | one decision per request timestamp |
| RateLimitGuard.AboveSnoc | src/common/decorators/rate-limit.guard.ts:18 | the scores above a cut of a list with one more score |
| RateLimitGuard.AboveNone | src/common/decorators/rate-limit.guard.ts:18 | no score above the cut gives none |
| RateLimitGuard.StepWindow | src/common/decorators/rate-limit.guard.ts:12-32 | one call keeps "the key holds exactly the allowed timestamps in the window" |
| RateLimitGuard.AllowedWindow | src/common/decorators/rate-limit.guard.ts:27-31 | after an allowed call the window is the old allowed timestamps plus `now` that are still in it |
| RateLimitGuard.RunWindow | src/common/decorators/rate-limit.guard.ts:12-32 | over any ordered run the key holds exactly the allowed timestamps within the window |
| RateLimitGuard.AllowedBounded | src/common/decorators/rate-limit.guard.ts:27 | allowed timestamps keep the bounds of the request timestamps |
| RateLimitGuard.NextDecision | src/common/decorators/rate-limit.guard.ts:19-21 | the next call is allowed exactly when fewer than `limit` allowed timestamps lie in its window |
| RateLimitGuard.RunSnoc | src/common/decorators/rate-limit.guard.ts:79-86 | a run with one more request appends that request's decision |
| RateLimitGuard.NextFlag | src/common/decorators/rate-limit.guard.ts:19-21 | that decision, stated over the allowed timestamps |
| RateLimitGuard.LastAllowed | src/common/decorators/rate-limit.guard.ts:27 | unfolding helper for `RunIsReference`: the allowed timestamps of a longer run add the last one exactly when it was allowed |
| RateLimitGuard.Reference | src/common/decorators/rate-limit.guard.ts:12-32 | an independent sliding-window definition gives one decision per request |
| RateLimitGuard.ReferenceSnoc | src/common/decorators/rate-limit.guard.ts:12-32 | the reference decision for one more request |
| RateLimitGuard.RunIsReference | src/common/decorators/rate-limit.guard.ts:12-32 | the script over Redis decides exactly as the reference sliding window does |
| RateLimitGuard.ReferenceStep | src/common/decorators/rate-limit.guard.ts:12-32 | agreement with the reference survives one more request |
| RateLimitGuard.ReferenceBound | src/common/decorators/rate-limit.guard.ts:21-31 | at any request time at most `limit` allowed requests fall in the trailing window |
| RateLimitGuard.SlidingWindow | src/common/decorators/rate-limit.guard.ts:12-32 | both together for the Redis-backed run: it is the reference, and never more than `limit` allowed requests are in one window |
| RateLimitGuard.AboveMonotone | src/common/decorators/rate-limit.guard.ts:18 | a higher cut keeps no more scores |
| RateLimitGuard.WindowStore.constructor | src/common/decorators/rate-limit.guard.ts:39-42 | an empty Redis |
| RateLimitGuard.WindowStore.ExpireIfDue | src/common/decorators/rate-limit.guard.ts:28 | a key whose PEXPIRE deadline has passed is gone |
| RateLimitGuard.WindowStore.ZRemRangeByScore | src/common/decorators/rate-limit.guard.ts:18 | removes the scores in the range, deletes a key left empty, and returns how many entries went |
| RateLimitGuard.WindowStore.ZCard | src/common/decorators/rate-limit.guard.ts:19 | the number of entries under the key |
| RateLimitGuard.WindowStore.PTtl | src/common/decorators/rate-limit.guard.ts:22 | the remaining milliseconds; -2 without the key, -1 without a deadline |
| RateLimitGuard.WindowStore.ZAdd | src/common/decorators/rate-limit.guard.ts:27 | adds one entry with the score |
| RateLimitGuard.WindowStore.PExpire | src/common/decorators/rate-limit.guard.ts:28 | sets the key's deadline `ms` after `now`; a non-positive `ms` deletes the key; a missing key is left missing |
| RateLimitGuard.WindowStore.Eval | src/common/decorators/rate-limit.guard.ts:12-32 | running the script's commands in order yields exactly `Script` |
| RateLimitGuard.ClientIp | src/common/decorators/rate-limit.guard.ts:64-67 | `req.ip`, else `x-forwarded-for`, else the socket address, else `'unknown'` |
| RateLimitGuard.KeyParts | src/common/decorators/rate-limit.guard.ts:59-76 | the prefix (default `rl`), `Controller.handler`, then `u:<user>` when keyed by user and a user exists, then `ip:<ip>` when keyed by IP (default true) |
| RateLimitGuard.JoinCons | src/common/decorators/rate-limit.guard.ts:76 | joining with `:` puts the separator after the first part |
| RateLimitGuard.UsersApart | src/common/decorators/rate-limit.guard.ts:73-76 | two different users from the same address on the same route get different keys |
| RateLimitGuard.ResetSeconds | src/common/decorators/rate-limit.guard.ts:89 | `Math.ceil(pttl / 1000)`: the least whole number of seconds covering `pttl` |
| RateLimitGuard.EpochSeconds | src/common/decorators/rate-limit.guard.ts:94 | `Math.floor(now / 1000)`: the whole seconds elapsed at `now` |
| RateLimitGuard.RateHeaders | src/common/decorators/rate-limit.guard.ts:88-96 | Limit, Remaining `max(0, limit - count)` and Reset headers, plus Retry-After exactly on denial |
| RateLimitGuard.Decide | src/common/decorators/rate-limit.guard.ts:45-101 | without options the request is allowed with no headers and no store change; otherwise window and limit are clamped to at least 1 and the request is allowed exactly when fewer than `limit` entries remain; a denial is 429 with the fixed message; headers are set unless `setHeaders` is false |
| RateLimitGuard.AllowedRemaining | src/common/decorators/rate-limit.guard.ts:88 | after an allowed call, Remaining is `limit - previous count - 1` |
| RateLimitGuard.RateLimitGuard.constructor | src/common/decorators/rate-limit.guard.ts:38-43 | a guard over the given Redis |
| RateLimitGuard.RateLimitGuard.CanActivate | src/common/decorators/rate-limit.guard.ts:45-101 | verdict, headers and Redis state are those of `Decide` |
| LoggingInterceptor.ShouldRedactKeyIff | src/common/interceptors/logging.interceptor.ts:17-29 | the eleven patterns reduce to: the lower-cased key equals `pwd` or contains one of `pass`, `secret`, `token`, `bearer`, `session`, or `api` optionally `-`/`_` then `key` |
| LoggingInterceptor.InnerFragment | src/common/interceptors/logging.interceptor.ts:17-29 | a key containing a longer pattern also contains its inner fragment |
| LoggingInterceptor.ShouldRedactKey | src/common/interceptors/logging.interceptor.ts:38-40 | `shouldRedactKey`: some one of the eleven case-insensitive field patterns occurs in the key |
| LoggingInterceptor.DeepRedacted | src/common/interceptors/logging.interceptor.ts:53-65 | `deepRedact`: arrays are mapped element-wise, an object keeps its keys in order with a sensitive key's value redacted and other values redacted recursively, anything else is returned as is |
| LoggingInterceptor.SensitiveHeader | src/common/interceptors/logging.interceptor.ts:10-16 | a header is masked when its lower-cased name is one of the five sensitive header names |
| LoggingInterceptor.IsTextLike | src/common/interceptors/logging.interceptor.ts:89-93 | `isTextLikeContentType`: a non-empty content type that contains `application/json` or starts with `text/`, ignoring case |
| LoggingInterceptor.HealthPath | src/common/interceptors/logging.interceptor.ts:32 | the path is `/health` or starts with `/health/`, ignoring case |
| LoggingInterceptor.MetricsPath | src/common/interceptors/logging.interceptor.ts:32 | the path is exactly `/metrics`, ignoring case |
| LoggingInterceptor.Skipped | src/common/interceptors/logging.interceptor.ts:119 | an `OPTIONS` request, or a health or metrics path, passes through unlogged |
| LoggingInterceptor.OffsetContains | src/common/interceptors/logging.interceptor.ts:17-29 | a fragment found at some offset is contained |
| LoggingInterceptor.Masks | src/common/interceptors/logging.interceptor.ts:45 | `n` copies of `'[REDACTED]'` |
| LoggingInterceptor.MaskedEntries | src/common/interceptors/logging.interceptor.ts:47-48 | the keys kept in order, each value `'[REDACTED]'` |
| LoggingInterceptor.RedactedValue | src/common/interceptors/logging.interceptor.ts:41-52 | null/undefined unchanged; scalars masked; arrays become same-length mask arrays; objects keep their keys with masked values |
| LoggingInterceptor.MaskedFixed | src/common/interceptors/logging.interceptor.ts:41-52 | redacting an already-masked value changes nothing |
| LoggingInterceptor.RedactValue | src/common/interceptors/logging.interceptor.ts:41-52 | the loops compute `RedactedValue` |
| LoggingInterceptor.DeepRedactedOutline | src/common/interceptors/logging.interceptor.ts:53-65 | deep redaction keeps every object's keys and array's length at every depth |
| LoggingInterceptor.NoSensitiveKeysUnchanged | src/common/interceptors/logging.interceptor.ts:53-65 | a value without sensitive keys is unchanged |
| LoggingInterceptor.DeepRedactedClean | src/common/interceptors/logging.interceptor.ts:53-65 | after deep redaction every sensitive key holds a masked value |
| LoggingInterceptor.CleanFixed | src/common/interceptors/logging.interceptor.ts:53-65 | a clean value is a fixed point |
| LoggingInterceptor.DeepRedactedIdempotent | src/common/interceptors/logging.interceptor.ts:53-65 | deep redaction is idempotent |
| LoggingInterceptor.DeepRedact | src/common/interceptors/logging.interceptor.ts:53-65 | the recursive method with its entry loop computes the deep redaction |
| LoggingInterceptor.Sanitized | src/common/interceptors/logging.interceptor.ts:66-72 | keys are kept in order; exactly the five listed header names, compared case-insensitively, get `'[REDACTED]'` |
| LoggingInterceptor.SanitizedIdempotent | src/common/interceptors/logging.interceptor.ts:66-72 | sanitising twice is sanitising once, and no sensitive header keeps its value |
| LoggingInterceptor.SensitiveHeaderCaseless | src/common/interceptors/logging.interceptor.ts:69 | the header test ignores case |
| LoggingInterceptor.SanitizeHeaders | src/common/interceptors/logging.interceptor.ts:66-72 | the loop over `headers ?? {}` computes `Sanitized` |
| LoggingInterceptor.SanitizedPrefix | src/common/interceptors/logging.interceptor.ts:68-70 | one more loop iteration appends one sanitised entry |
| LoggingInterceptor.SanitizedSnoc | src/common/interceptors/logging.interceptor.ts:68-70 | sanitising a list with one more header appends its sanitised entry |
| LoggingInterceptor.SafeBodyPreview | src/common/interceptors/logging.interceptor.ts:73-88 | multipart or octet-stream content gives the binary marker; otherwise a falsy or empty body gives undefined, a body whose redacted form cannot be serialised gives the unserialisable marker, one over 64 KiB the too-large marker, and any other body its deep redaction |
| LoggingInterceptor.BodyPreviewClean | src/common/interceptors/logging.interceptor.ts:73-88 | a body preview never shows a sensitive value |
| LoggingInterceptor.Truncated | src/common/interceptors/logging.interceptor.ts:101 | at most 1024 characters are returned unchanged; longer strings become their first 1024 characters plus a one-character ellipsis |
| LoggingInterceptor.TruncatedAsWritten | src/common/interceptors/logging.interceptor.ts:101 | the same truncation with the three-character suffix the source file holds |
| LoggingInterceptor.MojibakeSuffix | src/common/interceptors/logging.interceptor.ts:101 | for any preview over 1024 characters the as-written result is two characters longer than intended and differs from it |
| LoggingInterceptor.SafeResponsePreview | src/common/interceptors/logging.interceptor.ts:94-105 | a content type that is neither JSON nor `text/` gives the non-text marker; nullish data gives `""`; a string is cut to 1024 characters plus the corrected one-character ellipsis, so the result never exceeds 1025 characters (the source as written appends three characters, reaching 1027; see Findings) |
| LoggingInterceptor.RequestUrl | src/common/interceptors/logging.interceptor.ts:118 | `originalUrl`, else `url`, else `""` |
| LoggingInterceptor.HealthPathIff | src/common/interceptors/logging.interceptor.ts:32 | the health pattern matches exactly `/health` or a path under `/health/`, case-insensitively |
| LoggingInterceptor.CorrelationId | src/common/interceptors/logging.interceptor.ts:126-127 | the first truthy of `x-request-id`, `x-correlation-id` and `req.id`, used only when it is a string, else the generated id; never empty when the generated id is not |
| LoggingInterceptor.ResponseLevel | src/common/interceptors/logging.interceptor.ts:219-221 | error level exactly from 500, warn exactly for 400 to 499 |
| LoggingInterceptor.ErrorStatus | src/common/interceptors/logging.interceptor.ts:225-228 | a non-zero numeric `status`, else a non-zero numeric `statusCode`, else 500; never 0 |
| HttpExceptionFilter.StatusCodeToName | src/common/filters/http-exception.filter.ts:138-141 | the known name, else `HTTP_<status>`; never empty |
| HttpExceptionFilter.UnnamedCodesDistinct | src/common/filters/http-exception.filter.ts:140 | different unnamed statuses get different codes |
| HttpExceptionFilter.SensitiveKey | src/common/filters/http-exception.filter.ts:147 | a key is sensitive when, ignoring case, it contains `password`, `token`, `secret`, `authorization`, `cookie`, `set-cookie`, or `api` optionally `-`/`_` then `key` |
| HttpExceptionFilter.Sanitized | src/common/filters/http-exception.filter.ts:146-167 | `sanitize`: a sensitive key's value becomes the redaction marker, other values are sanitized recursively, arrays element-wise |
| HttpExceptionFilter.FirstHeader | src/common/filters/http-exception.filter.ts:28-30 | an array-valued `x-request-id` header yields its first element, any other value itself |
| HttpExceptionFilter.BaseMessage | src/common/filters/http-exception.filter.ts:104 | `fallbackMessage || errLabel || defaultCode`: the first truthy of the three |
| HttpExceptionFilter.NormalizeHttpError | src/common/filters/http-exception.filter.ts:80-132 | code and message are always truthy; a string response gives the default code and the raw string, else the fallback, else the code; any other non-object gives the default code and the fallback or the code |
| HttpExceptionFilter.ObjectCode | src/common/filters/http-exception.filter.ts:100-121 | for an object response the code is `error` when truthy, else the default name |
| HttpExceptionFilter.ArrayMessage | src/common/filters/http-exception.filter.ts:107-110 | an array message becomes the details and the message is `'Validation failed'` exactly for 400, else the code |
| HttpExceptionFilter.StringMessage | src/common/filters/http-exception.filter.ts:111-113 | a non-empty string message is the message |
| HttpExceptionFilter.ObjectWithoutArray | src/common/filters/http-exception.filter.ts:104-123 | without an array message, details are `errors` when truthy and the message is the string message, else the fallback, else the code |
| HttpExceptionFilter.ErrorsOnlyWithoutArray | src/common/filters/http-exception.filter.ts:116-118 | `errors` never replaces the details of an array message |
| HttpExceptionFilter.SanitizedFacts | src/common/filters/http-exception.filter.ts:146-167 | sanitising keeps every array length, every object's keys in order and every scalar not under a sensitive key, and every value under a sensitive key, at any depth, becomes `'[REDACTED]'` |
| HttpExceptionFilter.ScrubbedFixed | src/common/filters/http-exception.filter.ts:146-167 | a sanitised value is a fixed point |
| HttpExceptionFilter.SanitizedIdempotent | src/common/filters/http-exception.filter.ts:146-167 | sanitising is idempotent |
| HttpExceptionFilter.Sanitize | src/common/filters/http-exception.filter.ts:146-167 | the recursive method with its entry loop computes `Sanitized` |
| HttpExceptionFilter.RequestId | src/common/filters/http-exception.filter.ts:28-31 | `req.id`, else the first `x-request-id` header, else undefined |
| HttpExceptionFilter.ErrorBody | src/common/filters/http-exception.filter.ts:62-75 | `success: false`, the status, the normalised code and message, sanitised details only when present, the path, and the request id only when truthy |
| HttpExceptionFilter.Response.constructor | src/common/filters/http-exception.filter.ts:21 | a response not yet sent |
| HttpExceptionFilter.Response.Send | src/common/filters/http-exception.filter.ts:77 | `status(s).json(body)` records both |
| HttpExceptionFilter.Catch | src/common/filters/http-exception.filter.ts:19-78 | sends the exception's status (500 when it has none) with the error body |

## Left out

- Cryptography: JWT signing and verification, SHA-256 and bcrypt are collaborator function values constrained only by the bcrypt law. Token bytes, signatures and the library's own `expiresIn` arithmetic are not modelled.
- `randomUUID`: ids are parameters required to be non-empty and unused. The model does not generate them.
- Clock: `Date.now()` and `new Date()` are a `now` parameter in milliseconds. ISO timestamp rendering is a given string.
- Concurrency: every call is sequential. The read-then-save refresh is modelled as such, and no claim is made about concurrent refreshes, BullMQ concurrency or transactions (`UnitOfWork`, query runners, rollback).
- Redis transport: ioredis, the connection options and `math.random` member names are not modelled. Members are modelled by their scores only, so two entries with the same millisecond score are both kept.
- Redis key expiry: modelled as a deadline checked when the script runs. It is not a background process.
- Queue plumbing: BullMQ `add` options and enqueue failures, which the source only logs, are not modelled. A queued job is appended to the service's `jobs` list.
- `TasksService.create`: the enqueue after insert and the `findOneOrFail` re-read are not modelled. The aggregate's `Task.create` is.
- `findByStatus`: not modelled, because it is a filter and sort that `Paged` already covers.
- `getStats`: SQL aggregation with number parsing.
- Relations: the `leftJoinAndSelect` user join is not modelled. Rows are modelled without it.
- Task entity: columns other than those the mapper copies are not part of this model.
- TasksService.Assigned: a `userId` sent as `null` is assigned as sent. The `user_id` column is not nullable, so the save would then fail in the database, one of the failures the "Database failures" line leaves out. `create-task.dto.ts` is not part of this model, so whether its validation lets `null` through is left open.
- TaskMapper.ToEntity: treats `assigneeId` as a stored column. The entity class in `task.entity.ts` declares no such column, so TypeORM would not persist the value the mapper sets.
- TaskMapper.ToDomain: reads `assigneeId` back as it was stored. Against the entity as declared it would always be `null`.
- TaskReadRepository.Selected: the `assigneeId` filter compares the modelled column. Against the table as declared, the SQL would name a column that does not exist and the query would fail.
- TaskTable.Existing: `find` returns rows in table order. The database promises no order, so the order of `success` in the batch results is one possible order, not the only one.
- Database failures: task ids are taken to be UUID text, and no query fails. The `id` column is a Postgres `uuid` (`task.entity.ts` line 23), and nothing checks an id before it reaches a query, so an id such as `abc` makes the query fail. Other database errors can also fail a query. The service's catch blocks turn such failures into an internal-server error ("Could not retrieve tasks", "Failed to fetch task", "Failed to update task", "Failed to delete task", "Failed to update task status", "Failed to update tasks in batch", "Failed to delete tasks in batch"), and the batch handlers' transactions roll back. None of this is modelled. The one database rejection that is modelled is the status enum's, behind `TasksService.StatusResult`'s internal error.
- TasksService.TasksService.FindOne: for an id that is not a UUID the source fails with "Failed to fetch task". The model answers NotFound.
- TasksService.TasksService.Remove: for an id that is not a UUID the source fails with "Failed to delete task". The model answers NotFound.
- TasksService.TasksService.UpdateStatus: for an id that is not a UUID the source fails with "Failed to update task status". The model answers NotFound.
- TasksService.TasksService.Update: for an id that is not a UUID the source fails with "Failed to update task". The model answers NotFound.
- TaskBatch.BatchStatusStep: a batch holding an id that is not a UUID fails as a whole in the source. The model reports that id as "Task not found" and updates the rest.
- TaskBatch.BatchRemoveStep: a batch holding an id that is not a UUID fails as a whole in the source. The model reports that id as "Task not found" and deletes the rest.
- BatchUpdateStatusHandler.Execute: an id that is not a UUID makes the handler's query and transaction fail. The model reports that id as "Task not found".
- TaskProcessor.StatusBatchSpec: a chunk whose query fails throws the job out for BullMQ to retry, and the chunks before it stay committed. The model runs every chunk to completion.
- TaskTable.Trashed: assumes the delete-date column that `softDelete` needs. The entity as declared lacks it (see Findings, and `BatchRemoveHandler.ExecuteAsWritten` for the behaviour without it).
- TaskTable.Table.SoftDeleteWhereIn: assumes the same delete-date column.
- TaskBatch.BatchTrashStep: the corrected batch soft delete, under the same delete-date column.
- TaskBatch.TrashedNotFound: holds of the corrected batch soft delete, under the same delete-date column. As written the batch fails and nothing is soft-deleted.
- BatchRemoveHandler.Execute: the corrected handler, under the same delete-date column. The transaction rollback after the as-written failure is not modelled beyond "nothing changes".
- TaskProcessor.StatusUpdateSpec: does not promise that every NotFound leaves the table unchanged. `update` reaches a soft-deleted row, which is then changed and reported "not found after update".
- Search: ILIKE is a case-insensitive ASCII substring test. `%` and `_` inside the search term are not treated as wildcards.
- String order: the database's collation is modelled as character-code order.
- Task enums: the enum files are not part of this model. `PENDING`/`IN_PROGRESS`/`COMPLETED` and `LOW`/`MEDIUM`/`HIGH` are assumed, with their declaration order as sort order.
- TypeORM: an invalid `order` (neither ASC nor DESC) is an error result. The source passes it through unchecked.
- Strings: these are sequences of characters. Case mapping is ASCII only, and `length` counts characters rather than UTF-16 code units.
- `JSON.stringify` and `Buffer.byteLength`: passed in as partial functions, so the response-preview length bound for non-string data depends on them. The 64 KiB body cut-off compares against the given byte length.
- Logging interceptor: the rxjs `intercept` pipeline, logger output, `durationMs`, `responseSize` and the ip/ua/userId fields of the log line are not modelled. `getHeader` is taken to return a string or nothing.
- Framework plumbing: controllers, cookies, modules, guards other than the rate limiter, the validation pipe, metrics, health, request context and the HTTP client are outside this model.
- Overdue job: `overdue-tasks-notification` is the source's stub, which returns success and touches nothing.
- RateLimitGuard.SlidingWindow: stated for a key first used by the run and for non-decreasing, non-negative timestamps. A clock running backwards is not covered.
- Auth.AuthService.Refresh: the issued-token uniqueness rides on the fresh-jti parameter. It does not come from the unique index rejecting a duplicate insert.
- TaskQuery.Insert: states the permutation and length only. Ordering is the separate lemma `InsertSorted`.

## Findings

| source | as written | input that shows it | evidently intended | confidence | as-written member | corrected member |
|---|---|---|---|---|---|---|
| src/modules/tasks/application/handlers/batch-remove.handler.ts:20 | `repo.softDelete(...)` on `TaskEntity`, whose columns (`task.entity.ts` lines 22-63) include no `@DeleteDateColumn`: TypeORM throws `MissingDeleteDateColumnError`, so the batch fails and its transaction rolls back | a batch remove naming one existing task | the named tasks become soft-deleted and are reported as successes | medium, not executed | BatchRemoveHandler.ExecuteAsWritten | BatchRemoveHandler.Execute |
| src/common/interceptors/logging.interceptor.ts:101 | the truncation suffix is the three characters `â€¦`, the UTF-8 bytes of `…` read as Windows-1252 | any text response preview longer than 1024 characters | a one-character `…` (U+2026) | medium, not executed | LoggingInterceptor.TruncatedAsWritten | LoggingInterceptor.Truncated |


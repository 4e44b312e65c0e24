# Subscription lifecycle

A Dafny model of the subscription lifecycle of a small Java subscription
service: the validation of a creation request, the mapping of a validated
request to a new `Subscription`, the repository (DAO) contract with its
derived `upsert`, and the service that upserts a request and moves a
subscription through the status machine ACTIVE → CANCELED → EXPIRED.

The source files of `SubscriptionService`, `CreateSubscriptionValidator`,
`CreateSubscriptionMapper`, `ValidationResult` and `SubscriptionDao` are not
part of this model; their behaviour is fixed by the `Dao` interface and by
the unit and integration tests, and the model follows those.

Layout, one module per component:

- `wrappers.dfy` (`Wrappers`): `Option`, `Result` and `Outcome` in place of
  Java's null/`Optional` and exceptions.
- `entity.dfy` (`Entity`): `Status`, `Provider` (GOOGLE, APPLE) with its
  name lookup, `Subscription`, and the request `CreateSubscriptionDto` whose
  fields may be null.
- `validator.dfy` (`Validator`): the four field checks, their exact
  messages, the pure error list `Errors`, the mutable `ValidationResult`
  class, and `Validate`, which appends one error per failed check.
- `mapper.dfy` (`Mapper`): `Map`, request to an id-less ACTIVE subscription.
- `lifecycle.dfy` (`Lifecycle`): the status machine as pure functions, with
  lemmas over arbitrary sequences of cancel/expire operations.
- `dao.dfy` (`Dao`): `SubscriptionDao`, a class holding the table as a
  `map<int, Subscription>` and a `nextId` counter, with a ghost log of every
  call made on it so that "no interaction" and "exactly one update" can be
  stated.
- `dao_scenarios.dfy` (`DaoScenarios`): the repository's integration
  scenarios, each on an empty table, for arbitrary records.
- `service.dfy` (`Service`): `SubscriptionService` over a `SubscriptionDao`,
  the upsert resolution policy, and an end-to-end create/cancel/expire run.

Time is an integer instant; "now" is a parameter of validation instead of a
clock.

Modelling choices where the source leaves room:

- The upsert match key (`Service.Matches`) is: same user (the records come
  from `findByUserId`), same name and same provider. With this key, giving
  the candidate the matched record's id and handing back the matched record
  with the request's expiration date and status are the same record
  (`Service.MatchedRecordKept`), so both readings of the update path agree.
  A provider-only key would differ only in whether a renamed request updates
  or inserts.
- The status machine (ACTIVE → CANCELED → EXPIRED, EXPIRED terminal, nothing
  back to ACTIVE) holds for cancel and expire only. Upsert gives a request the
  id of a matching existing record whatever that record's status, and a
  mapped request is always ACTIVE, so a matching CANCELED or EXPIRED record
  is written back ACTIVE under its id (`Service.UpsertRevivesExpired`). The
  upsert tests only ever match an ACTIVE record, so nothing fixes whether a
  non-ACTIVE record should be excluded from matching; the model keeps the
  resolution rule as stated and does not exclude it.
- The status rules of cancel and expire come from which statuses each
  parameterised test excludes and from the test names
  (`SubscriptionServiceTest.java:97-101`, `:111-115`): the failing cases
  there stub `findById` to throw, so they do not exercise the status check
  itself.
- Provider lookup is an exact match on the enum constant's name.
- An expiration date equal to "now" is invalid (it must be strictly after).
- `findAll` and `findByUserId` list records in ascending id order.
- `update` of an entity whose id is absent or not stored changes nothing and
  returns the entity, as an SQL `UPDATE ... WHERE id = ?` would.

## Model

| member | source | states |
|---|---|---|
| `Entity.ProviderRoundTrip` | src/test/java/com/dmdev/mapper/CreateSubscriptionMapperTest.java:22-28 | provider text parses to a provider exactly when it is that provider's enum name |
| `Validator.Errors` | src/test/java/com/dmdev/validator/CreateSubscriptionValidatorTest.java:18-123 | each check's message is reported iff that check fails (userId present; name present and non-empty; provider a known name; expiration present and after now); only those four messages; none twice; empty iff the request is valid |
| `Validator.ValidationResult.constructor` | src/test/java/com/dmdev/service/SubscriptionServiceTest.java:54 | a new result holds no errors |
| `Validator.ValidationResult.Add` | src/test/java/com/dmdev/service/SubscriptionServiceTest.java:69-70 | appends the error at the end of the ordered list |
| `Validator.ValidationResult.HasErrors` | src/test/java/com/dmdev/validator/CreateSubscriptionValidatorTest.java:27-29 | true exactly when the list is non-empty |
| `Validator.ValidationResult.GetErrors` | src/test/java/com/dmdev/validator/CreateSubscriptionValidatorTest.java:41-44 | returns the accumulated errors in order |
| `Validator.Validate` | src/test/java/com/dmdev/validator/CreateSubscriptionValidatorTest.java:27 | returns a fresh result whose errors are exactly `Errors(dto, now)`, built by appending one error per failed check |
| `Validator.ValidRequestHasNoErrors` | src/test/java/com/dmdev/validator/CreateSubscriptionValidatorTest.java:19-30 | userId present, non-empty name, known provider name and expiration after now give no errors |
| `Validator.SingleViolation` | src/test/java/com/dmdev/validator/CreateSubscriptionValidatorTest.java:33-105 | when exactly one check fails, the errors are exactly that check's one error |
| `Validator.AllViolations` | src/test/java/com/dmdev/validator/CreateSubscriptionValidatorTest.java:108-123 | all four checks failing give exactly four errors carrying all four messages |
| `Validator.ChecksIndependent` | src/test/java/com/dmdev/validator/CreateSubscriptionValidatorTest.java:108-123 | whether a field's error is reported depends only on that field (and now), so checks do not stop at the first failure |
| `Mapper.Map` | src/test/java/com/dmdev/mapper/CreateSubscriptionMapperTest.java:17-36 | the new subscription has no id, status ACTIVE, userId, name and expiration copied, and a provider whose name is the request's text |
| `Mapper.ValidIsMappable` | src/test/java/com/dmdev/mapper/CreateSubscriptionMapperTest.java:19-35 | every request that validates can be mapped, to an ACTIVE subscription with a non-empty name expiring after now |
| `Lifecycle.Step` | src/test/java/com/dmdev/service/SubscriptionServiceTest.java:97-143 | a transition is accepted iff allowed from the status; an accepted one yields its target status, never ACTIVE, strictly later in the lifecycle |
| `Lifecycle.StepTable` | src/test/java/com/dmdev/service/SubscriptionServiceTest.java:97-124 | the accepted steps are exactly ACTIVE→CANCELED by cancel and ACTIVE→EXPIRED, CANCELED→EXPIRED by expire |
| `Lifecycle.RunAdvances` | src/test/java/com/dmdev/service/SubscriptionServiceTest.java:97-143 | over any sequence of cancel and expire operations the status rank grows by at least the number of accepted ones |
| `Lifecycle.NeverBackToActive` | src/test/java/com/dmdev/service/SubscriptionServiceTest.java:97-143 | once a subscription has left ACTIVE, no sequence of cancel and expire operations brings it back (upsert can: see `Service.UpsertRevivesExpired`) |
| `Lifecycle.ExpiredIsTerminal` | src/test/java/com/dmdev/service/SubscriptionServiceTest.java:135-143 | from EXPIRED every further cancel or expire is refused and the status stays EXPIRED |
| `Lifecycle.AtMostTwoChanges` | src/test/java/com/dmdev/service/SubscriptionServiceTest.java:97-143 | starting ACTIVE, at most two cancel or expire operations of any sequence are accepted |
| `Dao.RowsMembership` | src/test/java/com/dmdev/dao/SubscriptionDaoTestIT.java:27-33 | a record is listed iff it is stored under its own id |
| `Dao.RowsCount` | src/test/java/com/dmdev/dao/SubscriptionDaoTestIT.java:27-29 | the listing has exactly one entry per stored record |
| `Dao.OwnedMembership` | src/test/java/com/dmdev/dao/SubscriptionDaoTestIT.java:82-86 | the user filter keeps exactly the listed records of that user |
| `Dao.SubscriptionDao.constructor` | src/test/java/com/dmdev/dao/SubscriptionDaoTestIT.java:19 | an empty table with an empty call log |
| `Dao.SubscriptionDao.Insert` | src/main/java/com/dmdev/dao/Dao.java:26 | stores the entity under a fresh id (not in use before) and returns it with that id, every other field unchanged |
| `Dao.SubscriptionDao.Update` | src/main/java/com/dmdev/dao/Dao.java:24 | replaces the whole record stored under the entity's id and returns the entity |
| `Dao.SubscriptionDao.Delete` | src/main/java/com/dmdev/dao/Dao.java:22 | removes the id's record and returns whether there was one |
| `Dao.SubscriptionDao.FindById` | src/main/java/com/dmdev/dao/Dao.java:20 | the stored record, or None when the id is absent |
| `Dao.SubscriptionDao.FindAll` | src/main/java/com/dmdev/dao/Dao.java:18 | every stored record exactly once, and nothing else |
| `Dao.SubscriptionDao.FindByUserId` | src/test/java/com/dmdev/dao/SubscriptionDaoTestIT.java:79-87 | exactly the stored records of that user |
| `Dao.SubscriptionDao.Upsert` | src/main/java/com/dmdev/dao/Dao.java:12-16 | with an id it performs one update and returns its result; without one it performs one insert and returns its result; never both, never neither |
| `DaoScenarios.FindAllAfterThreeInserts` | src/test/java/com/dmdev/dao/SubscriptionDaoTestIT.java:21-34 | three inserts into an empty table: findAll has size three and contains the three inserted records, whose ids are pairwise distinct |
| `DaoScenarios.FindByIdAfterInsert` | src/test/java/com/dmdev/dao/SubscriptionDaoTestIT.java:36-44 | findById of a just-inserted id returns that record |
| `DaoScenarios.DeleteAfterInsert` | src/test/java/com/dmdev/dao/SubscriptionDaoTestIT.java:46-53 | delete of a just-inserted id returns true |
| `DaoScenarios.UpdateAfterInsert` | src/test/java/com/dmdev/dao/SubscriptionDaoTestIT.java:55-65 | update with a new name and status returns the changed record and the table then holds it |
| `DaoScenarios.InsertAssignsId` | src/test/java/com/dmdev/dao/SubscriptionDaoTestIT.java:67-76 | insert assigns an id and keeps every other field |
| `DaoScenarios.FindByUserIdAfterInsert` | src/test/java/com/dmdev/dao/SubscriptionDaoTestIT.java:78-87 | findByUserId of the only record's user returns exactly that record |
| `Service.Resolve` | src/test/java/com/dmdev/service/SubscriptionServiceTest.java:55-56 | the record to upsert differs from the candidate in its id at most |
| `Service.ResolveUnmatched` | src/test/java/com/dmdev/service/SubscriptionServiceTest.java:55-56 | with no matching existing record the candidate is upserted unchanged, without id |
| `Service.ResolveMatched` | src/test/java/com/dmdev/service/SubscriptionServiceTest.java:55-56 | with a matching existing record the candidate takes over a matching record's id |
| `Service.ResolveFirstMatch` | src/test/java/com/dmdev/service/SubscriptionServiceTest.java:55-56 | among several matches the first one returned by the lookup wins |
| `Service.MatchedRecordKept` | src/test/java/com/dmdev/service/SubscriptionServiceTest.java:53-56 | the candidate with the match's id is the matched record with the request's expiration date and status |
| `Service.ResolvedIdIsStored` | src/test/java/com/dmdev/service/SubscriptionServiceTest.java:55-56 | a resolved id always names a stored record that matches |
| `Service.StoredMatchIsFound` | src/test/java/com/dmdev/service/SubscriptionServiceTest.java:55-56 | whenever the table holds a matching record, resolution picks an existing id |
| `Service.TransitionOutcome` | src/test/java/com/dmdev/service/SubscriptionServiceTest.java:77-143 | a missing id is NotFound; a refused status is a SubscriptionException; otherwise the record to write is the stored one with only its status changed, by an accepted step |
| `Service.TransitionRules` | src/test/java/com/dmdev/service/SubscriptionServiceTest.java:97-124 | cancel succeeds iff the record is stored and ACTIVE and writes it CANCELED; expire succeeds iff it is stored and ACTIVE or CANCELED and writes it EXPIRED |
| `Service.SubscriptionService.constructor` | src/test/java/com/dmdev/service/SubscriptionServiceTest.java:39-48 | the service uses the repository it is given |
| `Service.SubscriptionService.Upsert` | src/test/java/com/dmdev/service/SubscriptionServiceTest.java:50-75 | an invalid request fails with all its errors and no repository call at all; a valid one queries findByUserId with the request's userId, then upserts the resolved record (one update keeping the matched id, or one insert) and returns what upsert returned; a matching stored record is updated, never duplicated |
| `Service.SubscriptionService.Persist` | src/test/java/com/dmdev/service/SubscriptionServiceTest.java:55-63 | findByUserId, then one repository upsert of the resolved record, with its exact effect on table and log |
| `Service.SubscriptionService.Apply` | src/test/java/com/dmdev/service/SubscriptionServiceTest.java:77-143 | one findById; then either exactly one update writing the record with its new status, or a failure with zero updates and the table unchanged |
| `Service.SubscriptionService.Cancel` | src/test/java/com/dmdev/service/SubscriptionServiceTest.java:77-109 | cancel of a stored ACTIVE record writes it back CANCELED with exactly one update; a missing id or any other status fails with zero updates |
| `Service.SubscriptionService.Expire` | src/test/java/com/dmdev/service/SubscriptionServiceTest.java:111-143 | expire of a stored ACTIVE or CANCELED record writes it back EXPIRED with exactly one update; a missing id or EXPIRED fails with zero updates |
| `Service.CreateCancelExpire` | src/test/java/com/dmdev/service/SubscriptionServiceTest.java:50-143 | on an empty table a valid request is inserted ACTIVE under the first id; cancel and expire then succeed, the stored record ends EXPIRED, and a further cancel is refused |
| `Service.UpsertRevivesExpired` | src/test/java/com/dmdev/service/SubscriptionServiceTest.java:51-63 | upsert of a valid request matching a stored EXPIRED record writes it back ACTIVE under the same id and returns it |

## Left out

- The generic `Dao<K, T>` interface is modelled for its one instance, subscriptions keyed by `int`; there is no type-parametric interface.
- The JDBC/H2 storage behind `SubscriptionDao`: SQL, connections and result-set mapping. The table is an in-memory map.
- Configuration loading (`PropertiesUtil`): file I/O with no decision logic.
- The system clock: "now" is an integer parameter of validation and upsert.
- Mockito: the interactions the tests verify are stated over the ghost call log on the repository.
- `getInstance()` singletons: the service is constructed with its repository.
- The service's other injected collaborators: the validator and the mapper are fixed functions (`Validator.Errors`, `Mapper.Map`) rather than replaceable objects, and the service's own `Clock` is reduced to the `now` parameter of `Upsert`.
- Repository-layer failures: the tests make `findById` throw; the in-memory table never fails, so a failed lookup is modelled as an absent record, reported as `NotFound`.
- Object identity and in-place mutation of `Subscription`: records are values, so "the same object written back" is the looked-up record with its status changed.
- Numeric error codes of `Error`: only a stubbed code appears in the tests; errors carry their message.
- Exception message texts: errors carry the id and, for a refused transition, the operation.
- Whether `expire` also rewrites the expiration date: nothing fixes it, so it changes the status only.
- Case-insensitive provider names: lookup is by exact enum name.
- Concurrency: all calls are sequential.
- Mapper.Map: requires a request that passes validation (all its callers validate first); on an unvalidated request the source's enum lookup would throw, which is not modelled.

# ops-api in Dafny

A verified model of the core of **ops-api**, a Spring Boot service for
customers, their tasks and the notes on those tasks. The model covers:

- **Resilient dependency calls.** `DependencyStubClient` calls a stub
  endpoint with a per-attempt timeout, linear backoff and bounded retries,
  inside a circuit breaker and a bulkhead. The stub endpoint itself
  (`DependencyStubController`) validates its mode and delay.
  `CustomerDependencyService` picks the base URL and correlation id.
- **Transactional outbox.** `OutboxEventEntity` rows are created pending,
  then marked sent or failed. `OutboxEventRepository` offers the pending
  rows oldest first. `OutboxPoller.poll` walks a capped batch, isolates
  per-row failures and has a one-shot crash latch.
  `CustomerEventPublisher` builds a schema-version-2 envelope and appends
  exactly one outbox row.
- **Idempotent consumer.** `CustomerEventsConsumer` drops envelopes
  without an event id and de-duplicates against the `processed_events`
  ledger. It reads `schemaVersion` with a defaulting parser and branches
  v1 / v2 / unknown without failing.
- **Services and validators.**
  - correlation-id selection and the logged path (`CorrelationIdFilter`);
  - the exception-to-status mapping (`ApiExceptionHandler`);
  - list-parameter bounds and newest-first pagination;
  - the customer, task and note services, as operations on in-memory
    tables: not-found errors, normalisation, all-or-nothing
    create/update;
  - the "latest note per task" summary query.

**How the model is built**

- Values are datatypes: customers, tasks, notes, JSON trees, responses and
  error bodies.
- What the source updates in place is a class:
  - the outbox row, which has `const` identity fields and mutable delivery
    state;
  - the poller and its crash latch;
  - the outbox, customer, task, note and ledger tables;
  - the diagnostic context and the servlet response.
- Each state-changing method is tied to a pure specification function, and
  the properties are proved about that function.

**Inputs the model takes as parameters**

- The clock, random UUIDs, `Thread.sleep`, the HTTP transport, Kafka and
  Jackson are not modelled as code. Each becomes a parameter:
  - an `Instant`;
  - an id;
  - the sequence of attempt outcomes;
  - a `sendError` oracle for each batch position;
  - `parse` / `serialize` functions;
  - booleans for "the breaker/bulkhead permits" and "the save fails".
- Integers are unbounded. `Integer.parseInt` and `JsonNode.isInt` check
  the 32-bit range explicitly.

## Model

| member | source | states |
|---|---|---|
| ApiErrors.Handle | app/src/main/java/com/opsapi/common/ApiExceptionHandler.java:19-124 | every exception gets the status, error code and message of its handler; the body echoes status, path and time; field errors only for validation failures; 4xx exactly for the non-generic handlers; TaskNotFound falls to the generic 500 |
| Text.TrimIdempotent | app/src/main/java/com/opsapi/customers/CustomerService.java:42-43 | trimming a trimmed value changes nothing, so normalising twice equals normalising once |
| Text.TrimKeepsNonBlank | app/src/main/java/com/opsapi/common/CorrelationIdFilter.java:32-33 | a non-blank value whose trimmable characters are all whitespace stays non-empty after `trim` |
| Text.ParseIntToString | app/src/main/java/com/opsapi/events/CustomerEventsConsumer.java:84 | `Integer.parseInt` reads back every 32-bit integer `toString` writes |
| DependencyClient.NewClient | app/src/main/java/com/opsapi/dependency/DependencyStubClient.java:52-54 | maxAttempts is clamped to at least 1 and backoffMs to at least 0, other values kept as given |
| DependencyClient.BackoffSleep | app/src/main/java/com/opsapi/dependency/DependencyStubClient.java:243-251 | no sleep iff backoffMs <= 0, otherwise backoffMs times the attempt number |
| DependencyClient.BackoffsAreLinear | app/src/main/java/com/opsapi/dependency/DependencyStubClient.java:243-245 | the sleeps before retries 2..n+1 are backoffMs, 2*backoffMs, …, n*backoffMs, and none when backoff is 0 |
| DependencyClient.GatewayTimeout | app/src/main/java/com/opsapi/dependency/DependencyStubClient.java:202-214 | the exhausted-timeout reply is a 504 whose body carries status 504, error GATEWAY_TIMEOUT and the upstream URL |
| DependencyClient.AttemptVerdict | app/src/main/java/com/opsapi/dependency/DependencyStubClient.java:159-215 | an attempt continues iff it is a timeout or a 5xx status error with attempts left; a final reply is an upstream failure iff it is 5xx; a received or status reply is passed on unchanged |
| DependencyClient.RetryLoop | app/src/main/java/com/opsapi/dependency/DependencyStubClient.java:139-219 | the loop stops within maxAttempts attempts, and its outcome is an upstream failure iff the final status is 5xx |
| DependencyClient.RetryLoopStopsAtFirstVerdict | app/src/main/java/com/opsapi/dependency/DependencyStubClient.java:139-216 | the loop ends at the first attempt that gives a verdict, every earlier attempt being retryable |
| DependencyClient.AllTimeoutsGiveGatewayTimeout | app/src/main/java/com/opsapi/dependency/DependencyStubClient.java:188-215 | when every attempt times out, all maxAttempts are made and the 504 reply is thrown as an upstream failure |
| DependencyClient.AllServerErrorsExhaust | app/src/main/java/com/opsapi/dependency/DependencyStubClient.java:165-184 | when every attempt gets a 5xx, all attempts are made and the last response is thrown as an upstream failure |
| DependencyClient.RecoversOnThirdAttempt | app/src/main/java/com/opsapi/dependency/DependencyStubClient.java:165-178 | with three attempts, two 503s then a 2xx return the 2xx after sleeping backoffMs then 2*backoffMs |
| DependencyClient.CallStubWithRetryAndTimeout | app/src/main/java/com/opsapi/dependency/DependencyStubClient.java:127-220 | the loop's result and attempt count are the retry specification's; every request goes to the stub path with the same mode, delay and correlation header; the sleeps are the backoffs between attempts |
| DependencyClient.CircuitOpenFallback | app/src/main/java/com/opsapi/dependency/DependencyStubClient.java:85-102 | an open breaker answers 200 with degraded=true, mode fallback and reason circuit_open |
| DependencyClient.BulkheadFull | app/src/main/java/com/opsapi/dependency/DependencyStubClient.java:110-123 | a full bulkhead answers 429 with error BULKHEAD_FULL |
| DependencyClient.CallStub | app/src/main/java/com/opsapi/dependency/DependencyStubClient.java:76-125 | bulkhead rejection gives 429 with no call; an open breaker gives the fallback with no call; otherwise the retry loop's response is returned; the breaker records a failure iff the response is 5xx; the sleeps are the backoffs between attempts, and none when refused |
| DependencyStub.NormalizeMode | app/src/main/java/com/opsapi/stub/DependencyStubController.java:33-37 | an absent or empty mode binds to the default "ok"; any other is trimmed and lower-cased |
| DependencyStub.NormalizeModeIdempotent | app/src/main/java/com/opsapi/stub/DependencyStubController.java:37 | normalising a normalised mode changes nothing, except that a mode trimmed to empty binds to the default; so an accepted mode stays accepted |
| DependencyStub.Dependency | app/src/main/java/com/opsapi/stub/DependencyStubController.java:31-92 | a delay outside 0..30000 is rejected first; otherwise an unknown mode is rejected; ok answers 200 with stub=dependency and mode=ok; fail answers 503 with the error body (SERVICE_UNAVAILABLE, status 503, the fixed message, the request path); slow asks to sleep the delay and answers 200 with stub, mode=slow and the delay echoed, or 500 with the INTERNAL_ERROR body when interrupted |
| DependencyStub.DelayParam | app/src/main/java/com/opsapi/stub/DependencyStubController.java:34 | an absent or empty delay binds to the default 1500 ms; a given one is used as is |
| DependencyStub.StubRejectionIsBadRequest | app/src/main/java/com/opsapi/stub/DependencyStubController.java:39-90 | every rejection reaches the client as a 400 carrying the delay or the mode message |
| CustomerDependency.BaseUrl | app/src/main/java/com/opsapi/customers/CustomerDependencyService.java:43-48 | a non-blank configured URL is used trimmed, otherwise scheme://host:port of the request |
| CustomerDependency.PickCorrelation | app/src/main/java/com/opsapi/customers/CustomerDependencyService.java:50-54 | a non-blank id from the diagnostic context wins, otherwise the request header |
| CustomerDependency.CheckDependency | app/src/main/java/com/opsapi/customers/CustomerDependencyService.java:31-57 | an unknown customer is not found and nothing is sent; a known one refused by the bulkhead gets the 429 reply and one refused by the breaker the fallback reply, with nothing sent; a permitted one gets the retry loop's reply; every request goes to the chosen base URL with the chosen correlation id |
| CustomerDependency.ForcedFailureExhaustsRetries | app/src/main/java/com/opsapi/stub/DependencyStubController.java:54-65 | when the stub answers mode=fail every time, the call makes all attempts and ends in an upstream failure with status 503 |
| CorrelationFilter.ChooseCorrelationId | app/src/main/java/com/opsapi/common/CorrelationIdFilter.java:31-34 | a present, non-blank header is used trimmed; otherwise the generated UUID |
| CorrelationFilter.CanonicalUuidIsClean | app/src/main/java/com/opsapi/common/CorrelationIdFilter.java:32-34 | a generated UUID is non-blank and unchanged by trim |
| CorrelationFilter.EchoedIdIsKept | app/src/main/java/com/opsapi/common/CorrelationIdFilter.java:31-40 | a caller that sends back the echoed id gets the same id again |
| CorrelationFilter.LoggedPath | app/src/main/java/com/opsapi/common/CorrelationIdFilter.java:44-46 | the path is the URI, followed by '?' and the query exactly when the query is present and non-blank |
| CorrelationFilter.DoFilterInternal | app/src/main/java/com/opsapi/common/CorrelationIdFilter.java:25-65 | the chain sees the chosen id in the context, the response header carries it, and the key is removed afterwards even when the chain throws |
| Outbox.OutboxEvent.constructor | app/src/main/java/com/opsapi/outbox/OutboxEventEntity.java:43-55 | a new row keeps its identity fields and is pending, with no attempts and no error |
| Outbox.OutboxEvent.MarkSent | app/src/main/java/com/opsapi/outbox/OutboxEventEntity.java:68 | sentAt becomes now; attempts and lastError are unchanged |
| Outbox.OutboxEvent.MarkFailed | app/src/main/java/com/opsapi/outbox/OutboxEventEntity.java:69-72 | attempts grows by one and lastError is the error; sentAt is unchanged |
| Outbox.PendingRows | app/src/main/java/com/opsapi/outbox/OutboxEventRepository.java:12 | exactly the rows with no sentAt, each as often as it is stored |
| Outbox.FindUnsentOrdered | app/src/main/java/com/opsapi/outbox/OutboxEventRepository.java:12-13 | exactly the pending rows, each as often as it is stored, in ascending createdAt |
| Outbox.SentRowIsNeverOffered | app/src/main/java/com/opsapi/outbox/OutboxEventRepository.java:12 | a row with sentAt set is never offered again |
| Outbox.PendingOfferedExactlyOnce | app/src/main/java/com/opsapi/outbox/OutboxEventRepository.java:12-13 | every pending row of the table is offered exactly once |
| Outbox.OfferedRowsDistinct | app/src/main/java/com/opsapi/outbox/OutboxEventRepository.java:12-13 | no row is offered twice |
| Outbox.OutboxTable.Save | app/src/main/java/com/opsapi/events/CustomerEventPublisher.java:70 | a new row is appended and the table keeps every row once |
| OutboxPolling.RowVerdict | app/src/main/java/com/opsapi/outbox/OutboxPoller.java:43-64 | a send error fails the row; otherwise an open latch crashes it after the send, else it is delivered |
| OutboxPolling.Outcome | app/src/main/java/com/opsapi/outbox/OutboxPoller.java:42-64 | a row fails iff its send failed; a crash needs the latch armed and the send to have succeeded; a delivered row had no send error |
| OutboxPolling.After | app/src/main/java/com/opsapi/outbox/OutboxPoller.java:52-59 | a delivered row is marked sent and keeps its bookkeeping; a failed or crashed row stays pending with one more attempt and the error recorded |
| OutboxPolling.CrashHitsAtMostOneRow | app/src/main/java/com/opsapi/outbox/OutboxPoller.java:48-51 | the simulated crash hits at most one row of a batch |
| OutboxPolling.DeliveredCountWithoutErrors | app/src/main/java/com/opsapi/outbox/OutboxPoller.java:48-53 | with no send errors, every row is delivered, except one when the latch is armed |
| OutboxPolling.SentBeforeMeans | app/src/main/java/com/opsapi/outbox/OutboxPoller.java:48-51 | the latch has fired before a row exactly when some earlier send of the batch went through |
| OutboxPolling.Handed | app/src/main/java/com/opsapi/outbox/OutboxPoller.java:45-47 | at most one message per row of the batch |
| OutboxPolling.HandedMessages | app/src/main/java/com/opsapi/outbox/OutboxPoller.java:45-47 | every message is on customer-events, keyed by a row's aggregate id and carrying its payload; with no send errors every row is handed over |
| OutboxPolling.OutboxPoller.constructor | app/src/main/java/com/opsapi/outbox/OutboxPoller.java:22-31 | the latch starts unfired |
| OutboxPolling.OutboxPoller.HandleRow | app/src/main/java/com/opsapi/outbox/OutboxPoller.java:43-64 | the row's new state follows its verdict; the latch fires on the first successful send while armed; the message is handed over iff the send succeeded |
| OutboxPolling.OutboxPoller.ProcessBatch | app/src/main/java/com/opsapi/outbox/OutboxPoller.java:42-65 | each row of the batch ends in its own outcome's state, whatever happened to earlier rows; the sent count, the messages and the latch follow |
| OutboxPolling.OutboxPoller.Poll | app/src/main/java/com/opsapi/outbox/OutboxPoller.java:35-71 | the first batchSize pending rows, oldest first, are processed as above; every other row keeps its state; nothing is thrown |
| Customers.ValidateListParams | app/src/main/java/com/opsapi/customers/CustomerController.java:43-48 | limit outside 1..100 is rejected first, then a negative offset; valid exactly otherwise |
| Customers.NewestFirst | app/src/main/java/com/opsapi/customers/CustomerQueryRepository.java:21-24 | a permutation of the customers in descending createdAt |
| Customers.ListNewestFirst | app/src/main/java/com/opsapi/customers/CustomerQueryRepository.java:18-31 | min(limit, max(0, n - offset)) customers, the slice of the newest-first order starting at offset |
| Customers.PageIsNewestFirst | app/src/main/java/com/opsapi/customers/CustomerQueryRepository.java:21-28 | a page is itself newest first and holds only stored customers |
| Customers.ConsecutivePages | app/src/main/java/com/opsapi/customers/CustomerQueryRepository.java:26-28 | two consecutive pages of size l are the page of size 2l: paging neither skips nor repeats |
| Customers.List | app/src/main/java/com/opsapi/customers/CustomerService.java:58-66 | the response echoes limit and offset, and its count is the number of items on the page |
| Customers.ListEndpoint | app/src/main/java/com/opsapi/customers/CustomerController.java:38-51 | invalid parameters are rejected with their message; valid ones reach the service unchanged and list exactly that page |
| Customers.DefaultPage | app/src/main/java/com/opsapi/customers/CustomerController.java:40-41 | without parameters the first 20 customers are listed |
| Customers.GetById | app/src/main/java/com/opsapi/customers/CustomerService.java:51-56 | found iff the id is stored, then that customer; otherwise not found |
| Customers.Create | app/src/main/java/com/opsapi/customers/CustomerService.java:36-49 | appends the customer with trimmed name and trimmed lower-cased email, both timestamps now; a taken email is a constraint violation that stores nothing |
| Customers.Update | app/src/main/java/com/opsapi/customers/CustomerService.java:68-78 | succeeds iff the id is stored and no other customer has the normalised email; an unknown id is not found; a taken email is a conflict; on success the same row with normalised name and email, updatedAt moving only when a column changed |
| Customers.Delete | app/src/main/java/com/opsapi/customers/CustomerService.java:80-86 | an unknown id is not found; otherwise only that customer is removed, and it is not found afterwards |
| Tasks.StatusName | app/src/main/java/com/opsapi/tasks/TaskService.java:83-85 | every status name is non-empty and normalises to itself |
| Tasks.ParseStatus | app/src/main/java/com/opsapi/tasks/TaskService.java:81-86 | accepted iff the trimmed upper-cased text is a status name, then that status; otherwise the "Invalid status" error |
| Tasks.ParseStatusName | app/src/main/java/com/opsapi/tasks/TaskService.java:83 | every status parses back from its name |
| Tasks.FindByCustomerIdOrderByCreatedAtDesc | app/src/main/java/com/opsapi/tasks/TaskRepository.java:12 | exactly the customer's tasks, each as often as stored, newest first |
| Tasks.ListTasksForCustomer | app/src/main/java/com/opsapi/tasks/TaskService.java:62-74 | an unknown customer is not found; otherwise their tasks newest first, counted |
| Tasks.CreateTaskForCustomer | app/src/main/java/com/opsapi/tasks/TaskService.java:30-60 | an unknown customer is not found; otherwise an OPEN task with the trimmed title and its "Task created" note are both stored, or neither when the simulated failure rolls back |
| Tasks.UpdateStatus | app/src/main/java/com/opsapi/tasks/TaskService.java:76-106 | an unknown task or status changes nothing; otherwise the status is set, updatedAt moving only on change, and a "Status changed to" note is added, both or neither |
| TaskSummaries.MaxCreatedAt | app/src/main/java/com/opsapi/tasks/TaskRepository.java:28-32 | null iff there are no notes, otherwise a note's time that no note exceeds |
| TaskSummaries.LatestNotes | app/src/main/java/com/opsapi/tasks/TaskRepository.java:26-32 | exactly the task's notes created at its latest note time: every member is such a note and every such note is a member; empty iff the task has no notes |
| TaskSummaries.SummaryRows | app/src/main/java/com/opsapi/tasks/TaskRepository.java:15-32 | max(1, number of latest notes) rows, all carrying the task's columns; snippet and note time are null together |
| TaskSummaries.SummaryRowNote | app/src/main/java/com/opsapi/tasks/TaskRepository.java:22-32 | a joined note is one of the task's notes with the greatest creation time; a row has no note iff the task has none |
| TaskSummaries.SummariesOf | app/src/main/java/com/opsapi/tasks/TaskRepository.java:25-34 | there are at least as many rows as tasks |
| TaskSummaries.SummariesCoverTasks | app/src/main/java/com/opsapi/tasks/TaskRepository.java:25-34 | the left join keeps every task: each task has a row carrying its id |
| TaskSummaries.SummariesMembership | app/src/main/java/com/opsapi/tasks/TaskRepository.java:25-34 | every row comes from one of the tasks, and every row of every task is present |
| TaskSummaries.SummariesAppend | app/src/main/java/com/opsapi/tasks/TaskRepository.java:34 | the rows of two runs of tasks are the rows of the first run followed by those of the second, so earlier tasks' rows come first |
| TaskSummaries.FindTaskSummaries | app/src/main/java/com/opsapi/tasks/TaskRepository.java:15-36 | only the customer's tasks appear, each of them appears, and rows follow the newest-first task order |
| TaskSummaries.UniqueLatestGivesOneRow | app/src/main/java/com/opsapi/tasks/TaskRepository.java:26-32 | a task whose latest time is held by one note appears exactly once, whatever ties its earlier notes have |
| TaskSummaries.LatestNotesDistinct | app/src/main/java/com/opsapi/tasks/TaskRepository.java:26-32 | no note is joined twice |
| Notes.FindByTaskIdOrderByCreatedAtDesc | app/src/main/java/com/opsapi/notes/NoteRepository.java:9 | exactly the task's notes, each as often as stored, newest first |
| Notes.ListNotes | app/src/main/java/com/opsapi/notes/NoteService.java:38-49 | an unknown task is not found; otherwise its notes newest first, counted |
| Notes.CreateNote | app/src/main/java/com/opsapi/notes/NoteService.java:24-36 | an unknown task is not found and nothing is stored; otherwise a note with the trimmed body is appended |
| Notes.CreatedNoteIsListed | app/src/main/java/com/opsapi/notes/NoteService.java:24-49 | a created note is listed with its task exactly once and the count grows by one |
| Notes.OtherListsUnchanged | app/src/main/java/com/opsapi/notes/NoteService.java:24-49 | creating a note leaves every other task's list unchanged |
| EventConsumer.TextField | app/src/main/java/com/opsapi/events/CustomerEventsConsumer.java:74-76 | a field's text iff it is present and not null |
| EventConsumer.IntOrDefault | app/src/main/java/com/opsapi/events/CustomerEventsConsumer.java:78-90 | the default for an absent or null field, the value of an int node, the parsed value of integer text, and the default for unparseable text or any other node |
| EventConsumer.IntOrDefaultReadsText | app/src/main/java/com/opsapi/events/CustomerEventsConsumer.java:82-85 | a version written as text is read as that integer |
| EventConsumer.EventId | app/src/main/java/com/opsapi/events/CustomerEventsConsumer.java:31-41 | an event id exists iff the field is present, not null and not blank |
| EventConsumer.BranchFor | app/src/main/java/com/opsapi/events/CustomerEventsConsumer.java:52-67 | version 1 and version 2 each take their own branch, v2 reading the optional source; every other version is unknown |
| EventConsumer.LedgerRow | app/src/main/java/com/opsapi/events/CustomerEventsConsumer.java:44 | the ledger row carries the event id, the type or "UNKNOWN", and the correlation id |
| EventConsumer.HandleMessage | app/src/main/java/com/opsapi/events/CustomerEventsConsumer.java:27-72 | an unparseable payload, a missing event id or a known event id leaves the ledger unchanged; a new id adds exactly one entry keyed by it and selects the version branch |
| EventConsumer.RedeliveryIsIgnored | app/src/main/java/com/opsapi/events/CustomerEventsConsumer.java:43-49 | delivering the same message twice leaves the ledger as one delivery does, the second being a duplicate |
| EventConsumer.OnMessage | app/src/main/java/com/opsapi/events/CustomerEventsConsumer.java:25-72 | the handling and the new ledger are those of the handling specification; it never fails |
| Publisher.CurrentCorrelationId | app/src/main/java/com/opsapi/events/CustomerEventPublisher.java:36 | the context's correlation id when it has one |
| Publisher.Envelope | app/src/main/java/com/opsapi/events/CustomerEventPublisher.java:38-56 | the envelope has exactly eventId, type CUSTOMER_CREATED, ts, customerId, name, email, correlationId (null when absent), schemaVersion 2 and source ops-api |
| Publisher.EnvelopeIsProcessedAsV2 | app/src/main/java/com/opsapi/events/CustomerEventPublisher.java:39-56 | a published envelope with a new event id is accepted by the consumer, recorded as CUSTOMER_CREATED with its correlation id, and takes the v2 branch with source ops-api |
| Publisher.PublishCustomerCreated | app/src/main/java/com/opsapi/events/CustomerEventPublisher.java:35-79 | exactly one pending row with aggregate CUSTOMER and the customer's id, event CUSTOMER_CREATED, the serialised envelope and the context's correlation id; a serialisation or save failure is rethrown and adds no row |

## Left out

- resilience4j internals: the breaker's CLOSED/OPEN/HALF_OPEN thresholds, rolling window and trial calls, and the bulkhead's counter, live in library configuration. Breaker and bulkhead permission are inputs, and the breaker's record of a call is an output.
- The breaker and bulkhead event-publisher log hooks (DependencyStubClient.java:59-67), and all logging and metrics (`OpsMetrics` timing), are not modelled.
- HTTP transport, Kafka, Jackson, `Thread.sleep`, the clock and `UUID.randomUUID` are not modelled as code. Each is a parameter: a sequence of attempt outcomes, a per-position send-error oracle, parse/serialise functions, an `Instant`, a fresh id.
- `responseFromException` is not modelled: body re-parsing and the content type of an upstream error reply. An upstream error is passed on as the response it carries.
- Concurrency is not modelled: the atomicity of the crash latch under overlapping polls, transaction isolation between poll cycles, consumers racing on the ledger. Everything is single-threaded.
- The ledger save is modelled as "insert, fail if present". Whether JPA `save` of an assigned-id entity inserts or merges is library behaviour.
- Database column limits are not modelled. Lengths are not checked: an event id or type over 100 characters would also raise a constraint violation. Nor are foreign keys: `Customers.Delete` does not model a delete refused because the customer still has tasks.
- DependencyStub.DelayParam: a `delayMs` that does not bind to a Java `long` is not modelled; the parameter is absent, empty or an integer. In the source, a non-numeric value, or a number outside the `long` range such as 99999999999999999999, fails the binding before the handler runs, and the resulting type-mismatch exception reaches the catch-all handler as a 500 INTERNAL_ERROR. The model reads an out-of-range number as that integer and answers the 400 with the delay message.
- Text.ParseInt: decimal digits are ASCII only. `Integer.parseInt` also accepts other Unicode decimal digits (through `Character.digit`), so a `schemaVersion` written as, say, Arabic-Indic digits is read as a number by the source but takes the default in the model.
- String case mapping is ASCII only. `toLowerCase`/`toUpperCase` of non-ASCII letters and locale rules are not modelled.
- Key order is not modelled: JSON objects are maps, so the insertion order of `LinkedHashMap` bodies and envelopes is lost.
- SQL ordering ties: rows with equal `createdAt`, and the order of several join rows of one task, follow one fixed stable order. SQL leaves that order unspecified.
- `TaskService.listTaskSummaries`, called from TaskController.java:36, is not part of this model. Its body is not in the repository's source; only the repository query `findTaskSummaries` is modelled.
- `CustomerNotFoundException` is not part of this model: its 404 message is an input of `ApiErrors.Handle`. `TaskStatus` is not part of this model either: its constants are those named in the message at TaskService.java:85.
- Request-body bean validation (`@NotBlank`, `@Email`, sizes) is not modelled. Its outcome reaches the model only as a `MethodArgumentNotValid` exception.
- OutboxPolling.OutboxPoller.Poll: the batch size is a natural number. A malformed or negative `ops.outbox.batchSize` system property, which would throw, is not modelled.
- Outbox.OutboxEvent.MarkFailed: attempts is unbounded. The wrap-around of the 32-bit `attempts` column after 2^31 failures is not modelled.
- Each operation takes one `Instant`. The separate `Instant.now()` readings of one call, such as the two hooks of an entity, are modelled as equal.
- Customers.Create, Tasks.CreateTaskForCustomer and Notes.CreateNote: the generated ids (the customer id; the task id and the id of its first note; the note id) are required to be new. A collision of random UUIDs is not modelled.

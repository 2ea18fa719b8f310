# Permission proxy: enforcement and audit core

A Dafny model of the permission proxy that stands between autonomous agents and the CRM, and
proofs about every run of it. Run `dafny verify dfyconfig.toml`.

The state is what the database holds (agents, tools, manifests, sessions, audit events, CRM
customers) and the calls in flight. Code that updates a table is a class whose methods are
proved against a function from old state to new state; pure code is functions. Concurrency is a
step machine over those functions, and the main theorems speak about every sequence of steps.

| files | what they hold |
|---|---|
| `Wrappers`, `Order`, `UtcTime` | options and results; sorting by (timestamp, id) keys; instants and `isoformat` |
| `Json`, `JsonParser` | documents, canonical text, the parser that undoes it |
| `AuditEvents`, `Redaction`, `AuditLog` | rows, the sealed payload, redaction, the writer and the verifier |
| `Calendar` | dates against a closed form, printed times read back |
| `AuditProofs`, `AuditTamper` | chain soundness over runs; what a verified table says after edits; pagination |
| `Domain`, `ManifestSchema`, `Policy` | tables, the manifest schema, the evaluator and its declarative reading |
| `PolicyRestriction`, `PolicyPinning`, `ManifestEncoding`, `ManifestReading` | tightening a manifest; the checksum pins the policy; every valid policy can be written, and a document is read exactly |
| `Crm` | the adapter's dispatch and the CRM's three operations |
| `ToolCalls`, `ToolCallProofs`, `ToolCallReports` | the two-step call protocol, its safety, and the log against the calls |
| `Activation`, `ActivationProofs`, `ActivationHistory` | manifest activation, alone and as concurrent transactions; who activated what, when |
| `SessionTokens`, `SessionRuns` | session tokens and rows; overlapping validations and revocations |
| `EndToEnd`, `EndToEndProofs`, `EndToEndSources` | request to CRM and back, with the tables changing underneath; where requests come from |
| `Seeding`, `SeededPolicy` | the seed transaction and the policy it installs |
| `Scopes` | scope strings |

## Assumptions

- uuid4 values are fresh: a request id, row id or token id is never one already used.
- A JWT is a sealed record: only `issue` makes one that decodes.
- SHA-256 is a function `h` about which nothing is assumed. Where a result needs collision
  resistance it names the texts that would have to collide.
- A `Database.session()` block commits entirely or leaves the tables as they were
  (services/common/database.py:49-59). Row locks behave as in PostgreSQL READ COMMITTED, and a
  deadlock victim is an abort.
- A locking read returns the last committed row. In `ActivationsSerialize` this rests on a session
  that has not loaded the manifest before: SQLAlchemy does not refresh an object it already holds.
  Activation after an earlier load, as in the seed, is `ActivateLoaded`.
- One event loop serves all tool calls, which suspend only at the adapter's `await`
  (services/permission_proxy/tool_calls.py:129). Session routes run on threads and overlap.
- Event ids sort by code point, as they do for the `evt_` plus lower-case hexadecimal form.
- A string is a sequence of Unicode scalar values.

## What the proofs found

- A verified log stops verifying as soon as a row is written whose (timestamp, event id) key does
  not exceed every stored key, for example after the clock steps back, or within one clock tick
  when the random id sorts lower. `RecordKeepsIntegrityIff` says this exactly, and
  `ClockStepBackBreaksLog` is a run where it happens.
- Deleting the newest rows always goes unnoticed by `verify_integrity` (`NewestRowsCanVanish`), and
  no other deletion does (`SubsetVerifiesIffPrefix`).
- `revoke` takes no row lock, so overlapping revocations can overwrite the first `revoked_at`:
  `OverlappingRevokesOverwrite` is such a run, and `FirstTimeKeptIff` says of every run exactly when
  the first time is kept. The session stays revoked either way.
- The seed's summary reports its manifest as active even when that row had been superseded or
  revoked: `SupersededSeedIsReported` gives the tables, `ReportedManifestIsActiveIff` the condition.
- The seed loads its manifest before `activate` locks it, so it acts on the status it loaded. If
  the manifest was superseded in between, it comes back (`SupersededComesBack`);
  `LoadedActivationIff` says exactly when the loaded status does no harm.

## Model

| member | source | states |
|---|---|---|
| `ToolCalls.ToolCallService.BeginCall` | services/permission_proxy/tool_calls.py:46-126 | the first half of a call, in place over the audit service: look for the key, take the decision, record one event, and either return or suspend; it leaves exactly the state of the step the run theorems are about, with nothing forwarded or returned when the record is refused |
| `ToolCalls.ToolCallService.ResumeCall` | services/permission_proxy/tool_calls.py:128-191 | the second half: the final event and the answer for a result, a tool error or a timeout; an unexpected exception or a refused record ends the call with neither |
| `ToolCallProofs.ForwardedAtMostOnce` | services/permission_proxy/tool_calls.py:49-133 | over every interleaving of any number of calls: no two forwarded calls share agent and idempotency key, every forward has its committed AUTHORIZED row, and every AUTHORIZED row has its forward |
| `ToolCallProofs.FirstRequestOwnsKey` | services/permission_proxy/tool_calls.py:49-69 | of all events carrying a key, exactly those of the request that recorded it first are not duplicates, also when duplicates are recorded between its two events |
| `ToolCallProofs.EveryTraceIsWellFormed` | services/permission_proxy/tool_calls.py:80-191 | each request leaves one of the three traces; a completed one ends EXECUTED with an allow, TIMED_OUT exactly with UPSTREAM_TOOL_TIMEOUT, or TOOL_FAILED; whoever was answered was told the decision and reason of the last event with the status code it calls for: 200, 409, 403, 504 or 502 |
| `ToolCallReports.EventsReportTheirCalls` | services/permission_proxy/tool_calls.py:35-238 | over every run, each event names, column by column, the call of the step its request began with and the manifest and checksum of the decision taken then; a first event says what was decided, a final one what the execution it was resumed with comes to; time, id and latencies are those of the recording step |
| `ToolCallReports.OneCallPerRequest` | services/permission_proxy/tool_calls.py:46-191 | all events of a request go back to one and the same call |
| `ToolCallReports.BeginSays` | services/permission_proxy/tool_calls.py:49-126 | what a beginning call records, answers and forwards, for a duplicate, a denial and an authorization |
| `ToolCallReports.ResumeSays` | services/permission_proxy/tool_calls.py:134-191 | what a resumed call records and answers: TIMED_OUT for a timeout, TOOL_FAILED for any other tool error, EXECUTED with the adapter's result otherwise, each with its reason, upstream status and message |
| `ToolCallProofs.InterleavedLogVerifies` | services/permission_proxy/audit/service.py:109-154 | the log of any interleaving verifies exactly when its rows were written in increasing (timestamp, event id) order, and then reads back in the order of writing |
| `ToolCallProofs.ClockStepBackBreaksLog` | services/permission_proxy/audit/service.py:109-154 | a run of two calls, the clock a microsecond back at the second, whose log does not verify although no two texts hash alike |
| `ToolCallProofs.RunKeepsInvariant` | services/permission_proxy/tool_calls.py:35-191 | every step of every run keeps traces, key ownership, forwards and the recorded chain together |
| `AuditLog.AuditService.HasIdempotencyKey` | services/permission_proxy/persistence/repositories.py:156-169 | true exactly when some stored row carries this agent and key |
| `AuditLog.AuditService.Record` | services/permission_proxy/audit/service.py:109-138 | appends one row whose every column is what was to be recorded, parameters redacted, stamped in UTC, linked to the row that sorts last; or, exactly when the event id or the request's number is taken, changes nothing |
| `AuditLog.AuditService.VerifyIntegrity` | services/permission_proxy/audit/service.py:140-154 | valid exactly when every row in chain order links to its predecessor and carries its own hash; otherwise names the least position that fails, with a valid chain before it |
| `AuditLog.LastChainEvent` | services/permission_proxy/persistence/repositories.py:171-179 | there is a last row exactly when the table is not empty; it is stored, and no stored key exceeds its key |
| `AuditLog.RedactedRequestsRecordAlike` | services/permission_proxy/audit/service.py:43-92 | two requests that differ only in parameters leave the same row and hash exactly when redaction cannot tell them apart |
| `AuditEvents.SealedTextDeterminesRow` | services/permission_proxy/audit/service.py:59-92 | two rows have the same hashed text exactly when they agree in every column but the hash, times as instants and parameters as documents |
| `AuditEvents.PayloadRequest` | services/permission_proxy/audit/service.py:63-74 | the hashed dictionary holds each column that names the request under its own key |
| `AuditEvents.PayloadVerdict` | services/permission_proxy/audit/service.py:75-85 | and each column that says what was decided and done |
| `AuditProofs.SequencesUnique` | services/permission_proxy/domain/models.py:196 | in a recorded table no two rows are the same numbered event of one request |
| `AuditProofs.RecordKeepsIntegrityIff` | services/permission_proxy/audit/service.py:109-154 | recording onto a table that verifies gives one that verifies if and only if the new key exceeds every stored key; the hash assumption is the absence of a collision with a stored row |
| `AuditProofs.ClockStepBackBreaksChain` | services/permission_proxy/audit/service.py:109-154 | two records, the second stamped earlier: the table verifies after the first and not after the second, with a hash that never collides |
| `AuditProofs.RunVerifiesIffInKeyOrder` | services/permission_proxy/audit/service.py:109-154 | a table grown by recording alone verifies if and only if it was written in key order, and then its sorted read-back is the order of writing |
| `AuditProofs.RecordLinks` | services/permission_proxy/audit/service.py:112-138 | recording extends a table grown by recording alone |
| `AuditProofs.PredecessorStored` | services/permission_proxy/audit/service.py:134 | the hash that row i links to is that of a row stored at an earlier position |
| `AuditTamper.SameTipSameTable` | services/permission_proxy/audit/service.py:140-154 | two tables that verify and end in the same hash are equal row for row, or two rows equally far from the end collide |
| `AuditTamper.SubsetVerifiesIffPrefix` | services/permission_proxy/audit/service.py:140-154 | what is left after deletions verifies if and only if it is a prefix in chain order |
| `AuditTamper.NewestRowsCanVanish` | services/permission_proxy/audit/service.py:140-154 | whatever table verifies, what is left after its newest rows are deleted verifies too |
| `AuditTamper.RereadKeepsHash` | services/permission_proxy/audit/service.py:60-68 | the hash and the sort key do not depend on the offset the same instant is read back with, or on its being naive |
| `AuditTamper.RereadKeepsVerdict` | services/permission_proxy/audit/service.py:140-154 | nor does the verdict on a whole table |
| `AuditTamper.PagesCoverTable` | services/permission_proxy/persistence/repositories.py:181-214 | the pages of a fixed table, for any filters and any page size, list every matching event once, newest first; without filters they are the chain backwards |
| `AuditTamper.PagesFrom` | services/permission_proxy/persistence/repositories.py:205-214 | the pages from an offset on are the matching events from that offset on |
| `Redaction.RedactionIsExact` | services/permission_proxy/audit/service.py:43-56 | two parameter objects are stored alike exactly when they name the same customer, change the same fields and carry the same other names |
| `Redaction.SanitizeShows` | services/permission_proxy/audit/service.py:43-56 | the stored object key by key: the customer id if a string, the sorted names of the fields to change instead of their values, the sorted names of all other parameters |
| `Redaction.SanitizedWellFormed` | services/permission_proxy/audit/service.py:43-56 | what is stored repeats no key |
| `JsonParser.RoundTrip` | services/permission_proxy/persistence/repositories.py:23-30 | a parser for the printed form gives every document back (sections 4, 6 and 7 of RFC 8259) |
| `JsonParser.CanonicalSame` | services/permission_proxy/persistence/repositories.py:23-30 | two values have one canonical text exactly when they are the same document: lists in order, objects as unordered fields, and a Boolean never a number |
| `JsonParser.CanonicalIgnoresInsertionOrder` | services/permission_proxy/persistence/repositories.py:24-29 | the order in which keys were inserted does not show |
| `JsonParser.PrintAscii` | services/permission_proxy/audit/service.py:86-91 | the text of any document is printable ASCII |
| `Calendar.IsoFormatReads` | services/permission_proxy/audit/service.py:68 | a printed time reads back as the instant it was printed from: date by a closed form of the calendar, then clock and microseconds |
| `Calendar.DateOfOrdinal` | services/permission_proxy/audit/service.py:68 | every date of the Gregorian calendar is reached, at its ordinal |
| `Calendar.ReadBackIsSameInstant` | services/permission_proxy/security/sessions.py:46-49 | an instant read back naive or with any offset is that instant |
| `AuditTamper.PageExact` | services/permission_proxy/persistence/repositories.py:205-214 | one page is the matching events from the offset on, as many as the limit allows |
| `UtcTime.IsoFormatInjective` | services/permission_proxy/audit/service.py:68 | two instants print alike only when they are equal |
| `Policy.EvaluateExact` | services/permission_proxy/policy/evaluator.py:45-140 | evaluate never misses a lookup, allows exactly when all ten requirements hold, window, checksum and scope written out in stored values, and otherwise answers the code of the first that fails |
| `Policy.ExpiredExactly` | services/permission_proxy/policy/evaluator.py:48-56 | MANIFEST_EXPIRED is answered if and only if there is an active manifest and the clock reads before its start, or at or after its end |
| `Policy.DecisionNamesManifest` | services/permission_proxy/policy/evaluator.py:57-140 | every decision names the active manifest and its stored checksum, and a denial by the document's terms carries the document's message |
| `Policy.EvaluateDocumentAllows` | services/permission_proxy/policy/evaluator.py:84-140 | the part that reads the document allows exactly when its five requirements hold |
| `Policy.EvaluateDocumentDenies` | services/permission_proxy/policy/evaluator.py:84-132 | a denial there carries the code of the first requirement that fails |
| `Policy.ToolByName` | services/permission_proxy/persistence/repositories.py:62-63 | finds a tool of that name whenever there is one |
| `Domain.GetActive` | services/permission_proxy/persistence/repositories.py:84-90 | finds an active manifest of the agent whenever there is one |
| `ManifestReading.DocumentReadExactly` | services/permission_proxy/policy/manifest.py:6-85 | validation yields a policy if and only if the document says that policy, part by part and with no unknown key anywhere, and the policy is valid |
| `ManifestEncoding.AcceptedPoliciesAreTheValidOnes` | services/permission_proxy/policy/manifest.py:6-85 | the policies model validation produces from some document are exactly those that satisfy every validator and bound |
| `ManifestEncoding.AcceptedToolsAreTheValidOnes` | services/permission_proxy/policy/manifest.py:61-75 | the same for tool permissions: what is allowed and what has a rule are one non-empty set |
| `ManifestEncoding.AcceptedSchemasAreTheValidOnes` | services/permission_proxy/policy/manifest.py:25-37 | the same for parameter schemas: every required name is declared |
| `ManifestEncoding.DocumentRoundTrip` | services/permission_proxy/policy/manifest.py:78-85 | every valid policy has a well-formed document that reads back as it |
| `ManifestSchema.ValidateParametersExact` | services/permission_proxy/policy/manifest.py:88-105 | the early-return checks accept exactly the parameters with every required name, no undeclared one unless allowed, and every declared one of its kind and length |
| `PolicyRestriction.RestrictionIsMonotone` | services/permission_proxy/policy/evaluator.py:100-132 | after the document of the active manifest is tightened, every call then allowed was allowed before |
| `PolicyRestriction.TighterDocumentGrantsLess` | services/permission_proxy/policy/manifest.py:88-105 | the same for two documents side by side |
| `PolicyRestriction.StoredOrderIsIrrelevant` | services/permission_proxy/policy/evaluator.py:43-140 | reordering or repeating list entries in any stored manifest, sealed anew, and in the registered tools changes no decision, reason or message |
| `PolicyRestriction.ListOrderIsIrrelevant` | services/permission_proxy/policy/evaluator.py:100-132 | the same for two parsed documents |
| `PolicyPinning.EqualDocumentsParseAlike` | services/permission_proxy/policy/manifest.py:6-85 | the same document, in whatever key order, parses to one policy |
| `PolicyPinning.ChecksumPinsPolicy` | services/permission_proxy/persistence/repositories.py:23-30 | equal checksums mean one policy, or a hash collision in hand |
| `PolicyPinning.EditedDocumentIsRefused` | services/permission_proxy/policy/evaluator.py:57-63 | editing the stored document of a manifest leaves every decision as it was or turns it into POLICY_INTEGRITY_VIOLATION, unless the edit collides |
| `Activation.ManifestRepository.Activate` | services/permission_proxy/persistence/repositories.py:97-122 | the method in place: the table and row of an activation on its own, nothing changed on an error, and the unique index respected at both flushes; ActivationEffect and ActivationOutcome say column by column what those are |
| `Activation.ActivationOutcome` | services/permission_proxy/persistence/repositories.py:98-111 | an activation succeeds exactly for a stored draft or active manifest of a stored agent, and each refusal has its own error |
| `Activation.ManifestRepository.FindActive` | services/permission_proxy/persistence/repositories.py:84-90 | scanning the table finds the active manifest |
| `Activation.ActivationEffect` | services/permission_proxy/persistence/repositories.py:106-122 | a success leaves the target the only active manifest of its agent; a draft then carries who activated it and when and is otherwise as before, the one active before changes in status alone, no other row is touched, and nothing changes if the target was active already |
| `Activation.LoadedKeepsIndex` | services/permission_proxy/persistence/repositories.py:97-122 | an activation that branches on a row loaded before it was locked still leaves one active manifest per agent |
| `Activation.LoadedActivationIff` | services/permission_proxy/persistence/seed.py:163-192 | such an activation does what one on its own does exactly when the status has not changed since loading, or the row was activated meanwhile by the same user at the same time |
| `Activation.SupersededComesBack` | services/permission_proxy/persistence/seed.py:163-192 | tables and a loaded draft for which it brings a superseded manifest back |
| `ActivationProofs.ActivationsSerialize` | services/permission_proxy/persistence/repositories.py:97-122 | over every interleaving of activations, inserted drafts and aborts: the index holds in every committed state, no flush violates it, and the committed table is that of the commits run one at a time in commit order |
| `ActivationHistory.CommittedRowsCarryTheirEntries` | services/permission_proxy/persistence/repositories.py:97-122 | over every interleaving, a row promoted by a commit carries the user and time of that commit's entry in every later table and keeps everything else; any other row is as it started, or superseded from there |
| `ActivationProofs.NoConflict` | services/permission_proxy/domain/models.py:108-114 | a promoting flush meets no other active row, committed or pending |
| `ActivationProofs.CommitIsSerial` | services/permission_proxy/persistence/repositories.py:99-121 | what a transaction commits is what the activation would do alone at that moment |
| `SessionTokens.TrustedSessionService.Create` | services/permission_proxy/security/sessions.py:143-193 | stores one row with exactly the identity, lifetime and creator asked for and returns the token that says so claim by claim, or refuses and stores nothing |
| `SessionTokens.CreateErrorExact` | services/permission_proxy/security/sessions.py:152-168 | when creation refuses, and with which error |
| `SessionTokens.TrustedSessionService.ValidateToken` | services/permission_proxy/security/sessions.py:195-235 | the checks in order, against the table |
| `SessionTokens.ValidateReasons` | services/permission_proxy/security/sessions.py:76-134 | any token whatever is accepted exactly when it passes all thirteen checks, and then yields its own claims; otherwise the error is that of the first check it fails |
| `SessionTokens.TrustedSessionService.Revoke` | services/permission_proxy/security/sessions.py:237-246 | an unrevoked row becomes revoked at the given time and is otherwise as before, a revoked one keeps its time, and no other row changes |
| `SessionTokens.ValidateExact` | services/permission_proxy/security/sessions.py:76-134 | the token of an unedited row is accepted exactly within its whole-second window, for its own active agent, while the row is active, unexpired and names no empty identifier |
| `SessionTokens.SessionWindow` | services/permission_proxy/security/sessions.py:152-162 | a session created at c with TTL t works from c up to but excluding floor(c + t): longer than t - 1 seconds, and never past the row (sections 2, 4.1.4, 4.1.5 and 4.1.6 of RFC 7519) |
| `SessionTokens.RevokeTwice` | services/permission_proxy/security/sessions.py:242-245 | a revocation that reads a revoked row changes nothing |
| `SessionRuns.SessionsAreSafe` | services/permission_proxy/security/sessions.py:195-246 | over every interleaving: a success returns the stored identity to the agent it was stored for and began before any revocation committed; replaced-token and claims-mismatch refusals never happen; rows change in status and revocation time only |
| `SessionRuns.RevokedStaysRevoked` | services/permission_proxy/security/sessions.py:237-246 | no step un-revokes a session, and only the write of a revocation can move its time |
| `SessionRuns.RevokeAloneIsRevoke` | services/permission_proxy/security/sessions.py:237-246 | a revocation that nothing comes in between leaves the table the method leaves, so what is said of runs is said of the method |
| `SessionRuns.ValidateAloneIsValidate` | services/permission_proxy/security/sessions.py:195-235 | a validation that nothing comes in between ends as the method does |
| `SessionRuns.FirstTimeKeptIff` | services/permission_proxy/security/sessions.py:237-246 | over every run: from its first revocation on, a row holds the time that revocation wrote if and only if no later step writes another time for a revocation that read the row before the first one committed |
| `SessionRuns.RevocationTimeKeptIff` | services/permission_proxy/security/sessions.py:239-245 | at every position of every run, the recorded time of a revoked session survives the step if and only if that step is no such write of a different time |
| `SessionRuns.FirstRevocation` | services/permission_proxy/security/sessions.py:242-245 | in every run, the moment logged as a session's first revocation is a write to it, before which it was not revoked and after which it holds that write's time |
| `SessionRuns.LaterRevokeKeepsTimeIff` | services/permission_proxy/security/sessions.py:242-245 | one write in one reachable state: it leaves the time recorded there if and only if it read after the first revocation committed, or writes that same time |
| `SessionRuns.OverlappingRevokesOverwrite` | services/permission_proxy/security/sessions.py:239-245 | two revocations that both read before either writes: the second overwrites the time of the first |
| `Crm.CustomerService.ReadCustomer` | services/sample_crm/api.py:53-62 | the row of the customer, or 404 |
| `Crm.CustomerService.UpdateCustomer` | services/sample_crm/api.py:64-80 | the loop over the supplied fields leaves exactly the patched row, or the table as it was |
| `Crm.CustomerService.DeleteCustomer` | services/sample_crm/api.py:82-93 | removes the row, or answers 404 |
| `Crm.HandleIsLocal` | services/sample_crm/api.py:53-93 | a request changes at most the customer it names; a read or a refusal changes nothing |
| `Crm.DispatchExact` | services/permission_proxy/tools/crm.py:58-81 | which request each operation becomes, and each refusal before sending |
| `Crm.ReceiveExact` | services/permission_proxy/tools/crm.py:83-116 | which answer becomes a result, a timeout, an upstream error with or without status |
| `Crm.ReadExact` | services/sample_crm/api.py:53-62 | a read shows the stored row field by field, or 404 |
| `Crm.PatchExact` | services/sample_crm/api.py:23-80 | 422, 404, 500 and 200 each exactly when due; a success changes exactly the supplied columns to the supplied values and shows the row |
| `Crm.DeleteExact` | services/sample_crm/api.py:82-93 | 204 and exactly that customer gone, or 404 |
| `Crm.ReadAfterWrite` | services/sample_crm/api.py:53-80 | reading after a successful write gives what the write answered |
| `EndToEnd.ResolveAgent` | services/permission_proxy/security/auth.py:169-188 | a resolved agent is active and registered under the subject of a caller with the scope and an agent token; such a caller is refused only when no agent, or an inactive one, has its subject |
| `EndToEndProofs.OnlyOwnReadsReachTheCrm` | services/permission_proxy/api/tool_routes.py:87-126 | in every run under read-only manifests: each request sent reads the customer of a session stored earlier for the same agent, on behalf of a call admitted before, whose caller was that agent's active identity and whose session was active and unexpired when checked; and each 200 answer is that customer's row as the CRM held it at a step between sending and answering |
| `EndToEndSources.EveryRequestIsTraced` | services/permission_proxy/api/tool_routes.py:87-126 | in every such run each request goes back to the step that created its session, whose customer it reads, for the same agent, and to the step at which a caller with the scope and an agent token presented that session's own token |
| `EndToEndProofs.AllowedIsGranted` | services/permission_proxy/policy/evaluator.py:45-117 | a call let through is granted by tool, operation and parameters in an active manifest of its agent, in force at that moment |
| `EndToEndProofs.ExecutionExact` | services/permission_proxy/tools/crm.py:83-116 | what a suspended call wakes up with, by how its request fared |
| `EndToEndProofs.ProxyNeverChangesCustomers` | services/permission_proxy/tools/crm.py:58-116 | in every such run without outside edits the customer table never changes |
| `EndToEndProofs.WorldRunsProtocol` | services/permission_proxy/api/tool_routes.py:102-110 | every run of the whole path is a run of the tool-call protocol, so the protocol theorems hold of it |
| `EndToEndProofs.AllowedIsOwnRead` | services/permission_proxy/policy/evaluator.py:118-132 | what a read-only manifest allows is a read of the session's own customer |
| `EndToEndProofs.EvaluateAnswers` | services/permission_proxy/policy/evaluator.py:33-140 | the reason given is ALLOWED when the evaluator allows, and never DUPLICATE_REQUEST when it denies |
| `EndToEndProofs.OwnReadDispatch` | services/permission_proxy/tools/crm.py:58-81 | such a call becomes one GET of that customer, or is refused before anything is sent |
| `EndToEndProofs.StepKeepsInvariant` | services/permission_proxy/api/tool_routes.py:65-126 | every step of the whole path keeps requests, replies and answers tied to stored sessions |
| `Seeding.SeedDatabase.Seed` | services/permission_proxy/persistence/seed.py:118-202 | the transaction in place: the seeded tables and their summary, or an error and the tables as they were; at most one active manifest per agent either way |
| `Seeding.SeedDatabase.Statements` | services/permission_proxy/persistence/seed.py:127-200 | its statements in order, insert or compare, loop over the customers, activate a draft |
| `Seeding.SeedingTwiceIsSeedingOnce` | services/permission_proxy/persistence/seed.py:118-202 | after a success, seeding again at any time succeeds, changes nothing and so reports the same summary |
| `Seeding.SeedSucceedsIffCompatible` | services/permission_proxy/persistence/seed.py:127-192 | seeding succeeds exactly when what stands already agrees with it, read off the tables before it runs |
| `Seeding.SeedEffect` | services/permission_proxy/persistence/seed.py:127-192 | a success adds what was missing, column by column as specified, activates the seeded manifest if it was missing or a draft, and leaves every other row as it was or superseded |
| `Seeding.SummaryCounts` | services/permission_proxy/persistence/seed.py:194-200 | the summary counts the rows of the four tables and names the seeded manifest |
| `Seeding.SeedFailsWith` | services/permission_proxy/persistence/seed.py:127-192 | a refusal reports the first thing that does not agree |
| `Seeding.SeedKeepsOneActive` | services/permission_proxy/persistence/seed.py:191-192 | seeding keeps at most one active manifest per agent |
| `Seeding.CustomersExact` | services/permission_proxy/persistence/seed.py:183-189 | the customer loop succeeds exactly when no row stands under another name, keeps every row, and adds exactly the missing ones |
| `Seeding.ReportedManifestIsActiveIff` | services/permission_proxy/persistence/seed.py:191-200 | the manifest the summary calls active is active if and only if it had not been superseded or revoked before |
| `Seeding.SupersededSeedIsReported` | services/permission_proxy/persistence/seed.py:163-200 | tables on which seeding succeeds and reports a superseded manifest as active while none is |
| `SeededPolicy.SeedingKeepsReadOnly` | services/permission_proxy/persistence/seed.py:26-53 | seeding keeps every intact active manifest read-only, so the end-to-end guarantee applies afterwards |
| `SeededPolicy.SeededPolicyExact` | services/permission_proxy/persistence/seed.py:26-53 | in a freshly seeded system a call is allowed exactly when the support agent reads, from the effective date on, the customer its session names, with no other parameter |
| `SeededPolicy.SeedEffectiveDate` | services/permission_proxy/persistence/seed.py:173 | the seeded manifest takes effect at midnight UTC on 2026-01-01 |
| `SeededPolicy.ManifestDecodes` | services/permission_proxy/persistence/seed.py:26-53 | the seeded document passes model validation and means the policy it is meant to |
| `Scopes.ParseScopes` | services/permission_proxy/security/auth.py:45-53 | collects the words of the scope string and the strings of the scp list |
| `Scopes.SplitExact` | services/permission_proxy/security/auth.py:50 | splitting yields exactly the maximal stretches without white space |
| `Scopes.GrantedExactly` | services/permission_proxy/security/auth.py:45-53 | a token grants exactly the words of its scope string and the non-empty strings of its scp list |
| `Scopes.MissingExactly` | services/permission_proxy/security/auth.py:156-162 | a check for scopes names exactly the required ones not granted |
| `Scopes.ScopeRoundTrip` | services/permission_proxy/security/auth.py:144 | reading the written scopes back gives the same set if and only if every scope is non-empty and free of white space (section 3.3 of RFC 6749) |
| `Scopes.IssuedTokenGrants` | services/permission_proxy/security/auth.py:156-162 | a token issued for such scopes passes exactly the checks that ask for no other |

## Left out

- FastAPI and pydantic plumbing: request models, header bounds, bearer parsing, status codes of refused callers, health and admin routes. A caller that is refused before `execute` changes nothing in the model.
- Access-token decoding and JWT cryptography: a principal's subject, use and scopes are inputs; sealed session tokens stand for the signature check.
- The HTTP transport: URL encoding, redirects, real timeouts. A request is the operation and an opaque customer id; a reply arrives, is lost in time, or never comes, and may be served after the caller gave up.
- A customer id that is not a string: the path hole prints its canonical text for numbers, lists and objects, where Python would print its own representation. No read-only manifest lets such a call through.
- Pydantic's lax coercions in a manifest, such as `maxLength` given as `true`, `5.0` or `"5"` and `additionalProperties` given as `1` or `"yes"`: such a document is refused in the model.
- JSON floats and lone surrogates: documents hold null, Booleans, integers, strings, lists and objects with unique keys.
- E-mail normalisation: a parameter of the CRM functions.
- Columns that no modelled code reads: names, owning team, tool schemas, created-by, change reason, created and updated times.
- Column lengths and foreign keys: a record the database refuses for any such reason (a trace id longer than its column, say) is a step that records nothing and forwards nothing.
- Latency values: arbitrary integers in the payload.
- Deadlock freedom and progress of concurrent activation; several proxy processes.
- Agents as an argument of activation are fixed during a run; the seed and the end-to-end model change them.
- In the end-to-end model a caller and its session are checked in one step, and the call is executed in a later one; the finer overlaps of validation and revocation are in `SessionRuns`.
- The reference agent, demonstration and verification scripts, migrations, Terraform and Docker.

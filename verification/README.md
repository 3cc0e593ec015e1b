# DIS ingestion core: a verified model

This project models the parts of the DIS data-ingestion system whose correctness is hardest to see
from the code, and proves what those parts promise. Five components are covered.

- **The CSV ingest worker as a crash-and-redelivery protocol** (`Ingest`, `IngestInvariant`,
  `IngestTheorems`, `IngestOutcomes`, `IngestConvergence`, `IngestRefusals`, `IngestWorker`). One attempt is one delivery of one
  `csv.received` event, with every I/O call allowed to complete, to fail without effect, or to take
  effect and then fail, and with the clock moving on between calls. A run is any sequence of attempts.
  The worker's classes are proved to compute the specification functions, and the theorems are about
  every run of those.
- **Tenant-scoped storage** (`Rls`) and **template versions** (`TemplateVersions`,
  `TemplateMigration`): transaction-local settings on pooled connections, the asymmetric read and write
  policy, MAX + 1 under a filtered view with a unique key deciding races, and migration 0005 with its
  guarded way back.
- **The natural-key migration** (`NaturalKey`): migration 0004 statement by statement, with inserts and
  interruptions between statements.
- **The multipart collector** (`Multipart`, `MultipartReader`, `MultipartParts`) and **the object-path codec**
  (`Uuids`, `ObjectPath`): a mutable push-parser client whose result must not depend on how callbacks or
  chunks are cut, and a printer and parser that undo each other.
- **Mapping gates** (`Provenance`, `Gates`) and **the Decimal pre-check** (`DecimalPrecheck`): the
  partition check, the typed and untyped gates, the suite built from what they accept, and the
  workaround for the validation library's crash.

SHA-256 is taken as collision-free and its digests as not blank; preflight, the PII name detector, the option-header parser, the
UTF-8 decoders, the multipart tokeniser and the validation library are parameters with stated laws.
Object stores, clocks, id generators and faults are inputs of each attempt.

## Where the code does not do what it says

- A `received_ts` without a zone, or one that leaves the calendar in UTC, raises an exception that is no
  validation error (`envelope.py:60-64`). Neither the parser nor the subscriber catches it, so the whole
  pass ends with no id acknowledged or refused, and the message comes back (`ZonelessStopsThePass`). Every
  id is decided exactly once if and only if no message of the batch does this (`EveryIdDecidedOnce`); what
  was processed before it stays (`WorkBeforeStopStays`).
- A malformed `gcs_uri` raises `StorageError`, which the subscriber does not list as terminal, so such a
  message is refused again on every delivery (`subscriber.py:51`; `UnreadablePathIsRefused`, the input in
  `SchemelessUriIsRefused`).
- A PLATFORM session with no tenant is documented to write nothing, and an impersonating one only its
  tenant (`session.py:169-173`). PostgreSQL checks DELETE, and the rows an UPDATE may target, against
  USING alone, which PLATFORM widens. Rows of tenants a session does not act for are kept if and only if it
  commits no DELETE and no admitted UPDATE that targets one (`SessionKeepsOutsideIff`,
  `ImpersonationKeepsOthersIff`, `NoTenantSessionChangesOnlyByDelete`; examples in
  `NoTenantDeleteReachesEveryone` and `ImpersonationCanTakeOver`).
- The downgrade of migration 0005 takes its guard's counts while forced row-level security is still on. The
  cloud migration role does not bypass it (`schemas/postgres/00_bootstrap/roles.sql:47-51`), sees no row and
  is never refused: a source's templates can be merged without notice (`BlindDowngradeLosesATemplate`), or
  the old keys fail after the guard (`BlindDowngradeFailsLate`). `GuardMeansWhatItSays` and
  `WhoDecidesTheDowngrade` are exact. Migration 0004's count has the same blindness; there the CHECKs refuse
  what it misses (`PositionTable.Upgrade`).

## Conditions the code relies on

- Convergence relies on the sniffer for one-character delimiters, which nothing checks before the row is
  committed (`publisher.py:61`). Under that reliance `SingleCharacterDeliverySettles` is exact. If the sniffer
  ever returns a delimiter that is not one character, the row stays RECEIVED and every redelivery raises again
  (`OddDelimiterIsNeverAnnounced`, `OddDelimiterRaisesEveryTime`, an input in `TwoCharacterDelimiterStrands`).
- Isolation relies on roles that do not change: the posture is checked on an engine's first use only
  (`session.py:130-132`), which is enough if and only if no engine turns unsafe after a safe use
  (`OneCheckSufficesIff`, `TenantsAreIsolated`; `AlteredRoleEscapes` is what happens otherwise).
- A completed upload's `file_data` is the part buffer itself. On every prefix of a well-formed stream it is
  final (`StreamKeepsFile`). It would not be on a stream whose headers finish with no part begin before them
  (`DataAltersFileIff`, `LateHeadersAlterFile`), which no multipart tokeniser emits.
- Parsing undoes building exactly when no written component holds a slash and the extension holds no dot,
  newlines allowed (`ParseBuilt`); building undoes parsing exactly when the components are trimmed
  (`BuildParsed`).
- The typed and untyped gates agree on an event model exactly when its mandatory columns do not all
  belong to the other event model too (`GatesAgreeExactlyWhen`); the registered provenance meets this
  through the two timestamp columns (`RegisteredGatesAgree`).

## Model

| member | source | states |
|---|---|---|
| `IngestInvariant.ProcessKeeps` | services/csv-ingest-worker/src/csv_ingest_worker/pipeline.py:113-217 | one attempt, with any faults, keeps the invariant: distinct ids, rows of a key a window apart, the bytes behind each row passed (or failed) the gates, every message backed by a row |
| `IngestInvariant.RunKeeps` | services/csv-ingest-worker/src/csv_ingest_worker/pipeline.py:113-328 | every run from any state with the invariant keeps it |
| `IngestInvariant.ReachableInv` | services/csv-ingest-worker/src/csv_ingest_worker/pipeline.py:103-217 | every state of every run from an initial state has the invariant |
| `IngestTheorems.EveryPublishPassedBothGates` | services/csv-ingest-worker/src/csv_ingest_worker/pipeline.py:127-206 | in every run, every published message, whichever branch sent it, names a non-FAILED row with its tenant, trace and receive time, and of the bytes with that row's hash preflight accepts the structure and the header has no detected PII, unless a backend is configured |
| `IngestTheorems.RowsOfOneKeyAreADayApart` | services/csv-ingest-worker/src/csv_ingest_worker/bronze.py:117-184 | in every run, two csv rows sharing tenant, session and hash were received more than 24 hours apart |
| `IngestTheorems.LookupIsUnambiguous` | services/csv-ingest-worker/src/csv_ingest_worker/bronze.py:125-151 | at most one row of a key is in the window, so the lookup's order and limit never choose |
| `IngestTheorems.ProcessDid` | services/csv-ingest-worker/src/csv_ingest_worker/pipeline.py:113-217 | an attempt makes at most one durable row of its own event and at most one announcement of one unpublished RECEIVED row of its key, marked or not, and nothing else |
| `IngestTheorems.RowsOnlyMoveForward` | services/csv-ingest-worker/src/csv_ingest_worker/bronze.py:187-196 | over any run no row disappears, and a row changes only from RECEIVED to PUBLISHED |
| `IngestTheorems.FailedRowsStayFailed` | services/csv-ingest-worker/src/csv_ingest_worker/pipeline.py:264-295 | a FAILED row is never marked and no message ever names it |
| `IngestTheorems.RowOrigin` | services/csv-ingest-worker/src/csv_ingest_worker/pipeline.py:166-184 | every row a run adds records a delivered event and the size, hash and row count of the bytes downloaded for it; its trace id was read, never minted |
| `IngestTheorems.EnvelopeOrigin` | services/csv-ingest-worker/src/csv_ingest_worker/publisher.py:74-114 | every message's store, source, template, URI and codes come from one delivered event of its row's tenant and session |
| `IngestTheorems.EnvelopesMatchTheirRows` | services/csv-ingest-worker/src/csv_ingest_worker/publisher.py:74-114 | when deliveries of a session repeat the same event, every message also agrees with its row on store, source, template and URI |
| `IngestOutcomes.RejectedDelivery` | services/csv-ingest-worker/src/csv_ingest_worker/pipeline.py:330-378 | content not seen in 24 hours that preflight rejects leaves exactly one FAILED row, field by field, no message, and returns `preflight_failed`, for every fault of the insert |
| `IngestOutcomes.PiiDelivery` | services/csv-ingest-worker/src/csv_ingest_worker/pipeline.py:161-163 | a header with detected PII and no backend raises with table and topic unchanged |
| `IngestOutcomes.CleanDelivery` | services/csv-ingest-worker/src/csv_ingest_worker/pipeline.py:165-217 | any other header is stored; then, fault by fault, the row, the message and the mark that are left, and `ingested` exactly when all calls return |
| `IngestOutcomes.SettledRepeat` | services/csv-ingest-worker/src/csv_ingest_worker/pipeline.py:277-295 | content seen in 24 hours whose row failed or is published changes nothing and returns `duplicate_noop` with that row's trace and id |
| `IngestOutcomes.ResumedRepeat` | services/csv-ingest-worker/src/csv_ingest_worker/pipeline.py:297-328 | content whose row is still RECEIVED is announced under that row's trace, id and receive time and the incoming event's other fields, marked, and returns `duplicate_resumed` |
| `IngestOutcomes.BlankKeyIsTerminal` | services/csv-ingest-worker/src/csv_ingest_worker/bronze.py:92-118 | a blank key component changes nothing and is acknowledged |
| `IngestOutcomes.UnansweredIsRefused` | services/csv-ingest-worker/src/csv_ingest_worker/subscriber.py:70-72 | a failed download or lookup changes neither table nor topic and is not acknowledged |
| `IngestConvergence.PublishConservation` | services/csv-ingest-worker/src/csv_ingest_worker/pipeline.py:197-206 | for every row a run creates: publishes naming it = attempts in which a fault came after the publish took effect and before the mark committed, + 1 if the row is marked |
| `IngestConvergence.LostMarkLeavesUnmarked` | services/csv-ingest-worker/src/csv_ingest_worker/pipeline.py:197-206 | such a fault happened exactly when the attempt published the row and left it unmarked |
| `IngestConvergence.FaultFreeDeliverySettles` | services/csv-ingest-worker/src/csv_ingest_worker/pipeline.py:113-217 | from every state with the invariant, one fault-free delivery concludes its key if and only if the path and key checks pass and the bytes can settle, and the outcome names the concluded row |
| `IngestConvergence.SingleCharacterDeliverySettles` | services/csv-ingest-worker/src/csv_ingest_worker/preflight.py:39-44 | when every sniffed delimiter is one character, as the worker relies on, a fault-free delivery concludes its key if and only if its path agrees with it and a row of the key is in the window, or preflight rejects the bytes, or they clear the PII gate |
| `IngestConvergence.ConcludedKeyIsInert` | services/csv-ingest-worker/src/csv_ingest_worker/pipeline.py:264-295 | once concluded, a delivery of the key within the window changes neither table nor topic and returns the row's trace and id |
| `IngestConvergence.ConcludedKeyStaysInert` | services/csv-ingest-worker/src/csv_ingest_worker/pipeline.py:264-328 | the same after any further run of other events, faults and redeliveries, and a delivery whose lookup answers does return |
| `IngestConvergence.NoAckLosesData` | services/csv-ingest-worker/src/csv_ingest_worker/subscriber.py:51-74 | a well-formed message is acknowledged only for a path mismatch, a PII stop that wrote nothing, or a FAILED or published row of its key |
| `IngestConvergence.MarkedRowIsAnnounced` | services/csv-ingest-worker/src/csv_ingest_worker/pipeline.py:204-206 | in every run, a marked row has a message on the topic that names it |
| `IngestConvergence.AckedIsRefusedOrAnnounced` | services/csv-ingest-worker/src/csv_ingest_worker/subscriber.py:54-74 | in every run, an acknowledged well-formed message was refused for its path or by the PII gate, or its bytes failed preflight, or they are announced on the topic |
| `IngestConvergence.FaultFreeAckExactly` | services/csv-ingest-worker/src/csv_ingest_worker/subscriber.py:51-74 | a delivery without I/O faults is acknowledged if and only if it violates the contract, its path disagrees, the PII gate stops it, or its key settles; it is left undecided if and only if its parse raises anything else |
| `IngestConvergence.OwnPathPassesIff` | services/csv-ingest-worker/src/csv_ingest_worker/pipeline.py:221-262 | an event at the csv path built from its own identity passes the cross-check if and only if its source is trimmed, slash-free and newline-free; an untrimmed one is stripped by the builder and then refused as a mismatch |
| `IngestConvergence.CrossCheckPins` | services/csv-ingest-worker/src/csv_ingest_worker/pipeline.py:221-262 | an event that passes points into its own tenant's, source's and trace's csv path in the configured bucket |
| `IngestRefusals.OddDelimiterIsNeverAnnounced` | services/csv-ingest-worker/src/csv_ingest_worker/publisher.py:61 | in every run, whatever the faults, bytes whose delimiter is not one character are never announced and their rows stay RECEIVED and unmarked |
| `IngestRefusals.OddDelimiterRaisesEveryTime` | services/csv-ingest-worker/src/csv_ingest_worker/pipeline.py:297-313 | from every reachable state every delivery of such bytes raises, publishes nothing and marks nothing |
| `IngestRefusals.TwoCharacterDelimiterStrands` | services/csv-ingest-worker/src/csv_ingest_worker/pipeline.py:165-204 | an input on which a two-character sniff strands a file: bytes that pass preflight's own checks and the PII gate, a valid event at its own path; the fault-free first delivery writes its row and raises, as does every later one after any run |
| `IngestRefusals.UnreadablePathIsRefused` | services/csv-ingest-worker/src/csv_ingest_worker/pipeline.py:221-225 | an event is refused for its path's shape exactly when the URI does not split or its key does not parse, and then from every state, whatever fails, nothing changes and it is not acknowledged |
| `IngestRefusals.UnreadablePathsChangeNothing` | services/csv-ingest-worker/src/csv_ingest_worker/pipeline.py:119-120 | every run leaves the state it would leave without the deliveries of such events |
| `IngestRefusals.SchemelessUriIsRefused` | services/csv-ingest-worker/src/csv_ingest_worker/subscriber.py:51-72 | the failing input: a valid event whose URI has no scheme |
| `Ingest.ReadExactly` | services/csv-ingest-worker/src/csv_ingest_worker/envelope.py:60-94 | which bodies make an event, and which raise something other than a contract violation: JSON the loader gives up on, and a timestamp with no zone or no place in the UTC calendar |
| `Ingest.ValidEventIs` | services/csv-ingest-worker/src/csv_ingest_worker/envelope.py:26-58 | the contract on source, URI and upload session, spelled out |
| `IngestWorker.BronzeTable.Lookup` | services/csv-ingest-worker/src/csv_ingest_worker/bronze.py:103-151 | the query returns the most recent row of the key inside the window, or none |
| `IngestWorker.BronzeTable.Insert` | services/csv-ingest-worker/src/csv_ingest_worker/bronze.py:154-184 | the insert commits the row once, unless the call fails first or the id is taken |
| `IngestWorker.BronzeTable.Mark` | services/csv-ingest-worker/src/csv_ingest_worker/bronze.py:187-196 | the update stamps the named row of the tenant and no other |
| `IngestWorker.IngestPipeline.ProcessEvent` | services/csv-ingest-worker/src/csv_ingest_worker/pipeline.py:113-217 | the staged worker reaches the specified state and outcome on every attempt |
| `IngestWorker.IngestPipeline.Fresh` | services/csv-ingest-worker/src/csv_ingest_worker/pipeline.py:160-217 | PII gate, bronze write, publish and mark, in that order |
| `IngestWorker.IngestPipeline.Duplicate` | services/csv-ingest-worker/src/csv_ingest_worker/pipeline.py:264-328 | a concluded prior is a no-op; an unpublished one is re-sniffed, published and marked under its own identity |
| `IngestWorker.IngestPipeline.PublishThenMark` | services/csv-ingest-worker/src/csv_ingest_worker/pipeline.py:197-206 | publish precedes the mark, and a fault between them leaves the message without the mark |
| `IngestWorker.Route` | services/csv-ingest-worker/src/csv_ingest_worker/subscriber.py:54-74 | contract violations and terminal failures are acknowledged, every other processing failure is not, and any other parse exception leaves without a decision |
| `IngestWorker.PollOnce` | services/csv-ingest-worker/src/csv_ingest_worker/subscriber.py:121-146 | one pass processes the messages in order and sends both id lists; a parse exception that escapes ends the pass with both dropped |
| `IngestWorker.EveryIdDecidedOnce` | services/csv-ingest-worker/src/csv_ingest_worker/subscriber.py:121-146 | the two sent lists together hold every received ack id exactly as often as it was received if and only if no message of the batch stops the pass; else nothing is sent |
| `IngestWorker.AckedOrNackedNeverBoth` | services/csv-ingest-worker/src/csv_ingest_worker/subscriber.py:121-146 | with distinct ids, each id is in exactly one of the sent lists if and only if nothing stops the pass |
| `IngestWorker.WorkBeforeStopStays` | services/csv-ingest-worker/src/csv_ingest_worker/subscriber.py:127-129 | a stopped pass leaves exactly the state of the messages before the stop |
| `IngestWorker.ZonelessStopsThePass` | services/csv-ingest-worker/src/csv_ingest_worker/envelope.py:60-64 | the failing input: a received_ts with no zone, or one that leaves the calendar in UTC, anywhere in any batch, from any state, decides nothing |
| `IngestWorker.PollNeverLosesData` | services/csv-ingest-worker/src/csv_ingest_worker/subscriber.py:54-146 | at the end of a pass, stopped or not, every message it decided to acknowledge was refused for a terminal reason or has a concluded row of its key in the table |
| `Rls.ScopeIsTheSessions` | libs/dis-rls/src/dis_rls/session.py:137-189 | inside a session the policy reads the session's own scope, whatever the pooled connection carried before |
| `Rls.TenantNonInterference` | libs/dis-rls/src/dis_rls/session.py:116-157 | with postures that are safe whenever a session runs, two databases agreeing on a tenant's rows answer every adaptive sequence of that tenant's sessions alike if and only if the posture check admits the same sessions; they then still agree, and all other rows are kept |
| `Rls.OneCheckSufficesIff` | libs/dis-rls/src/dis_rls/session.py:130-132 | in a fresh process every session that runs has a safe posture if and only if no engine turns unsafe after a safe use |
| `Rls.TenantsAreIsolated` | libs/dis-rls/src/dis_rls/session.py:14-17 | then, whatever unsafe sessions try to open, isolation holds without further conditions |
| `Rls.AlteredRoleEscapes` | libs/dis-rls/src/dis_rls/session.py:130-132 | the failing input: a role made superuser or bypassing after its engine's first use is not checked again and empties the table |
| `Rls.SessionWritesScoped` | alembic/versions/0011_two_guc_platform_rls.py:111-121 | over any session kind whose role does not bypass the policy, a row image that is new carries the acted-for tenant, and other tenants gain no row |
| `Rls.NoTenantChangesOnlyByDelete` | alembic/versions/0011_two_guc_platform_rls.py:111-121 | a statement of a PLATFORM session with no tenant changes the table if and only if it deletes a visible row; inserts and updates are refused |
| `Rls.NoTenantSessionChangesOnlyByDelete` | libs/dis-rls/src/dis_rls/session.py:161-189 | a whole such session changes the table if and only if it commits a DELETE of some row |
| `Rls.NoTenantDeleteReachesEveryone` | libs/dis-rls/src/dis_rls/session.py:161-189 | such a session can delete the rows of every tenant |
| `Rls.ImpersonationCanTakeOver` | alembic/versions/0011_two_guc_platform_rls.py:111-121 | an impersonating session can rewrite another tenant's row into its own tenant |
| `Rls.ImpersonationKeepsOthersIff` | libs/dis-rls/src/dis_rls/session.py:172-173 | an impersonating statement keeps every other tenant's rows if and only if it is neither a DELETE nor an admitted UPDATE that targets one of them |
| `Rls.StatementKeepsOutsideIff` | alembic/versions/0011_two_guc_platform_rls.py:111-121 | the same under every scope: rows foreign to it are kept exactly when no such statement touches one, and otherwise there are fewer |
| `Rls.SessionKeepsOutsideIff` | libs/dis-rls/src/dis_rls/session.py:116-189 | over every session kind and caller, rows of tenants the session does not act for are kept if and only if it commits no such statement |
| `Rls.WhoCanTrespass` | alembic/versions/0011_two_guc_platform_rls.py:111-121 | a tenant scope never can, and the scope with no tenant can exactly by a DELETE that targets a row |
| `Rls.PlatformReadsSeeAll` | alembic/versions/0011_two_guc_platform_rls.py:111-121 | a PLATFORM read returns every row of every tenant, in order |
| `Rls.TenantReadsSeeOwn` | libs/dis-rls/src/dis_rls/session.py:137-157 | a tenant read returns that tenant's rows, all of them and no others |
| `Rls.InsertedRowsAreRead` | alembic/versions/0011_two_guc_platform_rls.py:111-121 | a tenant reads back what it inserts after what it had; one foreign row image refuses the whole insert |
| `Rls.NoScopeOutsideSessions` | libs/dis-rls/src/dis_rls/session.py:116-189 | after any sequence of sessions the pooled connection has no scope: a statement outside a session reads, changes and inserts nothing |
| `Rls.PolicyIs` | alembic/versions/0011_two_guc_platform_rls.py:111-121 | the two halves of the policy, spelled out |
| `Rls.SelectAndDeleteExactly` | alembic/versions/0011_two_guc_platform_rls.py:111-121 | under every scope, a SELECT returns and a DELETE removes exactly the visible rows that match, each as often as it is there |
| `Rls.UpdateExactly` | alembic/versions/0011_two_guc_platform_rls.py:111-121 | under every scope, an UPDATE is admitted if and only if every new image carries the scope's tenant, and then rewrites exactly the visible rows that match, in place |
| `Rls.InsertExactly` | alembic/versions/0011_two_guc_platform_rls.py:111-121 | under every scope, an INSERT appends its images if and only if each carries the scope's tenant |
| `Rls.OneStatementSession` | libs/dis-rls/src/dis_rls/session.py:116-189 | a session of one statement commits its effect and returns its reply, unless the policy refuses it or the caller fails |
| `Rls.StatementsRunOnCheckedEngines` | libs/dis-rls/src/dis_rls/session.py:72-134 | every session that runs at all runs on an engine that, then or earlier, reached `ithina_dis_db` as a role that is neither superuser nor bypassing |
| `Rls.FirstUseIsChecked` | libs/dis-rls/src/dis_rls/session.py:80-94 | the first session on an engine runs if and only if its database is `ithina_dis_db` and its role is neither superuser nor bypassing; otherwise it is refused and nothing changes |
| `Rls.LaterUseIsNotChecked` | libs/dis-rls/src/dis_rls/session.py:130-132 | a session on an engine verified earlier always runs |
| `Rls.Database.WithSession` | libs/dis-rls/src/dis_rls/session.py:116-189 | check on first use, scope, statements, commit or rollback, and the settings end with the transaction |
| `TemplateVersions.FilteredMaxIsTrueMax` | alembic/versions/0005_source_mappings_template_grain_rls.py:98-121 | for every insert that passes WITH CHECK the filtered MAX is the unfiltered one |
| `TemplateVersions.ForeignLineageLooksEmpty` | alembic/versions/0005_source_mappings_template_grain_rls.py:98-105 | a tenant session sees no version of another tenant's lineage |
| `TemplateVersions.SetVersionSeq` | alembic/versions/0005_source_mappings_template_grain_rls.py:106-121 | the trigger keeps an explicit version; otherwise its number is free and its predecessor is taken |
| `TemplateVersions.CommitDense` | alembic/versions/0005_source_mappings_template_grain_rls.py:257-263 | committing rows whose keys are free keeps every lineage dense |
| `TemplateVersions.LineagesStayDense` | alembic/versions/0005_source_mappings_template_grain_rls.py:98-121 | over any interleaving of sessions, a version is committed once if and only if it lies in 1..max |
| `TemplateVersions.CommitDoes` | alembic/versions/0005_source_mappings_template_grain_rls.py:257-263 | a commit adds exactly its transaction's rows, in order, if and only if their keys are free, and touches nothing else |
| `TemplateVersions.InsertDoes` | alembic/versions/0005_source_mappings_template_grain_rls.py:106-121 | an insert for the session's tenant extends its transaction by one row, with the number it names or the next one; one for another tenant ends it |
| `TemplateVersions.BeginAndAbortDo` | alembic/versions/0005_source_mappings_template_grain_rls.py:98-121 | beginning opens an empty transaction and aborting drops one |
| `TemplateVersions.UncontendedInsertCommits` | alembic/versions/0005_source_mappings_template_grain_rls.py:106-121 | begin, insert and commit with nobody in between add the lineage's next version and raise its maximum by one |
| `TemplateVersions.SecondOfTwoIsRefused` | alembic/versions/0005_source_mappings_template_grain_rls.py:257-263 | of two sessions that read the same maximum, the first to commit gets the number and the second is refused |
| `TemplateVersions.ExplicitVersionMustBeNext` | alembic/versions/0005_source_mappings_template_grain_rls.py:106-121 | an explicit version keeps the lineage dense if and only if it is the next one |
| `TemplateMigration.BackfillKeys` | alembic/versions/0005_source_mappings_template_grain_rls.py:230-285 | the backfilled rows meet the three template-grain constraints if and only if the rows met the old keys |
| `TemplateMigration.BackfillIsPerSource` | alembic/versions/0005_source_mappings_template_grain_rls.py:235-248 | each row keeps what it was and is named `default`, and two rows share a template if and only if they are of one tenant and one source |
| `TemplateMigration.KeysMean` | alembic/versions/0005_source_mappings_template_grain_rls.py:253-285 | the old and the new keys of two rows, spelled out |
| `TemplateMigration.KeysArePairwise` | alembic/versions/0005_source_mappings_template_grain_rls.py:253-285 | the keys hold of a table exactly when they hold of every two of its rows |
| `TemplateMigration.SchemasAre` | alembic/versions/0005_source_mappings_template_grain_rls.py:222-305 | what the schema has before and after |
| `TemplateMigration.DowngradeUndoesBackfill` | alembic/versions/0005_source_mappings_template_grain_rls.py:417-418 | dropping the columns restores the rows before the backfill |
| `TemplateMigration.GuardIsExact` | alembic/versions/0005_source_mappings_template_grain_rls.py:368-398 | over the rows they range over, the three counts are all zero if and only if the old keys hold and every source has one template |
| `TemplateMigration.SeenAllOrNone` | schemas/postgres/00_bootstrap/roles.sql:47-51 | a migration role that does not bypass forced row-level security sees no row, any other sees all |
| `TemplateMigration.GuardMeansWhatItSays` | alembic/versions/0005_source_mappings_template_grain_rls.py:365-398 | the guard means the old keys and one template per source if and only if its role sees every row or the table passes anyway |
| `TemplateMigration.GuardReducesToTemplates` | alembic/versions/0005_source_mappings_template_grain_rls.py:371-391 | on valid tables only the multi-template count decides, and only for a role that sees the rows |
| `TemplateMigration.WhoDecidesTheDowngrade` | alembic/versions/0005_source_mappings_template_grain_rls.py:368-415 | for a role that sees the rows the guard alone decides and the re-added keys cannot fail; for one that does not the old keys alone decide, and templates are lost exactly when a source has several and those keys hold |
| `TemplateMigration.BlindDowngradeLosesATemplate` | alembic/versions/0005_source_mappings_template_grain_rls.py:368-418 | the failing table: two templates of one source at versions 1 and 2 downgrade under such a role |
| `TemplateMigration.BlindDowngradeFailsLate` | alembic/versions/0005_source_mappings_template_grain_rls.py:368-415 | with one version number in both, that role passes the guard and fails on a key |
| `TemplateMigration.SourceMappings.Upgrade` | alembic/versions/0005_source_mappings_template_grain_rls.py:222-305 | from any schema and role, succeeds exactly when the backfill reaches every row and the rows then meet the new constraints, else leaves no trace; a backfilled row is the old one with its source's template and the name `default` |
| `TemplateMigration.SourceMappings.Rekey` | alembic/versions/0005_source_mappings_template_grain_rls.py:253-305 | on a table with the columns, steps 3 to 8 succeed exactly when the three template-grain constraints hold |
| `TemplateMigration.SourceMappings.Downgrade` | alembic/versions/0005_source_mappings_template_grain_rls.py:365-418 | guard over the rows the role sees, then the old keys over every row; on any refusal nothing changes |
| `TemplateMigration.UpgradeThenDowngrade` | alembic/versions/0005_source_mappings_template_grain_rls.py:222-418 | upgrade then downgrade, whatever the roles see, restores rows and schema |
| `NaturalKey.CoalesceInjective` | alembic/versions/0004_hot_natural_key_arbitration.py:142-147 | COALESCE tells the values of a set apart if and only if the set lacks NULL or '' |
| `NaturalKey.IndexMeansKey` | alembic/versions/0004_hot_natural_key_arbitration.py:136-147 | under the CHECKs, index uniqueness is NULLS NOT DISTINCT uniqueness |
| `NaturalKey.EmptyCollidesWithNull` | alembic/versions/0004_hot_natural_key_arbitration.py:105-126 | without them, NULL and '' are two keys with one index entry |
| `NaturalKey.CountMeansWhatItSays` | alembic/versions/0004_hot_natural_key_arbitration.py:105-126 | the precondition's count finds the empty segments if and only if its role bypasses row-level security or there are none |
| `NaturalKey.UniquenessNeverFails` | alembic/versions/0004_hot_natural_key_arbitration.py:142-172 | creating the index and restoring the constraint cannot fail |
| `NaturalKey.UniquenessNeverLapses` | alembic/versions/0004_hot_natural_key_arbitration.py:129-174 | across any run of steps, interruptions, rollbacks and inserts some uniqueness guard exists, the index has both CHECKs, and no key occurs twice |
| `NaturalKey.KeysMean` | alembic/versions/0004_hot_natural_key_arbitration.py:142-171 | the natural key and the index entry of two rows, spelled out |
| `NaturalKey.InsertAcceptedIff` | alembic/versions/0004_hot_natural_key_arbitration.py:129-174 | before, during and after the migration a row is accepted if and only if its key is not taken and no present CHECK forbids its segments |
| `NaturalKey.WholeUpgrade` | alembic/versions/0004_hot_natural_key_arbitration.py:129-150 | run to its end on filled segments, the upgrade trades the constraint for the index and both CHECKs |
| `NaturalKey.WholeDowngrade` | alembic/versions/0004_hot_natural_key_arbitration.py:164-174 | and the downgrade trades them back |
| `NaturalKey.RollbackRestores` | alembic/versions/0004_hot_natural_key_arbitration.py:129-174 | a migration that fails in its transaction leaves the table it found, however far it got |
| `NaturalKey.PositionTable.Upgrade` | alembic/versions/0004_hot_natural_key_arbitration.py:105-150 | refused exactly when the index is missing and an empty segment is present, by the precondition or, for a role that does not see the rows, by a CHECK; otherwise index and CHECKs replace the constraint |
| `NaturalKey.PositionTable.Downgrade` | alembic/versions/0004_hot_natural_key_arbitration.py:164-174 | always succeeds and leaves the old constraint alone |
| `Uuids.UuidOfCanonical` | libs/dis-storage/src/dis_storage/paths.py:63-76 | reading a canonical UUID text gives it back |
| `Uuids.UuidInAnyCase` | libs/dis-storage/src/dis_storage/paths.py:63-76 | capitals read as their lower case |
| `Uuids.UuidWithoutHyphens` | libs/dis-storage/src/dis_storage/paths.py:63-76 | so does the text without hyphens, in any letter case |
| `Uuids.TooShortForUuid` | libs/dis-storage/src/dis_storage/paths.py:63-76 | fewer than thirty-two characters are refused |
| `ObjectPath.ParseIffSpelled` | libs/dis-storage/src/dis_storage/paths.py:125-162 | the parser accepts exactly the grammar, with the one reading it has |
| `ObjectPath.BuildExactly` | libs/dis-storage/src/dis_storage/paths.py:79-122 | which inputs are refused and why, and the path of any others, character by character |
| `ObjectPath.UriIsNoPath` | libs/dis-storage/src/dis_storage/paths.py:125-140 | a text is refused as a full URI exactly when it starts with the scheme |
| `ObjectPath.ParseBuilt` | libs/dis-storage/src/dis_storage/paths.py:79-162 | parsing a built path returns the normalised inputs and UTC date if and only if no written component holds a slash and the extension no dot |
| `ObjectPath.BuildParsed` | libs/dis-storage/src/dis_storage/paths.py:79-162 | building from a parsed path with a real date returns its text if and only if the components are trimmed |
| `ObjectPath.SplitUriJoined` | libs/dis-storage/src/dis_storage/paths.py:165-182 | a full URI splits back into its bucket and key |
| `ObjectPath.SplitUriExactly` | libs/dis-storage/src/dis_storage/paths.py:38-41 | the splitter accepts exactly `gs://bucket/key` with a bucket of lower-case letters, digits and hyphens and a one-line key |
| `Multipart.CutsDoNotMatter` | services/dis-ui-server/src/dis_ui_server/upload_stream.py:85-163 | from any state, streams that differ only in how adjacent callbacks are cut end in the same state or the same error class |
| `Multipart.FusedDoesTheSame` | services/dis-ui-server/src/dis_ui_server/upload_stream.py:85-163 | joining every run of adjacent fragments changes nothing |
| `Multipart.PartInSteps` | services/dis-ui-server/src/dis_ui_server/upload_stream.py:96-163 | a whole part is its header table, then its data, then its end |
| `Multipart.DataOutcome` | services/dis-ui-server/src/dis_ui_server/upload_stream.py:132-147 | the fragments of an open part fill its buffer, or are refused exactly when together they exceed the file or text bound |
| `Multipart.PartOutcome` | services/dis-ui-server/src/dis_ui_server/upload_stream.py:96-163 | the callbacks of a whole part do what reading the part at once does: repeats, sizes and decoding decide the error class, a known part adds exactly its bytes |
| `MultipartParts.PartReads` | services/dis-ui-server/src/dis_ui_server/upload_stream.py:96-163 | what one part does to the upload, told from its Content-Disposition parameters and its data: file, field or nothing, and which error |
| `MultipartParts.OrdinaryFilePart` | services/dis-ui-server/src/dis_ui_server/upload_stream.py:96-117 | a part whose one header, in any letter case, is Content-Disposition with the file's name and a filename becomes the file, with that filename |
| `Multipart.StreamOutcome` | services/dis-ui-server/src/dis_ui_server/upload_stream.py:60-163 | the collector on any well-formed stream is the part-by-part reading of it, result and error class |
| `Multipart.TailOutcome` | services/dis-ui-server/src/dis_ui_server/upload_stream.py:96-147 | a part that breaks off contributes nothing, and fails exactly when it repeats a part or is too large |
| `Multipart.CutStreamOutcome` | services/dis-ui-server/src/dis_ui_server/upload_stream.py:60-163 | the collector on a stream that breaks off anywhere is the reading of its whole parts |
| `Multipart.PrefixIsPartsAndTail` | services/dis-ui-server/src/dis_ui_server/upload_stream.py:211-225 | every prefix of a well-formed stream is some whole parts and one such remainder |
| `Multipart.StreamKeepsFile` | services/dis-ui-server/src/dis_ui_server/upload_stream.py:101-154 | between any two prefixes of a well-formed stream completed file data is final, and it is within the limit |
| `Multipart.UnknownPartsDoNotMatter` | services/dis-ui-server/src/dis_ui_server/upload_stream.py:121-134 | erasing every unknown part changes neither file bytes, filename, fields nor the error class |
| `Multipart.UnknownPartsDoNotMatterWhenCut` | services/dis-ui-server/src/dis_ui_server/upload_stream.py:121-134 | the same for a stream that breaks off, an unfinished unknown part included |
| `Multipart.DataAltersFileIff` | services/dis-ui-server/src/dis_ui_server/upload_stream.py:132-153 | a data callback rewrites completed file data if and only if that data is still the open part's buffer and bytes arrive |
| `Multipart.LateHeadersAlterFile` | services/dis-ui-server/src/dis_ui_server/upload_stream.py:96-153 | the failing stream, from the empty collector: a whole file part, headers naming a text part with no part begin, then data, which the completed file grows by |
| `MultipartReader.MultipartCollector.OnPartBegin` | services/dis-ui-server/src/dis_ui_server/upload_stream.py:128-130 | a new part starts on a fresh buffer, which ends any sharing with completed file data |
| `MultipartReader.MultipartCollector.OnHeadersFinished` | services/dis-ui-server/src/dis_ui_server/upload_stream.py:96-124 | a repeated file or text part is refused, an unknown one is drained |
| `MultipartReader.MultipartCollector.OnPartData` | services/dis-ui-server/src/dis_ui_server/upload_stream.py:132-147 | data goes to the open part's buffer in place, under the file or text bound |
| `MultipartReader.MultipartCollector.OnPartEnd` | services/dis-ui-server/src/dis_ui_server/upload_stream.py:149-163 | the file part's buffer becomes the file data itself; a text part must decode |
| `MultipartReader.MultipartCollector.Write` | services/dis-ui-server/src/dis_ui_server/upload_stream.py:197-224 | the mutable collector, fed any callbacks, ends where the value model does, or raises the same error |
| `MultipartReader.ReadCsvUpload` | services/dis-ui-server/src/dis_ui_server/upload_stream.py:166-239 | the header checks come first; what reaches the parser is a prefix of the body within the ceiling; the outcome is that of the chunk fold |
| `MultipartReader.ChunkingDoesNotMatter` | services/dis-ui-server/src/dis_ui_server/upload_stream.py:211-239 | within the ceiling the outcome depends only on the concatenated stream |
| `MultipartReader.UploadIsItsParts` | services/dis-ui-server/src/dis_ui_server/upload_stream.py:166-239 | any chunking, within the ceiling, of a body of whole parts and perhaps an unfinished one gives what reading the whole parts gives, or the unfinished part's own error; an accepted file is within its limit |
| `MultipartParts.AcceptedUploadHolds` | services/dis-ui-server/src/dis_ui_server/upload_stream.py:166-239 | an accepted upload holds the data and filename of the one part named as the file, and as each field the decoded data of a part of that name; every text part is there and not blank |
| `MultipartParts.EveryFieldPartIsHeld` | services/dis-ui-server/src/dis_ui_server/upload_stream.py:113-156 | every part named as a text part is held, and is the only one of its name |
| `MultipartReader.OverCeilingIsRefused` | services/dis-ui-server/src/dis_ui_server/upload_stream.py:211-224 | a body over the ceiling is never accepted, however it is cut |
| `MultipartReader.FinishRead` | services/dis-ui-server/src/dis_ui_server/upload_stream.py:227-239 | accepted exactly when the file and every required text part are there and not blank |
| `Provenance.AcceptsExactlyPartitions` | libs/dis-validation/src/dis_validation/provenance.py:292-337 | the check accepts if and only if every field is in exactly one set and nothing else is in any |
| `Provenance.FirstOverlapIsFirst` | libs/dis-validation/src/dis_validation/provenance.py:308-317 | the nested search finds the earliest overlapping pair, or there is none |
| `Provenance.RefusalNamesTheColumns` | libs/dis-validation/src/dis_validation/provenance.py:308-337 | a refusal names exactly the columns at fault |
| `Gates.TypedGateAcceptsExactly` | services/dis-ui-server/src/dis_ui_server/mapping_validation.py:217-230 | the typed gate accepts exactly the admissible templates of the type's model, unchanged, and refuses unknown types as such |
| `Gates.TemplateTypesAre` | libs/dis-validation/src/dis_validation/template_types.py:34-64 | the three template types and the model each writes |
| `Gates.TypedGateRefusal` | services/dis-ui-server/src/dis_ui_server/mapping_validation.py:172-230 | what a refusal says, in the order of the checks, with the columns at fault |
| `Gates.TargetsAre` | libs/dis-mapping/src/dis_mapping/models/source_mapping.py:53-60 | a template's targets are what its renames and derivations name |
| `Gates.PairingsMean` | services/dis-ui-server/src/dis_ui_server/mapping_validation.py:153-203 | promo_identifier needs promo_price, and the expiry triple is all or none |
| `Gates.GateClosure` | libs/dis-validation/src/dis_validation/canonical_shape.py:163-211 | an accepted template with the registered enrichment covers every required source-owned column and builds a suite over exactly the contribution's columns if and only if the enrichment registry closes over the model |
| `Gates.MaterializeExactly` | libs/dis-validation/src/dis_validation/canonical_shape.py:171-205 | a suite is built if and only if the provenance is sound, some column is owned, all are source-owned, and no check names another |
| `Gates.RegisteredProvenanceCloses` | libs/dis-validation/src/dis_validation/provenance.py:74-261 | whatever the models' fields, the registered provenance closes under the registered enrichment |
| `Gates.RegisteredFields` | libs/dis-enrichment/src/dis_enrichment/registry.py:41-63 | the registry enriches currency and tax_treatment on the current position, and nothing on any other table or model |
| `Gates.SnapshotGatesAgree` | services/streaming-consumer/src/streaming_consumer/pipeline/mapping.py:124-196 | among legal templates, the create-time gate accepts a snapshot exactly when the write-time gate lets it create rows |
| `Gates.UntypedNarrowsTyped` | services/dis-ui-server/src/dis_ui_server/mapping_validation.py:98-111 | the untyped gate accepts for a model what the typed gate accepts, less what the other event model could hold too |
| `Gates.RouteRefusal` | services/dis-ui-server/src/dis_ui_server/mapping_validation.py:98-111 | the untyped gate refuses a template that fits neither event model or both, and says how many |
| `Gates.GatesAgreeExactlyWhen` | services/dis-ui-server/src/dis_ui_server/mapping_validation.py:98-144 | the gates agree on an event model if and only if its mandatory columns are not all the other's (or the two share none) |
| `Gates.UntypedIsEitherTyped` | services/dis-ui-server/src/dis_ui_server/mapping_validation.py:206-230 | then the untyped gate accepts exactly when one, and only one, typed gate does |
| `Gates.RegisteredGatesAgree` | libs/dis-validation/src/dis_validation/provenance.py:154-261 | with the registered provenance this holds as soon as each event model requires its own timestamp |
| `DecimalPrecheck.Precheck` | libs/dis-validation/src/dis_validation/runner.py:90-133 | one type failure per affected column, in order, and exactly the affected columns neutralised |
| `DecimalPrecheck.SynthesisedExactly` | libs/dis-validation/src/dis_validation/runner.py:110-129 | the synthesised cases are exactly one per present column declared Decimal with data of another type, naming the column and both types |
| `DecimalPrecheck.RunCanonicalShape` | libs/dis-validation/src/dis_validation/runner.py:136-183 | the run always has a verdict, reports the synthesised cases first, and passes exactly when nothing is reported |
| `DecimalPrecheck.ReportedExactly` | libs/dis-validation/src/dis_validation/runner.py:143-182 | a reported case is a synthesised one, or one of the presence check, of an unaffected column or of the cross-field checks, and all of those are reported |
| `DecimalPrecheck.UnguardedCrashesWhenAffected` | libs/dis-validation/src/dis_validation/runner.py:95-106 | unguarded, the library crashes on exactly the frames with an affected column |
| `DecimalPrecheck.NeutralisedNeverCrashes` | libs/dis-validation/src/dis_validation/runner.py:127-133 | after the pre-check it is never run on such a column |
| `DecimalPrecheck.UnaffectedKeepNativeCases` | libs/dis-validation/src/dis_validation/runner.py:110-133 | the unaffected columns keep exactly their native cases, in order |
| `DecimalPrecheck.VerdictIsIdeal` | libs/dis-validation/src/dis_validation/runner.py:136-183 | the run passes if and only if any repair of the library passes |
| `DecimalPrecheck.CasesAreIdeal` | libs/dis-validation/src/dis_validation/runner.py:136-183 | against the native repair it reports the same cases, each as often, the synthesised ones first |
| `DecimalPrecheck.MissingIsNeverSynthesised` | libs/dis-validation/src/dis_validation/runner.py:112-116 | missing columns and Decimal data are left to the library |
| `DecimalPrecheck.SynthesisedFormat` | libs/dis-validation/src/dis_validation/failure_formatter.py:104-148 | a synthesised case reads downstream as a whole-column failure of the type check |
| `DecimalPrecheck.FormatIs` | libs/dis-validation/src/dis_validation/failure_formatter.py:104-148 | how each kind of case reads downstream |

## Left out

- Two ingest workers at once: the repository documents that the dedup lookup is not safe there.
- Audit emission, logging, heartbeats, configuration loading and the Pub/Sub, storage and signed-URL clients: they do not touch the modelled state.
- The bronze table's column widths and foreign keys: a violation is one of the insert's faults.
- The envelope parser's single field checks: an object's fields other than `received_ts` either make an event or do not; which JSON texts the loader gives up on.
- Failures of the acknowledge and deadline calls at the end of a pass, and cancellation of the worker itself: the lists are what the pass sends.
- The error details (`detail`, `part`, byte counts, tenant ids on errors) and the wording of failure reasons.
- `UUID()` extras that Python's `int(…, 16)` allows, such as underscores, signs and non-ASCII digits; time-zone arithmetic in object paths (a timestamp carries its UTC date).
- Non-ASCII digits in a declared Content-Length; the final `parser.finalize()` call, which raises nothing and calls nothing back.
- The multipart tokeniser: any tokeniser whose chunk boundaries only cut callbacks is covered.
- Generated primary keys and foreign keys of tenant tables, malformed tenant text given to a session, what a session would do on another database than the expected one, and the `audit.events` policy, whose rule differs from the other tables'.
- Comments, extension creation and the target-database guard of the migrations; the label view itself.
- The mapping document's normalise, cast and derive arguments: they are part of whether a document parses.
- `Gates.GateClosure`: covers the owned-column checks of suite building, not the derivation of a column's type from a model field.
- The canonical models' field lists: they are parameters, so that the provenance registered for the three models partitions them is a hypothesis of the gate lemmas.
- The mapping and enrichment engines, the canonical write sink, the remaining migrations and the user interface.

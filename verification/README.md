# QuackGIS verification

A Dafny 4.11 model of the parts of QuackGIS whose correctness is hardest to see by reading, with proofs of what
they promise. `dafny verify dfyconfig.toml` checks everything.

- **Maintained bounding boxes** (`Sql`, `BboxLayout`, `BboxQuery`, `BboxMaintenance`). SQL expressions with
  three-valued evaluation, tables with the four reserved `_qg_` columns, the rewrites of COPY, UPDATE and INSERT that
  keep those columns equal to the extent of the geometry, and the SELECT rewrite that relies on them. The main
  result joins the two: after any history, rewritten queries answer as written.
- **Sessions, drain and cancellation** (`Lifecycle`, `Session`, `Storage`, `Cancellation`). Interleaved machines for
  the drain protocol, the connection of each session and the cancel handle, and the methods themselves with every
  native call free to fail.
- **REST schema cache** (`SchemaDiscovery`, `SchemaCache`). Concurrent calls, database changes and reconnects.
- **Compression framing** (`Bytes`, `Lz4`, `Compression`). Encoder, decoder, truncation, counters and back-off, over
  a small decoder of the LZ4 Block Format.
- **PostGIS spelling rewriter** (`Ascii`, `Sequences`, `SpatialCompat`, `DollarQuotes`). The scanner loops, proved
  against a token-level specification, and what becomes of dollar-quoted literals.
- **Migration** (`Checksum`, `MigrationConfig`, `MigrationPlan`, `Preflight`, `Staging`, `StagingExample`,
  `MigrationRun`). The order-independent checksums, configuration and preflight, staging and its undoing, and the run
  with its reports.
- **Admission and replay** (`Counting`, `Admission`, `WorkerPool`, `NonceCache`).

Code that updates state is a class or a method with loops. Code that many tasks run at once is a machine whose steps
are the atomic operations of the source, in any order. What lies outside QuackGIS is a parameter or a step of the
environment, with every assumption written as a hypothesis:

- `Spatial(e)`: spatial functions return NULL when an argument is NULL, an intersection that is TRUE implies that both
  extents exist and overlap, and the extent is a function of the geometry value.
- `Relocated`: volatile functions draw the same values in the rewritten WHERE.
- `Correct(compress)`: the LZ4 compressor's output decodes to its input.
- `CollisionFree(x, hist)`: the schema revision hash tells apart the revisions that the roles read from the database
  states of the run, and from no others. Epochs grow with every visible change (`Grows`).
- `Scans`: a table scan has one entry per column, which `Checksum.ChecksumTable` proves of the scan itself.
- Atomics are sequentially consistent.

## What turned out differently

- The header comment of `crates/quackgis-server/src/spatial_compat.rs` (line 5) says that dollar-quoted bodies are
  left alone. For a tagged quote the code does not see a quote at all: `$` continues an identifier (line 159), so the
  scan for the tag runs over the closing `$` and the body is scanned as SQL. The model follows the code. A literal at
  the start of a text is copied and what follows it rewritten on its own, whatever follows, exactly when its tag is
  empty (`DollarQuotes.AlwaysLeftAloneIff`). In front of text that does not continue a word, a tagged literal is left
  alone exactly when it holds no mapped call and ends on a token boundary, as the scanner sees it
  (`DollarQuotes.SeparatedLeftAloneIff`); `DollarQuotes.LeftAloneIff` is the condition for any two texts. It fails in
  two ways: `$t$ ST_SRID(g)$t$` is changed (`DollarQuotes.TaggedLiteralIsChanged`), and in `$t$'$t$ ST_SRID(g)` the
  call after the literal is not rewritten (`DollarQuotes.CallAfterLiteralIsSwallowed`).
- The active-transaction counter does not always return to zero. A session that loses its connection inside a
  transaction without a word keeps its count when it is closed. That happens when an update or ingest operation is
  dropped unexecuted, when an ingest does not find the schema of its table, when a stream has taken the connection and
  does not get the catalog guard, and when the work of an update, ingest, stream or write probe panics.
  `Session.ClosedSessionsLeak` counts such events of the run: the counter returns to zero exactly when there is none.
  `Session.ClosedSessionLeaks` and `Session.ClosedStreamLeaks` are runs.
- A native cancel can reach an operation it was not meant for. Only an update closes its cancel handle, and not when it
  fails to leave autocommit. `Cancellation.StrayCancelIff` says exactly when, for every kind of operation: once the
  connection is back, for an update that closed its handle if a canceller was between its second look and its call,
  and otherwise if a canceller holds the handle at all or can still find it. `Cancellation.CancelComesLate` is such a
  run of an update and `Cancellation.CancelComesAfterStream` one of a stream that ended without any request.
  `Cancellation.StrayCancelComesFrom` names the ends that leave such a cancel behind; an update that is kept does not.
- `release_plan` looks tables up by the text `schema.table`, which is not unique when names contain dots. It then
  refuses a run that was staged and verified. `Staging.ReleaseUndoesStaging` gives the exact condition and
  `StagingExample.ExampleIsNotReleased` a configuration, an inventory and transfers.
- A released report's grants still name the staged tables exactly when a source grant is mapped:
  `Staging.GrantsKeepStagedNames`, with `StagingExample.ExampleKeepsStagedGrant` an input.

## Model

| member | source | states |
|---|---|---|
| Sql.KnownByName | crates/quackgis-server/src/duckdb_adbc_storage.rs:2189-2200 | a plain call spelled like a spatial function denotes that function and no other |
| Sql.EvalRelocated | crates/quackgis-server/src/duckdb_adbc_storage.rs:2006-2022 | putting a WHERE under a new AND does not change its value, volatile parts included |
| Sql.AndSurvivesPrinting | crates/quackgis-server/src/duckdb_adbc_storage.rs:2006-2022 | the WHERE has the same value when its AND is read back from text associated to the left, volatile parts included |
| BboxLayout.AccessorExprMeaning | crates/quackgis-server/src/duckdb_adbc_storage.rs:1742-1752 | a generated accessor computes the bound of the geometry, and NULL for NULL |
| BboxQuery.ProbeIsStable | crates/quackgis-server/src/duckdb_adbc_storage.rs:2171-2264 | a probe the classifier accepts has one value: on every row, at every place, whatever the volatile part of the engine does |
| BboxQuery.MandatoryPredicatesTrue | crates/quackgis-server/src/duckdb_adbc_storage.rs:2107-2149 | a WHERE that is TRUE in three-valued logic makes every collected intersection TRUE |
| BboxQuery.CandidateMeansOverlap | crates/quackgis-server/src/duckdb_adbc_storage.rs:2266-2292 | on a row with exact reserved columns the candidate is TRUE exactly when the extents of geometry and probe overlap |
| BboxQuery.CandidateKeepsRow | crates/quackgis-server/src/duckdb_adbc_storage.rs:2006-2022 | row by row, the rewritten WHERE is TRUE exactly when the original is |
| BboxQuery.CandidateKeepsSelection | crates/quackgis-server/src/duckdb_adbc_storage.rs:2006-2022 | over all rows of the table, candidate AND exact selects the same rows in the same order as exact |
| BboxQuery.RewritePreservesAnswer | crates/quackgis-server/src/duckdb_adbc_storage.rs:1975-2105 | a single-table query is refused exactly when its target has an inconsistent layout, and otherwise sent unchanged or with another WHERE that gives every continuation of the query the same answer |
| BboxQuery.ReadBackPreservesAnswer | crates/quackgis-server/src/duckdb_adbc_storage.rs:1975-2022 | the same for the query that the engine reads from the printed text, whose AND is associated to the left |
| BboxMaintenance.InspectAssignment | crates/quackgis-server/src/duckdb_adbc_storage.rs:2370-2411 | one assignment is accepted exactly when it is admissible given whether the geometry was already assigned |
| BboxMaintenance.RewriteUpdate | crates/quackgis-server/src/duckdb_adbc_storage.rs:2365-2437 | the UPDATE is refused exactly when its assignment list is inadmissible, and otherwise sent with the four generated assignments appended when it assigns the geometry |
| BboxMaintenance.UpdateKeepsExact | crates/quackgis-server/src/duckdb_adbc_storage.rs:2365-2453 | an admitted UPDATE, tuple assignments included, leaves the four reserved columns of a row equal to the extent of its geometry |
| BboxMaintenance.UpdateKeepsWrittenColumns | crates/quackgis-server/src/duckdb_adbc_storage.rs:2365-2437 | outside the reserved columns the UPDATE that is sent does what the one written does |
| BboxMaintenance.CopyFields | crates/quackgis-server/src/pgwire_server/duckdb.rs:7185-7196 | COPY has input fields exactly when every named column exists, and they are fields of the target |
| BboxMaintenance.CopyKeepsExact | crates/quackgis-server/src/duckdb_adbc_storage.rs:1660-1696 | every row COPY publishes has exact reserved columns, NULL when the geometry is NULL or not supplied |
| BboxMaintenance.CopyPublishesInput | crates/quackgis-server/src/duckdb_adbc_storage.rs:1660-1696 | COPY publishes every other named column as it was staged |
| BboxMaintenance.CopyLeavesOthersNull | crates/quackgis-server/src/duckdb_adbc_storage.rs:1660-1696 | a column that COPY does not name is NULL in the published row |
| BboxMaintenance.PerformKeepsExact | crates/quackgis-server/src/duckdb_adbc_storage.rs:2309-2363 | COPY, UPDATE and DELETE keep every row exact, and INSERT into a maintained table is refused |
| BboxMaintenance.RunKeepsExact | crates/quackgis-server/src/duckdb_adbc_storage.rs:1660-1752 | every run of such statements keeps the reserved columns of every row exact |
| BboxMaintenance.QueriesAnswerAsWritten | crates/quackgis-server/src/duckdb_adbc_storage.rs:1975-2363 | end to end: after any history of statements on every table, a rewritten query still gets the answer the original asks for, and is refused exactly when its target has an inconsistent layout |
| BboxMaintenance.QueriesAnswerAsRead | crates/quackgis-server/src/duckdb_adbc_storage.rs:1975-2363 | end to end for the query that is read from the text |
| Lifecycle.RuntimeLifecycle.UpdateReadiness | crates/quackgis-server/src/lifecycle.rs:64-80 | the compare-and-swap loop stores the new state unless the state is Draining, whatever weak exchanges fail |
| Lifecycle.RuntimeLifecycle.TryStartTransaction | crates/quackgis-server/src/lifecycle.rs:93-104 | starts and is counted exactly when the gate is open at both looks, and otherwise leaves the counter as it was |
| Lifecycle.RunKeepsInv | crates/quackgis-server/src/lifecycle.rs:82-112 | in every interleaving the counter is the number of callers in flight and never underflows |
| Lifecycle.ClosedGateStartsNobody | crates/quackgis-server/src/lifecycle.rs:82-104 | behind a closed gate nobody starts who had not started before |
| Lifecycle.DrainedForever | crates/quackgis-server/src/lifecycle.rs:82-119 | once a waiter reads zero behind the closed gate, no caller holds a started transaction then or in any continuation |
| Lifecycle.StartedIsCounted | crates/quackgis-server/src/lifecycle.rs:93-119 | a started transaction is always visible to the drain waiter |
| Lifecycle.DrainingIsAbsorbing | crates/quackgis-server/src/lifecycle.rs:64-91 | Draining is never overwritten by a readiness update, however late its read was |
| Session.RunKeepsInv | crates/quackgis-server/src/duckdb_adbc_storage.rs:1244-1299 | the session invariant holds after every run from a state that has it |
| Session.EveryRun | crates/quackgis-server/src/duckdb_adbc_storage.rs:742-828 | in every run over any number of sessions each connection is in exactly one place, Quarantined means an empty slot that nobody holds, and the shared counter is the sessions in Active plus the callers between start and state change |
| Session.QuarantineIsAbsorbing | crates/quackgis-server/src/duckdb_adbc_storage.rs:1278-1296 | a quarantined session stays quarantined |
| Session.NextIsLifecycleStep | crates/quackgis-server/src/duckdb_adbc_storage.rs:750-771 | refinement: what a session does to the shared counter is at most one step of the lifecycle machine |
| Session.DrainedSessions | crates/quackgis-server/src/lifecycle.rs:82-119 | once the counter reads zero behind the closed gate no session is in a transaction or about to enter one, then or ever after |
| Session.NextLeaks | crates/quackgis-server/src/duckdb_adbc_storage.rs:1077-1110 | a transaction is left without its connection exactly by a silent drop inside it, and for good |
| Session.LeakersIff | crates/quackgis-server/src/duckdb_adbc_storage.rs:1552-1557 | a run has such a session exactly when one of its events is a silent drop by a session in a transaction |
| Session.ClosedSessionsLeak | crates/quackgis-server/src/duckdb_adbc_storage.rs:460-466 | when all sessions are closed the counter is the number of sessions that dropped their connection silently inside a transaction, and zero exactly when no event of the run did |
| Session.ClosedSessionLeaks | crates/quackgis-server/src/duckdb_adbc_storage.rs:460-466 | a concrete run that drops an update, closes its only session and leaves the counter at one |
| Session.ClosedStreamLeaks | crates/quackgis-server/src/duckdb_adbc_storage.rs:1017-1018 | a concrete run that does so by a stream without its catalog guard |
| Storage.DuckDbStorage.SetState | crates/quackgis-server/src/duckdb_adbc_storage.rs:1278-1296 | leaving Active finishes the transaction once and clears read-only |
| Storage.DuckDbStorage.Begin | crates/quackgis-server/src/duckdb_adbc_storage.rs:750-771 | begins exactly when the session is idle, the gate open, the connection present and the native call succeeds, and otherwise changes nothing that counts |
| Storage.DuckDbStorage.EndTransaction | crates/quackgis-server/src/duckdb_adbc_storage.rs:773-828 | commit and rollback: success restores the session, any native failure quarantines it with an empty slot; a clean commit makes exactly the pending effects durable and a rollback none |
| Storage.DuckDbStorage.Scoped | crates/quackgis-server/src/duckdb_adbc_storage.rs:930-1236 | transaction() and the write probe: the counter is back where it was, and the state, the slot and what is durable follow from the native outcomes, except that a panic of the probe leaves the transaction open without a connection |
| Storage.DuckDbStorage.ExecuteUpdate | crates/quackgis-server/src/duckdb_adbc_storage.rs:1370-1526 | for every pattern of native failures: Ok means durable (or joined to the open transaction) with the connection returned, RolledBack means unchanged, Committed means durable, exactly a failed commit is reported as an indeterminate one with the session quarantined, and a panic drops the connection and leaves the state and the database as they were |
| Cancellation.RunKeepsInv | crates/quackgis-server/src/duckdb_adbc_storage.rs:386-418 | what every interleaving of cancel() with an update, ingest or stream keeps |
| Cancellation.CancelOrKeep | crates/quackgis-server/src/duckdb_adbc_storage.rs:1389-1461 | a request that comes before the executor looks is never overlooked; an update for which the native cancel is issued is never kept, and once it is kept the native cancel is never issued |
| Cancellation.StrayCancelIff | crates/quackgis-server/src/duckdb_adbc_storage.rs:392-418 | after an operation gave its connection back, a native cancel can still reach what runs on it next exactly when a canceller is between its second look and its call, or the handle was not closed and a canceller holds it or can find it |
| Cancellation.StrayCancelComesFrom | crates/quackgis-server/src/duckdb_adbc_storage.rs:1383-1428 | what leaves such a cancel behind: an update that was cancelled and rolled back, an update or ingest refused early, an ingest or stream that ended without seeing a request |
| Cancellation.CancelComesLate | crates/quackgis-server/src/duckdb_adbc_storage.rs:392-418 | a concrete run of an update with such a cancel |
| Cancellation.CancelComesAfterStream | crates/quackgis-server/src/duckdb_adbc_storage.rs:443-458 | a concrete run of a stream that ends cleanly and unrequested, and is cancelled afterwards |
| SchemaDiscovery.UpdateRevision | crates/quackgis-rest/src/main.rs:663-671 | appends one field to the hashed bytes: length and text, or the marker of a missing value |
| SchemaDiscovery.Discover | crates/quackgis-rest/src/main.rs:592-635 | the row loop yields the exposed tables with their columns in row order, and the revision bytes of exactly those rows |
| SchemaDiscovery.FieldIsPrefixFree | crates/quackgis-rest/src/main.rs:663-671 | no hashed field is a proper prefix of another, the missing value included |
| SchemaDiscovery.RevisionIsInjective | crates/quackgis-rest/src/main.rs:603-607 | equal revision bytes come from equal rows |
| SchemaCaches.SameValidation | crates/quackgis-rest/src/main.rs:682-684 | equal validations, whether epochs of one connection generation or revision hashes, stand for equal schemas of the states that occurred |
| SchemaCaches.NextKeepsInv | crates/quackgis-rest/src/main.rs:374-463 | every step of a call, every database change and every reconnect keeps the cache and the calls in progress sound |
| SchemaCaches.RunKeepsInv | crates/quackgis-rest/src/main.rs:374-463 | so does every run |
| SchemaCaches.ResultsAreCurrent | crates/quackgis-rest/src/main.rs:687-725 | every successful role_schema call returns the schema a fresh discovery for its role would have returned at some instant during the call |
| Lz4.ExpansionLimit | crates/quackgis-edge/src/compression.rs:349-379 | an LZ4 block decodes to at most 255 times its length, so the ratio check never refuses a valid block |
| Lz4.CompressedSize | crates/quackgis-edge/src/compression.rs:226-276 | a compressor whose output decodes to its input emits at least one byte for every 255 it is given |
| Compression.CompressedIsValid | crates/quackgis-edge/src/compression.rs:349-379 | a block that saves enough passes every length check of the decoder |
| Compression.RoundTrip | crates/quackgis-edge/src/compression.rs:216-345 | for every chunking of reads and every adaptive state, decoding the framed stream gives the reads back, block by block |
| Compression.CutStream | crates/quackgis-edge/src/compression.rs:280-345 | a stream cut anywhere decodes to the whole blocks before the cut, without error exactly at a block boundary |
| Compression.BoundaryMeaning | crates/quackgis-edge/src/compression.rs:280-345 | the boundaries are exactly the lengths of the encodings of the first reads |
| Compression.TruncationYieldsPrefix | crates/quackgis-edge/src/compression.rs:280-345 | hence a truncated stream yields a prefix of the original, and succeeds exactly at those lengths |
| Compression.DecoderIsBounded | crates/quackgis-edge/src/compression.rs:280-379 | on arbitrary input the decoder writes at most 256 times the bytes it reads |
| Compression.CountsBalance | crates/quackgis-edge/src/compression.rs:139-157 | the encoder counts every block once by class, and bytes saved are at least 55 per compressed block minus 9 per raw block |
| Compression.CountsAgree | crates/quackgis-edge/src/compression.rs:333-387 | the decoder counts the same stream the same way, back-off blocks as incompressible ones |
| Compression.ProbeSchedule | crates/quackgis-edge/src/compression.rs:226-276 | if every probe fails, after n blocks of at least 1024 bytes exactly 2*(n/10) + min(n%10, 2) probes were made |
| Compression.EncodeRead | crates/quackgis-edge/src/compression.rs:226-276 | one round of the encoder: the class, the frame and the adaptive state |
| Compression.CopyCompressed | crates/quackgis-edge/src/compression.rs:216-278 | the encoder loop writes the specified stream and counts it |
| Compression.CopyDecompressed | crates/quackgis-edge/src/compression.rs:280-345 | the decoder loop writes the specified bytes, fails exactly when the specification does, and counts the same |
| SpatialCompat.RewriteRenamesTokens | crates/quackgis-server/src/spatial_compat.rs:63-152 | for every text, the tokens of the output are the tokens of the input with exactly the mapped, unquoted, called names renamed |
| SpatialCompat.RewriteIsIdempotent | crates/quackgis-server/src/spatial_compat.rs:63-152 | rewriting twice is rewriting once |
| SpatialCompat.LexIsLossless | crates/quackgis-server/src/spatial_compat.rs:63-112 | the tokens are the whole text in order |
| SpatialCompat.RenameTouchesCallsOnly | crates/quackgis-server/src/spatial_compat.rs:86-104 | quoted text, comments, dollar bodies and names that are not called stay as they are |
| SpatialCompat.ReplacementIsFixed | crates/quackgis-server/src/spatial_compat.rs:114-152 | every replacement is one word and is not mapped itself |
| DollarQuotes.UnchangedIff | crates/quackgis-server/src/spatial_compat.rs:63-152 | a text comes back unchanged exactly when none of its tokens is a mapped, called word |
| DollarQuotes.LeftAloneIff | crates/quackgis-server/src/spatial_compat.rs:63-112 | for any two texts, the first is copied and the second rewritten as on its own exactly when the scan of both finds its words at the places where the scan of the second finds them |
| DollarQuotes.UntaggedIsCopied | crates/quackgis-server/src/spatial_compat.rs:217-246 | a literal with the empty tag is copied and whatever follows it is rewritten on its own |
| DollarQuotes.AlwaysLeftAloneIff | crates/quackgis-server/src/spatial_compat.rs:158-246 | a dollar-quoted literal is left alone before every following text exactly when its tag is empty |
| DollarQuotes.ClosedLeftAloneIff | crates/quackgis-server/src/spatial_compat.rs:158-234 | before a given text that does not continue a word, a tagged literal that ends on a token boundary is left alone exactly when no mapped call stands in it |
| DollarQuotes.SeparatedLeftAloneIff | crates/quackgis-server/src/spatial_compat.rs:158-234 | before all such texts a tagged literal is left alone exactly when no mapped call stands in it and it ends on a token boundary |
| DollarQuotes.TaggedCallIsChanged | crates/quackgis-server/src/spatial_compat.rs:158-234 | a mapped call in a tagged literal is renamed, for every tag |
| DollarQuotes.TaggedLiteralIsChanged | crates/quackgis-server/src/spatial_compat.rs:158-234 | a concrete tagged literal that the rewriter changes |
| DollarQuotes.CallIsSwallowed | crates/quackgis-server/src/spatial_compat.rs:158-234 | an apostrophe in a tagged literal keeps a mapped call after it from being renamed, for every tag |
| DollarQuotes.CallAfterLiteralIsSwallowed | crates/quackgis-server/src/spatial_compat.rs:158-234 | a concrete call that is not renamed because of the literal before it |
| SpatialCompat.CopyQuoted | crates/quackgis-server/src/spatial_compat.rs:162-186 | copies through the closing quote, doubled quotes included |
| SpatialCompat.CopyLineComment | crates/quackgis-server/src/spatial_compat.rs:188-196 | copies up to the end of the line |
| SpatialCompat.CopyBlockComment | crates/quackgis-server/src/spatial_compat.rs:198-215 | copies nested comments through the one that closes them all |
| SpatialCompat.DollarDelimiterEnd | crates/quackgis-server/src/spatial_compat.rs:217-234 | the end of the delimiter as the scanner sees it |
| SpatialCompat.CopyDollarQuoted | crates/quackgis-server/src/spatial_compat.rs:236-246 | copies through the next occurrence of the delimiter |
| SpatialCompat.CopyToken | crates/quackgis-server/src/spatial_compat.rs:63-112 | one round of the main loop copies or renames exactly one token |
| SpatialCompat.RewritePostgisSql | crates/quackgis-server/src/spatial_compat.rs:63-112 | the whole loop ends and produces the specified text |
| Checksum.CanonicalIsPrefixFree | crates/quackgis-migrate/src/migration.rs:1568-1577 | no encoded value is a proper prefix of another; NULL and the empty value differ |
| Checksum.CanonicalRowIsInjective | crates/quackgis-migrate/src/migration.rs:1347-1363 | rows with the same number of columns and the same encoding are equal value by value |
| Checksum.MultisetChecksum.Accumulate | crates/quackgis-migrate/src/migration.rs:1548-1554 | the carry loop over the digest bytes is addition modulo 256 to the width, 2^256 for 32 bytes, beside a byte-wise exclusive-or |
| Checksum.MultisetChecksum.Insert | crates/quackgis-migrate/src/migration.rs:1540-1555 | one value updates the counters, the sum and the exclusive-or as specified |
| Checksum.ModIsRemainder | crates/quackgis-migrate/src/migration.rs:1548-1554 | the specification's modulus is the arithmetic remainder |
| Checksum.AddsCommute | crates/quackgis-migrate/src/migration.rs:1540-1555 | two values may be added in either order |
| Checksum.ChecksumIsOrderFree | crates/quackgis-migrate/src/migration.rs:1313-1376 | every permutation of the rows gives the same count, NULL count, sum and exclusive-or |
| Checksum.XorIsParity | crates/quackgis-migrate/src/migration.rs:1548-1554 | every bit of the exclusive-or is the parity of that bit over the row digests |
| Checksum.ChecksumClosedForm | crates/quackgis-migrate/src/migration.rs:1540-1555 | count and NULL count are those of the rows, saturating at 64 bits, the sum is the sum of the row digests as numbers modulo 2^256, and every bit of the exclusive-or is a parity over them |
| Checksum.ChecksumRow | crates/quackgis-migrate/src/migration.rs:1349-1361 | the inner loop encodes the row and updates each column once |
| Checksum.ChecksumTable | crates/quackgis-migrate/src/migration.rs:1338-1363 | the scan accumulates whole rows and each column by itself |
| Checksum.FinishIsInjective | crates/quackgis-migrate/src/migration.rs:1557-1565 | the final digest is taken of all four parts: different accumulators are different inputs to it |
| MigrationConfig.ValidateColumns | crates/quackgis-migrate/src/config.rs:145-156 | accepts exactly mappings of identifiers with distinct targets |
| MigrationConfig.ValidateTables | crates/quackgis-migrate/src/config.rs:117-157 | accepts exactly valid tables with distinct sources and distinct targets |
| MigrationConfig.ValidateGrants | crates/quackgis-migrate/src/config.rs:162-207 | accepts exactly distinct grants of mapped roles on selected tables |
| MigrationConfig.Validate | crates/quackgis-migrate/src/config.rs:79-209 | accepts exactly the valid configurations |
| MigrationConfig.FindMapping | crates/quackgis-migrate/src/config.rs:211-215 | finds a mapping exactly when the source table is configured, and it is one of that table |
| MigrationPlan.BuildColumns | crates/quackgis-migrate/src/plan.rs:339-361 | classifies every column, rejects a repeated target name, and blocks on every rejected column |
| MigrationPlan.BuildTablePlan | crates/quackgis-migrate/src/plan.rs:288-387 | the plan of a table as specified, with every blocker collected |
| MigrationPlan.SelectedIffMigratable | crates/quackgis-migrate/src/plan.rs:288-472 | a mapped table is planned for migration exactly when nothing on it or in it is unsupported, its target column names are distinct and every mapped column exists |
| Preflights.SortSorts | crates/quackgis-migrate/src/plan.rs:121-123 | the tables are in order of source schema and table |
| Preflights.PlanInventory | crates/quackgis-migrate/src/plan.rs:83-95 | plans every inventory table and remembers exactly the configured ones |
| Preflights.PlanMissing | crates/quackgis-migrate/src/plan.rs:97-120 | adds a rejected plan and an error for exactly the configured tables that are missing |
| Preflights.BuildGrants | crates/quackgis-migrate/src/plan.rs:147-178 | plans every grant and reports exactly the configured grants that were not found |
| Preflights.BuildRoles | crates/quackgis-migrate/src/plan.rs:179-207 | plans every role and reports exactly the configured roles that were not found |
| Preflights.BuildPreflight | crates/quackgis-migrate/src/plan.rs:82-228 | the report as specified, ready exactly when there are no errors and every mapped table is selected |
| Staging.BuildStagingConfig | crates/quackgis-migrate/src/migration.rs:520-563 | succeeds exactly for a well-formed identifier, names that fit and a valid staged configuration, and returns that configuration with one target per table |
| Staging.StagingSucceeds | crates/quackgis-migrate/src/migration.rs:520-563 | for a valid configuration the staged one is valid exactly when every staged name fits 63 bytes |
| Staging.SortStaged | crates/quackgis-migrate/src/plan.rs:121-123 | sorting does not look at target names: it commutes with staging |
| Staging.StagedPreflight | crates/quackgis-migrate/src/plan.rs:82-228 | the staged and the release preflight have the same tables in the same order up to the prefix, and the same verdict, objects, roles and errors |
| Staging.SelectedCount | crates/quackgis-migrate/src/migration.rs:1171-1181 | a ready preflight carries out exactly one plan for each configured table |
| Staging.ReleasePlan | crates/quackgis-migrate/src/migration.rs:987-1043 | succeeds exactly for a releasable report, and then takes every selected plan and every transfer back to its release name, leaving the rest |
| Staging.ReleaseUndoesStaging | crates/quackgis-migrate/src/migration.rs:987-1043 | for a ready staged preflight and its transfers the release plan exists exactly when no two source tables share a dotted name, and then it is the release preflight's tables in the same order with the transfers lined up |
| StagingExample.CollidingIsNotReleased | crates/quackgis-migrate/src/migration.rs:987-1043 | every configuration of two such source tables is valid, stages to a ready preflight whose transfers line up, and has no release plan |
| StagingExample.ExampleIsNotReleased | crates/quackgis-migrate/src/migration.rs:1599-1601 | a concrete one: table b.c of schema a and table c of schema a.b |
| Staging.GrantsKeepStagedNames | crates/quackgis-migrate/src/plan.rs:260-267 | the grants of a released report are those of the release preflight exactly when no source grant is mapped |
| StagingExample.GrantKeepsStagedName | crates/quackgis-migrate/src/plan.rs:260-267 | with a mapped grant, the grants planned for the staged configuration are not those of the release |
| StagingExample.ExampleKeepsStagedGrant | crates/quackgis-migrate/src/plan.rs:260-267 | a concrete configuration and grant of that kind |
| MigrationRun.Migration.Publish | crates/quackgis-migrate/src/migration.rs:108-121 | a checkpoint takes the next number within 64 bits, is refused when there is none, and is logged exactly when it was written |
| MigrationRun.Migration.PrepareTarget | crates/quackgis-migrate/src/migration.rs:1065-1122 | on success there is one transfer for each plan, in order, recording the planned row count and what the source snapshot held, equal to what the uncommitted target held |
| MigrationRun.Migration.VerifyTarget | crates/quackgis-migrate/src/migration.rs:1124-1169 | accepts only when every table on a new connection has the recorded row count and digests, and does accept then if no call fails |
| MigrationRun.Migration.VerifyCommitted | crates/quackgis-migrate/src/migration.rs:453-517 | what is reported after a successful commit |
| MigrationRun.Migration.CommitAndVerify | crates/quackgis-migrate/src/migration.rs:431-517 | the commit is issued only after its checkpoint; a commit error, and only that, is reported as indeterminate |
| MigrationRun.Migration.RunMigration | crates/quackgis-migrate/src/migration.rs:359-518 | for every pattern of failures: Rejected and FailedRolledBack mean no commit was issued, CommitIndeterminate means a commit error, CommittedUnverified and Verified mean the commit succeeded, and Verified means every selected table matches the source snapshot; without failures the state is determined |
| MigrationRun.VerifiedRunReleases | crates/quackgis-migrate/src/migration.rs:987-1043 | the report of a committed staged run can be released exactly when dotted source names are distinct |
| Admission.RunKeepsInv | crates/quackgis-server/src/execution_control.rs:345-390 | permits are conserved and gauges exact after every run from a state in which they are |
| Admission.RunsStayWithinLimits | crates/quackgis-server/src/execution_control.rs:321-390 | in every run of arrivals, timeouts and releases, with the total and the class gauges moved one after the other, the queued, active and per-class callers and their gauges stay within the limits |
| Admission.RefusedIffFull | crates/quackgis-server/src/execution_control.rs:346-351 | an arrival is refused exactly when all queue slots are held |
| Admission.WaiterCanStep | crates/quackgis-server/src/execution_control.rs:359-369 | when nobody holds a global permit or is giving back a class permit, one of the waiting callers can go on |
| Admission.NoDeadlock | crates/quackgis-server/src/execution_control.rs:345-390 | as long as anyone waits someone can go on without a timeout |
| WorkerPool.RunKeepsInv | crates/quackgis-server/src/execution_control.rs:134-186 | permits are conserved and gauges exact after every run from a state in which they are |
| WorkerPool.ControlFindsWorker | crates/quackgis-server/src/execution_control.rs:134-186 | in every run the workers stay within their number, and while no control operation holds one a control request finds a free worker |
| NonceCaches.NonceCache.Insert | crates/quackgis-edge/src/runtime.rs:194-208 | refused exactly when the entry is among the last 4096 accepted; set and queue hold the same entries without repeats |
| NonceCaches.ReplaysAreFarApart | crates/quackgis-edge/src/runtime.rs:188-208 | in every run an entry is accepted again only with at least 4096 others accepted in between |

## Left out

- SQL parsing and printing: the rewrites work on syntax trees. That a printed tree is parsed back as it was is assumed except for the added AND, which is read back associated to the left (`BboxQuery.ReadBackPreservesAnswer`).
- Evaluation errors in SQL: a query whose evaluation fails is not distinguished from one that answers.
- MERGE, DDL and EXPLAIN on maintained tables: further one-branch refusals and pass-throughs.
- COPY defaults: a geometry column that COPY does not name is NULL, so a non-NULL default is not modelled.
- Storage of ingested rows: `Session` has the ingest operation with all its ends, but `Storage` does not follow its staging table; the rows it publishes are those of COPY in `BboxMaintenance`.
- Poisoning of mutexes other than the catalog lock, and panics other than of an operation's work: not modelled.
- Liveness of the drain waiter: its check and the creation of its wait are two steps in the source, and fairness is not modelled.
- Weak-memory behaviour: atomics are sequentially consistent steps.
- Credentials and generation overflow of the REST connection: a new credential is one more reason to reconnect, and the generation number is unbounded.
- SchemaCaches.ResultsAreCurrent: assumes that the revision hash tells apart the finitely many revisions of the run; that SHA-256 does is not proved.
- Compression of latency-sensitive traffic, CPU-time counters and wrap-around of 64-bit metric counters: plumbing.
- UTF-8 in the spelling rewriter: the source scans bytes, the model characters; every character it tests for is ASCII.
- SpatialAccumulator: its extents depend on floating-point details such as signed zero.
- canonicalize and the checksum SQL: the text a column is canonicalized to is a parameter.
- Checksum.MultisetChecksum.Insert: takes the digest of a value as a parameter; `Checksum.Digests` is the one in use.
- The literal test for column defaults: what the SQL parser makes of a default is a parameter.
- Texts of reasons, blockers and errors in preflight reports: data constructors stand for them, and sorted lists without repeats are sets.
- Checkpoints inside a COPY, durations, and cleanup, retirement and promotion of staged tables: plumbing around the modelled run.
- MigrationRun.Migration.RunMigration: returns no report when the source rollback or an early checkpoint fails, as the source does; nothing is claimed about such an end beyond the order of commit and checkpoints.
- High-water marks of admission and worker gauges: metrics.
- Closed semaphores: the controllers never close them.
- Authentication, TLS, signatures, roles and allowlists, catalog SQL, scripts and deployment: outside the modelled core or one-branch checks.

# A model of the page view samples

The project models three parts of the repository and proves what they are for.

1. **The consumers** (`cpp/`, `pgsql/content.sql`). Two threads read one log. Each applies page views to its own
   counter tables inside an open transaction, saves its offset in the same transaction, commits by batch size or by
   time, and resumes after any crash by reading, and discarding, the entry at its saved offset.
   `ConsumerMachine` is one thread as a state machine with a step for every point at which the process can die, the
   broker or the database can answer differently, or another session can commit; backups and their restoration are
   steps too, because the offset table exists for that case (README.md:6 of the repository).
   `PostgresServer`, `PostgresClient`, `KafkaConsumer` and `MessageConsumer` hold the same program as classes with
   loops, and every execution of them is proved to be a run of the machine. `Reconciliation` puts both threads side
   by side. `ConsumerProgress` says what a consumer can get done where nothing goes wrong, and `ContentCounts` what the
   rows count, content by content. `CatalogProcedures` is the catalog that decides where a page view is counted, and
   `EventCounter` the shared counter of the display thread.
2. **The schema compiler and validator** (`golang/pageviewcount_service/validation`). `Validator` and
   `SchemaCompiler` are the loops over Go maps, in any order and in place, with Ok, error and panic as outcomes;
   `SchemaMeaning` is a typed schema language that says which documents conform and on which ones the validator may
   panic, and `CompiledMeaning` connects the two, from the source of any schema that the compiler accepts to the
   verdict on any document. `SchemaFaults` says which schemas can panic at all. `SchemaSources` says in the terms of a
   source when the compiler accepts it and what it leaves of it, and `FieldVerdicts` and `IntegerFields` what the rules
   of one field let pass.
3. **The data handler** (`golang/pageviewcount_service/dal_postgresql`). `SqlText` and `SqlStatements` print the
   statements and read them back, with the names that PostgreSQL takes unquoted (`SqlNames`), `SqlExecution` runs
   them, and `DataHandler` builds them in loops over maps and pages through results.

Main results: `ConsumerTheorems.ExactlyOnce`, `ConsumerTheorems.BoundedOvercount`, `ContentCounts.ContentsCounted`,
`ConsumerProgress.FillsBatches`, `ConsumerProgress.CatchesUp`, `ConsumerProgress.RecoversFromBackup`,
`ConsumerRestart.RestartExactIff`, `ConsumerRestart.BatchingRefines`, `Reconciliation.Reconcile`,
`MessageConsumers.Incarnations`, `SchemaMeaning.SchemaAgrees`, `SchemaSources.SectionAccepted`,
`SchemaSources.SectionCompiledUnited`, `CompiledMeaning.CompileThenValidate`, `SchemaFaults.PanicsIffFragile`,
`ValidationRoundTrip.SchemaTwice`, `SqlStatements.ReadPrinted`, `SqlExecution.UpdateMeans` and
`DataHandlers.DataHandler.FindRecord`.

## What the proofs found

- A resuming `Start` that times out or reaches the end of the partition passes the check at cpp/KafkaClient.cpp:156
  without having skipped its message. The next committed batch counts that message twice
  (`ConsumerRestart.SilentRestartOvercounts`), and the restart is exact if and only if the message was obtained or is
  no page view (`ConsumerRestart.RestartExactIff`).
- A page view of an unknown content is rejected by its procedure; the exception ends the thread, and every later
  incarnation stops at the same entry (`ConsumerTheorems.StuckAtRejectedMessage`).
- `ExecuteStatement` leaves `inTxn` set when it throws after its own BEGIN (`PostgresClient.PostgresDbh.ExecuteStatement`).
- `Start` from the beginning polls nothing, so nothing is discarded there; only a non-null reference is at risk.
- The compiler accepts schemas on which the validator panics: on a text that misses an exact length
  (`SchemaFaults.ExactLengthPanics`), on any array whose type has a sub-section (`SchemaFaults.FilledListExample`), on
  a hashmap without one, on null or ill-typed parts, and where neither the action nor `default` is defined.
  `SchemaMeaning.Breaks` is the exact condition on a schema and a document (`CompiledMeaning.CompileThenValidate`), and
  `SchemaFaults.Fragile` the exact condition on a schema for some document to break it
  (`SchemaFaults.PanicsIffFragile`).
- The validator has no case for `float` fields, and takes whole numbers only as text or as int64, which JSON decoding
  never produces; both are part of `SchemaMeaning.ValueConforms`.
- Validating an accepted document again succeeds if and only if it has no text that became a UUID and no required
  field outside the legend (`ValidationRoundTrip.SchemaTwice`).
- The data handler never resets its arguments for an update, a deletion or a search, so a second one on the same
  handler is refused; an insertion resets them but can be staged only once. A search on a key of several columns is
  always refused, since nothing separates the sort columns, and so is every statement with a name that PostgreSQL
  reserves, since names are not quoted (`SqlStatements.ReadPrinted`). With batching off the
  continuation key is set although nothing remains (`DataHandlers.UnlimitedPage`).

## Model

| member | source | states |
|---|---|---|
| PageviewStore.StripDashes | pgsql/content.sql:105 | the name of a partition holds no dash |
| PageviewStore.StripDashesIdempotent | pgsql/content.sql:190-215 | stripping a client id twice, as the two page view procedures do, is stripping it once |
| PageviewStore.StripCanonical | pgsql/content.sql:105 | the partition name of a uuid is its five groups of digits in order |
| PageviewStore.StripThenRedash | pgsql/content.sql:105 | putting the dashes back recovers the canonical uuid |
| PageviewStore.StripDashesInjective | pgsql/content.sql:105 | two clients never get the same partition name |
| PageviewStore.NoNamelessPartition | pgsql/content.sql:185-221 | the name made from a null client id denotes no partition |
| CatalogProcedures.ClientNamed | pgsql/content.sql:99 | finds a client of that name whenever there is one |
| CatalogProcedures.ContentAt | pgsql/content.sql:116 | finds a content of that URL whenever there is one |
| CatalogProcedures.CreateKeeps | pgsql/content.sql:94-110 | create_client keeps names unique and partitions in step with clients, and changes no existing row |
| CatalogProcedures.AddKeeps | pgsql/content.sql:112-126 | content_add keeps URLs unique and every content's client present, and changes no existing row |
| CatalogProcedures.CallsKeepCatalog | pgsql/content.sql:94-126 | any sequence of calls keeps the catalog invariant and only extends the catalog |
| CatalogProcedures.OnePartitionPerClient | pgsql/content.sql:94-110 | in every catalog that the calls can make, partitions and clients correspond one to one and are equally many |
| CatalogProcedures.CreateClientTwice | pgsql/content.sql:94-110 | asking again for a name, whatever happened in between, returns the same id and changes nothing |
| CatalogProcedures.ContentAddTwice | pgsql/content.sql:112-126 | the URL alone decides: a later call returns the first content, whichever client asks |
| CatalogProcedures.NewClient | pgsql/content.sql:99-109 | a name that no client has, with a fresh uuid whose partition does not exist yet, gets that uuid: exactly one client and one partition are added, and the name then answers with the uuid |
| CatalogProcedures.NewContent | pgsql/content.sql:116-123 | a URL that no content has, for a known client and with a fresh uuid, gets that uuid: exactly one content is added, with the name, URL and client of the call |
| CatalogProcedures.CatalogTables.Create | pgsql/content.sql:94-110 | the procedure body on the tables does what the catalog function says, errors included |
| CatalogProcedures.CatalogTables.Add | pgsql/content.sql:112-126 | the procedure body on the tables does what the catalog function says, errors included |
| PostgresServer.Backend.Upsert | pgsql/content.sql:155-163 | one row is inserted with 1 or raised by 1, in the transaction of the connection, and the new count returned |
| PostgresServer.Backend.ReadSourceRef | pgsql/content.sql:47-54 | the reference that the connection sees, null without a row |
| PostgresServer.Backend.WriteSourceRef | pgsql/content.sql:56-73 | exactly the reference row of the source is set |
| PostgresServer.Backend.ClientView | pgsql/content.sql:151-166 | the client's day row is incremented, or a null or unknown client is refused and nothing changes |
| PostgresServer.Backend.ClientContentView | pgsql/content.sql:142-149 | increments the row of the client that the catalog gives for the content, on the day of the view, and fails exactly where there is none |
| PostgresServer.Backend.PartitionView | pgsql/content.sql:196-222 | increments the row in the table that the stripped name denotes, and fails if that table does not exist |
| PostgresServer.Backend.ContentView | pgsql/content.sql:185-194 | the row incremented is that of the content itself, on the day of the view, in the partition named after its client although both procedures strip the name; a failure changes nothing |
| PostgresServer.Backend.Exec | cpp/PostgresDbh.cpp:88-132 | a statement changes database and transaction as the transaction rules say; a failure aborts an open transaction |
| PostgresServer.Backend.BeginWork | cpp/PostgresDbh.cpp:31-39 | BEGIN opens a transaction, and is refused in an aborted one |
| PostgresServer.Backend.CommitWork | cpp/PostgresDbh.cpp:41-52 | COMMIT takes effect unless the connection was lost before; on an aborted transaction it succeeds and drops the writes |
| PostgresServer.Backend.RollbackWork | cpp/PostgresDbh.cpp:54-65 | ROLLBACK ends the transaction and changes no row |
| PostgresServer.Server.OtherSessions | pgsql/content.sql:94-126 | other sessions extend the catalog and leave the rows of the consumer alone |
| PostgresClient.PostgresDbh.StartTxn | cpp/PostgresDbh.cpp:31-39 | flag and transaction after BEGIN, or an exception and neither changed |
| PostgresClient.PostgresDbh.CommitTxn | cpp/PostgresDbh.cpp:41-52 | refuses without a started transaction; otherwise the committed rows, and the flag cleared only if acknowledged |
| PostgresClient.PostgresDbh.RollbackTxn | cpp/PostgresDbh.cpp:54-65 | refuses without a started transaction; the flag is cleared only if the rollback succeeded |
| PostgresClient.PostgresDbh.ExecuteStatement | cpp/PostgresDbh.cpp:72-138 | a normal return leaves the flag as it was; inside a transaction the statement runs in it; outside it is committed by itself, and a throw has committed nothing unless only the acknowledgement was lost |
| PostgresClient.SourceReference.RefreshFromDatabase | cpp/SourceReference.cpp:31-45 | throws exactly when BEGIN, the statement or COMMIT fails; otherwise null exactly when the table has no row for the source, else its value; the database is unchanged |
| PostgresClient.SourceReference.UpdateSourceRef | cpp/SourceReference.cpp:62-73 | the reference row is written in the open transaction, or committed by itself outside one; the field follows, or the exception escapes |
| Transactions.StaysInTxn | cpp/PostgresDbh.cpp:88-132 | a statement never ends the transaction that it runs in, and aborts it when it fails |
| Transactions.ReferenceWritten | cpp/SourceReference.cpp:62-73 | inside a transaction a reference is saved unless the transaction is already aborted or the statement fails |
| MessageLog.Seek | cpp/KafkaClient.cpp:148 | a fetch begins at the first entry not before the offset, also when offsets have gaps |
| MessageLog.SeekFinds | cpp/KafkaClient.cpp:148-152 | the offset of a retained entry is found at that entry |
| MessageLog.CoveredMeans | cpp/KafkaClient.cpp:146-152 | an entry is covered by a reference if and only if its offset is not after it |
| KafkaConsumer.KafkaClient.Consume | cpp/KafkaClient.cpp:152 | a poll ends as the broker answers, but delivers only an entry of the log |
| KafkaConsumer.KafkaClient.ProcessPolled | cpp/KafkaClient.cpp:90-128 | only a delivered message moves reference and message; a time-out or the end of the partition leaves both |
| KafkaConsumer.KafkaClient.Start | cpp/KafkaClient.cpp:130-164 | for every answer of the broker: skips the entry at the reference if it was delivered, throws if another one was, and passes silently without having skipped it if nothing was |
| KafkaConsumer.KafkaClient.Read | cpp/KafkaClient.cpp:170-184 | for every answer of the broker: the next entry and its offset, or nothing and no change |
| ConsumerMachine.RunAppend | cpp/MessageConsumer.cpp:32-108 | a run followed by a run is a run |
| ConsumerSafety.ProcessableIffKnown | pgsql/content.sql:142-222 | a page view is accepted if and only if its fields can be read and its content is in the catalog |
| ConsumerSafety.EffectRowStable | pgsql/content.sql:142-222 | the row of an accepted page view stays the same while the catalog grows |
| ConsumerSafety.EffectRowOwned | cpp/ContentPageViewConsumer.cpp:19-37 | the content consumer counts in content rows and the client consumer in client rows |
| ConsumerSafety.WalkBounds | cpp/KafkaClient.cpp:146-157 | a sequence of readings covers a prefix of the log, and is longer than it by its repeats |
| ConsumerSafety.NoRepeats | cpp/KafkaClient.cpp:146-157 | readings without a repeat are each entry of a prefix once, in order |
| ConsumerSafety.IdealOwned | cpp/MessageConsumer.cpp:76-85 | the one-message-per-transaction program writes rows of its consumer only, and its reference is that of the last entry |
| ConsumerSafety.IdealCounters | cpp/MessageConsumer.cpp:76-85 | its counters are the fold of the effects over the prefix |
| ConsumerInvariant.StartPosition | cpp/KafkaClient.cpp:141-163 | where a resuming Start leaves the thread: after the saved entry if it was delivered, at it if nothing was |
| ConsumerInvariant.DeliveredEffect | cpp/ClientPageViewConsumer.cpp:19-37 | a delivered page view raises exactly its row in the open transaction, or fails and aborts it |
| ConsumerInvariant.StartKeeps | cpp/KafkaClient.cpp:130-164 | Start and the first BEGIN keep the invariant, with one more allowed repeat if nothing was delivered |
| ConsumerInvariant.DeliverKeeps | cpp/MessageConsumer.cpp:57-77 | reading and applying one message keeps the invariant |
| ConsumerInvariant.NoMessageKeeps | cpp/MessageConsumer.cpp:57-98 | leaving the read loop and the time check keep the invariant |
| ConsumerInvariant.WriteReferenceKeeps | cpp/MessageConsumer.cpp:80 | saving the reference keeps the invariant and touches no counter |
| ConsumerInvariant.BatchCommitted | cpp/MessageConsumer.cpp:80-81 | what the transaction holds at COMMIT is a correct committed state for the entries applied and pending |
| ConsumerInvariant.CommitKeeps | cpp/MessageConsumer.cpp:81-83 | COMMIT keeps the invariant, acknowledged or lost before or after it took effect |
| ConsumerInvariant.BeginKeeps | cpp/MessageConsumer.cpp:84 | the next BEGIN keeps the invariant |
| ConsumerInvariant.DeadKeeps | cpp/kafka_client.cpp:25-47 | the death of the process keeps the invariant |
| ConsumerInvariant.ForeignKeeps | cpp/kafka_client.cpp:25-47 | commits of other sessions, also in the middle of a transaction, keep the invariant |
| ConsumerInvariant.RestoreKeeps | README.md:6 | restoring a backup while the process is down keeps the invariant |
| ConsumerInvariant.StepKeeps | cpp/MessageConsumer.cpp:32-108 | every step keeps the invariant |
| ConsumerInvariant.RunKeeps | cpp/MessageConsumer.cpp:32-108 | every run keeps the invariant |
| ConsumerInvariant.ReachableInv | cpp/MessageConsumer.cpp:32-108 | every reachable state satisfies the invariant |
| RowSums.TotalUpdate | pgsql/content.sql:155-163 | setting one row changes the sum of all rows by the difference |
| ConsumerTheorems.WalkCounts | cpp/KafkaClient.cpp:146-157 | a sequence of readings counts what its prefix counts plus its repeats, in sum exactly and row by row within that bound |
| ConsumerTheorems.ExactIffNoPageviewRepeated | cpp/KafkaClient.cpp:146-157 | a committed state is exact if and only if no page view was read twice in a row |
| ConsumerTheorems.ExactlyOnce | cpp/MessageConsumer.cpp:32-108 | if every resuming Start obtained its message, the committed rows are those of processing each entry up to the reference once, whatever crashed, failed or was restored |
| ConsumerTheorems.BoundedOvercount | cpp/KafkaClient.cpp:94-157 | in every run no count is too low, and neither one row nor the sum is too high by more than the number of resuming starts that returned without a message |
| ConsumerTheorems.ScheduleIrrelevant | cpp/MessageConsumer.cpp:48-101 | two runs without a silent start that end on the same reference end on the same rows, whatever their batch sizes, clocks, polls and crashes, if their catalogs agree on whose contents were viewed in the covered prefix |
| ConsumerTheorems.ReferenceIsAnEntry | cpp/KafkaClient.cpp:111 | the committed reference is null or the offset of an entry, never the beginning sentinel |
| ConsumerTheorems.ReferenceNeverDecreases | cpp/MessageConsumer.cpp:77-91 | without a restored backup the committed reference never moves back |
| ConsumerTheorems.StuckAtRejectedMessage | cpp/MessageConsumer.cpp:61-72 | nothing at or after a rejected page view is ever committed |
| ContentCounts.CountedInRow | pgsql/content.sql:185-222 | an accepted message is counted in the row of a content on a day if and only if it is a view of that content on that day |
| ConsumerTheorems.PendingChanges | cpp/MessageConsumer.cpp:51-98 | in every run, at both loop heads a transaction is open, the batch is not full, and the pending changes are the effects of the msgCounter entries delivered since the last commit |
| ContentCounts.NoStrayRows | pgsql/content.sql:185-222 | every row counted in is that of a content of the catalog that was viewed on that day |
| ContentCounts.ContentsCounted | pgsql/content.sql:142-222 | in every run, for every content and day: the committed count of its own row lies between the number of its views among the covered entries and that number plus the silent starts |
| ContentCounts.OnlyViewedContents | pgsql/content.sql:196-222 | in every run each committed content row is that of a content viewed on its day, in the partition of its client |
| ContentCounts.ClientsCounted | pgsql/content.sql:142-166 | in every run, for every client and day: the committed count lies between the views of its contents among the covered entries and that number plus the silent starts |
| ConsumerTheorems.PendingBatch | cpp/MessageConsumer.cpp:51-98 | without a silent start these entries directly follow the committed reference, and committing them leaves the rows of each entry read so far once |
| ConsumerTheorems.NoHollowCommit | cpp/MessageConsumer.cpp:61-91 | COMMIT is only sent on a transaction that is open and holds the new reference, never on an aborted one |
| ConsumerProgress.DeliverNext | cpp/MessageConsumer.cpp:57-77 | an accepted entry is applied and counted and the position moves on by one; the batch is saved exactly when the counter has reached the batch size |
| ConsumerProgress.TimeCheck | cpp/MessageConsumer.cpp:88-98 | without a message the batch is saved exactly if something is pending and 30 seconds have passed since the last commit; the clock is reset exactly if nothing is pending |
| ConsumerProgress.CommitCycle | cpp/MessageConsumer.cpp:79-85 | the three actions of a commit can succeed one after the other; then everything pending is applied, a new transaction is open and the counter is 0 |
| ConsumerProgress.Resume | cpp/KafkaClient.cpp:130-164 | from any stopped state, a start that obtains its message reads on from the first entry that is not covered |
| ConsumerProgress.FillsBatches | cpp/MessageConsumer.cpp:57-86 | for every batch size, from any stopped state and for every accepted stretch of the log: there is a run without a silent start that reads all of it and commits exactly its full batches |
| ConsumerProgress.CatchesUp | cpp/MessageConsumer.cpp:57-98 | for every batch size, from any stopped state: the consumer can read and commit every accepted entry, the last ones by time |
| ConsumerProgress.RecoversFromBackup | README.md:6 | after any run, from any backup: the restored consumer can read what the backup did not cover, and the counts are then exact if no start was silent |
| ConsumerProgress.MayFailAnywhere | cpp/kafka_client.cpp:25-47 | the process may die in every state, COMMIT lose its connection before or after it takes effect, a backup be taken at any time and be restored while the process is down |
| ConsumerRestart.ResumedWalk | cpp/KafkaClient.cpp:141-157 | an incarnation reads on in order from where its Start left it |
| ConsumerRestart.RestartExactIff | cpp/KafkaClient.cpp:146-157 | an incarnation that commits something keeps an exact state exact if and only if Start obtained its message or that message is no page view |
| ConsumerRestart.StaysUnwound | cpp/kafka_client.cpp:25-47 | after an exception nothing is committed until the next start |
| ConsumerRestart.BatchingRefines | cpp/MessageConsumer.cpp:48-101 | whatever a consumer has committed without a silent start, the consumer with any other batch size, on the catalog as it then is, commits the same rows by reading each entry once |
| ConsumerRestart.SilentRestartOvercounts | cpp/KafkaClient.cpp:152-157 | for every batch size and every log that begins with an accepted page view, one silent restart makes the counts wrong |
| ConsumerRestart.OvercountExample | cpp/KafkaClient.cpp:152-157 | a concrete log and run in which one page view is counted twice |
| Reconciliation.ThreadsAreFree | cpp/kafka_client.cpp:25-47 | whatever a thread can do by itself it can do beside the other, and the other stays where it is |
| Reconciliation.WorldIsFree | cpp/kafka_client.cpp:25-47 | the process may exit at any time, the catalog grow as its procedures let it, a backup be taken at any time and be restored while both threads are down |
| Reconciliation.StepLeavesOther | cpp/kafka_client.cpp:25-47 | no step of a consumer changes the catalog, the other's counters or the other's reference |
| Reconciliation.ActKeeps | cpp/kafka_client.cpp:25-47 | every action of the system keeps both consumers' invariants |
| Reconciliation.PlayKeeps | cpp/kafka_client.cpp:25-47 | every interleaving of the two threads keeps both invariants |
| Reconciliation.PartitionOfView | pgsql/content.sql:185-222 | a page view is counted in a client's partition if and only if it is of that client's content on that day |
| Reconciliation.PartitionCounts | pgsql/content.sql:185-222 | the daily sum over a client's partition is the number of readings of its content |
| Reconciliation.ClientCounts | pgsql/content.sql:142-166 | the client's daily count is the number of readings of its content |
| Reconciliation.ReconcileWithin | cpp/kafka_client.cpp:25-47 | with equal references both figures lie between the true number of views and that plus the silent starts of their thread |
| Reconciliation.Reconcile | cpp/kafka_client.cpp:25-47 | with equal references and no silent start a client's daily count equals the sum of its content's daily counts |
| MessageConsumers.MessageConsumer.Construct | cpp/ContentPageViewConsumer.cpp:10-13 | the constructor reads the reference, throws exactly when that fails, and is a boot step of the machine |
| MessageConsumers.MessageConsumer.ProcessMessage | cpp/ContentPageViewConsumer.cpp:19-37 | the statement of the subclass for a page view and none for other documents; a failure escapes |
| MessageConsumers.MessageConsumer.HandleMessage | cpp/MessageConsumer.cpp:61-77 | one message is one delivery step of the machine; an exception escapes exactly when the statement of the message fails |
| MessageConsumers.MessageConsumer.SaveReference | cpp/MessageConsumer.cpp:80 | saving the reference is one step of the machine; it throws exactly when the statement fails or the transaction is aborted |
| MessageConsumers.MessageConsumer.EndBatch | cpp/MessageConsumer.cpp:81-83 | COMMIT is one step of the machine, and throws exactly when it is not acknowledged |
| MessageConsumers.MessageConsumer.Renew | cpp/MessageConsumer.cpp:84 | the next BEGIN is one step of the machine, and throws exactly when it fails |
| MessageConsumers.MessageConsumer.SaveBatch | cpp/MessageConsumer.cpp:79-85 | saving the reference, COMMIT and BEGIN are steps of the machine; it throws exactly when one of them fails |
| MessageConsumers.MessageConsumer.Poll | cpp/MessageConsumer.cpp:57 | one poll of the read loop: the next message exactly if the broker delivers one, else the state that the time check says |
| MessageConsumers.MessageConsumer.TakeMessage | cpp/MessageConsumer.cpp:61-85 | one message: it is counted, and a batch is saved, with the counter back at 0, exactly when the counter is a multiple of the batch size |
| MessageConsumers.MessageConsumer.ReadAll | cpp/MessageConsumer.cpp:57-86 | the read loop takes every message up to the first poll without one, is a run of the machine and leaves it where the time check says; if broker and transactions stay calm it throws only on an aborted transaction |
| MessageConsumers.MessageConsumer.Begin | cpp/MessageConsumer.cpp:35-51 | the start of RunProcess is a start step of the machine, and throws exactly on a broker error, a message other than the one at the reference, or a failed BEGIN |
| MessageConsumers.MessageConsumer.RunProcess | cpp/MessageConsumer.cpp:32-108 | every execution, however it ends, is a run of the machine that ends in the database as it is |
| MessageConsumers.Incarnations | cpp/kafka_client.cpp:25-47 | any number of lives of a consumer together are a run; they leave an exact database if none started silently, and never one that exceeds it by more than the silent starts |
| EventCounter.AccessBalances | cpp/kafka_client.cpp:50-54 | every load, store, display and reset inside a section keeps the books |
| EventCounter.StepBalances | cpp/MessageConsumer.cpp:24-30 | every step, locks and unlocks included, keeps the books, and an unlock of a consumer completes an increment |
| EventCounter.CountsConserved | cpp/kafka_client.cpp:49-55 | whenever the lock is free the displayed numbers and the counter add up to the completed increments, and each rate belongs to the number displayed with it |
| EventCounter.OneThreadInside | cpp/kafka_client.cpp:49-55 | two threads are never inside their locked sections at once |
| EventCounter.Increments | cpp/MessageConsumer.cpp:24-30 | a consumer that finds the lock free raises the counter by one and leaves the lock free |
| EventCounter.Displays | cpp/kafka_client.cpp:49-55 | the display thread that finds the lock free displays the counter with its own rate and resets it |
| SchemaValues.ParseInt | golang/pageviewcount_service/validation/validation.go:396 | a parsed integer fits 64 bits; which texts are parsed, and to what, is stated by the lemmas of IntegerFields |
| IntegerFields.ParseIntPlain | golang/pageviewcount_service/validation/validation.go:396 | a number without a sign or with a plus is read as itself below 2^63 and refused from there on |
| IntegerFields.ParseIntMinus | golang/pageviewcount_service/validation/validation.go:396 | a number with a minus is read as its negative up to 2^63 and refused above |
| IntegerFields.ParseIntZero | golang/pageviewcount_service/validation/validation.go:396 | leading zeros do not matter |
| IntegerFields.ParseIntSignedZero | golang/pageviewcount_service/validation/validation.go:396 | nor do they after a sign |
| IntegerFields.ParseIntRejects | golang/pageviewcount_service/validation/validation.go:396 | a text that after at most one sign is empty or holds anything but a digit is refused |
| IntegerFields.IntFieldsParsed | golang/pageviewcount_service/validation/validation.go:394-404 | in a document that any compiled schema accepts, the text of an integer in an `int` field has become that integer, which fits 64 bits |
| IntegerFields.IntVerdict | golang/pageviewcount_service/validation/validation.go:394-404 | a document with just an `int` field is accepted exactly for the text of a 64-bit integer, which it then holds |
| FieldVerdicts.LengthVerdict | golang/pageviewcount_service/validation/validation.go:339-385 | a text under two bounds, of which `min` or `max` may stand for one, is accepted unchanged if and only if its length lies between them |
| FieldVerdicts.EnumVerdict | golang/pageviewcount_service/validation/validation.go:323-337 | a text under an `enum` is accepted unchanged if and only if it is one of the choices |
| FieldVerdicts.UuidVerdict | golang/pageviewcount_service/validation/validation.go:310-317 | a text under UUID validation is accepted if and only if it parses, and becomes the UUID |
| FieldVerdicts.BoolVerdict | golang/pageviewcount_service/validation/validation.go:287-408 | a boolean field takes booleans, null if and only if `null_ok` says so, and nothing else |
| Validator.ValidateRequiredFields | golang/pageviewcount_service/validation/validation.go:441-448 | reports a missing field exactly when one of the required ones is not in the document |
| Validator.ValidateAnOptionalField | golang/pageviewcount_service/validation/validation.go:203-230 | reports a missing option exactly when no field that the legend knows and does not require is in the document |
| Validator.CheckEnum | golang/pageviewcount_service/validation/validation.go:325-336 | accepted if the text is a choice, rejected if not, a panic if any choice is no text |
| Validator.CheckText | golang/pageviewcount_service/validation/validation.go:302-393 | verdict and kept value of a text field with its UUID, enum and length rules |
| Validator.CheckField | golang/pageviewcount_service/validation/validation.go:283-435 | the possible verdicts on one known field and its in-place coercion, nested maps included; no other field changes |
| Validator.HandleKey | golang/pageviewcount_service/validation/validation.go:272-435 | an unknown key is deleted, a known one checked, and no other key changes, whatever the verdict |
| Validator.ValidateWithLegend | golang/pageviewcount_service/validation/validation.go:270-439 | in every order of the keys the same document if it is accepted; a panic only where one is possible and an error instead of it only where one may come first; otherwise some keys are handled, one is half handled and the others are as they were |
| Validator.ValidateWithSchema | golang/pageviewcount_service/validation/validation.go:232-268 | requirements, option and legend in this order, with the possible verdicts, the document of an accepted input and what is left of any other |
| SchemaMeaning.LengthAgrees | golang/pageviewcount_service/validation/validation.go:341-390 | a length is accepted, rejected or a panic exactly as the declarative rule says, exact lengths included |
| SchemaMeaning.TextAgrees | golang/pageviewcount_service/validation/validation.go:302-393 | a text is accepted exactly when it fits its declarative check, and a panic exactly when it breaks it |
| SchemaMeaning.FieldAgrees | golang/pageviewcount_service/validation/validation.go:272-435 | a field is accepted exactly when its value conforms, with its normal form, and a panic is possible exactly when it breaks its rule |
| SchemaMeaning.LegendAgrees | golang/pageviewcount_service/validation/validation.go:270-439 | the loop accepts exactly when all known fields conform, strains and normalizes, and may panic exactly when one of them breaks |
| SchemaMeaning.ConformingNeverBreaks | golang/pageviewcount_service/validation/validation.go:232-268 | no document both conforms and breaks |
| SchemaMeaning.SchemaAgrees | golang/pageviewcount_service/validation/validation.go:232-448 | on every compiled schema exactly the conforming documents are accepted and left in normal form, a panic is possible exactly on those that break, and the others are rejected |
| ValidationRoundTrip.NormalStrained | golang/pageviewcount_service/validation/validation.go:273-279 | the output holds no unknown key at any depth |
| ValidationRoundTrip.SchemaTwice | golang/pageviewcount_service/validation/validation.go:270-439 | the output of an accepted document is accepted again if and only if the document is repeatable, and is then unchanged |
| ValidationRoundTrip.NormalNeverBreaks | golang/pageviewcount_service/validation/validation.go:270-439 | the output of an accepted document never makes the validator panic |
| ValidationRoundTrip.ValidateTwice | golang/pageviewcount_service/validation/validation.go:232-268 | the same of the validator itself on every compiled schema: the output is accepted again unchanged if the document is repeatable, and rejected otherwise |
| ValidationRoundTrip.AlwaysRepeatable | golang/pageviewcount_service/validation/validation.go:310-317 | without UUID fields and with every required field in its legend, every document is repeatable |
| SchemaCompiler.SimpleIntrospection | golang/pageviewcount_service/validation/validation.go:190-197 | a list is accepted if it holds texts only; otherwise the first other element decides: null is a panic, anything else an error |
| SchemaCompiler.CheckAction | golang/pageviewcount_service/validation/validation.go:60-77 | the checks on one action's map, in any order |
| SchemaCompiler.UpdateFieldList | golang/pageviewcount_service/validation/validation.go:33-44 | a layer adds its fields and overrides the optional rule only if it mentions it |
| SchemaCompiler.ListFields | golang/pageviewcount_service/validation/validation.go:98-100 | a duplicate-free listing of exactly the collected fields |
| SchemaCompiler.CompileAction | golang/pageviewcount_service/validation/validation.go:85-106 | the compiled map of an action, whose field list and option the lemmas of SchemaSources state in terms of the three layers |
| SchemaCompiler.ProcessRequiredFields | golang/pageviewcount_service/validation/validation.go:46-109 | accepted exactly when both shared layers and every action are well formed; then the layers are gone and every action is compiled |
| SchemaCompiler.CheckDefinition | golang/pageviewcount_service/validation/validation.go:118-161 | the checks on one type definition, accepted or not before its sub-section is looked at |
| SchemaCompiler.CompileRule | golang/pageviewcount_service/validation/validation.go:118-170 | a type name becomes its kind, a sub-section is compiled, other entries stay |
| SchemaCompiler.ProcessLegend | golang/pageviewcount_service/validation/validation.go:111-173 | in every order of the fields the legend is accepted as its rules are, and compiled |
| SchemaCompiler.ParseSubSection | golang/pageviewcount_service/validation/validation.go:175-188 | a section is accepted exactly when its outcome is Ok, at every depth, and then holds its compiled form |
| SchemaCompiler.InitSchema | golang/pageviewcount_service/validation/validation.go:199-201 | a schema is accepted exactly when it is well written, and then holds its compiled form, stated at every level in the terms of its source |
| SchemaSources.SectionAccepted | golang/pageviewcount_service/validation/validation.go:46-188 | the compiler accepts exactly the well-written schemas: six type names, arrays with a sub-section or a named validation, the layers `initial` and `all`, lists of texts and booleans where it looks for them |
| SchemaSources.RuleAccepted | golang/pageviewcount_service/validation/validation.go:111-170 | the same of one type definition |
| SchemaSources.ActionUnited | golang/pageviewcount_service/validation/validation.go:79-106 | a text is in the compiled `fields` of an action, once, if and only if `initial`, the action or `all` lists it; `require_an_optional` is what `all` states, else the action, else `initial`, else false |
| SchemaSources.SectionCompiledUnited | golang/pageviewcount_service/validation/validation.go:79-188 | the same of every action of every section of an accepted schema; the kind of every rule is that of its type text, and other entries stay |
| SchemaSources.ListedFieldsRequired | golang/pageviewcount_service/validation/validation.go:79-106 | a document without a field that the action, `initial` or `all` lists is rejected for that action |
| CompiledMeaning.RequirementCompiled | golang/pageviewcount_service/validation/validation.go:79-106 | the validator finds a requirement exactly if the action or `default` is defined, and then that of the compiled action |
| CompiledMeaning.ShapeByType | golang/pageviewcount_service/validation/validation.go:126-161 | the shape of an accepted rule by its type text |
| CompiledMeaning.RuleMeansSource | golang/pageviewcount_service/validation/validation.go:118-170 | every compiled rule means what its source says, faults included |
| CompiledMeaning.SectionMeansSource | golang/pageviewcount_service/validation/validation.go:175-188 | every compiled schema means what its source says, at every level |
| CompiledMeaning.CompileThenValidate | golang/pageviewcount_service/validation/validation.go:199-268 | for every accepted schema and every document: accepted if and only if it conforms to the source, with its normal form; a possible panic if and only if it breaks the source |
| SchemaFaults.Witness | golang/pageviewcount_service/validation/validation.go:232-439 | a document that breaks a fragile schema |
| SchemaFaults.BrokenIsFragile | golang/pageviewcount_service/validation/validation.go:232-439 | only fragile schemas can be broken |
| SchemaFaults.PanicsIffFragile | golang/pageviewcount_service/validation/validation.go:199-268 | some document makes the validator panic under an accepted schema if and only if its source is fragile |
| SchemaFaults.ExactLengthPanics | golang/pageviewcount_service/validation/validation.go:346-351 | an accepted schema with an exact length: a text of that length is accepted, any other is a panic |
| SchemaFaults.FilledListPanics | golang/pageviewcount_service/validation/validation.go:423-426 | an accepted schema with a sub-section under an array: every array is a panic |
| SchemaFaults.FilledListExample | golang/pageviewcount_service/validation/validation.go:423-426 | such a schema, concretely |
| SchemaService.InitThenValidate | golang/pageviewcount_service/main.go:59-67 | compiling any schema in place and then validating any document in place: accepted if and only if it conforms to the source, with its normal form, and a panic only if it breaks the source |
| SqlText.LexWord | golang/pageviewcount_service/dal_postgresql/dal_postgresql.go:567 | a name in front of a separator is read as that name |
| Decimals.NumberOfDecimal | golang/pageviewcount_service/dal_postgresql/dal_postgresql.go:567 | a printed placeholder number is read as itself |
| Decimals.NumberIffDigits | golang/pageviewcount_service/validation/validation.go:396 | a text is a number if and only if it is one or more digits |
| Decimals.LeadingZero | golang/pageviewcount_service/validation/validation.go:396 | a leading zero does not change a number |
| SqlText.JoinReads | golang/pageviewcount_service/dal_postgresql/dal_postgresql.go:584-586 | a joined list reads as the separated list of its items |
| SqlText.ClauseReads | golang/pageviewcount_service/dal_postgresql/dal_postgresql.go:567 | a clause reads as its column, the sign and its placeholder |
| SqlText.ParsePrinted | golang/pageviewcount_service/dal_postgresql/dal_postgresql.go:584-586 | a list of clauses is read back clause by clause |
| SqlStatements.UpdateRead | golang/pageviewcount_service/dal_postgresql/dal_postgresql.go:555-586 | an update is read back if and only if it has criteria and its names may stand unquoted |
| SqlStatements.DeleteRead | golang/pageviewcount_service/dal_postgresql/dal_postgresql.go:608-624 | a deletion is read back if and only if it has criteria and its names may stand unquoted |
| SqlStatements.InsertRead | golang/pageviewcount_service/dal_postgresql/dal_postgresql.go:655-670 | an insertion is read back if and only if its names may stand unquoted |
| SqlStatements.SelectRead | golang/pageviewcount_service/dal_postgresql/dal_postgresql.go:368-417 | a search is read back if and only if it has one sort column and its names may stand unquoted |
| SqlStatements.ReadPrinted | golang/pageviewcount_service/dal_postgresql/dal_postgresql.go:368-673 | every statement of the builders is read back as itself, or not at all in exactly the named cases: no criteria, not one sort column, a name that is reserved or no identifier |
| SqlExecution.RowsDivided | golang/pageviewcount_service/dal_postgresql/dal_postgresql.go:573-582 | the rows of a table are the matching ones and the others, none lost and none twice |
| SqlExecution.UpdateSpelledOut | golang/pageviewcount_service/dal_postgresql/dal_postgresql.go:545-598 | an update gives every matching row the values of the replacement, keeps its other columns and all other rows and tables, and counts the matching rows; one that the constraints refuse changes nothing |
| SqlExecution.DeleteSpelledOut | golang/pageviewcount_service/dal_postgresql/dal_postgresql.go:600-637 | a deletion takes out exactly the matching rows and counts them; one that the constraints refuse changes nothing |
| SqlExecution.InsertSpelledOut | golang/pageviewcount_service/dal_postgresql/dal_postgresql.go:639-673 | an insertion adds one row, the record with the defaults where it is silent; one that the constraints refuse changes nothing |
| SqlExecution.RefusedChangesNothing | golang/pageviewcount_service/dal_postgresql/dal_postgresql.go:588-596 | a refused statement has changed nothing |
| SqlExecution.DeleteUndoesInsert | golang/pageviewcount_service/dal_postgresql/dal_postgresql.go:600-673 | a new row is found by its own entries, and deleting by them restores the database |
| SqlExecution.BoundExactly | golang/pageviewcount_service/dal_postgresql/dal_postgresql.go:588 | placeholders 1 to n are bound by exactly n arguments |
| SqlExecution.HeldMeans | golang/pageviewcount_service/dal_postgresql/dal_postgresql.go:573-582 | the rows that the printed criteria select are those that match the map of criteria |
| SqlExecution.AssignedMeans | golang/pageviewcount_service/dal_postgresql/dal_postgresql.go:563-571 | the printed assignments give a row the entries of the replacement |
| SqlExecution.UpdateMeans | golang/pageviewcount_service/dal_postgresql/dal_postgresql.go:545-598 | for every order of both maps the numbered update does what the replacement and criteria say; with left-over arguments it is refused |
| SqlExecution.DeleteMeans | golang/pageviewcount_service/dal_postgresql/dal_postgresql.go:600-637 | for every order the deletion removes exactly the matching rows; with left-over arguments it is refused |
| SqlExecution.InsertMeans | golang/pageviewcount_service/dal_postgresql/dal_postgresql.go:655-673 | for every order the insertion adds the record over the defaults |
| SqlExecution.SelectMeans | golang/pageviewcount_service/dal_postgresql/dal_postgresql.go:378-405 | a search is accepted exactly on a fresh argument vector with one key and known names, and finds the matching rows |
| DataHandlers.SearchSpelledOut | golang/pageviewcount_service/dal_postgresql/dal_postgresql.go:368-417 | the text of a search by one column, word for word |
| DataHandlers.ChangesSpelledOut | golang/pageviewcount_service/dal_postgresql/dal_postgresql.go:584-624 | the texts of an update and of a deletion by one column, word for word |
| DataHandlers.InsertionSpelledOut | golang/pageviewcount_service/dal_postgresql/dal_postgresql.go:655-670 | the text of an insertion of two fields, word for word |
| DataHandlers.UpdatePerforms | golang/pageviewcount_service/dal_postgresql/dal_postgresql.go:584-588 | the text and arguments of an update, as the server reads them, do what the replacement and criteria say, and are refused exactly with left-over arguments, without criteria or with a name that may not stand unquoted |
| DataHandlers.DeletePerforms | golang/pageviewcount_service/dal_postgresql/dal_postgresql.go:608-627 | the same of a deletion |
| DataHandlers.InsertPerforms | golang/pageviewcount_service/dal_postgresql/dal_postgresql.go:655-673 | the same of an insertion |
| DataHandlers.SelectPerforms | golang/pageviewcount_service/dal_postgresql/dal_postgresql.go:368-419 | exactly when the text and arguments of a search are accepted, and that it finds the matching rows |
| DataHandlers.DataHandler.constructor | golang/pageviewcount_service/dal_postgresql/dal_postgresql.go:253-288 | a fresh handler with batching on, batches of 10, descending order and its key projected |
| DataHandlers.DataHandler.SetBatchSize | golang/pageviewcount_service/dal_postgresql/dal_postgresql.go:320-326 | the size asked for, or the default of 10 for 0 |
| DataHandlers.DataHandler.SetProjection | golang/pageviewcount_service/dal_postgresql/dal_postgresql.go:328-332 | fields are only added |
| DataHandlers.DataHandler.SetFindCriteria | golang/pageviewcount_service/dal_postgresql/dal_postgresql.go:334-344 | criteria are taken exactly when they hold the whole key |
| DataHandlers.DataHandler.CheckPrimaryKey | golang/pageviewcount_service/dal_postgresql/dal_postgresql.go:298-314 | succeeds exactly when the criteria hold the whole key |
| DataHandlers.DataHandler.AppendClauses | golang/pageviewcount_service/dal_postgresql/dal_postgresql.go:573-582 | consecutive placeholders in some order of the map with each value in the place of its own; a panic exactly on nil |
| DataHandlers.DataHandler.UpdateRecord | golang/pageviewcount_service/dal_postgresql/dal_postgresql.go:545-598 | refusals, panics and, on a fresh argument vector, the update of exactly the matching rows, with text and arguments |
| DataHandlers.DataHandler.DeleteRecord | golang/pageviewcount_service/dal_postgresql/dal_postgresql.go:600-637 | refusals, panics and, on a fresh argument vector, the removal of exactly the matching rows |
| DataHandlers.DataHandler.InsertRecord | golang/pageviewcount_service/dal_postgresql/dal_postgresql.go:639-673 | one insertion per handler, whatever arguments were left; a blank record is refused |
| DataHandlers.DataHandler.ReadFlags | golang/pageviewcount_service/dal_postgresql/dal_postgresql.go:351-362 | the sort order is turned once per flag, so that an odd number of flags turns it |
| DataHandlers.DataHandler.Ready | golang/pageviewcount_service/dal_postgresql/dal_postgresql.go:346-366 | a search goes on exactly if nothing is staged and the key is given or many rows are wanted; an odd number of `reverse_sort` flags turns the order |
| DataHandlers.DataHandler.WriteUpdate | golang/pageviewcount_service/dal_postgresql/dal_postgresql.go:555-586 | the text and the arguments of an update in some order of both maps; a panic exactly on nil |
| DataHandlers.DataHandler.Finish | golang/pageviewcount_service/dal_postgresql/dal_postgresql.go:588-598 | the statement is run: accomplished with the new database and the number of affected rows, or refused with nothing changed |
| DataHandlers.DataHandler.Search | golang/pageviewcount_service/dal_postgresql/dal_postgresql.go:368-471 | the same of a search whose checks are passed |
| DataHandlers.DataHandler.FindRecord | golang/pageviewcount_service/dal_postgresql/dal_postgresql.go:346-471 | exactly when a search succeeds, panics or is refused, and what it adds: the first rows of the listing column by column and in the order of the key, at most a batch if batching is on; the number and the last of the rows fetched; and the continuation key, which holds each key column of that last row, exactly if more rows match than the batch size |
| DataHandlers.DataHandler.Keep | golang/pageviewcount_service/dal_postgresql/dal_postgresql.go:428-468 | the fetch loop leaves the page of the fetched rows, appended to what the handler held |
| DataHandlers.LookaheadPage | golang/pageviewcount_service/dal_postgresql/dal_postgresql.go:413-468 | with batching on the record is the first batch in sort order, and the continuation key is set exactly when more rows match and holds each key column of the first row not held |
| DataHandlers.RowsShown | golang/pageviewcount_service/dal_postgresql/dal_postgresql.go:413-450 | the rows that a search keeps, column by column: the first ones of the listing |
| DataHandlers.LastShown | golang/pageviewcount_service/dal_postgresql/dal_postgresql.go:450-468 | the last row fetched, and its key where it lies beyond the batch size |
| DataHandlers.UnlimitedPage | golang/pageviewcount_service/dal_postgresql/dal_postgresql.go:453-468 | with batching off everything is held, yet a continuation key is set exactly when the batch size is exceeded, and holds the key columns of the last row |

## Left out

- librdkafka, libpq, jsoncpp and database/sql: a poll, a statement or a commit answers in any way, and a payload is already decoded.
- Log retention: the log keeps its entries, and it is fixed over a run; a poll may still end without the entries that follow.
- A commit that is still in flight when its process dies and takes effect after the next start has read the reference.
- PostgresServer.Backend.WriteSourceRef: a null argument, which deletes the row, is not modelled; no consumer sends one.
- The truncation of a message at its first NUL by `strncpy` in cpp/KafkaClient.cpp:103, and 64-bit overflow of counters and offsets.
- cpp/MessageConsumer.cpp:77 with a batch size of zero, which divides by zero: the batch size is positive.
- MessageConsumers.MessageConsumer.RunProcess: the number of turns before a kill is a parameter, since a terminating method cannot run forever; every number is allowed. When it is asked to stop, and how the world answers in each turn, is chosen inside it.
- Page views through the one-argument `content_pageview`, which inserts into the parent table, and `content_get`.
- Client and content rows changed or deleted by the Go and Java services: the catalog is that of the stored procedures.
- c/consumer.c, which is deprecated.
- UUID and timestamp parsing: `UuidParser` is any predicate on texts.
- Validator.ValidateWithLegend: which of its possible verdicts a given order leads to is not stated, where one key panics and another is in error.
- Aliasing of nested Go maps: a nested map is copied out, handled and written back, which a schema or document sharing one map in two places would show.
- SchemaCompiler.InitSchema: what a rejected schema then holds is not stated; the service stops on one.
- DataHandlers.DataHandler.AppendClauses: slice values, which the code skips with a remark to do, are not modelled.
- DataHandlers.DataHandler.UpdateRecord: slice values, and names spelled otherwise than in lower-case letters, digits, `_` and, for tables, `.`, or longer than an identifier keeps: PostgreSQL would fold, cut or split them. In criteria also numbers and words such as `user` or `current_date`, which PostgreSQL takes for values there.
- DataHandlers.DataHandler.DeleteRecord: the same values and names.
- DataHandlers.DataHandler.InsertRecord: the same spellings; the `return_modified` variant and column types are not modelled; constraints are any predicate on the database.
- DataHandlers.DataHandler.FindRecord: the same names, slice criteria, which the code only prints, and negative batch sizes are not modelled.
- DataHandlers.DataHandler.constructor: the same names, and the null arguments that the original refuses.
- SqlStatements.ReadPrinted: in a select list or comparison a number or a word such as `user` is not read as a column; that PostgreSQL may take it for a value is not modelled.
- `ExecuteProc` of the handler and of the function executor: the same placeholder scheme over a list.
- HTTP handlers, configuration, connection URIs, the Spring service, the load generator and deployment.

# Verified model of mnesis

A Dafny model of the event-sourcing stack mnesis and proofs of what it is for. Ids,
commands, facts, payloads and frames are uninterpreted types, so every result holds
for every application. Integer widths are written out where they matter (`u64`
versions and positions, `i64` sequence numbers, `u32` schemas, `usize` byte counts).

`dafny verify dfyconfig.toml` checks the whole project.

| files | what they model |
|---|---|
| `CommandModel`, `CommandEngine`, `CommandSystem`, `CommandTheorems`, `CommandReplies`, `CommandProgress` | the durable command protocol: acceptance records, replay, the engine, every interleaving of any number of hosts over one stream, what each call is answered, and how each unresolved request is settled |
| `CommandHost`, `CommandAdmission` | admission, execution and shutdown of one command host, and what becomes of every call |
| `PostgresStore`, `PostgresCommitted`, `PostgresScan`, `PostgresStreamRead`, `PostgresProgress`, `PostgresPage`, `Ordering` | concurrent transactions, what the table holds of them, the `$all` order, scans behind a cutoff, stream reads up to a captured head, pages bounded by rows and bytes |
| `StoreContract`, `EventLog` | the checks all stores share; the one log a store stands for and what appending to it means |
| `FjallKeys`, `FjallIndex`, `FjallStore`, `FjallScan` | byte keys and their order, the four partitions, appends, range scans |
| `FjallBlocking`, `FjallExport`, `FjallWorker` | batched streams, export batches and the byte ranges they reopen, the two-queue worker |
| `InMemoryStore`, `InMemoryRead`, `InMemoryRuns` | the in-memory store, paged reads and frozen exports, and every schedule of reads, exports and writes |
| `Transform` | the schema-transform graph check and the generated upcast loop |

Protocols are transition systems: `Step` lists the atomic actions, `Enabled` and
`After` (or `Possible` and `Moved`) say what each does, `Ran` (or `Played`) is the
state after a list of actions. A result about "every run" is a lemma for all lists of
actions, and one about "every continuation" is for all lists that extend one. Code
that updates in place is a class or a method with loops, proved against a function of
its input.

What the model assumes. A command load returns a committed prefix of the stream,
however short; an append is one compare-and-swap on the stream's head, and after it is
issued it commits, is refused or is lost at any moment, whether or not anyone waits.
Encoding, envelope and version overflow errors come from preparing an append; once it is
issued any other error may come back, whatever became of it.
An insert in Postgres waits for an open transaction that holds the same unique key and
fails on a committed one; a snapshot's cutoff is a transaction id below which nothing
is running. Fjall is an ordered byte map with atomic transactions and snapshots. A
stored frame decodes to what was encoded; encoding may fail. The repository's promise
that a repeated target in one atomic append extends a running head
(`crates/store-testing/src/lib.rs:91-93`) is not what the adapters do: they reject
repeated targets, and the model follows them.

One promise does not hold as it stands. A `Conflict` answer should mean that the
request is not in the history. `ConflictExactly` says when it does not: a request whose
record is in the history can still be answered with a conflict if and only if the load
behind the answer ends at or before that record. A first load that stops short does it
(`StaleConflict`), and so does the reload after a refused append, which compares no
versions (`ReloadConflict`); the latter reaches the first request of a stream too. A load
past the expected version is final (`ConflictIsFinal`), and so is an up-to-date one
(`UpToDateConflict`).

## Model

| member | source | states |
|---|---|---|
| CommandModel.Apply | crates/command/src/model.rs:370-390 | the loop over the facts of a record folds them in order, and refuses a repeated id or an exceeded limit by marking the state not intact |
| CommandModel.GoodFold | crates/command/src/model.rs:345-390 | replaying a history in which every record follows its predecessors leaves an intact state with exactly its receipts, its fact count and the domain state of all its facts in order |
| CommandModel.GoodShape | crates/command/src/model.rs:407-450 | such a history has unique ids, record k expecting k-1 with receipt version k, facts decided on exactly the earlier facts, and all limits kept |
| CommandModel.DecidesExactly | crates/command/src/model.rs:418-450 | on a good history a command is decided exactly when there is room for a record, the application decides facts on all earlier facts and there is room for them; otherwise the objection is the first of these that fails |
| CommandModel.KnowsExactly | crates/command/src/model.rs:335-344 | the receipt and the original of an id are those of the record with that id, other content under it is a mismatch, and an unused id is unknown |
| CommandModel.FollowsExactly | crates/command/src/model.rs:418-450 | the one record the engine can append next to a history is the one that accepts its request there |
| CommandEngine.AggregateRoot.Replay | crates/mnesis/src/aggregate.rs:358-382 | succeeds exactly on the next version within the limit; each error exactly, with its contents; one record folded on success, nothing changed on failure |
| CommandEngine.AggregateRoot.CommitPersisted | crates/mnesis/src/aggregate.rs:423-464 | version and state advance together past a persisted record, or not at all |
| CommandEngine.Rehydrate | crates/store/src/repository.rs:288-328 | loading is the fold of the rows read, up to the first decode or kernel error |
| CommandEngine.GoodLoads | crates/store/src/repository.rs:288-328 | no decode check, version check, rehydration limit or integrity rule fires on any prefix of a good history, and it loads as its fold |
| CommandEngine.ReplaysExactly | crates/store/src/repository.rs:288-328 | any rows replay exactly when each is in its place and they are not too many; else the first misplaced one is a decode error, unless the limit strikes before it |
| CommandEngine.CoherentExactly | crates/command/src/model.rs:370-390 | any rows fold to an intact state exactly when no id repeats and all fact limits hold, and then to exactly their receipts and facts |
| CommandEngine.AfterLoadCases | crates/command/src/engine.rs:208-240 | between load and append a held request is dropped only when the load passed it, and an append replaces nothing or its own request |
| CommandEngine.Engine.Load | crates/command/src/engine.rs:101-113 | timeout, store failure, corrupt state and success told apart |
| CommandEngine.Engine.Settle | crates/command/src/engine.rs:115-143 | a held request is cleared exactly when the load is past its expected version |
| CommandEngine.Engine.Fail | crates/command/src/engine.rs:173-188 | a definite failure restores the older held request and is then uncertain, or is definite when there was none |
| CommandEngine.Engine.Write | crates/command/src/engine.rs:145-206 | each outcome of the append classified as definite or uncertain with the matching held request |
| CommandEngine.Engine.Submit | crates/command/src/engine.rs:208-271 | the reply and the held request of a whole submission, for every answer of the store |
| CommandEngine.Engine.Read | crates/command/src/engine.rs:273-280 | a read is withheld while a request is unsettled |
| CommandEngine.Engine.Lookup | crates/command/src/engine.rs:282-294 | a known original is readable whatever is unsettled |
| CommandEngine.Engine.Retry | crates/command/src/engine.rs:296-313 | a retry submits the held original, else the one the stream remembers |
| CommandEngine.Resume | crates/command/src/host.rs:343-361 | shutting an engine down and resuming from its report starts the next one with exactly the request the first held and leaves nothing behind |
| CommandSystem.RunKeeps | crates/command/src/engine.rs:39-313 | the invariant of every interleaving: good history, every append decided on the prefix it expects, barrier and replies sound |
| CommandTheorems.HistoryIsSound | crates/command/src/engine.rs:145-271 | after every run the stream has the promised shape, and every committed prefix loads with exactly its receipts and domain state |
| CommandTheorems.BarrierHolds | crates/command/src/host.rs:343-361 | whatever commits later was held before, as pending, handed off or reported, by every host descended from its issuer |
| CommandTheorems.ResumedHolds | crates/command/src/host.rs:94-121 | a host dropped at any await, reported and resumed is succeeded by one that holds the same request and answers for everything it issued |
| CommandTheorems.ClearedIsPast | crates/command/src/engine.rs:115-206 | a running host gives up a held request only after the head passed its base |
| CommandTheorems.ClearedNeverCommits | crates/command/src/engine.rs:115-206 | once a held request is cleared, no append of it, issued or yet to be, commits in any continuation |
| CommandTheorems.AcceptancesAgree | crates/command/src/model.rs:335-344 | all acceptances of a request carry the one receipt stored with it |
| CommandTheorems.ConflictIsFinal | crates/command/src/engine.rs:237-250 | a conflict from a load past the expected version is final in every continuation |
| CommandTheorems.UpToDateConflict | crates/command/src/engine.rs:237-250 | with an up-to-date load a conflict means the request is absent and no append of it so far can ever commit |
| CommandTheorems.StaleConflict | crates/command/src/engine.rs:237-239 | a first load that stops short of an accepted record answers its request with a conflict |
| CommandTheorems.ReloadConflict | crates/command/src/engine.rs:237-250 | a host that repeats an accepted request on exactly the records before it is refused, and a reload that ends there too answers a conflict |
| CommandTheorems.ConflictExactly | crates/command/src/engine.rs:208-271 | after every run, a request in the history can still be answered with a conflict from a load of `seen` records in some continuation if and only if that load does not reach its record |
| CommandTheorems.UncertainIsHeld | crates/command/src/engine.rs:115-206 | every uncertain answer names the request its host still holds |
| CommandTheorems.LoadIsSubmit | crates/command/src/engine.rs:145-239 | a submission answered by its load, or by a failure that precedes its append, ends as the engine's call does |
| CommandTheorems.ObserveIsSubmit | crates/command/src/engine.rs:240-271 | one that appends ends as the engine's call does, whatever others did in between |
| CommandTheorems.ReloadIsSubmit | crates/command/src/engine.rs:240-250 | so does one that reloads after a conflict |
| CommandReplies.RepeatIsAccepted | crates/command/src/engine.rs:213-250 | in every run, a submission, or the reload after a refused append, whose load reaches the record of its request is answered with that record's receipt |
| CommandReplies.ReusedIdIsMismatched | crates/command/src/engine.rs:213-249 | other content under a recorded id is answered as a mismatch and changes nothing |
| CommandReplies.UnresolvedHoldsBack | crates/command/src/engine.rs:218-236 | behind an unresolved request nothing new is appended: another request is uncertain, the same id with other content a mismatch |
| CommandReplies.MisdirectedIsConflict | crates/command/src/engine.rs:237-239 | with nothing unresolved, an unrecorded request that does not expect the version after the load is a conflict |
| CommandReplies.TimelyIsDecided | crates/command/src/engine.rs:145-206 | an unrecorded request at its version is appended as the record the application decides on exactly the facts loaded; a rejection, a limit or a failure to prepare the append is answered so, and leaves an older unresolved request as it was |
| CommandReplies.AppendIsAnswered | crates/command/src/engine.rs:157-270 | a saved append is answered with its own receipt, a refused one is reloaded, and any other error or silence is uncertain with the request still held |
| CommandReplies.ReloadWithoutIsConflict | crates/command/src/engine.rs:241-250 | a reload that does not reach a record of the id is a conflict |
| CommandReplies.FailedLoadIsTold | crates/command/src/engine.rs:101-113 | a load that times out or fails is told as such and leaves what the host holds |
| CommandReplies.ReadIsAnswered | crates/command/src/engine.rs:273-280 | a read is answered with the version and the domain state of exactly the records loaded, or withheld while a request is unresolved |
| CommandReplies.ReadIsSettled | crates/command/src/engine.rs:115-143 | after a read is answered no uncommitted append of its host or an ancestor ever commits |
| CommandReplies.LookupIsAnswered | crates/command/src/engine.rs:282-294 | a lookup finds exactly the request recorded under the id, and says there is none only when nothing is unresolved |
| CommandReplies.RetryIsOfOriginal | crates/command/src/engine.rs:296-308 | a retry submits the request held under the id, and looks it up otherwise |
| CommandReplies.RetryFindsOriginal | crates/command/src/engine.rs:305-312 | a retry that looks up submits exactly the recorded request, or is unknown or withheld |
| CommandReplies.NotesHold | crates/command/src/engine.rs:273-294 | in every run every value ever read and every request ever found is true of the history, and stays so |
| CommandTheorems.AcceptanceExtends | crates/command/src/engine.rs:208-271 | from every state with an idle host that holds nothing or the request itself, a request with an unused id at the head, that the application decides within the limits, is accepted with exactly those facts, its record added and the host left holding nothing |
| CommandTheorems.ConflictsHappen | crates/command/src/engine.rs:237-250 | a run that accepts two requests, after which loads of nothing answer both with a conflict |
| CommandProgress.RunHolds | crates/command/src/engine.rs:145-206 | in every run, every request a host keeps, pending, handed off or reported, was decided on the stream at the version it expects, and that version is not beyond the head |
| CommandProgress.IdleSettles | crates/command/src/engine.rs:115-143 | an idle host of any run can get rid of the request it holds: by a read once the head passed its base, and by submitting it again while the head is there, which the stream accepts |
| CommandProgress.HostSettles | crates/command/src/engine.rs:208-280 | so can a running host in the middle of any call |
| CommandProgress.CustodySettles | crates/command/src/host.rs:343-361 | no request is left behind: whatever a dropped or reported host keeps, some continuation settles in a host resumed from it |
| CommandProgress.AllSettle | crates/command/src/engine.rs:115-271 | every run has a continuation after which no running host holds anything unresolved |
| CommandHost.ShutdownLaw | crates/command/src/host.rs:511-571 | at every point of every run the started calls are a prefix of the admission order, the refused ones follow, none is admitted twice, all but the last started are served and all refused are answered closed |
| CommandHost.GoneSettlesAll | crates/command/src/host.rs:662-694 | when the worker is gone every admitted call is settled, and only the one an abort cut off can lack its reply |
| CommandHost.StoppingIsFinal | crates/command/src/host.rs:511-571 | once stopping, nothing is admitted and nothing new is started |
| CommandHost.QueueIsBounded | crates/command/src/host.rs:522-571 | queued calls and unsent reservations never exceed the capacity |
| CommandHost.ClosedAllMeans | crates/command/src/host.rs:276-288 | answering every queued call closed changes exactly those answers |
| CommandHost.Inbox.Drop | crates/command/src/host.rs:263-289 | admission stops first, then every queued call is answered closed and no other answer changes |
| CommandAdmission.SendDecides | crates/command/src/host.rs:522-570 | in every run a send on a running host admits the call if its reservation found room, and else answers it at once: full when there was no room, closed when the host was stopping or the channel shut |
| CommandAdmission.UnadmittedIsTurned | crates/command/src/host.rs:522-570 | a call answered without being admitted was answered by its own send, and so for those reasons |
| CommandAdmission.AnswersAreFinal | crates/command/src/host.rs:248-289 | no answer ever changes |
| CommandAdmission.AdmittedIsServed | crates/command/src/host.rs:674-692 | from every state with a running host the worker's own steps serve every admitted call |
| CommandAdmission.UnstoppedServesAll | crates/command/src/host.rs:674-692 | in a run without a stop or an abort no admitted call is refused, and a worker that has left has served all of them |
| CommandAdmission.ShutdownCompletes | crates/command/src/host.rs:268-289 | from every state with a stopping host the worker's own steps end it, with every started call served and every other admitted one closed, but for one an abort cut off |
| CommandAdmission.StopTakesHold | crates/command/src/host.rs:510-520 | after a stop nothing is admitted or started, whatever follows |
| PostgresPage.ValidateBytes | adapters/postgres/src/store.rs:459-473 | in checked 64-bit arithmetic, accepts exactly the rows whose accounted bytes are within the limit; the error is the size, or an overflow exactly when the size has no signed 64-bit value |
| PostgresPage.PageIsPrefix | adapters/postgres/src/page.rs:10-52 | the rows the page query keeps are the longest nonempty prefix of what remains within both limits, or one oversized row |
| PostgresPage.ReadPages | adapters/postgres/src/store.rs:697-722 | page after page delivers everything before the first oversized row and reports that row |
| PostgresStore.ValidateSizes | adapters/postgres/src/store.rs:442-457 | accepts exactly events that are all within the limit, and refuses with the error of the first that is not |
| PostgresStore.AccountedAlike | adapters/postgres/src/page.rs:8-13 | the append's check and the page query account the same bytes to an event, with and without metadata |
| PostgresScan.AcceptedExactly | adapters/postgres/src/limits.rs:5-12 | the append's check accepts exactly the events a reader under the same limit takes |
| PostgresStore.RunKeeps | adapters/postgres/src/store.rs:629-666 | the invariant of every interleaving of transactions |
| PostgresStore.CommitTable | adapters/postgres/src/store.rs:504-536 | a commit joins the table behind every earlier version of its streams, because its id was taken after the heads were read |
| PostgresCommitted.CommittedIsStored | adapters/postgres/src/store.rs:329-378 | in every run every event of a committed append is in the table whole, as the append was called with it, at the transaction's id and in the order given |
| PostgresCommitted.StoredIsCommitted | adapters/postgres/src/store.rs:629-666 | every row of the table is an event of exactly one committed append, so nothing of an aborted or open one is |
| PostgresProgress.AppendCommits | adapters/postgres/src/store.rs:629-666 | from every state in which nobody else is writing, an append that expects the committed heads commits |
| PostgresScan.StreamsAreGapFree | adapters/postgres/src/store.rs:629-666 | in every run a stream's committed versions are exactly 1..n and `$all` restricted to it is its version order |
| PostgresScan.HeadIsExactly | adapters/postgres/src/store.rs:503-517 | the head an append compares with is the number of versions the stream has |
| PostgresScan.StreamReadRepeats | adapters/postgres/src/store.rs:672-722 | a stream read bounded by the head it saw reads the same rows whatever commits meanwhile |
| PostgresScan.SelectedIsAbove | adapters/postgres/src/store.rs:757-776 | the branch for a saved sequence beyond the column's range selects the same rows |
| PostgresScan.RowsArriveAbove | adapters/postgres/src/store.rs:735-741 | no transaction adds a row below a settled cutoff |
| PostgresScan.RestContinues | adapters/postgres/src/store.rs:754-790 | the rows under the cutoff behind the last one delivered continue the log without a gap |
| PostgresScan.PageIsBounded | adapters/postgres/src/page.rs:21-52 | what a page query returns of the rows it could is as many as both limits allow, and at least one |
| PostgresScan.DeliveredIsPrefix | adapters/postgres/src/store.rs:730-812 | what a consumer was handed over any number of scans is a prefix of the committed log above its start, now and in every continuation |
| PostgresScan.EndedScanIsComplete | adapters/postgres/src/store.rs:730-812 | a scan that ends has handed over every row below its cutoff |
| PostgresScan.RejectedIsNext | adapters/postgres/src/page.rs:54-79 | a size error is about the very next row of the log |
| PostgresScan.CheckedIsNeverRejected | adapters/postgres/src/store.rs:442-473 | an `$all` reader whose byte limit is at least the writers' never rejects a row that the append's size check accepted |
| PostgresProgress.ScanEnds | adapters/postgres/src/store.rs:752-812 | an open scan that is polled ends with everything under its cutoff handed over |
| PostgresProgress.CatchesUp | adapters/postgres/src/store.rs:730-812 | when nobody is writing a consumer can be handed the whole committed log above its start |
| PostgresStreamRead.RemainingIsRest | adapters/postgres/src/store.rs:592-617 | each page query of a stream read, whenever it comes, finds exactly the rows not handed out yet |
| PostgresStreamRead.StreamReadIsWhole | adapters/postgres/src/store.rs:672-724 | whatever commits between the opening and any page, a stream read has handed out a prefix of the versions from its start to the head it captured, all of them when it ends, and all before the first oversized row when it fails |
| PostgresStreamRead.ReadFinishes | adapters/postgres/src/store.rs:697-722 | from every state a read that is polled ends, without a failure exactly when no row of its part is oversized |
| PostgresStreamRead.CheckedNeverFails | adapters/postgres/src/store.rs:442-473 | a stream read under limits at least the writers' never fails on a row that the append's size check accepted |
| StoreContract.ValidateAppendVersions | crates/store/src/store.rs:434-471 | accepts exactly a batch that follows the expected current version; one at fault only for passing the ceiling is an overflow, never a conflict |
| StoreContract.FaultIsOne | crates/store/src/store.rs:434-471 | a batch follows, strays or only overruns, and these exclude one another |
| StoreContract.ValidateAtomicRuns | crates/store/src/import.rs:296-318 | accepts exactly runs that follow their own expected versions and names the first that does not |
| StoreContract.ValidateDistinctTargets | crates/store/src/import.rs:331-346 | accepts exactly distinct targets and names the first repetition |
| EventLog.RunExtends | adapters/fjall/src/plan.rs:99-154 | a run extends its own stream and no other |
| EventLog.VersionIsPlace | adapters/fjall/src/plan.rs:111-118 | an entry's version is its place in its stream |
| EventLog.EachAtItsVersion | adapters/fjall/src/plan.rs:99-154 | each event of an accepted batch lies in its stream at the version it was given, with its own frame, and at the next position |
| EventLog.OneByOneGrows | adapters/fjall/src/store.rs:390-432 | an atomic append only ever extends the log |
| EventLog.EachExtended | adapters/fjall/src/store.rs:390-432 | after an atomic append with distinct targets each target is the stream it was, then its run |
| EventLog.EachOfEachAtItsVersion | adapters/fjall/src/store.rs:390-432 | so does each event of each run of an atomic append |
| EventLog.StreamsAtStart | adapters/fjall/src/store.rs:357-379 | with distinct targets every run of an atomic append meets the stream as it was at the start |
| EventLog.RefusedAtStart | adapters/fjall/src/store.rs:357-379 | a run refused at the starting heads is refused in sequence |
| FjallKeys.BigOrder | adapters/fjall/src/wire_key.rs:38-57 | big-endian bytes keep the order of numbers |
| FjallKeys.EventKeyRoundTrip | adapters/fjall/src/wire_key.rs:47-107 | encoding succeeds exactly within the length limit and decoding inverts it |
| FjallKeys.EventKeyIsCanonical | adapters/fjall/src/wire_key.rs:75-107 | a key that decodes is the one encoding of what it decodes to |
| FjallKeys.EventKeyOrder | adapters/fjall/src/wire_key.rs:38-57 | keys sort by id length, id and version |
| FjallKeys.EventRange | adapters/fjall/src/scan.rs:109-125 | the key range of a stream holds exactly its own keys from the start version, ids that are prefixes of one another included |
| FjallKeys.GlobalKeyRoundTrip | adapters/fjall/src/wire_key.rs:128-192 | the same for `$all` keys |
| FjallKeys.GlobalKeyIsCanonical | adapters/fjall/src/wire_key.rs:151-192 | a `$all` key that decodes is the one encoding of what it decodes to |
| FjallKeys.GlobalKeyOrder | adapters/fjall/src/wire_key.rs:116-136 | positions alone decide the order of `$all` keys |
| FjallKeys.GlobalRange | adapters/fjall/src/scan.rs:148-166 | the lower bound with an empty id admits exactly the positions from its own up |
| FjallKeys.StreamVersionRoundTrip | adapters/fjall/src/wire_key.rs:198-218 | the counter codec round-trips |
| FjallIndex.EventRows | adapters/fjall/src/partition.rs:248-254 | the event rows of a stream are exactly its versions 1..head, each with its frame |
| FjallIndex.RowsOnly | adapters/fjall/src/partition.rs:248-254 | a partition holds no key but those of the log's entries |
| FjallIndex.GlobalRows | adapters/fjall/src/partition.rs:248-254 | every position has exactly one `$all` row, with the frame of the event row |
| FjallIndex.HeadsAre | adapters/fjall/src/partition.rs:202-214 | there is one counter per nonempty stream, holding its head |
| FjallIndex.ValidHasKeys | adapters/fjall/src/wire_key.rs:47-65 | the ids a store takes are the nonempty ones for which there are keys |
| FjallStore.PrepareRun | adapters/fjall/src/plan.rs:68-86 | all frames, or the version of the first that cannot be encoded |
| FjallStore.PlanPreparedRun | adapters/fjall/src/plan.rs:99-154 | the next versions, positions and keys, or an overflow exactly when a counter would pass its ceiling |
| FjallStore.StageRun | adapters/fjall/src/store.rs:156-166 | staging a planned run row by row gives the partitions of the extended log |
| FjallStore.Storage.Append | adapters/fjall/src/store.rs:113-191 | succeeds exactly when the log accepts the batch, then all four partitions are those of the extended log (the `$all` one stays empty when the index is disabled), and otherwise nothing changes; each error exactly |
| FjallStore.CheckWrites | adapters/fjall/src/store.rs:359-379 | nothing is refused here that sequential appends would accept |
| FjallStore.WriteRuns | adapters/fjall/src/store.rs:390-432 | staging with one running counter succeeds exactly when the runs are accepted one after another, also when overflow strikes late |
| FjallStore.Storage.AtomicAppendMany | adapters/fjall/src/store.rs:440-482 | succeeds exactly when the targets are distinct and appending the runs one after another would, with the same partitions and last position, and otherwise changes nothing |
| FjallStore.CountersAddUp | adapters/fjall/src/partition.rs:202-236 | the stored stream versions add up to the stored position counter |
| FjallScan.ScanCursor.Next | adapters/fjall/src/scan.rs:297-320 | rows in key order; an error ends the cursor for good |
| FjallScan.StreamRange | adapters/fjall/src/scan.rs:109-125 | the byte range of a stream lists exactly its versions in order |
| FjallScan.ReadStream | adapters/fjall/src/store.rs:193-210 | a stream read yields exactly that stream's versions from the start to its head |
| FjallScan.AllRange | adapters/fjall/src/scan.rs:148-166 | the byte range above a position lists exactly the later positions in order |
| FjallScan.ReadAll | adapters/fjall/src/store.rs:212-235 | an `$all` read yields exactly the entries strictly above its start with their streams; nothing above the ceiling; refused when the index is disabled |
| FjallScan.AllRestricted | adapters/fjall/src/partition.rs:248-254 | `$all` restricted to a stream is that stream |
| FjallScan.AppendedIsRead | adapters/fjall/src/store.rs:113-235 | what was appended is what is read: each event at its version in its stream and at the next position of `$all`, and other streams as before |
| FjallBlocking.Fetch | adapters/fjall/src/blocking.rs:474-499 | a batch and what it leaves are the cursor's rows; it keeps both limits but for its last row's bytes, and leaves something only when it filled one; a counting overflow ends the scan with an error |
| FjallBlocking.BlockingStream.PollNext | adapters/fjall/src/blocking.rs:503-547 | each poll yields the next row of the plain cursor; the stream ends only when nothing is left and yields nothing after that, a broken worker included; a broken worker's error takes the place of the rest, and so does the error of a byte count that overflows, behind plain rows |
| FjallBlocking.ReopensBehind | adapters/fjall/src/export.rs:204-225 | reopening at the version after a row gives the rows behind it |
| FjallBlocking.ExportBatch | adapters/fjall/src/export.rs:233-271 | the rows of one export batch, within the same limits, and where to reopen, ending at the version ceiling, at the first error or with the error of a size overflow |
| FjallBlocking.ExportFetch | adapters/fjall/src/export.rs:233-271 | a batch and what reopening gives are the plain rows |
| FjallBlocking.Export | adapters/fjall/src/export.rs:195-271 | batch after batch on one snapshot gives the plain rows, or those before an overflow and its error |
| FjallExport.ReopenIsRange | adapters/fjall/src/export.rs:195-225 | reopening at a version on one snapshot is scanning the stream's byte range of the `events` partition from the key of that version |
| FjallExport.ExportStored | adapters/fjall/src/export.rs:195-271 | an export of a stored stream in batches yields exactly its versions from the start to its head, or those before an overflow of the byte count and its error |
| FjallWorker.EveryItemOnce | adapters/fjall/src/blocking.rs:127-206 | at every point of every run the worker ran a merge of a prefix of the jobs and a prefix of the cleanups, each once and in order |
| FjallWorker.StopsOnlyDrained | adapters/fjall/src/blocking.rs:166-206 | it stops exactly when both channels are closed and drained, and can go on while anything waits |
| FjallWorker.SentIsSubmitted | adapters/fjall/src/blocking.rs:127-206 | the channels hold exactly what was sent, in order |
| FjallWorker.RunsAll | adapters/fjall/src/blocking.rs:127-206 | once both channels are closed the worker alone ends, having run everything ever sent once and in the order of its queue |
| FjallWorker.ServedInTurn | adapters/fjall/src/blocking.rs:80-163 | an item with k items ahead is served within 2(k + 1) rounds while both queues are busy |
| InMemoryStore.Stage | adapters/inmemory/src/lib.rs:465-487 | frames with the next positions, or an error exactly when one cannot be encoded, which it names, or the position after the last does not exist |
| InMemoryStore.Store.Append | adapters/inmemory/src/lib.rs:445-511 | succeeds exactly when the log accepts the batch, then both maps are those of the extended log, and otherwise nothing changes; the largest position is never assigned |
| InMemoryStore.Store.AtomicAppendMany | adapters/inmemory/src/lib.rs:684-750 | succeeds exactly when the targets are distinct and appending one after another would, with the same maps and last position, and otherwise changes nothing |
| InMemoryRead.PartitionPoint | adapters/inmemory/src/lib.rs:410-417 | binary search finds where the versions reach the bound |
| InMemoryRead.ScanBatch | adapters/inmemory/src/lib.rs:410-417 | a page is the first rows from a version, short only at the end |
| InMemoryRead.StreamReader.Refill | adapters/inmemory/src/lib.rs:260-273 | a refill continues what was handed out, on the rows of that moment |
| InMemoryRead.StreamReader.Next | adapters/inmemory/src/lib.rs:513-576 | for every page size and any appends between refills, the rows from the start version of the store as it was at the last refill, of which there was one, gap-free and in order, then ended for good |
| InMemoryRead.AllReader.Refill | adapters/inmemory/src/lib.rs:289-303 | the same for a refill of `$all` |
| InMemoryRead.AllReader.Next | adapters/inmemory/src/lib.rs:578-619 | the same for the log strictly above a position |
| InMemoryRead.RowsGrow | adapters/inmemory/src/lib.rs:487-498 | a log that grew kept every stream's rows as a prefix, which is what a refill relies on |
| InMemoryRead.BehindGrows | adapters/inmemory/src/lib.rs:487-498 | a log that grew kept every entry of `$all` |
| InMemoryRead.AboveIsLog | adapters/inmemory/src/lib.rs:289-303 | the index of a store shows its log above a position, each entry with its stream and version |
| InMemoryRead.AppendedIsShown | adapters/inmemory/src/lib.rs:445-619 | what was appended is what is read, in its stream and in `$all` |
| InMemoryRead.SessionHeads | adapters/inmemory/src/export.rs:57-79 | a session's heads are those of one log |
| InMemoryRead.ExportSession.constructor | adapters/inmemory/src/export.rs:57-79 | a session captures the heads of the store's log at that moment |
| InMemoryRead.ExportCursor.Next | adapters/inmemory/src/export.rs:113-155 | a cursor of a session hands out exactly the rows its stream had when the session opened, whatever the store holds by now, unless it expires |
| InMemoryRuns.Perform | adapters/inmemory/src/lib.rs:445-511 | every write call makes of the log what the call means, and only extends it |
| InMemoryRuns.ReadStreamWhileWriting | adapters/inmemory/src/lib.rs:513-576 | for every schedule of appends, atomic appends and polls, a stream read yields a row a poll and, when it ends, exactly the rows the store had at one of its polls |
| InMemoryRuns.ReadAllWhileWriting | adapters/inmemory/src/lib.rs:578-619 | the same of an `$all` read |
| InMemoryRuns.ExportWhileWriting | adapters/inmemory/src/export.rs:57-155 | for every schedule of writes, openings and polls, all writes take effect, and every cursor of a session hands out a row a poll of the rows its stream had in the one state the session opened on, all of them when it ends, unless a poll found the session expired |
| InMemoryRuns.CommitIsWhole | adapters/inmemory/src/lib.rs:684-750 | in every run, the log at any moment, and so the cut of a session opened then, holds every run of an atomic commit or no run of it |
| InMemoryRuns.ExportHoldsCommitsWhole | adapters/inmemory/src/export.rs:57-155 | in every run, what the cursors of one session export in full holds all runs of every atomic commit made before the session and none of any made after it |
| Transform.Collect | crates/macros/src/transform.rs:228-252 | rejects exactly a repeated source, and computes sources and latest schemas |
| Transform.CheckFed | crates/macros/src/transform.rs:257-267 | rejects exactly a transform that starts neither at schema 1 nor where another ends |
| Transform.CheckContinued | crates/macros/src/transform.rs:268-285 | rejects exactly a declared schema below the latest of its name that no transform leaves |
| Transform.LocalIsGlobal | crates/macros/src/transform.rs:253-285 | the local checks hold exactly when dispatch is unambiguous, every transform is reachable from schema 1 and every declared schema leads to the latest schema of the name it ends at |
| Transform.ValidateGraph | crates/macros/src/transform.rs:228-287 | accepts exactly the sound graphs and returns the latest schema of every declared name |
| Transform.Upcast | crates/macros/src/transform.rs:352-363 | the generated loop ends on every input and returns the declared chain's result after the guards |
| Transform.UpcastMeets | crates/macros/src/transform.rs:315-375 | on a sound graph a schema is rejected exactly when its name is known and it is undeclared, unknown names pass unchanged, and otherwise the result is at the current version of the name the chain ends with |
| Transform.UpcastComposes | crates/macros/src/transform.rs:289-305 | a declared schema is upcast to what the functions of its chain, composed in order, make of its payload, at the end of the chain, or to the fault of the path |
| Transform.ChainClimbs | crates/macros/src/transform.rs:350-351 | every transform of a chain raises the schema by one |
| Transform.FirstFault | crates/macros/src/transform.rs:296-302 | the fault of a path is that of its first function that fails, on what the ones before it made |
| Transform.WholeIsUnique | crates/macros/src/transform.rs:228-252 | there is only one whole chain from a schema |
| Transform.WholeExists | crates/macros/src/transform.rs:350-363 | and there always is one |
| Transform.UpcastIsIdempotent | crates/macros/src/transform.rs:352-363 | upcasting twice is upcasting once |

## Left out

- Checkpoints, snapshots, projections and sagas: fixed header codecs and dispatch.
- Wire frames, CBOR, JSON and envelopes: frames and records are opaque values here.
- Wake and NOTIFY routing, timers, deadlines and reconnects: an expiry or a timeout is a free choice of the environment.
- Tracing, metrics, builders, migrations, SQL shape checks, durability settings, alignment and compression.
- I/O errors of a Fjall commit or scan: a transaction commits or is dropped, and a stored frame always decodes.
- The mapping of Postgres errors to conflicts, and the corruption checks of a fetched row.
- Fjall export listings by stream id: the export of events by version is modelled, the listing resumes the same way.
- Parsing of transform attributes: an edge arrives with its two schemas already checked to be consecutive.
- The order in which an atomic append reports one of several errors, beyond repeated targets coming first.

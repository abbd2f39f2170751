# Verification of the light-governance backend

A Dafny model of the parts of the light-governance service that hold state, with proofs about
every input, every state or every run. `dafny verify dfyconfig.toml` checks all of it.

| file | what it models |
|---|---|
| `ShardLines.dfy`, `ShardFiles.dfy` | bytes of a JSONL shard file: appending with size rotation, scanning, addressing |
| `LogReplay.dfy`, `LogStore.dfy`, `LogBytes.dfy` | transactions that append to the log and then write a table, rollback, and the index rebuild, on rows and on the bytes of the shard files |
| `Reconcile.dfy` | the shard manifest and its reconciliation |
| `TimeText.dfy` | times stored as text and compared by SQL; shard paths sorted by name |
| `Dispatch.dfy` | rule matching and adjudication |
| `Cases.dfy`, `CaseInvariants.dfy`, `CaseTheorems.dfy`, `CaseService.dfy` | the case tables, all operations on them, escalation and re-evaluation sweeps |
| `CaseLaws.dfy`, `CaseRecords.dfy` | what each operation does to a case, and where every column of a case and a rule comes from |
| `CaseLog.dfy`, `CaseRebuild.dfy`, `RebuildRows.dfy`, `RebuildTheorems.dfy` | the lines the case services leave on disk, rolled-back transactions included, and what a rebuild makes of them: cases, referrals, escalations and rules |
| `CaseRuns.dfy` | short runs in which a case service or a rebuild fails its purpose |
| `LightOps.dfy`, `LightOpsProofs.dfy`, `LightOpsRecords.dfy`, `LightOpsClosure.dfy`, `LightOpsService.dfy` | in-memory complaints with optimistic versions, request keys and injected faults |
| `Hub.dfy`, `HubProofs.dfy`, `HubRecords.dfy`, `HubService.dfy` | the capacity registry |
| `Scheduler.dfy` | the retry loop and its backoff |
| `Common.dfy` | options, results, decimal notation |

Stateful components come in two layers: a specification (a state value, one function per
operation, and lemmas over all runs of operations) and a class whose methods change fields
step by step as the source does and are proved to have exactly the specified effect.

## Conventions

- Times are integers (instants); only `TimeText.dfy` has broken-down times. The queries compare
  texts; `TimeText.OverdueQueryExact` and `TimeText.RuleQueryExact` say exactly when that is the
  same as comparing instants. The integer models are the case in which it is.
- Clock readings, fresh identifiers, cancelled contexts and storage failures are parameters:
  `stored`, `failing`, `unwritable` and `abort` say which transactions or writes fail. One sweep
  reads the clock once. A cancelled context returns before any step and changes nothing.
- A locked method or a transaction is one atomic step. Integers are unbounded except in
  `Scheduler.dfy`, where durations wrap around at 64 bits.
- The result of a query whose order or content matters is a parameter constrained by what the
  query promises (`IsOverdueList`, `IsSelection`, `IsListing`, `SortedListing`), so results hold for every order
  the database may choose among ties.

## Where the code differs from what it is meant to do

Each item names the exact condition and a concrete run or input that fails.

- Text order is not time order: in UTC, a stored time whose fraction of a second begins with
  the whole fraction of another compares the wrong way round (`TimeText.TextOrderIsTimeOrder`,
  `TimeText.OverdueCanBeMissed`). Between times of one numeric offset it is always right; times
  of different offsets, as before and after a daylight-saving change, are not compared here.
- The comment on the re-evaluation worker says that waiting cases are brought to the newest
  rule. Adjudication tests a rule at the registration time, so a rule that came into force later
  never routes the case (`CaseTheorems.LaterRulesNeverRoute`); `CaseTheorems.MigrationExact`
  says when the newest rule is reached and `CaseRuns.ReplacedRuleKeepsItsCases` is a run in
  which it is not.
- An overdue sweep stops at the first case whose status does not admit escalation and leaves
  all cases with later deadlines overdue (`CaseTheorems.SweepIsCompleteExactly`), for instance
  behind a returned case (`CaseRuns.ReturnedCaseStopsTheSweep`).
- A rebuild restores the live items exactly when rolled-back transactions left no stray line
  (`LogStore.RebuildCollectsTheLiveItems`, `LogStore.RolledBackUpdateComesBack`). It is accepted
  exactly when the rule table, which it does not clear, is empty and no rolled-back line shares
  its reference with another item (`LogStore.RebuildIsAcceptedExactly`,
  `LogStore.RuleBlocksRebuild`, `LogStore.RetriedRegistrationBlocksRebuild`).
- A rebuild gives a case its current referral back exactly when its shard files hold one
  referral line and no escalation line of it (`CaseRebuild.RebuiltCaseExact`), that is, when no
  transaction that was to escalate or re-route it ever wrote a line, stored or rolled back
  (`CaseRebuild.RoutedOnceExactly`). Escalated cases lose it (`CaseRuns.RebuildLosesTheReferral`),
  and so do cases whose escalation was rolled back (`CaseRuns.RolledBackEscalationLosesReferral`).
- A rebuild gives a case its row back exactly when the newest line of the case was stored or says
  the same as the row, and the escalations back exactly when no rolled-back transaction had
  written one (`RebuildRows.RebuiltRowExact`, `RebuildRows.RebuiltHistoryExact`). Without
  rollbacks it restores both (`RebuildRows.RebuildRestoresRows`).
- A rebuild gives a rule its status back exactly when it is superseded or no audit line names its
  version (`RebuildTheorems.RebuiltRuleExact`). A replacement that was rolled back ends a rule in
  force (`CaseRuns.RolledBackReplacementEndsRule`), and so does a request that names a version
  before it is given (`CaseRuns.RuleNamedTooEarlyEnds`).
- A rebuild reads only the files the scanner lists. It finds all records of a date exactly when
  that date was never rotated (`ShardFiles.ScannedFileHoldsAllExactly`,
  `ShardFiles.RotatedRecordIsNotScanned`), and one record of 16 MiB, which the writer accepts,
  hides its whole file (`ShardLines.TooLongExactly`, `LogBytes.LongRecordHidesItsFile`).
- A complaint may be submitted with its plan field filled in, and is then closed on a plan of
  that name, whosever it is. Closure follows a review in all runs exactly if no plan is ever
  given a name that a submission may carry, the empty one included
  (`LightOpsClosure.ReviewBeforeClosureExact`, `LightOpsClosure.ClosureOnABorrowedPlan`).
- Request keys of two districts collide exactly when one key prefix begins with the other, for
  two submissions (`LightOpsProofs.KeyCollisionExact`) and for a submission and a publication
  (`LightOpsProofs.PlanKeyCollisionExact`). In the second case whichever comes later is answered
  without an error and not stored (`LightOpsProofs.SubmissionIsLost`,
  `LightOpsProofs.PublicationIsLost`). Colon-free districts never collide.
- Accepting a hub complaint asks for a reservation on record, not for one that still holds
  capacity. It holds some exactly if the last successful request about it was to make it
  (`HubProofs.AcceptedHoldsExactly`, `HubProofs.AcceptedWithoutCapacity`).
- A team registered with a negative reserved value can make a release fail for underflow
  (`HubProofs.UnderflowExact`, `HubProofs.UnderflowHappens`).

## Model

| member | source | states |
|---|---|---|
| `ShardLines.RoundTrip` | internal/shard/reader.go:16-39 | appended records come back unchanged if and only if each is non-empty, newline-free, without final carriage return and shorter than the 16 MiB buffer |
| `ShardLines.TooLongExactly` | internal/shard/reader.go:24-39 | the scan of newline-free records fails if and only if one of them fills the 16 MiB buffer |
| `ShardFiles.ScannerSeesOnlyUnrotated` | internal/shard/scanner.go:38-41 | the suffix test keeps exactly the unrotated files |
| `ShardFiles.PaddedToThree` | internal/shard/writer.go:101 | an index is written with three digits, or as many as it needs, and can be read back |
| `ShardFiles.NamesAreDistinct` | internal/shard/writer.go:101 | no two files of dates of one length share a name, so `%s_%03d` never reuses one |
| `ShardFiles.Writer.RotateIfNeeded` | internal/shard/writer.go:92-110 | the unbounded search ends, at the first file of the chain with room |
| `ShardFiles.Writer.Append` | internal/shard/writer.go:38-90 | adds one line to the target file and no other byte, returns where it starts and its size; a cancelled call changes nothing |
| `ShardFiles.Reader.ReadAll` | internal/shard/reader.go:16-39 | the loop returns the scan of the whole file or the error it meets |
| `ShardFiles.Reader.RecordCount` | internal/shard/reader.go:73-92 | the number of records `ReadAll` returns, with the same errors |
| `ShardFiles.Reader.ReadAt` | internal/shard/reader.go:41-57 | the requested bytes, cut at the end of the file |
| `ShardFiles.FilesHoldTheLog` | internal/shard/writer.go:59-77 | after any run of appends every file is its old content plus the lines logged to it, in order |
| `ShardFiles.ReadAllReturnsTheLog` | internal/shard/reader.go:16-39 | a file gives back exactly the records appended to it if and only if all are clean |
| `ShardFiles.LocationsStayReadable` | internal/shard/writer.go:85-89 | a returned location addresses its own record and newline after any later appends |
| `ShardFiles.ChainsHaveNoGaps` | internal/shard/writer.go:100-109 | a rotated file exists only if all earlier ones exist and have reached the limit |
| `ShardFiles.OvershootIsOneLine` | internal/shard/writer.go:97-108 | a file exceeds the limit by less than its last line |
| `ShardFiles.RotationIsPaidFor` | internal/shard/writer.go:92-110 | rotation n exists only after n limits of bytes were logged for that date |
| `ShardFiles.ChainKeepsOrder` | internal/shard/writer.go:92-110 | the files of a date in index order hold its records in the order they were appended |
| `ShardFiles.ScannedFileHoldsAllExactly` | internal/shard/scanner.go:38-41 | the listed files hold all records of a date if and only if the date was never rotated |
| `ShardFiles.RotatedRecordIsNotScanned` | internal/shard/writer.go:97-108 | two records under a limit of one byte, the second of which is in no listed file |
| `LogReplay.ReplayOfAppend` | internal/repo/rebuild.go:103-118 | one more line dated no earlier than the others of its ID replaces that ID in the replay and nothing else |
| `LogReplay.ReplayFindsNewest` | internal/repo/rebuild.go:91-118 | replaying files in path order, last record per ID winning, finds the newest line of every ID |
| `LogReplay.CommittedReplayIsTheTable` | internal/repo/store.go:45-67 | the committed lines replay to the table that the committed writes built |
| `LogReplay.FullReplayExact` | internal/repo/rebuild.go:103-118 | the replay of all lines is the live table if and only if no rolled-back line is newest of its item and differs from the live row |
| `LogStore.Store.WriteOne` | internal/repo/store.go:147-173 | the line is appended first and stays even if the table write is refused |
| `LogStore.RefusedExactly` | migrations/0001_init.sql:27-29 | a table write is refused exactly for a taken ID, reference or version, or an update of no row |
| `LogStore.Store.RunOps` | internal/repo/store.go:59-61 | the operations in order up to the first that fails; exactly the lines of those reached are written, the failing one included unless its own append failed |
| `LogStore.Store.WithTx` | internal/repo/store.go:45-67 | commits all table writes exactly if every step goes through and nothing aborts, otherwise restores the tables; exactly the lines of the operations reached stay in both cases; careful operations keep the log in order |
| `LogStore.TxStaysOrderly` | internal/repo/store.go:147-173 | operations that give new items new IDs, repeat the stored fixed columns and do not go back in time keep dates and fixed columns of the log in order, however the transaction ends |
| `LogStore.Store.ReplaceIndex` | internal/repo/store.go:25-43 | a new index over the old shards is a reachable state: empty tables, no line committed |
| `LogStore.Store.SortFiles` | internal/repo/rebuild.go:98-100 | the listed files in ascending order, none lost or added |
| `LogStore.Store.Collected` | internal/repo/rebuild.go:114-116 | the collector's loop yields the last record per ID of one file |
| `LogStore.Store.RebuildIndex` | internal/repo/rebuild.go:91-185 | replaces the items by the replay exactly if references are unique and no logged rule is still in the rule table, otherwise changes nothing; over an orderly log the result is again a valid store, with every line committed |
| `LogStore.CommittedLinesAreTheItems` | internal/repo/store.go:161-173 | in every reachable state, lost and rebuilt indexes included, the committed lines replay to the live items |
| `LogStore.RebuildCollectsTheLiveItems` | internal/repo/rebuild.go:103-135 | in every reachable state with an orderly log a rebuild collects the live items if and only if there is no stray line |
| `LogStore.RebuildIsAcceptedExactly` | internal/repo/rebuild.go:120-141 | in every reachable state with an orderly log a rebuild in place is accepted if and only if the rule table is empty and no rolled-back newest line shares its reference with the newest line of another item |
| `LogStore.RolledBackUpdateComesBack` | internal/repo/rebuild.go:103-118 | a run in which the rebuild replaces a live row by an update that was rolled back |
| `LogStore.RetriedRegistrationBlocksRebuild` | migrations/0001_init.sql:27-29 | a run in which a rolled-back registration retried under another ID makes even a rebuild over an empty index fail |
| `LogStore.RuleBlocksRebuild` | internal/index/writes.go:216-225 | a run in which one stored rule makes the rebuild in place fail and the one over a new index succeed |
| `LogBytes.CollectAll` | internal/repo/rebuild.go:103-118 | the loop over the listed files collects the last row per ID, skips and reports exactly the unreadable files, and ignores records that do not parse |
| `LogBytes.ForeignRecordsAreIgnored` | internal/repo/rebuild.go:114-116 | records that do not parse change nothing: the collector gets the last row per ID of the others |
| `LogBytes.ReportedExactly` | internal/repo/rebuild.go:105-112 | a file is reported corrupted if and only if it is missing or cannot be scanned |
| `LogBytes.AppendMirrors` | internal/repo/store.go:147-173 | without rotation, appending the encoded row of an operation, or a line of another type, keeps the bytes on disk in step with the rows of the store |
| `LogBytes.RunMirrors` | internal/shard/writer.go:59-77 | from an empty directory on, without rotation, the item shards hold the encoded rows of all operations logged |
| `LogBytes.ListedDays` | internal/repo/rebuild.go:94-100 | sorting the listed files by path puts the item shards in the order of their days, each day of the store once |
| `LogBytes.RebuildFromBytesExact` | internal/repo/rebuild.go:91-135 | without rotation and from bytes whose rows survive serialisation, the rebuild over the sorted listing collects the live items if and only if there is no stray line, and reads every item shard |
| `LogBytes.LongRecordHidesItsFile` | internal/repo/rebuild.go:105-112 | one record that fills the buffer makes the collector skip all rows of its file |
| `LogBytes.ShardGivesItsRows` | internal/repo/rebuild.go:41-48 | under any rotation and order of appends, a file filled with encoded rows that survive serialisation gives the collector exactly these rows |
| `Reconcile.Catalog.RebuildManifests` | internal/repo/rebuild.go:202-233 | exactly one entry per listed shard: its number of records and its checksum, or marked corrupted with count 0 and no checksum |
| `Reconcile.Catalog.Reconcile` | internal/repo/rebuild.go:241-294 | IndexCount is the sum of the recorded counts of the readable listed files; IndexCount + OrphanedInShard - MissingInShard is the number of records in them; the other figures are sums over the listed files |
| `Reconcile.ReportAfterAnyChange` | internal/repo/rebuild.go:259-292 | for well-written files and a manifest made from earlier ones: IndexCount is what the files held then; records are missing if and only if some file holds fewer than then, exactly as many as were lost; the mismatches are the files whose digest differs |
| `Reconcile.UnreadableFiles` | internal/repo/rebuild.go:260-292 | an unreadable file adds nothing to any figure; one that was unreadable when recorded is orphaned as a whole and never a mismatch |
| `Reconcile.LossIsReported` | internal/repo/rebuild.go:272-291 | a run in which one of three recorded records is gone: IndexCount 3, missing 1, one mismatch |
| `Reconcile.CountOfAppend` | internal/repo/rebuild.go:266 | appending clean records to a well-written file raises its count by their number |
| `Reconcile.ReconcileAfterRebuild` | internal/repo/rebuild.go:259-292 | after a rebuild over well-written files and any appends of clean records, the orphaned count is the number of lines appended to unrotated files, nothing is missing, and without appends no checksum differs |
| `TimeText.TextOrderIsTimeOrder` | internal/index/schema.go:181-186 | for times of one offset text order is time order except in the misordered case, where it is reversed; equal texts are equal times |
| `TimeText.OverdueQueryExact` | internal/index/queries.go:343-344 | the deadline condition selects correctly if and only if the two times are not misordered |
| `TimeText.RuleQueryExact` | internal/index/queries.go:384-386 | the active-rule window on texts agrees with the one on times if and only if no bound is misordered with the time, or the misordered bounds do not matter |
| `TimeText.OverdueCanBeMissed` | internal/index/queries.go:344 | a concrete deadline that has passed and is not selected |
| `TimeText.PathOrderIsDateOrder` | internal/shard/writer.go:112-116 | sorting shard files of one type by path sorts them by date |
| `Dispatch.Best` | internal/dispatch/adjudicator.go:51-58 | an applicable rule that no other applicable rule precedes, or none if none applies |
| `Dispatch.CriteriaDecide` | internal/domain/rule.go:45-75 | which criteria decide a match: none for a default rule, the one a rule has, both if it has both; a rule with none never matches |
| `Dispatch.WindowIsHalfOpen` | internal/domain/rule.go:32-43 | a rule is in force from its start on and no longer at its end |
| `Dispatch.ChoiceIsUnique` | internal/dispatch/adjudicator.go:51-56 | with distinct versions only one rule meets the description of a choice |
| `Dispatch.ChoiceIsHighest` | internal/dispatch/adjudicator.go:51-56 | no applicable rule has a higher priority than the choice, nor the same with a higher version |
| `Dispatch.ChoiceIgnoresOrder` | internal/dispatch/adjudicator.go:21-36 | permuting the rules does not change the choice |
| `Dispatch.ChoiceIsFirstListed` | internal/index/queries.go:386 | in query order the choice is the first rule that applies |
| `Dispatch.Adjudicator.RuleMatches` | internal/domain/rule.go:45-75 | the loops decide: default, or at least one criterion and all criteria hold |
| `Dispatch.Adjudicator.Adjudicate` | internal/dispatch/adjudicator.go:21-72 | filter, fallback and sort together pick the choice; the default-rule fallback contributes nothing |
| `Dispatch.Adjudicator.SortByPrecedence` | internal/dispatch/adjudicator.go:51-56 | a permutation ordered by priority and version, both descending |
| `CaseInvariants.ApplyKeeps` | internal/service/case_service.go:52-244 | every operation, stored or rolled back, keeps the whole invariant of the case tables |
| `CaseInvariants.RunKeeps` | internal/service/case_service.go:52-244 | the invariant holds after every run |
| `CaseTheorems.RoutingIsAlwaysConsistent` | internal/service/escalation_service.go:90-106 | in every run each case has exactly one current referral, with the lead, co-departments and rule version of the case |
| `CaseTheorems.EscalationHistoryIsAChain` | internal/service/escalation_service.go:50-111 | escalations lead level by level to the case's level, lead and deadline; level k was reached after RegisteredAt + deadline + (k-1) extensions |
| `CaseTheorems.LeadNamesTellTheLevel` | internal/domain/escalation.go:22-27 | two levels of a department have the same lead name exactly if they are equal or both not positive |
| `CaseTheorems.LifecycleIsAlwaysSound` | internal/domain/compliance_case.go:55-94 | no stored case is registered; a positive level means the first phase was left; completion and cancellation times are set exactly in their status; levels stay within the limit |
| `CaseTheorems.ActionsExact` | internal/service/case_service.go:125-244 | from which statuses each lifecycle service succeeds, composed transitions included, and the status it leaves |
| `CaseTheorems.CasesMoveForward` | internal/service/case_service.go:125-244 | cases are never lost, phases never go back, and a terminal case keeps status, routing, level, deadline and contents |
| `CaseTheorems.RegistrationIsIdempotent` | internal/service/case_service.go:63-69 | a second registration of a reference changes nothing |
| `CaseLaws.RegistrationRoutes` | internal/service/case_service.go:76-123 | a new registration stores a case with the contents and time of the request and the lead, co-departments and version of a chosen rule, and one referral that says the same |
| `CaseLaws.RegistrationErrors` | internal/service/case_service.go:52-103 | which error a registration returns, and when it succeeds |
| `CaseLaws.Refusals` | internal/service/case_service.go:125-244 | which lifecycle, modification and rule requests are refused, and that they change nothing |
| `CaseLaws.StepTouchesOne` | internal/service/case_service.go:246-262 | an operation changes at most the case it names, only if stored, and stamps it with its time |
| `CaseLaws.EveryCaseIsRoutedByItsRule` | internal/dispatch/adjudicator.go:61-66 | in every run, at every level, the co-departments are those of the rule of the case, and the lead is that rule's lead with one supervisor suffix per level; the first escalation started from it |
| `CaseRecords.ContentsAreLastGiven` | internal/service/case_service.go:141-175 | in every run reference, details, category, keywords and registration time are those of the request as amended by the stored modifications since |
| `CaseRecords.ClosingIsAsRequested` | internal/service/case_service.go:204-244 | in every run a completed case has the time of a completing request, a cancelled one the time and reason of a cancelling request, an open one neither |
| `CaseRecords.EveryRuleIsRecorded` | internal/service/rule_service.go:53-88 | in every run a rule says what a stored request said, from its time on, and its end is the time of a request that superseded it |
| `CaseTheorems.LaterRulesNeverRoute` | internal/dispatch/adjudicator.go:29-32 | no run routes a case by a rule that came into force after its registration |
| `CaseTheorems.MigrationExact` | internal/worker/worker.go:35-40 | re-evaluation brings a stale case to the newest rule exactly if that rule is in force now and at the registration, matches, and no other such rule precedes it |
| `CaseRuns.ReplacedRuleKeepsItsCases` | internal/worker/worker.go:35-40 | a run in which the only active rule replaced the one a waiting case is under and re-evaluation leaves the case there |
| `CaseTheorems.SweepIsPointwise` | internal/worker/reeval.go:51-59 | a sweep changes each listed case as if it were alone and no other case |
| `CaseLaws.SweepRoutes` | internal/worker/reeval.go:121-134 | after a sweep every listed stale case with an applicable rule has the lead, co-departments and version of a chosen one and nothing else changed; every other case is as before |
| `CaseLaws.ReevaluationRoutes` | internal/worker/reeval.go:95-157 | one re-evaluation, with its new current referral, or no change at all |
| `CaseTheorems.SecondSweepChangesNoRouting` | internal/worker/reeval.go:92-94 | in every run, a second sweep at any later time without a rule created in between changes no lead, co-departments, rule version or status |
| `CaseTheorems.SweepAddsReferrals` | internal/worker/reeval.go:137-143 | a sweep leaves the tables alone exactly if no listed case has an applicable rule, and otherwise adds referrals |
| `CaseTheorems.SweepEscalatesWhatItReaches` | internal/service/escalation_service.go:34-46 | a reached case goes up exactly one level within the limit and is no longer overdue; any other is unchanged |
| `CaseLaws.EscalationRaises` | internal/service/escalation_service.go:50-106 | one escalation: level, supervisor name, deadline, record and referral; the co-departments and everything else stay |
| `CaseLaws.SweepStopsExactly` | internal/service/escalation_service.go:34-46 | an overdue sweep stops at the first listed case that cannot be escalated or whose transaction fails, and nowhere before |
| `CaseLaws.EscalatesExactly` | internal/domain/compliance_case.go:55-100 | a case can be escalated exactly if it is overdue, below the limit, and adjudicated, in progress or escalated |
| `CaseTheorems.SweepIsCompleteExactly` | internal/service/escalation_service.go:27-48 | with storage working no selected case stays overdue if and only if every selected case admits escalation |
| `CaseRuns.ReturnedCaseStopsTheSweep` | internal/service/escalation_service.go:34-46 | a run in which a returned case keeps an overdue sweep from escalating anything |
| `CaseTheorems.OverdueSweepKeeps` | internal/service/escalation_service.go:27-48 | an overdue sweep, complete or stopped, keeps the invariant |
| `CaseTheorems.ReevaluationSweepKeeps` | internal/worker/reeval.go:29-61 | a re-evaluation sweep keeps the invariant |
| `CaseLog.DiskAccounts` | internal/repo/store.go:147-203 | in every run, wherever its transactions broke off, the lines of a case account for its rows: a case with one referral line and no escalation line has that referral as its current one, and its newest item line is a sound case |
| `CaseRebuild.RebuiltCaseExact` | internal/repo/rebuild.go:187-191 | after a rebuild a case has its current referral if and only if one referral line and no escalation line of it is on disk, stored or rolled back, and none if and only if an escalation line is |
| `CaseRebuild.RoutedOnceExactly` | internal/service/escalation_service.go:90-106 | one referral line and no escalation line is on disk if and only if no transaction that was to escalate or re-route the case wrote a line |
| `RebuildRows.RebuiltRowExact` | internal/repo/rebuild.go:130-135 | a rebuild gives a stored case its live row if and only if its newest line was stored or says the same, and brings an unstored case if and only if a line of it is left |
| `RebuildRows.RebuiltHistoryExact` | internal/repo/rebuild.go:143-156 | a rebuild gives back the escalations, and collects the referrals as stored, if and only if no rolled-back transaction had written one |
| `RebuildRows.RebuildRestoresRows` | internal/repo/rebuild.go:120-156 | without rollbacks a rebuild gives back every case and escalation and collects every referral |
| `RebuildTheorems.RebuiltRuleExact` | internal/repo/rebuild.go:192-198 | a rebuilt rule is the live one without its end, superseded if an audit line names its version; it has the live status, and is in force at the same times, if and only if it is superseded or no line names it |
| `RebuildTheorems.SupersededExactly` | internal/service/rule_service.go:71-83 | a live rule is superseded if and only if a stored request named it after its creation |
| `RebuildTheorems.StrayRuleExact` | internal/repo/rebuild.go:137-142 | a rebuild adds at most one rule that never was, if and only if a rolled-back creation wrote the version that is next |
| `RebuildTheorems.RebuildKeepsExactly` | internal/repo/rebuild.go:120-191 | with new IDs for new cases, the tables rebuilt from all lines satisfy the invariant of the operations if and only if no reference is used twice and every case on disk has one referral line and no escalation line |
| `CaseRuns.RebuildLosesTheReferral` | internal/repo/rebuild.go:187-191 | a run with one escalated case, which has a current referral and after a rebuild none |
| `CaseRuns.RolledBackEscalationLosesReferral` | internal/service/escalation_service.go:90-106 | a run in which the case was never escalated, but a rolled-back escalation makes it lose its current referral |
| `CaseRuns.RolledBackReplacementEndsRule` | internal/service/rule_service.go:71-83 | a run in which a rolled-back replacement leaves the only rule in force, and after a rebuild never in force |
| `CaseRuns.RuleNamedTooEarlyEnds` | internal/index/writes.go:207-214 | a run without rollbacks in which a rule named before its creation is in force, and after a rebuild never |
| `CaseService.Service.Register` | internal/service/case_service.go:52-123 | stores the adjudicated case and its referral together, or returns the case already registered, or the error, as specified |
| `CaseService.Service.Act` | internal/service/case_service.go:125-244 | the five lifecycle services have exactly the specified effect and errors |
| `CaseService.Service.Modify` | internal/service/case_service.go:141-175 | changes the given descriptive fields only, and no terminal case |
| `CaseService.Service.CreateRule` | internal/service/rule_service.go:35-93 | allocates the next version and supersedes the named one in one transaction |
| `CaseService.Service.GetActiveRules` | internal/index/queries.go:384-401 | the active rules, all of them, by priority and version descending |
| `CaseService.Service.EscalateItem` | internal/service/escalation_service.go:50-111 | one escalation with its record and referral, or an error and no change |
| `CaseService.Service.CheckAndEscalate` | internal/service/escalation_service.go:27-48 | escalates exactly the longest prefix of the overdue list that goes through, returns its records, and never records a permanent failure |
| `CaseService.Service.ListItems` | internal/index/queries.go:310-324 | a page of the selection, never more than 200 rows |
| `CaseService.Service.CollectStaleOf` | internal/worker/reeval.go:65-90 | the paging loop ends and finds every stale row of one status |
| `CaseService.Service.CollectStaleItems` | internal/worker/reeval.go:65-90 | exactly the registered or adjudicated cases of an older rule version, each once |
| `CaseService.Service.ReevaluateItem` | internal/worker/reeval.go:95-157 | routes the case by the chosen rule or leaves it alone, and counts it as re-evaluated or skipped exactly once |
| `CaseService.Service.Sweep` | internal/worker/reeval.go:29-61 | re-evaluates the stale cases, all or up to a cancellation, whose transaction is stored; re-evaluated, failed and skipped grow by the number of cases reached that have a new routing and are stored, have one and are not stored, and have none |
| `LightOpsProofs.RunLinks` | internal/lightops/service.go:62-84 | entries stay filed under their IDs and every plan belongs to an existing complaint of its district |
| `LightOpsProofs.StepLinks` | internal/lightops/service.go:97-206 | a step leaves a complaint as it is or writes it once: version plus one, status at most one rank up, submitted fields kept |
| `LightOpsProofs.VersionDeterminesContent` | internal/lightops/service.go:135-157 | in a run two states of a complaint have equal versions if and only if they are equal |
| `LightOpsProofs.VersionCountsWrites` | internal/lightops/service.go:97-206 | a version is one plus the number of writes since submission |
| `LightOpsRecords.ComplaintsAreAsMade` | internal/lightops/service.go:22-206 | in every run a complaint is what was submitted, with the zone and assessment last given in its district, its plan last verified, and the status granted |
| `LightOpsRecords.EverythingIsRecorded` | internal/lightops/service.go:62-227 | in every run plans, assessments and schedules are as some request made them; verified and released only by a request for their district |
| `LightOpsRecords.EveryEventIsRecorded` | internal/lightops/store.go:130-137 | in every run every event is that of a submission, without metadata |
| `LightOpsRecords.FaultsStrikeOnce` | internal/lightops/store.go:130-146 | in every run an injected fault lasts from the request for it until one request meets it |
| `LightOpsRecords.ComplaintRefusals` | internal/lightops/service.go:22-206 | which requests about a complaint are refused, with which error |
| `LightOpsRecords.PlanRefusals` | internal/lightops/service.go:62-227 | which requests about a plan or an assessment are refused, with which error |
| `LightOpsRecords.RefusedChangesNothing` | internal/lightops/service.go:22-227 | a refused request leaves everything as it was, but for a fault that is used up |
| `LightOpsRecords.AnswersAreStored` | internal/lightops/service.go:22-184 | a granted request answers what is now stored |
| `LightOpsProofs.AcceptActsOnWhatWasRead` | internal/lightops/service.go:135-157 | accepting with a version read earlier succeeds exactly if the complaint is still what was read and that was pending, assessed, zoned and of the district |
| `LightOpsProofs.DistrictsAreIsolated` | internal/lightops/service.go:117-206 | no operation for one district changes or creates a complaint of another |
| `LightOpsProofs.KeysAreInjectiveAndDisjoint` | internal/lightops/service.go:19-20 | for colon-free districts submission keys are injective and never equal a plan key |
| `LightOpsProofs.KeyCollisionExact` | internal/lightops/service.go:19 | two districts can share a submission key exactly if one prefix begins with the other |
| `LightOpsProofs.PlanKeyCollisionExact` | internal/lightops/service.go:19-20 | a submission key of one district can equal a plan key of another exactly if one prefix begins with the other |
| `LightOpsProofs.SubmissionAnsweredFromPlan` | internal/lightops/service.go:31-33 | ever after a publication, a submission under the same key is answered by the complaint named like the plan, or an empty one, and is not stored |
| `LightOpsProofs.SubmissionIsLost` | internal/lightops/service.go:31-33 | a run in which this happens |
| `LightOpsProofs.PublicationAnsweredFromSubmission` | internal/lightops/service.go:74-76 | ever after a submission, a publication under the same key is answered by the plan named like the complaint, or an empty one, and is not stored |
| `LightOpsProofs.PublicationIsLost` | internal/lightops/service.go:74-76 | a run in which this happens |
| `LightOpsProofs.SubmissionIsExactlyOnce` | internal/lightops/service.go:22-45 | under any faults complaints, submission keys and submission events correspond one to one, each in its district |
| `LightOpsProofs.ResubmissionFindsTheComplaint` | internal/lightops/service.go:31-33 | a key once used answers every later submission with the complaint it created, and nothing is created |
| `LightOpsProofs.FaultLeavesNoTrace` | internal/lightops/service.go:39-42 | a submission that fails on its event leaves the state as before and its key usable |
| `LightOpsProofs.RetryHidesTheFault` | internal/lightops/service.go:229-235 | a retried publication never reports the storage fault and equals one publication without it |
| `LightOpsClosure.ReviewBeforeClosureExact` | internal/lightops/service.go:186-206 | whatever plan fields and plan names callers may use, in all runs every closed complaint had a plan of its own verified before if and only if no plan field is also a plan name |
| `LightOpsClosure.UnreviewedClosureExact` | internal/lightops/service.go:199-202 | an accepted complaint without a verified plan of its own can be closed if and only if the plan its submission named is stored and verified |
| `LightOpsClosure.ClosureOnABorrowedPlan` | internal/lightops/service.go:199-202 | for every plan field, also the empty one, a run that closes a complaint on another complaint's plan |
| `LightOpsService.Service.AppendEventLocked` | internal/lightops/store.go:130-137 | appends the event with empty metadata, or consumes the injected fault |
| `LightOpsService.Service.SavePlanLocked` | internal/lightops/store.go:139-146 | files the plan under its ID, or consumes the injected fault |
| `LightOpsService.Service.SubmitComplaint` | internal/lightops/service.go:22-45 | insert, event and key as specified; the insertion is undone when the event fails |
| `LightOpsService.Service.PublishPlan` | internal/lightops/service.go:62-84 | publishes once per key, with the specified errors |
| `LightOpsService.Service.RetryPlanPublication` | internal/lightops/service.go:229-235 | a second attempt exactly after a storage fault |
| `LightOpsService.Service.SaveAssessment` | internal/lightops/service.go:97-115 | files the assessment and writes its complaint |
| `LightOpsService.Service.AssignZone` | internal/lightops/service.go:117-133 | writes the complaint's zone within its district |
| `LightOpsService.Service.AcceptComplaint` | internal/lightops/service.go:135-157 | the checks in order, then one write |
| `LightOpsService.Service.VerifyPlan` | internal/lightops/service.go:159-184 | verifies the plan and links it to its complaint, which always exists |
| `LightOpsService.Service.CloseComplaint` | internal/lightops/service.go:186-206 | closes an accepted complaint whose linked plan is verified |
| `LightOpsService.Service.ReleaseAssessment` | internal/lightops/service.go:208-227 | releases an assessment once |
| `HubProofs.TeamCapacityIsConserved` | internal/hub/light_service.go:55-116 | over every run a team has reserved its registered value plus what its unreleased reservations hold, and stays within capacity if registered within it |
| `HubProofs.UnderflowExact` | internal/hub/light_service.go:107-109 | a release fails for underflow exactly if the registered value plus the other reservations is negative, hence never for a non-negative one |
| `HubProofs.UnderflowHappens` | internal/hub/light_service.go:107-109 | a run in which a release fails for underflow |
| `HubProofs.ReservationIsIdempotent` | internal/hub/light_service.go:69-81 | while a complaint holds a reservation another request changes nothing; it returns that reservation exactly if complaint, team, status and capacity allow, and an error otherwise |
| `HubProofs.ReservationStands` | internal/hub/light_service.go:92-116 | a reservation stays as it is through any operations other than its own release |
| `HubProofs.ReleaseUndoesReserve` | internal/hub/light_service.go:92-116 | releasing gives the team back exactly what was reserved and touches no other team |
| `HubProofs.ZoneCapacityIsConserved` | internal/hub/light_service.go:151-179 | a zone's fixtures are its registered value plus the successful assignments of the run, within capacity |
| `HubProofs.RuleUseIsConserved` | internal/hub/light_service.go:233-255 | a rule's use is its registered value plus the successful applications of the run, within its limit |
| `HubProofs.EventsTellTheStatus` | internal/hub/light_service.go:46 | in every run the events of a complaint are none before its submission, one when pending, and submission then acceptance when accepted |
| `HubRecords.ComplaintsAreAsMade` | internal/hub/light_service.go:26-255 | in every run a complaint is what was submitted, normalised, as the granted requests changed it, each counted in its version |
| `HubRecords.EverythingIsRecorded` | internal/hub/light_registry.go:52-99 | in every run teams, zones and rules are as registered but for what was given out, and reservations as asked for and released |
| `HubRecords.EveryEventIsRecorded` | internal/hub/light_service.go:46 | in every run every event is that of a submission or acceptance, with its actor and time |
| `HubRecords.SubmissionRefusals` | internal/hub/light_policy.go:16-30 | which complaints are refused, with which error |
| `HubRecords.RegistrationRefusals` | internal/hub/light_registry.go:52-99 | which registrations are refused, and that a granted one files what was given |
| `HubRecords.ReservationRefusals` | internal/hub/light_service.go:55-149 | which reservations and acceptances are refused, with which error |
| `HubRecords.AllotmentRefusals` | internal/hub/light_service.go:151-255 | which zone assignments and rule applications are refused, with which error |
| `HubRecords.NormalisingTwice` | internal/hub/light_policy.go:49-51 | normalising a venue kind twice is normalising it once |
| `HubRecords.TrimmedEnds` | internal/hub/light_service.go:34 | a trimmed name has no space at either end, and is empty only if it was all spaces |
| `HubProofs.AcceptedHoldsExactly` | internal/hub/light_service.go:134-136 | an accepted complaint has a reservation on record, which holds capacity if and only if the last successful request about it was to make it |
| `HubProofs.AcceptedWithoutCapacity` | internal/hub/light_service.go:134-136 | for every valid complaint a run that accepts it after its reservation was released |
| `HubService.Registry.AddAssessmentTeam` | internal/hub/light_registry.go:52-66 | registers a new team as given, without checking its reserved value |
| `HubService.Registry.AddZone` | internal/hub/light_registry.go:68-82 | registers a new zone as given |
| `HubService.Registry.AddRule` | internal/hub/light_registry.go:84-99 | registers a new rule with a proper window |
| `HubService.Registry.SubmitComplaint` | internal/hub/light_service.go:26-48 | validates, normalises and stores a new pending complaint and its event |
| `HubService.Registry.ReserveAssessment` | internal/hub/light_service.go:55-90 | the checks in order - capacity before idempotency - then team, reservation and complaint together |
| `HubService.Registry.ReleaseAssessment` | internal/hub/light_service.go:92-116 | releases an active reservation, ignores others |
| `HubService.Registry.AcceptComplaint` | internal/hub/light_service.go:118-149 | accepts a pending complaint with a reservation entry and an active zone, and appends the event |
| `HubService.Registry.AssignZone` | internal/hub/light_service.go:151-179 | allocates fixtures of a zone of the same district and kind |
| `HubService.Registry.IsRuleAvailable` | internal/hub/light_policy.go:53-66 | the loop decides window, limit and venue kind |
| `HubService.Registry.ApplyRule` | internal/hub/light_service.go:233-255 | uses the rule once and writes the complaint |
| `Scheduler.BackoffExact` | internal/scheduler/scheduler.go:109-118 | the wait is the exact multiple of the base precisely if that fits 64 bits, which holds for bases up to the largest duration over 1024 |
| `Scheduler.TotalWaitClosedForm` | internal/scheduler/scheduler.go:109-118 | m waits total base·(2^m - 1) up to eleven and base·(2047 + 1024·(m - 11)) beyond |
| `Scheduler.Runner.RunWithRetry` | internal/scheduler/tasks.go:14-36 | at most MaxRetries calls (one if that is less than one), stopping at the first success or cancellation; a failure is recorded exactly when all allowed calls failed; the waits are the backoffs in order |

## Left out

- SQL, migrations, JSON and real files: tables are maps and sequences, serialisation is a parameter, required to parse back and fit a line only for the rows written, checksums are a function of the bytes.
- Goroutines, tickers, timeouts and locks: each locked method or transaction is one step; reads made before a transaction are taken as still current.
- Failed or partial file writes after the first byte: an append happens as a whole or not at all.
- `LogStore.Store.RebuildIndex`: models items and the versions of rules on shards of rows (`LogBytes.dfy` has the bytes and unreadable files, `RebuildTheorems.dfy` the referrals, escalations and rules); failures, batches and audit entries other than supersessions are not modelled.
- `LogBytes.RebuildFromBytesExact`: requires each row on disk to survive serialisation and assumes rotation off; what rotation and over-long records do to a rebuild is stated by `ShardFiles.ScannedFileHoldsAllExactly` and `LogBytes.LongRecordHidesItsFile`.
- `CaseLog.DiskAccounts`: takes the lines of each type in the order they were appended, which is the order of their files as long as the clock does not go back (`LogReplay.ReplayFindsNewest`); an append that fails is a line not reached.
- `LogStore.Store.WithTx`: one entity type with a log, items, and rules; the other entities are saved in the same way.
- `Reconcile.Catalog.RebuildManifests`: the manifest is keyed by path, which for files the writer makes is the same as the type and base name used in the source.
- `CaseService.Service.CheckAndEscalate`: the dead branch that would record a permanent failure is an `assert false`; audit entries are not modelled here or in the other case operations.
- `CaseService.Service.ListItems`: takes the selected rows as its input; the filters other than the status are not modelled.
- `Dispatch.Adjudicator.SortByPrecedence`: an insertion sort stands for the library sort, of which only order and permutation matter.
- `HubService.Registry.SubmitComplaint`: trimming and upper-casing are those of ASCII; venue names outside it are not normalised as the Unicode functions would.
- Rectifications, assessor panels and the closing and resubmitting of hub complaints: no operation of the service reaches the statuses the last two need, the others are simple inserts.
- Copying of slices and maps on the way in and out: values cannot be shared in this model.
- Authentication, HTTP, configuration, command line, logging, batch import and export, diagnosis and read-only queries: no state of their own beyond counters and pass-through.

# Exactly-once workflows and transactions, verified

A Dafny model of the two runtimes for serverless workflows in `workloads/workflow`, and proofs of what they promise.

**BokiFlow** (`boki/pkg/cayonlib`) keeps every workflow instance, lock and transaction as a stream of one shared log. Executors of
an instance agree on each step by first append; locks are replayed from their streams, from stale caches; database updates are
guarded by a `VERSION`; transactions lock, record their writes, and commit recursively over the functions they called.

**Beldi** (`beldi/pkg/beldilib`) keeps each key as a linked list of rows. Writers install a value and a log entry in one
conditional update and append a row when one is full; a collector prunes entries, unlinks rows and deletes them later.

## How the model is built

- A protocol that many executors run is a state machine on values: a state, guarded steps, a run as a fold over any sequence of
  steps in which a disabled step does nothing, and an invariant that every run keeps (`BokiReplay`, `BokiTxn`, `Daal`).
  That the guards are not too narrow is proved too: from every reachable state there are steps that lead on to the end
  (`BokiRecovery`, `BokiTxnRecovery`).
- Code is modelled as classes with the source's fields and loops (`LockFsms`, `IntentFsms`, `BokiDb`, `BokiTwoPl`, `BokiCommit`,
  `DaalExec`, `DaalGc`, `BeldiInvoke`). Each atomic action first calls `Interfere` (or `OtherThreads`), whose contract says what
  all other executors together may have done and whose body happens to do nothing; only the contract is used. For the DAAL that
  contract is a relation, `DaalRely.Rely`, which each action of the machine is proved to respect and which is transitive.
- `ChooseRows` likewise promises nothing: what follows holds for any rows a query returns, in any order, each read at its own
  moment. `NewId` yields any row id that is not in use.
- Sequence numbers are positions in the log, with gaps, so they increase strictly but are not dense.
- `past`, `chain` and `gone` of a DAAL store, and `attempts`, `appended`, `updated`, `puts` and `trace` elsewhere, are history:
  nothing the code does depends on them. `appended`, `updated` and `puts` hold what went through the executor itself. `deleted` says which rows are no longer in the table, and `finished` which instances are done.

Conditions under which the theorems hold, with what shows that they matter:

- Lock holders are non-empty (`LockProtocol.UnlockPanicsExactlyWhenEmpty`).
- A transaction has at most one write record per lock id (`BokiTxn.OneRecordPerLock`), and each record one commit step.
  Both are necessary and sufficient (`BokiTxnLimits.UnderLockIffNoClash`, `BokiTxnLimits.UnderLockIffOneRowPerLock`,
  `BokiOneStep.UnderLockIffOneStep`), and the second means that the commit visits no function twice
  (`BokiPlan.UnderLockIffNoRepeat`). The source ensures neither: a handler that writes a key twice, or whose execute phase
  is run again, records it twice, and a callee called twice in one transaction is recorded and committed twice, under two
  instances.
- For recovery: handlers take boundedly many steps and their synchronous calls do not go round in a circle
  (`BokiRecovery.Terminates`); each record has a commit step.
- Executors of one step ask the database for the same thing (`BokiWorld.AttemptsFit`, `DaalExec.AllFit`).
- For collection: no conditional write failed on the key (`DaalRuns.FullyPrunedIffNoFailure`,
  `DaalLimits.PrunedRowStillHolds`), one collector at a time, instance ids none of which takes another one's entries
  (`DaalIds.OwnsIffInstance` has the exact condition; ids of one length meet it), and no
  executor that outlives the delay between unlinking and deleting (`DaalRely.DeletedEarly`). A pass that stops between
  unlinking a row and marking it may lead to a dangling pointer later (`DaalCrash.SurvivorLeadsNowhere`); exactly when
  is `DaalGc.DanglesIffStranded`.

## Model

| member | source | states |
|---|---|---|
| `BokiTags.KindsNeverCollide` | workloads/workflow/boki/pkg/cayonlib/hash.go:7-38 | Streams of steps, locks and transactions, and the intent log, never share a 64-bit tag, whatever the string hash returns |
| `BokiTags.MakeTag` | workloads/workflow/boki/pkg/cayonlib/hash.go:13-38 | The reserved-tag panic is unreachable for the three stream kinds, and the low bits name the kind |
| `BokiTags.CollidesExactlyWhenHashesDo` | workloads/workflow/boki/pkg/cayonlib/hash.go:13-38 | Two streams of one kind share a tag if and only if the hashes of their names (for transactions, the exclusive or of both) agree in their low 61 bits |
| `LockProtocol.SharesLockIff` | workloads/workflow/boki/pkg/cayonlib/twopl.go:128-144 | Two rows share a lock if and only if they are the same, or one table name continues the other by a dash and a string that the other's key begins with |
| `LockProtocol.TablesShareIff` | workloads/workflow/boki/pkg/cayonlib/twopl.go:128-144 | Two tables have rows that share a lock if and only if one name is the other or continues it by a dash |
| `LockProtocol.OwnLocks` | workloads/workflow/boki/pkg/cayonlib/twopl.go:128-144 | In tables named without a dash two rows share a lock if and only if they are the same |
| `LockProtocol.NoPanic` | workloads/workflow/boki/pkg/cayonlib/twopl.go:69-83 | In every log written by the rules of Lock and Unlock, full replay of every prefix succeeds: neither the invalid-unlock nor the invalid-lock panic is reachable |
| `LockProtocol.LockHistory` | workloads/workflow/boki/pkg/cayonlib/twopl.go:56-126 | The accepted entries of a lock alternate: even steps lock, odd steps unlock, each unlock by the holder of the lock before it, at increasing sequence numbers |
| `LockProtocol.StillHolds` | workloads/workflow/boki/pkg/cayonlib/twopl.go:96-126 | Who held the lock in some prefix, however old, and has not unlocked since, holds it in the whole log, by the same acquisition |
| `LockProtocol.NeverTwoHolders` | workloads/workflow/boki/pkg/cayonlib/twopl.go:96-126 | Two non-empty holders that each saw themselves hold, at whatever different prefixes, and did not unlock, are the same |
| `LockProtocol.ReleasedForGood` | workloads/workflow/boki/pkg/cayonlib/twopl.go:114-126 | Once a holder was seen not to hold a lock, or unlocked it on a replay that showed it as holder, it holds it in no longer log unless it appends another lock operation, however late and stale the unlock was |
| `LockProtocol.UnlockPanicsExactlyWhenEmpty` | workloads/workflow/boki/pkg/cayonlib/twopl.go:69-83 | An unlock justified by some replay makes the next replay panic if and only if its holder is the empty string and nobody moved the lock on: the exact reason why holders must be non-empty |
| `LockFsms.LockFsm.Catch` | workloads/workflow/boki/pkg/cayonlib/twopl.go:56-86 | The catch-up loop, from any cached or partial replay and with any hash collisions, ends as the full replay of some log prefix that includes the caller's own appends |
| `LockFsms.LockFsm.Lock` | workloads/workflow/boki/pkg/cayonlib/twopl.go:96-112 | Granted exactly when a prefix that covers the caller's own appends and its earlier replay shows it as holder; refused only if another holder was seen there or an own proposal lost, which it made, after the call began, on a replay of such a prefix that shows the lock free |
| `LockFsms.LosesToAnother` | workloads/workflow/boki/pkg/cayonlib/twopl.go:96-112 | A proposal that lost did so because another operation on the lock was accepted after the caller's own appends and its earlier replay |
| `LockFsms.RefusedForThisRow` | workloads/workflow/boki/pkg/cayonlib/twopl.go:128-137 | Among tables named without a dash Lock is refused only on account of an operation on that very row: another holder locked it, or another operation was accepted before the own proposal |
| `LockFsms.LockFsm.Unlock` | workloads/workflow/boki/pkg/cayonlib/twopl.go:114-126 | Appends one new unlock exactly when a prefix that covers the caller's own appends shows it as holder, and otherwise nothing |
| `LockFsms.LockCache.GetOrCreate` | workloads/workflow/boki/pkg/cayonlib/twopl.go:31-45 | Hands out a private copy of the cached replay, or an empty one if there is none |
| `LockFsms.LockCache.StoreBack` | workloads/workflow/boki/pkg/cayonlib/twopl.go:47-54 | The cache only ever moves forward, with other threads storing back at any moment |
| `LockFsms.LockCache.Lock` | workloads/workflow/boki/pkg/cayonlib/twopl.go:128-137 | The same for a table and key through the cache, no earlier than the cached replay |
| `LockFsms.LockCache.Unlock` | workloads/workflow/boki/pkg/cayonlib/twopl.go:139-144 | Unlock through the cache, likewise |
| `IntentProtocol.NoPanic` | workloads/workflow/boki/pkg/cayonlib/loglib.go:39-81 | Replay of an instance's stream never meets a step number out of order, and its step logs are exactly the steps below its step number |
| `IntentProtocol.FirstAppendWins` | workloads/workflow/boki/pkg/cayonlib/loglib.go:39-97 | The record replay keeps for a step is the first append for it in the log, and every step below the step number has one |
| `IntentProtocol.StepAgreement` | workloads/workflow/boki/pkg/cayonlib/loglib.go:99-119 | Two replays of whatever prefixes that both know a step know the same record for it |
| `IntentProtocol.RecordsStable` | workloads/workflow/boki/pkg/cayonlib/loglib.go:83-97 | What a step agreed on never changes as the log grows |
| `IntentFsms.IntentFsm.ApplyLog` | workloads/workflow/boki/pkg/cayonlib/loglib.go:39-55 | One entry applied in place equals one step of full replay, panics excluded |
| `IntentFsms.IntentFsm.Catch` | workloads/workflow/boki/pkg/cayonlib/loglib.go:57-81 | The catch-up loop ends as the full replay of some log prefix, entries of colliding instances skipped |
| `IntentFsms.Env.ProposeNextStep` | workloads/workflow/boki/pkg/cayonlib/loglib.go:99-119 | Returns the first record of the step for every caller; true exactly for the caller whose own append it is; the missing-log panic is unreachable |
| `IntentFsms.Env.LogIntent` | workloads/workflow/boki/pkg/cayonlib/controlflow.go:326-344 | The wrapper's intent append, after which the executor sees all that was logged before |
| `IntentFsms.Env.CatchStep` | workloads/workflow/boki/pkg/cayonlib/loglib.go:110-118 | After an own append the step is always found |
| `IntentFsms.Env.LogStepResult` | workloads/workflow/boki/pkg/cayonlib/loglib.go:121-128 | Appends the result entry of a step, which must fit the step's agreed proposal |
| `IntentFsms.Env.FetchStepResultLog` | workloads/workflow/boki/pkg/cayonlib/loglib.go:130-141 | A result found is the first one logged for the step; none found after catching up means none in the log up to the caller's own appends |
| `VersionedRows.AppliedAtMostOnceInOrder` | workloads/workflow/boki/pkg/cayonlib/dblib.go:163-183 | For any sequence of served updates, retries included, those that took effect have strictly increasing sequence numbers and explain VERSION and value of the row |
| `VersionedRows.OneAttempt` | workloads/workflow/boki/pkg/cayonlib/dblib.go:162-187 | One more attempt sets VERSION and value if VERSION is missing or smaller and the caller's condition holds of the row as it is then, and leaves the row alone otherwise |
| `VersionedRows.AppliedAreTheMet` | workloads/workflow/boki/pkg/cayonlib/dblib.go:162-187 | The updates that took effect are, in the order served, exactly those that met a row of which their condition held, with a smaller VERSION or none |
| `VersionedRows.AttemptedMeansVersionReached` | workloads/workflow/boki/pkg/cayonlib/dblib.go:163-194 | After an unconditional update was served, applied or not, VERSION is at least its sequence number |
| `VersionedRows.RetryIsRejected` | workloads/workflow/boki/pkg/cayonlib/dblib.go:163-183 | Serving an update of a sequence number again changes nothing |
| `VersionedRows.LargestSeqNumWins` | workloads/workflow/boki/pkg/cayonlib/dblib.go:163-198 | For whole-value overwrites the final value is that of the largest sequence number that reached the database, in whatever order they did |
| `BokiDb.CondWrite` | workloads/workflow/boki/pkg/cayonlib/dblib.go:137-194 | On return the step has an agreed PreWrite entry, the database has served the caller's own update and condition under its sequence number, and a result entry exists; this call sent that update at most once and no other, and none if its executor knew the result; it fails exactly when the agreed entry is of another operation |
| `BokiDb.Write` | workloads/workflow/boki/pkg/cayonlib/dblib.go:196-198 | The same without a condition; then VERSION is at least the entry's sequence number on return |
| `BokiDb.Read` | workloads/workflow/boki/pkg/cayonlib/dblib.go:200-229 | Every execution returns the value of the agreed entry; if that entry is the one this call appended, it read the value from the row between call and return |
| `BokiDb.Scan` | workloads/workflow/boki/pkg/cayonlib/dblib.go:231-256 | The same for a scan, each row read at its own moment |
| `BokiDb.ResultFits` | workloads/workflow/boki/pkg/cayonlib/dblib.go:137-161 | The result entry found for a PreWrite step is that step's own PostWrite: the three result checks cannot panic |
| `BokiReplay.NoCheckPanics` | workloads/workflow/boki/pkg/cayonlib/loglib.go:143-156 | With deterministic handlers, any number of executors, crashes and re-executions, in every reachable state whatever an executor finds in the log for its step, entry or result, has the type, table and key that its handler asks for, so it does not panic |
| `BokiReplay.PanicsIffCheckFails` | workloads/workflow/boki/pkg/cayonlib/loglib.go:143-156 | In every state, reachable or not, taking a step panics if and only if the entry or result found is not of that type, table and key |
| `BokiReplay.OneHistory` | workloads/workflow/boki/pkg/cayonlib/loglib.go:99-156 | The histories of all executors of one instance are prefixes of one another, hence of one common history |
| `BokiReplay.HistoryTells` | workloads/workflow/boki/pkg/cayonlib/dblib.go:200-256 | In every run each step of each executor's history is what the log has for it: the value of the first read or scan entry, the instance of the first call entry, and for a call the first logged result or what a finished executor of that instance returned |
| `BokiReplay.LoggedResultIsTaken` | workloads/workflow/boki/pkg/cayonlib/controlflow.go:121-130 | In every run an executor that has replayed the entry of its call and a result goes on with the first result logged, without another invocation |
| `BokiReplay.KnowsWhatItReplayed` | workloads/workflow/boki/pkg/cayonlib/loglib.go:83-97 | It knows the entry and the result of its step exactly when it has replayed one |
| `BokiReplay.OneWork` | workloads/workflow/boki/pkg/cayonlib/controlflow.go:112-160 | All executors of one instance, callees invoked again by re-executed callers included, run the same function on the same input |
| `BokiReplay.AgreedEntryPasses` | workloads/workflow/boki/pkg/cayonlib/controlflow.go:112-130 | The agreed entry of a step always passes the checks that the executor at that step applies to it |
| `BokiRecovery.FinishesAlone` | workloads/workflow/boki/pkg/cayonlib/controlflow.go:112-160 | If handlers take boundedly many steps and their calls do not go round in a circle: from every reachable state, an executor that goes on alone, with executors it starts for its callees, finishes, and the results of the writes and calls that it made, and its own for its caller, are logged |
| `BokiRecovery.Recovers` | workloads/workflow/boki/pkg/cayonlib/controlflow.go:326-394 | Hence whatever crashed, a new executor of an instance finishes, and with the value that every finished executor of that instance returned |
| `BokiTxn.RunKeeps` | workloads/workflow/boki/pkg/cayonlib/controlflow.go:285-324 | Every interleaving of execute and commit phases, re-run commits and stale replays keeps the protocol invariant: locks, records, agreed entries, writes and rows fit together |
| `BokiTxn.FirstAttemptAlone` | workloads/workflow/boki/pkg/cayonlib/dblib.go:137-194 | If each record has one commit step, an attempt to serve a committed record takes effect if and only if it is the first one: the VERSION guard neither skips it nor lets it through twice |
| `BokiTxn.ExactlyOnceUnderLock` | workloads/workflow/boki/pkg/cayonlib/controlflow.go:285-299 | Under the same condition a served record has exactly one write in the history, with its value, under an agreed entry for its row, made while its transaction held the row's lock |
| `BokiTxn.HoldsUntilServed` | workloads/workflow/boki/pkg/cayonlib/controlflow.go:285-299 | A committing transaction holds the lock of each of its records until that record was served, even if its commit crashes and is run again |
| `BokiTxn.NeverSkipped` | workloads/workflow/boki/pkg/cayonlib/dblib.go:163-183 | The first attempt always meets a lower VERSION: lock hand-over orders the PreWrite sequence numbers |
| `BokiTxnRecovery.CommitRecovers` | workloads/workflow/boki/pkg/cayonlib/controlflow.go:285-324 | From every reachable state, whatever was recorded, a transaction that began to end can be brought to its end wherever its executors crashed: every record served if it commits, and none of their locks held |
| `BokiTxnRecovery.NewTransactionRuns` | workloads/workflow/boki/pkg/cayonlib/twopl.go:128-192 | In every reachable state a new transaction can lock a row whose lock is free, read it, record a write, and commit or abort; the read sees the row's value |
| `BokiTxnLimits.UnderLockIffNotUnlocked` | workloads/workflow/boki/pkg/cayonlib/controlflow.go:285-299 | In every run, whatever is recorded and however often it is committed: a write is made under its lock if and only if its transaction had appended no unlock of it since the record |
| `BokiTxnLimits.RunExplained` | workloads/workflow/boki/pkg/cayonlib/dblib.go:163-183 | In every run a write without its lock has a rival: another commit step of the same transaction for the same lock, for another record or the same one |
| `BokiTxnLimits.UnderLockIffNoClash` | workloads/workflow/boki/pkg/cayonlib/controlflow.go:285-306 | The exact condition, for every plan of commit steps and every choice of what each transaction writes: all writes of all runs are under their locks if and only if no transaction has two commit steps for one lock |
| `BokiTxnLimits.UnderLockIffOneRowPerLock` | workloads/workflow/boki/pkg/cayonlib/controlflow.go:285-299 | With one commit step for each record: if and only if no transaction names two rows of one lock, the same row twice and different rows that share a lock id included |
| `BokiTxnLimits.OneRecordFollows` | workloads/workflow/boki/pkg/cayonlib/twopl.go:162-179 | Runs of such transactions meet the condition of the theorems on transactions |
| `BokiEscape.SecondWriteEscapes` | workloads/workflow/boki/pkg/cayonlib/controlflow.go:285-306 | For every plan, any two transactions, any rows of one lock, any values and any two records, or two commit steps of one, wherever in the log: a run in which the second write is made while the other transaction holds the lock |
| `BokiOneStep.SecondStepEscapes` | workloads/workflow/boki/pkg/cayonlib/controlflow.go:300-305 | For every plan in which some record has two commit steps, and any transactions, function, row and value, a run with one record whose second commit takes effect while another transaction holds the lock |
| `BokiOneStep.UnderLockIffOneStep` | workloads/workflow/boki/pkg/cayonlib/controlflow.go:285-306 | The exact condition for transactions with one record per lock: all writes of all runs are made under their locks if and only if every record has one commit step |
| `BokiPlan.NoRepeatIffCalledOnce` | workloads/workflow/boki/pkg/cayonlib/controlflow.go:300-305 | For all records, the commit visits no function twice if and only if it comes to no two recorded calls of one function |
| `BokiPlan.ReachedIsCalled` | workloads/workflow/boki/pkg/cayonlib/controlflow.go:300-305 | Every function it reaches except the root, and not the root, is the callee of a recorded call it comes to |
| `BokiPlan.PlanIsInjective` | workloads/workflow/boki/pkg/cayonlib/controlflow.go:285-306 | The steps by which the visits' instances commit their records, in the order of the write loop, commit one record each |
| `BokiPlan.UnderLockIffVisitedOnce` | workloads/workflow/boki/pkg/cayonlib/controlflow.go:285-306 | For the plan derived from the records of one log, all writes of all runs are made under their locks if and only if no function with a write record there is visited twice |
| `BokiPlan.UnderLockIffNoRepeat` | workloads/workflow/boki/pkg/cayonlib/controlflow.go:285-306 | For runs with one record per lock, committed by the plan of their own records: all writes of all of them are under their locks if and only if no transaction's commit visits a function twice |
| `BokiPlan.TwoVisitsEscape` | workloads/workflow/boki/pkg/cayonlib/controlflow.go:300-305 | For every transaction that visits a function twice, a run of that transaction and function, committed by the plan of its own record, whose second commit is made while another transaction holds the lock |
| `BokiPlan.CalledOnceSuffices` | workloads/workflow/boki/pkg/cayonlib/controlflow.go:285-306 | If each transaction records each callee once, its plan meets every condition of the theorems |
| `BokiSerial.HandOver` | workloads/workflow/boki/pkg/cayonlib/twopl.go:96-126 | Between two holdings of one lock by different transactions the first unlocked and then the second acquired |
| `BokiSerial.AccessesFollowLockPoints` | workloads/workflow/boki/pkg/cayonlib/twopl.go:128-192 | Two accesses of different transactions to one row happen in the order of the transactions' lock points |
| `BokiSerial.Serializable` | workloads/workflow/boki/pkg/cayonlib/twopl.go:128-192 | In every run, one commit step per record, the values read and the final rows are those of executing the transactions one after another in the order of their lock points |
| `BokiSerial.SerialKeepsEachTransaction` | workloads/workflow/boki/pkg/cayonlib/twopl.go:128-192 | That serial execution consists of exactly each transaction's own accesses, in its own order |
| `BokiTwoPl.TPLRead` | workloads/workflow/boki/pkg/cayonlib/twopl.go:146-160 | Refused exactly when Lock is, and then nothing else is logged; otherwise a step-logged read, no row being written, which succeeds if and only if the agreed entry is a read of that table and key |
| `BokiTwoPl.TPLWrite` | workloads/workflow/boki/pkg/cayonlib/twopl.go:162-179 | Refused exactly when Lock is; otherwise appends one write record after the lock was seen held. It touches no row |
| `BokiTwoPl.TxnLogsComplete` | workloads/workflow/boki/pkg/cayonlib/controlflow.go:261-283 | The records found are all calls and all writes of the function for the transaction, once each, in log order, and nothing else |
| `BokiTwoPl.GetAllTxnLogs` | workloads/workflow/boki/pkg/cayonlib/controlflow.go:261-283 | The loop returns exactly those of a prefix that covers the executor's own appends |
| `BokiTwoPl.EndWrites` | workloads/workflow/boki/pkg/cayonlib/controlflow.go:285-316 | The write loop of commit and abort: on return the transaction has let go of every record's lock, on a replay that covers its own appends; when committing, each recorded value was served under its own agreed step; when aborting, no update was sent. A commit gives up only at a record whose step was agreed to be another operation, with all records before it ended |
| `BokiTwoPl.StoppedNotEnded` | workloads/workflow/boki/pkg/cayonlib/controlflow.go:287-299 | The two outcomes of a commit exclude each other: it ended, or it stopped at a record whose step was agreed to be something else |
| `BokiTwoPl.EndedHoldsNone` | workloads/workflow/boki/pkg/cayonlib/controlflow.go:285-316 | Hence the transaction holds none of these locks in any longer log, as long as it appends no lock operation after its end |
| `BokiTwoPl.AbortWrites` | workloads/workflow/boki/pkg/cayonlib/controlflow.go:308-316 | An abort lets go of the lock of every record logged before the executor's last own append |
| `BokiCommit.AcyclicIffRanked` | workloads/workflow/boki/pkg/cayonlib/controlflow.go:300-324 | A recorded caller-to-callee relation is acyclic if and only if a rank decreases along it: exactly when the recursion ends |
| `BokiCommit.Ending.EndTxn` | workloads/workflow/boki/pkg/cayonlib/controlflow.go:285-324 | The recursion over recorded callees ends, visits the functions of the recorded tree, and leaves rows and locks as ending all their records one by one does |
| `BokiCommit.VisitsAreReachable` | workloads/workflow/boki/pkg/cayonlib/controlflow.go:300-324 | It visits a function if and only if the records reach it |
| `BokiCommit.EndingFreesExactlyWrittenLocks` | workloads/workflow/boki/pkg/cayonlib/controlflow.go:285-324 | Commit or abort frees a lock exactly when the transaction held it and some reached function has a write record for it |
| `BokiCommit.AbortWritesNothing` | workloads/workflow/boki/pkg/cayonlib/controlflow.go:308-324 | An abort writes no row |
| `BokiCommit.CommitWritesLastRecords` | workloads/workflow/boki/pkg/cayonlib/controlflow.go:285-306 | A commit leaves in each row that has a write record the value of the last one in visit order |
| `BokiCommit.CommitLeavesOthers` | workloads/workflow/boki/pkg/cayonlib/controlflow.go:285-306 | And leaves the other rows alone |
| `BokiCommit.RecordedTwiceEndsTwice` | workloads/workflow/boki/pkg/cayonlib/controlflow.go:141-148 | A concrete case: a callee called twice is recorded twice, and visited twice |
| `Daal.ActionKeeps` | workloads/workflow/beldi/pkg/beldilib/dblib.go:309-454 | Every atomic action of a writer or the collector keeps the shape of the chain, the frozen full rows, the counting, the register and the uniqueness of ids |
| `DaalRuns.RunKeeps` | workloads/workflow/beldi/pkg/beldilib/dblib.go:309-454 | So does every interleaving of any number of them |
| `DaalRuns.OneRegister` | workloads/workflow/beldi/pkg/beldilib/dblib.go:252-282 | The rows in chain order list the logged operations in the order of time, and the V of the row without NEXTROW is what one register holds after them |
| `DaalRuns.ConditionHeldOfRegister` | workloads/workflow/beldi/pkg/beldilib/dblib.go:599-640 | A conditional write takes effect only when its condition holds of the register, and then updates it |
| `DaalRuns.LoggedAtMostOnce` | workloads/workflow/beldi/pkg/beldilib/dblib.go:406-454 | In every run no operation id is logged twice, in one row or in two, whoever executes it and whatever is collected |
| `DaalRuns.OutcomesAgree` | workloads/workflow/beldi/pkg/beldilib/dblib.go:599-689 | Whenever executors learn the outcome of one id, they learn the same |
| `DaalRuns.ChainShape` | workloads/workflow/beldi/pkg/beldilib/dblib.go:309-404 | The path from HEAD is acyclic and lists the linked rows in order; every row with a successor has LOGSIZE = N; rows not linked have no entries and no successor |
| `DaalRuns.ChainWithoutCollector` | workloads/workflow/beldi/pkg/beldilib/dblib.go:529-538 | Without unlinking, NEXTROW of each row is the next row of the chain |
| `DaalRuns.FollowIsLive` | workloads/workflow/beldi/pkg/beldilib/dblib.go:906-943 | From a linked row, NEXTROW visits exactly the linked rows after it and ends at the last row |
| `DaalRuns.Counting` | workloads/workflow/beldi/pkg/beldilib/gc.go:70-122 | Pruned plus live entries of a row equal LOGSIZE plus its failed conditional writes, in every reachable state |
| `DaalRuns.CountingWithoutFailures` | workloads/workflow/beldi/pkg/beldilib/gc.go:70-122 | On keys without failed conditional writes GCSIZE plus live entries equals LOGSIZE |
| `DaalRuns.FullyPrunedIffNoFailure` | workloads/workflow/beldi/pkg/beldilib/gc.go:15-35 | A row with a successor and GCSIZE = N has no live entry if and only if no conditional write failed in it |
| `DaalLimits.PrunedRowStillHolds` | workloads/workflow/beldi/pkg/beldilib/gc.go:15-35 | A concrete run to a row that passes the collector's test and still holds the outcome of an unfinished instance |
| `DaalRuns.CollectorTestSuffices` | workloads/workflow/beldi/pkg/beldilib/gc.go:15-35 | Without failed conditional writes the test GCSIZE = N is all that unlinking needs |
| `DaalRuns.UnlinkedHoldsNothing` | workloads/workflow/beldi/pkg/beldilib/gc.go:15-35 | An unlinked row holds no live entry, and all it logged is of finished instances |
| `DaalRuns.UnfinishedStaysFindable` | workloads/workflow/beldi/pkg/beldilib/gc.go:15-122 | Every operation an unfinished instance logged is found, with its outcome, in a row still linked: exactly-once survives collection |
| `DaalRely.OthersObey` | workloads/workflow/beldi/pkg/beldilib/dblib.go:309-454 | Each action of another executor or the collector respects what an operation in progress relies on |
| `DaalRely.RelyTransitive` | workloads/workflow/beldi/pkg/beldilib/dblib.go:309-454 | Hence so does any number of them |
| `DaalExec.Executor.TryLog` | workloads/workflow/beldi/pkg/beldilib/dblib.go:406-438 | The conditional update: it takes effect exactly when the id is not in LOGS, LOGSIZE is below N and the condition holds, and what it updates is the register |
| `DaalExec.TriedIsAction` | workloads/workflow/beldi/pkg/beldilib/dblib.go:406-438 | Then it is the action of the state machine for that outcome, enabled at that moment, whatever others did since the executor came to the row |
| `DaalExec.Executor.InsertOrGetNewRow` | workloads/workflow/beldi/pkg/beldilib/dblib.go:309-377 | Returns the row that follows a full row, its own or another writer's; the panic is unreachable |
| `DaalExec.Executor.InsertHead` | workloads/workflow/beldi/pkg/beldilib/dblib.go:379-404 | Afterwards HEAD exists and is where to start |
| `DaalExec.Executor.EOSWriteWithRow` | workloads/workflow/beldi/pkg/beldilib/dblib.go:406-454 | Ends if the others log finitely often, with the id logged exactly once |
| `DaalExec.Executor.Query` | workloads/workflow/beldi/pkg/beldilib/dblib.go:492-516 | A query whose rows are read at different moments: each item still tells where its NEXTROW leads and that the rows passed do not have the id |
| `DaalExec.Executor.Walk` | workloads/workflow/beldi/pkg/beldilib/dblib.go:529-538 | The walk over the collected pointers ends, on a row of the chain, with the id in no row before it |
| `DaalExec.Executor.QuickCheckReturnLast` | workloads/workflow/beldi/pkg/beldilib/dblib.go:492-539 | Either the logged outcome or a row from which nothing was missed |
| `DaalExec.Executor.EOSWrite` | workloads/workflow/beldi/pkg/beldilib/dblib.go:578-591 | Among any concurrent and repeated executions, when one returns the update has taken effect exactly once |
| `DaalExec.WriteEnded` | workloads/workflow/beldi/pkg/beldilib/dblib.go:578-591 | What a write that ended means: its own update is in the journal, once |
| `DaalExec.Executor.EOSCondWriteWithRow` | workloads/workflow/beldi/pkg/beldilib/dblib.go:599-673 | Success and failure logged by two updates, at any distance, give one outcome: success is logged only when the condition holds of the register at that moment, failure only when it did not hold at some moment before; the type assertion on it cannot fail |
| `DaalExec.Executor.EOSCondWrite` | workloads/workflow/beldi/pkg/beldilib/dblib.go:675-689 | Returns the one outcome of the id, which tells truly whether the condition held |
| `DaalExec.CondWriteEnded` | workloads/workflow/beldi/pkg/beldilib/dblib.go:675-689 | True means that the update took effect exactly once, when the condition held of the register; false that it never did, and that the condition did not hold of the register at some moment no later than the entry |
| `DaalExec.OutcomeAgreed` | workloads/workflow/beldi/pkg/beldilib/dblib.go:599-689 | Two executors that both return, at whatever times, return the same boolean |
| `DaalExec.Executor.LastRow` | workloads/workflow/beldi/pkg/beldilib/dblib.go:906-943 | A row of the chain that was not unlinked before the read began |
| `DaalExec.Executor.EOSReadWithRow` | workloads/workflow/beldi/pkg/beldilib/dblib.go:252-273 | Follows NEXTROW to its end; whatever is returned was the register's value at some moment, and what this execution itself put into the read log is the register's value at its last row read |
| `DaalExec.Executor.EOSRead` | workloads/workflow/beldi/pkg/beldilib/dblib.go:275-282 | All executions of one id return what the first of them logged, a value that the register held; for that first one it is the register's value at its last row read |
| `DaalGc.Collector.ClearRow` | workloads/workflow/beldi/pkg/beldilib/gc.go:15-35 | Ends, with writers going on, unlinks, in order, exactly the rows on its way that have GCSIZE = N and a successor, marks each with the time of the pass, and disturbs nothing that writers rely on |
| `DaalGc.Collector.MarkDangling` | workloads/workflow/beldi/pkg/beldilib/gc.go:147-159 | One walk from HEAD, which itself is never unlinked, nor is the last row |
| `DaalGc.SweptRows` | workloads/workflow/beldi/pkg/beldilib/gc.go:15-35 | Before the row where the walk ended, a row is linked afterwards if and only if it was linked and is HEAD or has GCSIZE other than N; later rows are untouched |
| `DaalGc.SweptChain` | workloads/workflow/beldi/pkg/beldilib/gc.go:15-35 | Afterwards NEXTROW visits from HEAD exactly the rows to be kept, in their old order |
| `DaalGc.Collector.ClearRowDAAL` | workloads/workflow/beldi/pkg/beldilib/gc.go:70-122 | Removes, in batches, exactly those of the given live entries that are of the given finished instances, and raises GCSIZE by as many; the other rows lose nothing |
| `DaalGc.Collector.ClearDAAL` | workloads/workflow/beldi/pkg/beldilib/gc.go:124-135 | From every row, among writers, exactly the entries of the given finished instances that it had are gone afterwards, and nothing is unlinked, marked or deleted |
| `DaalIds.OwnsSomeIffTakes` | workloads/workflow/beldi/pkg/beldilib/gc.go:80-83 | For any two ids: the test takes some entry of the one for an entry of the other if and only if the other is a prefix of the one, or continues it with a dash and the beginning of a decimal number |
| `DaalIds.BeginsSomeNumber` | workloads/workflow/beldi/pkg/beldilib/dblib.go:409-410 | A string begins the decimal form of some step number if and only if it is of digits without a leading zero |
| `DaalIds.OwnsIffInstance` | workloads/workflow/beldi/pkg/beldilib/gc.go:80-83 | The prefix test finds an instance's own entries only, for a set of instances, if and only if no id of the set is a prefix of another one, or continues another one with a dash and the beginning of a number |
| `DaalIds.OwnsAnother` | workloads/workflow/beldi/pkg/beldilib/gc.go:80-83 | Ids for which it takes another instance's entry, of both kinds, and one that the condition lets pass |
| `DaalGc.Collector.ClearDangling` | workloads/workflow/beldi/pkg/beldilib/gc.go:50-54 | Deletes exactly the rows marked before the threshold; if nothing dangled before, then nothing dangles afterwards if and only if no row left unmarked by a stopped pass leads to one of them |
| `DaalGc.FollowAvoidsDeleted` | workloads/workflow/beldi/pkg/beldilib/gc.go:161-170 | If every surviving row's NEXTROW survives, following NEXTROW from any surviving chain row reaches the last row and no deleted one |
| `DaalGc.Collector.GC` | workloads/workflow/beldi/pkg/beldilib/gc.go:172-224 | A complete pass on whatever earlier passes left prunes exactly the entries of the finished instances, unlinks exactly the rows that then have GCSIZE = N, and deletes exactly the rows with old marks; if nothing dangled before, nothing dangles if and only if no unmarked unlinked row leads to one marked before the threshold; nothing at all if every unlinked row was marked |
| `DaalGc.PassReclaims` | workloads/workflow/beldi/pkg/beldilib/gc.go:172-224 | On a key without failed conditional writes a pass unlinks every row but HEAD and the last whose live entries are all of the instances it collects |
| `DaalGc.DanglesIffStranded` | workloads/workflow/beldi/pkg/beldilib/gc.go:161-170 | That exact condition, for every store and every deletion of the rows with old marks |
| `DaalGc.AllMarkedNotStranded` | workloads/workflow/beldi/pkg/beldilib/gc.go:15-35 | It holds if no pass ever stopped between unlinking a row and marking it |
| `DaalGc.FirstStaysFirst` | workloads/workflow/beldi/pkg/beldilib/gc.go:50-54 | Then the rows deleted are always the first ones unlinked |
| `DaalGc.DeletedFirstIsSafe` | workloads/workflow/beldi/pkg/beldilib/gc.go:161-170 | And whenever they are, nothing dangles, because an unlinked row's mark is never later than its successor's |
| `DaalGc.OthersKeepMarks` | workloads/workflow/beldi/pkg/beldilib/gc.go:147-170 | Writers never disturb the marks |
| `DaalCrash.SurvivorLeadsNowhere` | workloads/workflow/beldi/pkg/beldilib/gc.go:21-27 | A concrete run in which a pass stops between unlinking a row and marking it: that row survives, and its NEXTROW is later deleted |
| `BeldiInvoke.Invoker.SyncInvoke` | workloads/workflow/beldi/pkg/beldilib/controlflow.go:141-193 | All executors of the step invoke the same callee instance or return its logged result, and the latter exactly when there is one; the panic is reached exactly when the id was used for something else |
| `BeldiInvoke.Invoker.AsyncInvoke` | workloads/workflow/beldi/pkg/beldilib/controlflow.go:246-312 | All executors agree on the callee, its intent is put when one returns, the one that put it has marked the step and started the callee when it returns, and it is started at most once; where the step is marked nothing is put |

## Left out

- Step numbers, sequence numbers and sizes are unbounded integers; overflow of int32 and uint64 is not modelled.
- A catch-up reads up to a log length fixed when it starts; one that never ends because others append forever is not modelled.
- JSON, snappy, DynamoDB errors and retries, missing tables, network errors and the log engine: atomic map updates, opaque values and a sequence of slots stand for them.
- Columns other than `V`, `LOGS`, `LOGSIZE`, `GCSIZE`, `NEXTROW` and `TS`; `InsertOrGetNewRow` copies only `V`, so Beldi's own locks (`HOLDER`) and its `TPLCommit` and `TPLAbort` are not modelled. The `ignore` entry of a new `LOGS` map is left out.
- `TWrite`, `TCondWrite`, `QueryCheck`, `QueryCondCheck`, `TQuery`, `EOSScan`, `StaticGC`, every BASELINE branch, and the near-copy of Beldi under `boki/pkg/beldilib`.
- Collection of the read log and of intents (`ClearReadLog`, `ClearIntent`): deletes of entries that no unfinished instance reads.
- Goroutines of one collector pass: its rows are handled one after another, in any order; several collectors at once are not modelled.
- `ProposeInvoke` and `AssignedSyncInvoke`, whose callers run steps of one instance in parallel goroutines.
- Locks taken by `TPLRead` alone leave no record and are not released by commit or abort; the model keeps that, so nothing is claimed about their release.
- BokiReplay.NoCheckPanics: handlers that use the transactional calls are excluded, because lock outcomes are not logged as steps.
- BokiReplay.OneHistory: the same restriction to Read, Scan, Write, CondWrite and calls of deterministic callees.
- BokiTxn.ExactlyOnceUnderLock: which workflow steps commit which record is a parameter of a run (`Plan`); `BokiPlan` derives it from the visits and their instances.
- BokiCommit.Ending.EndTxn: one executor without interference; what interference does to the writes of one function is in `BokiTwoPl.EndWrites` and `BokiTxn`.
- BokiCommit.EndingFreesExactlyWrittenLocks: locks are read exactly there; stale replays are in `BokiTwoPl.EndedHoldsNone`.
- BokiCommit.CommitWritesLastRecords: rows are written without the VERSION guard and without other transactions there; both are in `BokiTxn`.
- BokiTwoPl.EndWrites: the records that a commit reads are given to it, as `BokiTwoPl.GetAllTxnLogs` returns them; the calls that follow the loop are in `BokiCommit` and `BokiPlan`.
- DaalExec.Executor.EOSWriteWithRow: it ends if the others log at most `bound` entries in all; writers that forever fill each new row first are not modelled.
- DaalExec.Executor.EOSRead: the value projected is `V`; projections of other columns are left out.
- DaalGc.Collector.GC: one key; the clock and the threshold are parameters; the scan of rows to prune is consistent, and each row is read when its turn comes.
- BeldiInvoke.Invoker.SyncInvoke: what the callee computes is not modelled, only which instance is invoked or which logged result is returned; the `CALLEES` list of a transaction is left out.
- Handlers of the hotel, media and singleop applications, the retwis and queue workloads, table creation and population, scripts and deployment.

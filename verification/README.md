# OpsSentry: verified models of its protocols and algorithms

OpsSentry is an operations platform: agents run tools, scheduled jobs inspect machines, a
ledger audits what was done, and several nodes share locks, files and Redis. Most of it is
plumbing around web, Redis and language-model libraries. This project models the parts that
carry an algorithm or a protocol of their own, in Dafny, and proves what they are for.

- **Resource locks** (`LockRecord`, `RedisLease`, `FileLease`): the lease of `ConfigShield`
  in its two backends. Every Redis command and every system call is one atomic step of any
  number of nodes, time passes between steps, and renewal and release read first and write
  later. Exclusion is proved for every run under an explicit hypothesis (`Timely`, `Exact`),
  and so is the deadline after which a pending call can hit another node's lock.
- **Waiting** (`Backoff`): the retry decorator, the waiting acquire and the shipper's loop.
- **Audit ledger** (`LedgerEntry`, `KeyOrder`, `LedgerStorage`, `OpsLedger`): a
  compare-and-set state machine over one SQL table that many nodes write.
- **Log shipper** (`AuditShipper`): tails the ledger with a keyset cursor and survives Redis
  failures, checkpoint failures, restarts and a damaged checkpoint file.
- **Locked log** (`Text`, `SyncBuffer`): a JSON-lines file behind the lock.
- **Knowledge search** (`Tokenizer`, `Chunker`, `Bm25`, `Ranking`, `SearchIndex`, `Search`,
  `KnowledgeCore`): Markdown chunks, tokens, an inverted index and BM25 ranking over it.
- **Scheduled jobs** (`Semaphore`, `CronEngine`): admission through an `asyncio` semaphore,
  shedding of low-priority jobs, and the ledger entries of every trigger. A step runs from
  one await to the next.
- **Alerts** (`AlertEngine`, `AlertDedup`): the drain loop, deduplication and grouping.
- **Failover** (`Failover`): reclaiming a dead node's tasks, pipeline by pipeline.
- **Agent chat** (`ToolStream`, `AgentVm`): the assembly of streamed tool calls, the chat
  loop, and the compaction of long conversations.

`Collections` and `Wrappers` hold the few notions that several modules share.

How the models are built. Code that changes things in place is a class or a method with the
source's loops (`SQLiteLedgerStorage`, `OpsLedger`, `AuditShipper`, `ConfigShield`,
`FileConfigShield`, `SyncBuffer`, `Chunker`, `KnowledgeCore`, `Semaphore`, `CronEngine`,
`AlertAggregator`, `AgentManager`); each method is proved equal to a function on values, and
the theorems about one call, about several calls and about whole runs are proved of those
functions. Runs are sequences of atomic steps of all participants. Where a method makes
several statements, what other nodes do in between is a parameter (`others`, `between`), so
nothing is assumed about them that the contract does not say.

Hypotheses, and what happens without them:

- Redis locks: the second command of a renewal or release fires before the lease its GET saw
  runs out, and no release is forced (`RedisLeases.Timely`). `TheftExactly` shows that this
  deadline is exact: from the moment that lease runs out another node's lock can be hit, and
  not before. `LateRefreshBreaksExclusion` and `LateDeleteBreaksExclusion` construct two
  holders, `LateRefreshHappens` and `LateDeleteHappens` the timely runs that lead there.
- File locks: a renewal or release acts before the record it read is stale, or else before
  anybody puts another file in place; a reclaim renames the file it judged, or finds none; and
  no release is forced (`FileLeases.Exact`). For renewal and release `TheftExactly` shows that
  the deadline is exact. A reclaim has no deadline: it starts from a stale record, so it can
  always come too late. Two nodes come to believe in two ways, each from a constructed state
  and by a run that leads there: two reclaims of one record (`TwoReclaimersBothWin`,
  `TwoReclaimersHappen`), and a renewal or release that comes late (`LateReplaceBreaksExclusion`,
  `LateUnlinkBreaksExclusion`, `LateReplaceHappens`, `LateUnlinkHappens`). That a heartbeat adopts
  another node's stale record does not break exclusion (`HeartbeatAdoptsStaleRecord`).
- A file lock can be lost for good: a lock file whose creator dies or fails between create and write
  is never stale, and blocks its resource until it is removed by hand. `CanBeHeldExactly` shows
  that exact runs know no other way, `UnwrittenFileHappens` a run into it. A Redis lock is never lost
  (`KeyIsFreedByTime`).
- Shipper: an inserted row lies above the in-memory cursor, or repeats a key that was shipped
  (`AuditShippers.Lands`). A turn counts as done once its cursor is set, so an insert that falls
  between the read of a batch and the update of the cursor is judged against the new cursor.
  `RunIsSafeExactly` shows the hypothesis is exact for whole runs, `MissedUntilRestart` what
  follows when it fails: the same millisecond with a smaller id is enough.
- Shipping at most once: no answer of Redis is lost, and no restart falls behind a shipped row
  (`AuditShippers.MayRepeat`); `NextRepeatsExactly` shows both are needed. Restarts are harmless
  as long as no save fails and the file is not damaged (`RestartsRepeatNothing`).
- Locked log: an append whose write fails between record and newline is torn; the torn record by
  itself still reads back. No hypothesis is needed to say what reads return: `RunsAreSequential`
  shows, for every run, that a read is right if and only if since the last clear no append wrote
  behind a torn one. `FileAgreesExactly` says when file and log agree throughout a run
  (`SyncBuffers.StartsNewLine`), `LinesAlwaysWholeExactly` when every line is whole throughout
  (`SyncBuffers.NotTorn`).
- Cron jobs: slots and queue need no hypothesis (`AdmissionInEveryRun`); a trigger whose ledger
  call raises, before or after its effect, gives its slot back like any other. Only the ledger
  rows and the call log need one: new ids are new, other writers leave the entry of an executing
  job alone, and the database raises no error (`CronEngines.Plausible`, `RecordsInEveryRun`).
  Without it a trigger can abort. `NoneAbortedExactly` says exactly when none does;
  `DeletedEntryAborts` shows one that does, because somebody deletes its entry.
- Logarithm: zero at one and strictly increasing (`Bm25.IsLog`); nothing else is used.
- JSON: a printer and a parser that undo each other (`SyncBuffers.Lawful`,
  `AlertEngines.Faithful`).
- Tool calls: new fragment indices are consecutive (`ToolStreams.Consecutive`), which
  `AssembledExactly` shows to be exact for every stream.

Where the code and its words differ, the model follows the code: deduplication keeps the
first alert of a key, not the newest (src/cluster/alert_engine.py:145-150); a job can be shed
although a slot is free (`ShedExactly`, `ShedBesideFreeSlot`); compaction can separate a
tool message from its call (`CutBeforeToolBreaksExactly`); a Redis renewal returns its record
even if the key was gone (`ConfigShield.Heartbeat`).

`dafny verify dfyconfig.toml` checks the whole project.

## Model

| member | source | states |
|---|---|---|
| LedgerEntries.RecordRoundTrip | src/ledger_entry.py:49-77 | writing an entry to a record and reading it back gives the entry exactly when its task reference is not the empty string; reading back is idempotent and never changes the cursor key |
| LedgerEntries.InvertedTable | src/ops_ledger.py:116-119 | the list of allowed old statuses is the exact converse of the transition table, is never empty (so the guard of the update is never dropped) and never allows a move to the same status |
| LedgerEntries.TheMoves | src/ledger_entry.py:9-14 | six moves are legal and no others; completed is final and entered from running alone |
| LedgerEntries.RecordDefaults | src/ledger_entry.py:61-77 | id and action are demanded, an unknown status is refused, and every other missing field has its default |
| KeyOrder.SortKeys | src/sqlite_ledger_storage.py:246 | the cursor order arranges any finite set of keys in one strictly ascending sequence without loss or repetition |
| KeyOrder.FirstDifferenceDecides | src/sqlite_ledger_storage.py:241-246 | ids are compared at their first difference, and a beginning comes before what it begins |
| LedgerStorage.UpdateKeepsKey | src/sqlite_ledger_storage.py:173-180 | whatever the update dictionary says, id and creation time of a row stay |
| LedgerStorage.UpdateIsCompareAndSet | src/sqlite_ledger_storage.py:188-196 | a guarded update succeeds exactly when the row exists in an expected status; a failed one changes nothing, a successful one touches no other row and no key |
| LedgerStorage.UnguardedUpdate | src/sqlite_ledger_storage.py:162-196 | an update without a mutable column succeeds unseen, one without expected statuses succeeds exactly if the row is there |
| LedgerStorage.BatchIsFetched | src/sqlite_ledger_storage.py:233-254 | the entries of an incremental read are the stored rows at the selected keys, in key order, as they read back |
| LedgerStorage.BatchSkipsNothing | src/sqlite_ledger_storage.py:241-248 | a row above the cursor that a batch leaves out lies above every row of the batch |
| LedgerStorage.CursorAfterBatch | src/sqlite_ledger_storage.py:233-248 | setting the cursor to the last key of a batch leaves above it exactly what the batch did not contain |
| LedgerStorage.ListingIsReverse | src/sqlite_ledger_storage.py:207-219 | an unlimited list_all is the exact reverse of reading everything with the cursor |
| LedgerStorage.ListingIsFetched | src/sqlite_ledger_storage.py:207-219 | a listing consists of the stored rows at the listed keys, as they read back |
| LedgerStorage.ListingShowsNewest | src/sqlite_ledger_storage.py:207-219 | a listing is newest first, and a row of the asked status is hidden only if the limit is reached by strictly newer rows |
| LedgerStorage.SQLiteLedgerStorage.Append | src/sqlite_ledger_storage.py:140-160 | inserts exactly that row, or fails without effect exactly when the primary key exists |
| LedgerStorage.SQLiteLedgerStorage.Update | src/sqlite_ledger_storage.py:162-196 | the loops that build the SET list give the compare-and-set of UpdateIsCompareAndSet, or success without a statement when only immutable columns are named |
| LedgerStorage.SQLiteLedgerStorage.Get | src/sqlite_ledger_storage.py:198-205 | the stored row of that id as it reads back, or nothing |
| LedgerStorage.SQLiteLedgerStorage.ListAll | src/sqlite_ledger_storage.py:207-219 | rows as they read back, of the asked status, strictly newest first, within the limit, and a matching row is missing only if the limit is used up by newer ones |
| LedgerStorage.SQLiteLedgerStorage.Delete | src/sqlite_ledger_storage.py:221-225 | removes exactly the row of that id |
| LedgerStorage.SQLiteLedgerStorage.GetIncremental | src/sqlite_ledger_storage.py:233-248 | rows above the cursor as they read back, in strictly ascending key order, within the limit, and a row above the cursor is missing only if the limit is used up by smaller keys |
| OpsLedgers.MoveResult | src/ops_ledger.py:116-132 | the statement of a transition, built column by column, takes effect exactly along a legal move and then leaves exactly the documented row |
| OpsLedgers.ProgressResult | src/ops_ledger.py:144-152 | a checkpoint is written exactly while the row is pending or running, and only checkpoint and update time change |
| OpsLedgers.StatementIsSafe | src/ops_ledger.py:66-195 | one statement of anybody respects any row: key and action stay, the status moves legally or not at all, completed rows are frozen, rows vanish only by deletion and appear only by insertion |
| OpsLedgers.HistoryIsLegalPath | src/ops_ledger.py:102-139 | in every run of any statements each row has a status history that is a path of legal moves ending in its status, and starts pending if the row was created in the run |
| OpsLedgers.RowIsStable | src/ops_ledger.py:102-159 | in every run without its deletion a row keeps key and action, and stays as it is once completed |
| OpsLedgers.OneWinner | src/ops_ledger.py:113-142 | for a row not running at the start, successful entries into running less exits is 1 if the row is running and 0 if not, however many callers race |
| OpsLedgers.SecondRacerLoses | src/ops_ledger.py:113-142 | after one caller won the move to running, every later attempt fails until somebody moves the row out of running |
| OpsLedgers.TransitionAlone | src/ops_ledger.py:102-139 | an undisturbed transition succeeds exactly along a legal move, changes status, update time, checkpoint and error of that row as documented and nothing else, and returns the row it wrote; each error says what stood in the way and leaves the table alone |
| OpsLedgers.TransitionAmongOthers | src/ops_ledger.py:102-139 | with statements of others before its read: the row as it was decides whether the move is made, the table as the others left it what is answered |
| OpsLedgers.InsertsAndRemovals | src/ops_ledger.py:66-89 | an insert succeeds exactly on a new id and stores that row, a removal removes that row and no other |
| OpsLedgers.OpsLedger.CreateEntry | src/ops_ledger.py:66-89 | with other nodes between its statements: a duplicate is reported whether it was there before or slipped in between, and otherwise one pending row was inserted |
| OpsLedgers.OpsLedger.GetEntry | src/ops_ledger.py:95-100 | the row as it reads back, or not found |
| OpsLedgers.OpsLedger.Transition | src/ops_ledger.py:102-139 | the table and the answer are those of the compare-and-set followed by a read that sees what others did in between |
| OpsLedgers.OpsLedger.MarkRunning | src/ops_ledger.py:141-142 | the transition to running |
| OpsLedgers.OpsLedger.MarkCompleted | src/ops_ledger.py:161-162 | the transition to completed |
| OpsLedgers.OpsLedger.MarkFailed | src/ops_ledger.py:164-189 | the transition to failed with its error text |
| OpsLedgers.OpsLedger.UpdateCheckpoint | src/ops_ledger.py:144-159 | writes the checkpoint exactly if the row is open, and otherwise reports the status that a later read finds |
| OpsLedgers.OpsLedger.DeleteEntry | src/ops_ledger.py:191-194 | removes the row if it was there when looked up, and reports not found otherwise |
| AuditShippers.NextKeepsSafe | src/cluster/shipper.py:115-152 | every write that lands (Lands), batch, failure, restart or file damage keeps: all rows at or below the cursor reached the stream, and the saved cursor never exceeds the one in memory |
| AuditShippers.RunIsSafe | src/cluster/shipper.py:60-80 | the same over every run whose inserts land, and nothing shipped is taken back |
| AuditShippers.RunIsSafeExactly | src/cluster/shipper.py:115-152 | the guarantee holds at every moment of a run if and only if each insert lands above the cursor or repeats a shipped key |
| AuditShippers.FirstStartIsSafe | src/cluster/shipper.py:63-72 | the fallback cursor (0, "") is safe exactly when every row lies above it |
| AuditShippers.InsertKeepsSafeExactly | src/cluster/shipper.py:123-147 | an insert keeps the guarantee if and only if it lands above the cursor or repeats a shipped key |
| AuditShippers.MissedUntilRestart | src/cluster/shipper.py:123-147 | a row inserted at or below the cursor is shipped by no run without a restart |
| AuditShippers.ShippedAtMostOnce | src/cluster/shipper.py:115-152 | in a run without lost answers, and without restarts behind a shipped row, no row is ever shipped twice |
| AuditShippers.NextRepeatsExactly | src/cluster/shipper.py:115-152 | an event keeps the stream ascending up to the cursor if and only if it is no such restart and no such loss |
| AuditShippers.TurnOutcome | src/cluster/shipper.py:123-152 | what reaches the stream, where the cursor goes, what is answered and what is saved, for each fault; a good turn that shipped saves its cursor |
| AuditShippers.StaysUpToDateExactly | src/cluster/shipper.py:74-80 | the saved cursor stays the one in memory if and only if no save of a shipped batch fails and the file is not damaged |
| AuditShippers.RestartResumes | src/cluster/shipper.py:60-80 | after any run without failed saves and damage a restart changes nothing |
| AuditShippers.RestartsRepeatNothing | src/cluster/shipper.py:60-152 | so if no answer is lost either, no row is shipped twice, however often the process restarts |
| AuditShippers.MessageTells | src/cluster/shipper.py:128-138 | a stream message carries the key of its row, and the row reads back from it |
| AuditShippers.CleanBatch | src/cluster/shipper.py:123-152 | one batch without failure ships exactly min(batch size, backlog) rows and leaves exactly the rest |
| AuditShippers.CleanBatches | src/cluster/shipper.py:123-152 | k batches ship exactly the first k times batch-size rows above the cursor, in key order and each once |
| AuditShippers.DrainedExactly | src/cluster/shipper.py:115-152 | k batches drain n rows exactly when k times the batch size reaches n (or the size is negative, which is no limit) |
| AuditShippers.FreshDrainIsWholeLedger | src/cluster/shipper.py:60-72 | from a first start the drained stream is the whole ledger in strictly ascending key order, each row once |
| AuditShippers.EveryRowIsShippedEventually | src/cluster/shipper.py:115-152 | after any run whose inserts land, with all its failures, enough clean batches leave every remaining row in the stream |
| AuditShippers.ShippedInTheEndExactly | src/cluster/shipper.py:123-147 | from any state, enough clean batches leave a row in the stream if and only if it was there before or lies above the cursor |
| AuditShippers.AuditShipper.SaveCheckpoint | src/cluster/shipper.py:74-80 | the checkpoint file is replaced whole or not at all |
| AuditShippers.AuditShipper.BuildPipeline | src/cluster/shipper.py:128-138 | one stream message per entry, in order |
| AuditShippers.AuditShipper.Push | src/cluster/shipper.py:124-152 | from the read of a batch on: pipeline, cursor and checkpoint as the model has them for each fault; a good push leaves the key of its last row in memory and in the file |
| AuditShippers.AuditShipper.ShipBatch | src/cluster/shipper.py:115-152 | one turn with other writers in between is one turn followed by their writes; it returns the count, or raises exactly as the model says; whenever it returns a positive count the saved cursor is the one in memory |
| RedisLeases.NextKeepsInv | src/config_shield.py:93-115 | every timely step of any node keeps: until the lease it saw runs out, a pending renewal or release still has its own record in the key, and a node that believes it holds the lock is its recorded owner |
| RedisLeases.OwnerIsRespected | src/config_shield.py:291-311 | a timely step takes the key from its unexpired owner only by that owner's release or by time, and only the owner rewrites it |
| RedisLeases.TimelyRefreshSucceeds | src/config_shield.py:294-311 | a timely renewal stores exactly the record it returns |
| RedisLeases.ExclusionInEveryRun | src/config_shield.py:93-115 | in every timely run of any number of nodes at most one believes it holds the lock, a believer is the recorded owner, and no step steals |
| RedisLeases.LateRefreshBreaksExclusion | src/config_shield.py:294-310 | from every state with a late renewal and a free key two nodes come to believe they hold the lock |
| RedisLeases.LateRefreshHappens | src/config_shield.py:291-310 | from every quiet state a timely run leads to such a state: take the lock, read for renewal, oversleep the lease |
| RedisLeases.LateDeleteBreaksExclusion | src/config_shield.py:343-348 | from every state with a late release and a free key the DEL removes the next owner's lock and a third node takes it, so that two nodes believe |
| RedisLeases.LateDeleteHappens | src/config_shield.py:343-348 | from every quiet state a timely run leads to such a state |
| RedisLeases.KeyIsFreedByTime | src/config_shield.py:106-107 | from every state whatever, any node can come to hold the lock by waiting and one SET |
| RedisLeases.TheftExactly | src/config_shield.py:291-348 | with any timely steps of others at the same moment, a pending renewal or release can hit another node's lock if and only if the lease its GET saw has run out |
| RedisLeases.ReleaseFreesKey | src/config_shield.py:339-348 | a release that gets to its DEL, or is forced, leaves no key |
| RedisLeases.RefreshOfGoneKeyMisleads | src/config_shield.py:302-311 | a renewal that finds the key gone stores nothing, and its caller believes to hold the lock all the same |
| RedisLeases.ConfigShield.AcquireOnce | src/config_shield.py:93-115 | a free key is taken at once; a held one that is still held at the GET refuses naming the owner; it gives up only after every try found the key held at its SET and gone at its GET; the state is the old one after exactly the steps of others in those waits, and on success the SET of the record returned |
| RedisLeases.ConfigShield.Heartbeat | src/config_shield.py:291-311 | GET, then SET XX among any steps of others: the acquisition time stays, the key holds the new record exactly if it was still there, and that record is returned in either case |
| RedisLeases.ConfigShield.Release | src/config_shield.py:330-350 | GET, then DEL of an own record; with force DEL at once; in both cases the key is gone, and otherwise it is untouched |
| FileLeases.NextKeepsInv | src/config_shield.py:155-213 | every exact step of any node keeps: a record read stays in its file, and while it is fresh it stays the node's own and in place; an unwritten file stays in place for its creator; a believer's fresh record is in the lock file |
| FileLeases.HolderIsRespected | src/config_shield.py:155-213 | under the hypothesis a held lock file changes only by its holder's hand, and is lost otherwise only by growing stale |
| FileLeases.TheftExactly | src/config_shield.py:176-180 | with any admissible steps of others at the same moment, a pending renewal or release can take another node's held lock file if and only if the record it read is stale by then; a pending reclaim always can |
| FileLeases.ExclusionInEveryRun | src/config_shield.py:155-213 | in every exact run of any number of nodes at most one believes it holds the lock, its own record is in the lock file, and nobody's held file is taken |
| FileLeases.NoStaleFileLeft | src/config_shield.py:176-202 | however reclaims interleave, no .stale file is left once all calls have finished and none broke off |
| FileLeases.UnwrittenFileBlocksForever | src/config_shield.py:167-175 | a lock file whose creator broke off before writing stays in every exact run, and nobody ever believes to hold the lock |
| FileLeases.UnwrittenFileHappens | src/config_shield.py:167-168 | from every quiet state an exact run of two steps leads to such a file with every call ended |
| FileLeases.CanBeHeldExactly | src/config_shield.py:155-213 | at any moment of any exact run, whatever calls are unfinished: a node can still come to hold the lock in some exact run to come if and only if the lock file is not one that was created, not written, and given up by its creator |
| FileLeases.AbandonedFileIsFreedExactly | src/config_shield.py:155-213 | once every call has ended or broken off, any node can come to hold an abandoned lock if and only if its file was written; and then the node's own acquire is enough once the record is stale |
| FileLeases.UnwrittenFileIsHeld | src/config_shield.py:169-174 | nobody who looks at an unwritten lock file gets past it to reclaim, renew or release |
| FileLeases.TwoReclaimersBothWin | src/config_shield.py:173-207 | from every state in which two nodes judged one record stale, the second reclaim renames the first one's fresh file away and both believe |
| FileLeases.TwoReclaimersHappen | src/config_shield.py:155-175 | from every quiet state a run within the hypothesis leads to such a state: an owner that stops renewing and two nodes that look at once |
| FileLeases.LateReplaceBreaksExclusion | src/config_shield.py:312-328 | from every state with a pending renewal and another node that judged the lock file, a reclaim by the other and then the renewal leave both believing |
| FileLeases.LateReplaceHappens | src/config_shield.py:312-328 | from every quiet state an exact run leads to such a state |
| FileLeases.LateUnlinkBreaksExclusion | src/config_shield.py:351-359 | the same with a pending release: it unlinks the other's new file, a third node creates its own, and two believe |
| FileLeases.LateUnlinkHappens | src/config_shield.py:351-359 | from every quiet state an exact run leads to such a state |
| FileLeases.HeartbeatAdoptsStaleRecord | src/config_shield.py:312-328 | a heartbeat on another node's stale record makes the caller the holder; exclusion still holds, since nobody else believes then |
| FileLeases.RenameMovesFile | src/config_shield.py:176-178 | the rename of a reclaim moves whatever lock file is there to the .stale name of the caller |
| FileLeases.FileConfigShield.AcquireOnce | src/config_shield.py:155-213 | when nobody else acts: a missing file is created and written, a stale one reclaimed, with the new record returned and in place; a fresh one refuses naming its owner and an unwritten one raises, both leaving the file; a write that raises leaves the file empty or gone. Among others: the directory ends where a course of the node's own system calls leads, which begins with the create and breaks off only if a write raised, with each wait used at most once, in turn; it gives up only after every try found a file |
| FileLeases.FileConfigShield.Compete | src/config_shield.py:169-207 | the same for a call that found a lock file |
| FileLeases.FileConfigShield.CreateFirst | src/config_shield.py:157-213 | a missing lock file is created and written, or, if the write raises, created and left unwritten with the call ended; an existing one leaves the node contending with its belief unchanged |
| FileLeases.FileConfigShield.Contend | src/config_shield.py:169-180 | what the look found decides: nothing there starts over, no record raises, a fresh record refuses naming its owner, and only a record stale at the start of the call leads to the rename |
| FileLeases.FileConfigShield.WriteOrDrop | src/config_shield.py:191-199 | a write that fails is followed by the unlink of the lock file, one that succeeds by no unlink, and others act in between |
| FileLeases.FileConfigShield.TakeOver | src/config_shield.py:182-202 | from the second create on: if nobody else acts the new record is in place and returned, or the write raised and the file is gone; among others, success only if the write did not fail and its own record was read back; the call ends idle with no .stale file of its own |
| FileLeases.FileConfigShield.Conclude | src/config_shield.py:200-207 | the .stale file goes in any case; a loser raises, a winner returns the record it read back |
| FileLeases.FileConfigShield.Heartbeat | src/config_shield.py:312-328 | read, then replace: refuses a fresh foreign record, takes over a stale one, and returns the record that was written |
| FileLeases.FileConfigShield.Release | src/config_shield.py:351-359 | read, then unlink unless the record is another node's and fresh |
| Backoff.WithRetry | src/sqlite_ledger_storage.py:25-42 | at most max_attempts calls, all but the last on a locked database, the fall-through call only for max_attempts below one, and sleep within a tenth of the capped geometric sum |
| Backoff.RetryDelayDoubles | src/sqlite_ledger_storage.py:25-42 | each delay doubles the one before until the cap |
| Backoff.DefaultRetryBound | src/sqlite_ledger_storage.py:16-20 | with the defaults the delays add up to exactly 20, 60, 140 and 300 ms, so the sleep is at most 330 ms |
| Backoff.SleepBound | src/config_shield.py:257-266 | each sleep of acquire is at most 200 ms and ends by the deadline |
| Backoff.SleepTells | src/config_shield.py:257-266 | with time enough the sleeps are random parts of 40, 80, 160 and then 200 ms |
| Backoff.AcquireLoop | src/config_shield.py:215-268 | tries at least once, gives up exactly on contention past the deadline or a fatal error, and never sleeps past the deadline |
| Backoff.FailureWaitsClosedForm | src/cluster/shipper.py:108-113 | k failures in a row wait 2^k - 1 seconds up to six, then a minute more each |
| Backoff.RunLoop | src/cluster/shipper.py:96-113 | every wait depends only on the turns so far: the failure streak after a failure, and a tenth of a second or the interval after a full or smaller batch |
| Backoff.OutageWait | src/cluster/shipper.py:96-113 | after any history that ended well, k failures wait the closed-form total |
| SyncBuffers.RoundTrip | src/global_sync.py:45-70 | reading the printed log gives the log, for every log and every lawful JSON library |
| SyncBuffers.PrintingIsInjective | src/global_sync.py:45-52 | different logs are different files |
| SyncBuffers.NextKeepsInv | src/global_sync.py:45-80 | every step of any caller inside or outside the lock, except an append behind a torn one (StartsNewLine), keeps: file and log agree, and finished reads were sequential |
| SyncBuffers.NextKeepsInvExactly | src/global_sync.py:45-80 | a step keeps that agreement if and only if it is not an append behind a torn one |
| SyncBuffers.RunsAreSequential | src/global_sync.py:45-80 | in every interleaving of concurrent append, read_all and clear, with appends failing at will: a read returned exactly the records since the last clear, torn ones included, if and only if since then no append had written behind a torn one; otherwise it raised or missed records |
| SyncBuffers.ReadsBackExactly | src/global_sync.py:45-70 | the same for the file that any sequence of finished calls leaves |
| SyncBuffers.OrderlyRunsAreSequential | src/global_sync.py:45-80 | in a run in which no append writes behind a torn one every read is right, and file and log agree |
| SyncBuffers.FileAgreesExactly | src/global_sync.py:45-80 | file and log agree at every moment of a run if and only if none of its appends writes behind a torn one |
| SyncBuffers.RaggedReadsBack | src/global_sync.py:49-70 | a log whose last record lacks its newline still reads back whole |
| SyncBuffers.LinesStayWholeExactly | src/global_sync.py:49-51 | a step leaves a file of whole lines a file of whole lines if and only if it tears no append |
| SyncBuffers.LinesAlwaysWholeExactly | src/global_sync.py:45-80 | at every moment of a run the file consists of whole lines if and only if no append of the run was torn |
| SyncBuffers.ClearHeals | src/global_sync.py:74-80 | a completed clear leaves an empty log that reads back, whatever the file held and whatever was read before |
| SyncBuffers.CallsAlone | src/global_sync.py:45-80 | once it has the lock, an append that does not fail adds one line, a read returns what the file reads as, and a clear removes the file |
| SyncBuffers.FailingReleases | src/global_sync.py:55-80 | a call that fails anywhere gives the lock back |
| SyncBuffers.LineEndsEndLines | src/global_sync.py:64-65 | a line feed and a carriage return each end a line |
| SyncBuffers.LinesAreParsed | src/global_sync.py:65-69 | a blank line gives nothing, any other line its record, and one that is not JSON raises |
| SyncBuffers.TornAppendJoinsLines | src/global_sync.py:49-51 | an append that breaks off before its newline joins the next record to its line |
| SyncBuffers.SyncBuffer.Append | src/global_sync.py:45-56 | with the lock granted, one printed line more; without it no effect |
| SyncBuffers.SyncBuffer.ReadAll | src/global_sync.py:58-72 | the records of the file, or an error if a line is not JSON; nothing is read without the lock |
| SyncBuffers.SyncBuffer.Clear | src/global_sync.py:74-80 | removes the file, only with the lock |
| Texts.StripCuts | src/knowledge_core.py:81 | stripping cuts white space and nothing else from both ends, and all of it |
| Tokenizers.TokenPattern | src/knowledge_core.py:10 | a run of letters, digits and underscores is one token in lower case, a CJK character is one token, and any other character is none |
| Tokenizers.TokensCoverText | src/knowledge_core.py:119-121 | no token character is lost, added, moved or duplicated, and every token is a lower-case word or one CJK character |
| Tokenizers.TokenizeConcatExactly | src/knowledge_core.py:10 | two texts can be tokenized apart exactly when the cut runs through no word |
| Tokenizers.CutWordCountsTwice | src/knowledge_core.py:10 | a cut through a word gives exactly one token more than the whole text |
| Chunkers.HeadingPattern | src/knowledge_core.py:11 | a line is a heading exactly if it is two or three hashes, white space and a nonblank title, and title and level are found |
| Chunkers.NumberPattern | src/knowledge_core.py:109 | a text is a number exactly if it is digits with an optional fraction, and has their decimal value |
| Chunkers.PriorityPattern | src/knowledge_core.py:109 | a line is a priority line with that number if and only if it is the key in any case, a colon and the number, with any white space around each |
| Chunkers.LettersThatMatch | src/knowledge_core.py:109 | what case folding lets stand for a letter of the key |
| Chunkers.DecimalPlaces | src/knowledge_core.py:109 | the digits of a fraction are tenths, hundredths and so on |
| Chunkers.KindsOfLines | src/knowledge_core.py:100-114 | a line is a heading or a priority line by its pattern, headings first, and otherwise text |
| Chunkers.SectionsPartitionLines | src/knowledge_core.py:100-116 | every line that is not a heading stands in exactly one section, in order, and every heading opens one |
| Chunkers.HeadingSeparates | src/knowledge_core.py:100-107 | a heading splits the sections of a file into those before and those after |
| Chunkers.ChunksConcat | src/knowledge_core.py:79-98 | the chunks of two runs of sections are the chunks of the first and, numbered on, those of the second |
| Chunkers.NothingLeaksAcrossHeading | src/knowledge_core.py:69-117 | the chunks before a heading depend only on the lines before it, and those after it only on the heading and what follows, but for their numbers |
| Chunkers.LastSectionGivesChunk | src/knowledge_core.py:69-117 | what follows the last heading gives one chunk more, with that heading and level, the stripped text lines, the last priority and the next number, unless the text is blank |
| Chunkers.OpeningGivesChunk | src/knowledge_core.py:69-117 | what stands before any heading gives one chunk under the stem of the file at level one, unless it is blank |
| Chunkers.ChunksAreNumbered | src/knowledge_core.py:88-96 | ids count from the start without gaps and bodies are stripped and not blank |
| Chunkers.BlankSectionVanishes | src/knowledge_core.py:81-85 | a section yields no chunk exactly when its text lines are all blank |
| Chunkers.LineSnoc | src/knowledge_core.py:109-114 | within a section the last priority line decides, and exactly the lines that are neither priority nor heading are its text |
| Chunkers.Chunker.Flush | src/knowledge_core.py:79-98 | ends the open section: one numbered chunk if it has text, and a clean slate in any case |
| Chunkers.Chunker.ChunkMarkdown | src/knowledge_core.py:69-117 | the loop with its flush gives the chunks of the nonblank sections of the specification |
| Bm25.IdfClosedForm | src/knowledge_core.py:148 | the weight is the logarithm of N + 1 over n + 1/2 |
| Bm25.ContributionTells | src/knowledge_core.py:149-151 | the contribution times its denominator is the weight times its numerator |
| Bm25.IdfIsPositive | src/knowledge_core.py:148 | the weight of a term is positive if it is in no more documents than there are |
| Bm25.RarerWeighsMore | src/knowledge_core.py:148 | the rarer the term, the greater its weight |
| Bm25.PenaltyIsPositive | src/knowledge_core.py:150 | for k1 > 0 and 0 <= b <= 1 every denominator is positive |
| Bm25.ContributionBounds | src/knowledge_core.py:149-151 | a matching term adds something, but less than k1 + 1 times its weight |
| Bm25.ContributionRises | src/knowledge_core.py:149-151 | each further occurrence strictly raises the contribution |
| Rankings.StableSortSorts | src/knowledge_core.py:161 | the sort puts high scores first, keeps every hit, and keeps the order of hits of one score |
| Rankings.StableOrderIsUnique | src/knowledge_core.py:161 | no other arrangement is descending and keeps that order |
| Rankings.Shown | src/knowledge_core.py:162 | the slice by limit: the first so many, everything, or all but the last so many for a negative limit |
| Rankings.CutOffIsWorse | src/knowledge_core.py:161-162 | shown and cut hits are together all hits, and none cut scores more than any shown |
| SearchIndexes.HeadingAndBodyAreIndexed | src/knowledge_core.py:49 | a chunk is indexed by the tokens of its heading followed by those of its body |
| SearchIndexes.FrequencyCounts | src/knowledge_core.py:55-59 | term frequencies count occurrences |
| SearchIndexes.LengthsAddUp | src/knowledge_core.py:60 | the total length adds up document by document |
| SearchIndexes.AverageCounts | src/knowledge_core.py:60-61 | the average length times the number of documents is the total length |
| SearchIndexes.FilesAreLoadedInOrder | src/knowledge_core.py:63-67 | files give their chunks one after the other |
| SearchIndexes.DocFrequencyBounds | src/knowledge_core.py:55 | a term's document frequency is at most the number of documents and positive exactly if some document holds it |
| SearchIndexes.TablesAnswer | src/knowledge_core.py:143-147 | tables that agree with the definitions, read with get(term, 0), give the frequencies for every term |
| Searches.TermScoreTells | src/knowledge_core.py:136-151 | what a matched term adds to the score is the BM25 formula in the frequencies and lengths of the texts |
| Searches.SearchRaisesExactly | src/knowledge_core.py:126-151 | a search divides by zero if and only if a chunk holds a word of the query whose denominator is zero |
| Searches.TermsStay | src/knowledge_core.py:133 | the query terms stand in order of first appearance |
| Searches.ScoreBounds | src/knowledge_core.py:140-151 | the unboosted score is positive exactly when a term matched, and below k1 + 1 times the sum of the matched weights |
| Searches.UsualNeverFails | src/knowledge_core.py:150-151 | with usual parameters no search divides by zero |
| Searches.HitsAreMatches | src/knowledge_core.py:135-159 | before order and cut the hits are exactly the chunks that hold a query term, in order, each with its matched terms |
| Searches.HeadingTermMatches | src/knowledge_core.py:49 | a query term in the heading makes the chunk a hit, so the boost only reaches hits |
| Searches.BoostLiftsHeadingHits | src/knowledge_core.py:156-158 | a hit has exactly a fifth more than its score times its priority if a query term stands in its heading, and no more otherwise; with priority 0 its score is 0 |
| Searches.SearchAnswers | src/knowledge_core.py:126-162 | with usual parameters: no error, best first; shown and cut hits together are the scored chunks with a word of the query in heading or body, and nothing cut scores more than anything shown |
| Searches.ScoreIgnoresOrder | src/knowledge_core.py:142-151 | the order of the query terms does not change a score |
| Searches.QueryIsASetOfWords | src/knowledge_core.py:133 | queries with the same words, in any order and number, find the same chunks with the same scores in the same order |
| Chunkers.ChunkIdTells | src/knowledge_core.py:85 | the text path#number tells both: whatever the path holds, the digits behind the last # are the number |
| KnowledgeCores.ChunkIdsAreDistinct | src/knowledge_core.py:63-67 | files with different paths give chunks whose ids differ as texts, within a file and across files |
| KnowledgeCores.KnowledgeCore.LoadChunks | src/knowledge_core.py:63-67 | the chunks of all files in file order |
| KnowledgeCores.KnowledgeCore.IndexDocument | src/knowledge_core.py:52-56 | the inner loop adds exactly one document to the document frequencies and counts its terms |
| KnowledgeCores.KnowledgeCore.RebuildIndex | src/knowledge_core.py:42-61 | every document frequency, term frequency, length and the average equal their definitions over the token lists |
| KnowledgeCores.KnowledgeCore.UniqueTerms | src/knowledge_core.py:133 | each query term once, in order of first appearance |
| KnowledgeCores.KnowledgeCore.ScoreChunk | src/knowledge_core.py:136-151 | from the tables, the score and matched terms that the definition gives, or a division by zero exactly where it has one |
| KnowledgeCores.KnowledgeCore.Search | src/knowledge_core.py:126-162 | over an index that agrees, the answer of the definition that uses no table |
| Semaphores.GrantAllStep | src/cron_engine.py:198 | waking sleepers one by one while slots are free gives as many slots as possible, in queue order |
| Semaphores.WithoutOne | src/cron_engine.py:198 | leaving the queue removes exactly the one waiter |
| Semaphores.Semaphore.IsLocked | src/cron_engine.py:186 | locked exactly if no slot is free or anybody is queued, woken or not |
| Semaphores.Semaphore.WakeUpNext | src/cron_engine.py:198 | the scan of the deque wakes exactly the first sleeper and gives it the slot |
| Semaphores.Semaphore.Resume | src/cron_engine.py:198 | a woken task leaves the queue and hands every free slot to the sleepers in order |
| Semaphores.Semaphore.ReleaseSlot | src/cron_engine.py:198-216 | a returned slot goes to the first sleeper or becomes free |
| CronEngines.NextKeepsSlots | src/cron_engine.py:178-216 | every step whatever, also one whose ledger calls raise, keeps: free, promised and used slots add up to the maximum, and the queue holds the waiting triggers in arrival order, none of low priority |
| CronEngines.NextKeepsInv | src/cron_engine.py:178-216 | every plausible step of triggers, wake-ups, payload ends, job changes and foreign ledger statements keeps, besides, ledger rows and call log in agreement with what became of each trigger |
| CronEngines.AdmissionInEveryRun | src/cron_engine.py:178-216 | in every run, from any table, with any ids, any statements of others and any ledger calls raising: free, promised and used slots add up to the maximum, and the queue holds the waiting triggers in arrival order, none of low priority |
| CronEngines.RecordsInEveryRun | src/cron_engine.py:178-216 | in every plausible run ledger rows and call log match, besides, what became of each trigger |
| CronEngines.BeginOutcome | src/cron_engine.py:198-206 | a wrapper that got a slot executes and keeps it, with a running row that names its job, if its entry id is new and the database raises no error, and otherwise ends and gives it back |
| CronEngines.EndOutcome | src/cron_engine.py:208-216 | a payload that ends gives its slot back exactly once; the trigger is completed, failed or aborted as the result, the status of its row at that time and the errors of the database say |
| CronEngines.EndedRowTells | src/cron_engine.py:209-213 | the row of a completed trigger holds its result, that of a failed one its error |
| CronEngines.RefusedCompletionIsMarkedFailed | src/cron_engine.py:209-213 | if the completion cannot be written the entry is marked failed instead |
| CronEngines.AbortsExactly | src/cron_engine.py:189-213 | a step aborts a trigger if and only if it opens an entry under a used id or with an error of the database, or cannot close its entry (gone, neither pending nor running, or an error that the handler does not make up for); an abort is never undone |
| CronEngines.NoneAbortedExactly | src/cron_engine.py:178-216 | no trigger of a run is aborted if and only if every step of it can open or close its entry in that sense |
| CronEngines.DeletedEntryAborts | src/cron_engine.py:208-213 | a run in which somebody deletes the entry of an executing job: the trigger is aborted, and its slot is free again |
| CronEngines.SlotsAreBounded | src/cron_engine.py:75 | at most the maximum executes; low-priority jobs never sleep; once woken waiters have resumed a sleeper means all slots are in use; all this after aborted triggers too |
| CronEngines.SlotsTakenAreRunningEntries | src/cron_engine.py:198-206 | in plausible runs, at every await: the slots taken equal the running ledger entries of executing jobs plus the slots handed to waiters that have not resumed |
| CronEngines.FirstComeFirstServed | src/cron_engine.py:198 | the sleepers are exactly the last to have queued |
| CronEngines.ShedExactly | src/cron_engine.py:184-196 | whatever happened before: if its ledger calls succeed, a trigger is dropped exactly when its priority is below 30 and no slot is free or a woken waiter has yet to resume, and runs at once exactly when neither a slot is lacking nor a waiter due; it queues exactly when its priority is higher and one of the two holds; if they do not succeed it aborts instead of being dropped or run |
| CronEngines.DisabledJobDoesNothing | src/cron_engine.py:180-182 | a trigger of a disabled or removed job changes nothing |
| CronEngines.LockedBesideFreeSlot | src/cron_engine.py:186 | two slots returned before the one waiter resumes: locked with a free slot, and a newcomer sleeps beside it until the waiter hands it on |
| CronEngines.ShedBesideFreeSlot | src/cron_engine.py:184-198 | a run of the engine that ends so: two jobs finish before the queued one resumes, and a low-priority trigger is dropped while a slot is free |
| CronEngines.OneEntryEach | src/cron_engine.py:189-206 | in plausible runs an admitted or shed trigger created exactly one ledger entry and every other call was a move of that entry; no two triggers share one |
| CronEngines.EveryCallSucceeds | src/cron_engine.py:189-213 | in plausible runs every ledger call the engine makes is a legal one and takes effect |
| CronEngines.EndKeepsInv | src/cron_engine.py:208-216 | in plausible runs the end of a payload closes its entry, returns its slot and removes the job if it asked for that |
| CronEngines.CronEngine.ExecuteJobWrapper | src/cron_engine.py:178-206 | from the call to its first await the object does the trigger step of the model, and nothing at all for a disabled or removed job |
| CronEngines.CronEngine.ResumeJob | src/cron_engine.py:198-206 | from the wake-up to the await of the payload it does the resume step |
| CronEngines.CronEngine.FinishJob | src/cron_engine.py:208-216 | from the end of the payload to the end it does the finish step, including a completion that fails |
| CronEngines.CronEngine.SaveJob | src/cron_engine.py:162-168 | stores the job under its id |
| CronEngines.CronEngine.DeleteJob | src/cron_engine.py:170-176 | removes the job if it is there |
| AlertEngines.PopsOldestFirst | src/cluster/alert_engine.py:104-107 | a pipeline of pops takes the oldest payloads in the order they were pushed |
| AlertEngines.DrainAccounts | src/cluster/alert_engine.py:99-119 | with payloads arriving and pipelines failing in between, every payload is accounted for in order: returned, lost, or still in the list; at most one pipeline is lost, and only by a bad payload or lost replies |
| AlertEngines.DrainReturnsAll | src/cluster/alert_engine.py:100-119 | with good payloads and nobody else at work the drain returns everything oldest first and empties the list |
| AlertEngines.EmittedEventsComeBack | src/cluster/alert_engine.py:73-116 | emitted events come back from the next drain, each once, in the order they were emitted |
| AlertEngines.BadPayloadLosesItsPipeline | src/cluster/alert_engine.py:110-119 | a payload that fails to parse loses itself and exactly the rest of its pipeline of 1000; earlier events are returned, later ones stay |
| AlertEngines.AlertAggregator.Emit | src/cluster/alert_engine.py:73-80 | the event is the newest of the Redis list or of the buffer |
| AlertEngines.AlertAggregator.Pipeline | src/cluster/alert_engine.py:104-107 | the pops done in place on the list give the replies and the rest that PopsOldestFirst describes |
| AlertEngines.AlertAggregator.ReadReplies | src/cluster/alert_engine.py:109-113 | reads replies up to the first bad payload |
| AlertEngines.AlertAggregator.FetchAll | src/cluster/alert_engine.py:95-119 | the loop returns what DrainAccounts accounts for, under any arrivals and outages, and terminates |
| AlertEngines.AlertAggregator.TakeBuffer | src/cluster/alert_engine.py:120-123 | the memory buffer is handed over whole and left empty |
| AlertEngines.AlertAggregator.Aggregate | src/cluster/alert_engine.py:134-152 | the loop over a set of seen keys gives the groups of the first event of each key |
| AlertEngines.AlertAggregator.CountEvents | src/cluster/alert_engine.py:158 | the sum over the groups is the total that the lemmas speak of |
| AlertDedups.FirstsAreFirst | src/cluster/alert_engine.py:144-150 | the survivors are events of the batch in their order, and the first event of a key is among them |
| AlertDedups.FirstsHaveEachKeyOnce | src/cluster/alert_engine.py:144-149 | the survivors have the keys of all events, each exactly once |
| AlertDedups.GroupsPartition | src/cluster/alert_engine.py:150 | groups have distinct types, are not empty, and hold exactly the survivors of their type in order |
| AlertDedups.GroupsKeepEvents | src/cluster/alert_engine.py:141-152 | grouping neither loses nor doubles an event |
| AlertDedups.AggregationIsIdempotent | src/cluster/alert_engine.py:134-152 | aggregating the aggregated events gives the same groups again |
| AlertDedups.TotalIsDistinctKeys | src/cluster/alert_engine.py:158 | the reported total is the number of distinct keys |
| AlertDedups.TotalIsDistinctTriplesExactly | src/cluster/alert_engine.py:146 | the total is at most the number of distinct (source, type, severity) triples, with equality exactly when no two triples share a key |
| AlertDedups.NoCollisionsExactly | src/cluster/alert_engine.py:146 | for any set of types with severities: no sources whatever make two alerts share a key if and only if no ":type:severity" is a suffix of another one |
| AlertDedups.TotalIsRight | src/cluster/alert_engine.py:146-158 | the reported total is the number of distinct triples whenever types and severities can be told apart in that sense |
| AlertDedups.NoColonsNoCollision | src/cluster/alert_engine.py:146 | without colons in type and severity they can, whatever the sources hold |
| AlertDedups.CollidingAlerts | src/cluster/alert_engine.py:146-149 | with a colon in a type two different alerts count as one and the second is dropped |
| Failovers.FailoverIsPartial | src/agent_manager.py:220-265 | however an undisturbed call ends, a prefix of the node's tasks is wholly reclaimed (registration, lock, one broadcast each) and nothing else changes |
| Failovers.CompleteFailover | src/agent_manager.py:199-262 | a complete call removes exactly the node's tasks and their locks; count, removals and broadcasts agree, and the alert names those tasks |
| Failovers.TasksKeepOrder | src/agent_manager.py:213-214 | the tasks of a node come in the order of the registry |
| Failovers.BrokenCallAnswersZero | src/agent_manager.py:263-265 | a call that breaks off at its read or at a pipeline answers 0 and raises no alert |
| Failovers.OneBroadcastEach | src/agent_manager.py:229-234 | each lost task is broadcast exactly once and nothing else is |
| Failovers.RetriesEndTheSame | src/agent_manager.py:263-265 | any number of broken calls and then a complete one do what a single complete call does: each task broadcast once |
| Failovers.AllFailedOver | src/agent_manager.py:199-262 | complete failovers of several nodes remove exactly the tasks of all of them |
| Failovers.NodeOrderDoesNotMatter | src/agent_manager.py:199-262 | the same set of nodes in any order and number leaves the same registry, locks and broadcasts |
| Failovers.OnlyOthersMove | src/agent_manager.py:225-226 | with others at work, a task not yet reclaimed is registered where the others put it |
| Failovers.WipesLiveExactly | src/agent_manager.py:213-226 | a pipeline deletes a living node's registration exactly when others last registered the task elsewhere since the read |
| Failovers.StaleReadWipesNewOwner | src/agent_manager.py:213-226 | a task taken over between read and pipeline loses its new registration and lock |
| Failovers.AgentManager.PerformFailover | src/agent_manager.py:199-265 | the loop under any interference and fault reaches the model's state, answers 0 on any exception, and raises the alert only at the end |
| Failovers.AgentManager.TasksToReclaim | src/agent_manager.py:213-214 | the tasks of the node in registry order |
| ToolStreams.ConsecutiveIsAssembled | src/agent_vm.py:110-122 | for every interleaving whose new indices are consecutive, call i has the first id seen and the in-order concatenation of its names and arguments |
| ToolStreams.AssembledExactly | src/agent_vm.py:110-122 | for every stream: the calls say at every moment what the fragments so far mean if and only if new indices are consecutive |
| ToolStreams.AcceptedExactly | src/agent_vm.py:112-122 | for every stream: it is accepted if and only if every fragment with text finds its slot, counting from the end for a negative index; otherwise it raises |
| ToolStreams.AcceptedIfConsecutive | src/agent_vm.py:112-122 | with indices from zero and text in every fragment that opens a call, a stream is accepted if and only if its new indices are consecutive |
| ToolStreams.SilentGapMisplacesId | src/agent_vm.py:112-117 | a fragment without text can open the wrong slot, and its id ends up on another call |
| AgentVms.HearsEverything | src/agent_vm.py:99-122 | content is the concatenation of all deltas, and the calls depend only on the sequence of fragments, not on how deltas carry them |
| AgentVms.AnswerIsAssembled | src/agent_vm.py:99-122 | an answer with consecutive new indices is heard whole |
| AgentVms.ContentIsPassedOn | src/agent_vm.py:104-108 | content is yielded as it comes, and the pieces make up the content of the answer |
| AgentVms.ToolsAnswerWithResults | src/agent_vm.py:142-162 | each call is announced and dispatched with its parsed arguments, or an empty object, and its result is its tool message |
| AgentVms.RaisingToolEndsChat | src/agent_vm.py:142-162 | a tool that raises ends the chat, announced and unanswered |
| AgentVms.RoundOutcome | src/agent_vm.py:90-162 | a round sends the conversation as it is, appends the answer, and runs its calls or stops |
| AgentVms.ChatStopsAtFirstAnswer | src/agent_vm.py:88-164 | each further request is the one before with its answer and tool messages; the chat stops with the first answer that calls no tool |
| AgentVms.AnswersFollow | src/agent_vm.py:134-161 | in a paired conversation every assistant message is followed at once by one matching tool message per call, in order |
| AgentVms.RoundKeepsOrder | src/agent_vm.py:90-162 | a round sends a paired conversation and leaves a paired one, or raises |
| AgentVms.ChatIsOrderly | src/agent_vm.py:88-164 | if the system prompt and history are paired once compacted: at most ten requests, each paired; one done at the very end unless something raised; a paired conversation if nothing did |
| AgentVms.ChatIsOrderlyExactly | src/agent_vm.py:88-164 | whatever the model, the parser and the tools do, every request is paired if and only if the compacted beginning is |
| AgentVms.PairedHistoryIsOrderlyExactly | src/agent_vm.py:83-164 | from a paired history that begins with a plain message, every request is paired if and only if the history is shorter than twenty or its tenth message from the end is not a tool message |
| AgentVms.CompactionKeepsPairingExactly | src/agent_vm.py:228-234 | compaction keeps a long paired conversation paired exactly when the same calls are pending before and after the gap |
| AgentVms.CutBeforeToolBreaksExactly | src/agent_vm.py:228-234 | after a system and a user message, exactly when the first of the last ten messages is not a tool message |
| AgentVms.CompactContext | src/agent_vm.py:228-234 | short conversations stay; a long one becomes its first two and its last ten messages, which keeps it paired after two plain messages exactly if the first of the ten is not a tool message |
| AgentVms.Accumulate | src/agent_vm.py:110-122 | the loop over fragments with Python indexing gives what ToolStreams describes, or an IndexError |
| AgentVms.HearStream | src/agent_vm.py:102-122 | the loop over chunks, with what was yielded up to a failure |
| AgentVms.ExecuteCalls | src/agent_vm.py:142-162 | the loop over calls: announced, dispatched, answered in order, up to the first that raises |
| AgentVms.RunChat | src/agent_vm.py:69-164 | the whole loop: conversation, yielded events and outcome of the model, for every model, parser and tools |

## Left out

- OpsLedgers.OpsLedger.MarkFailed: the alert it raises afterwards is not modelled; errors there are swallowed by the source.
- OpsLedgers.OpsLedger.Transition: an unknown status text is refused here; storage.update itself takes any text, which only other callers could pass.
- LedgerStorage.SQLiteLedgerStorage.Update: JSON encoding of checkpoints and metadata is opaque; a value that cannot be encoded is not modelled.
- RedisLeases.ConfigShield.AcquireOnce: the recursion after a vanished key is bounded by a depth, which stands for the interpreter's recursion limit.
- FileLeases.FileConfigShield.AcquireOnce: the same bound on its recursion; nodes share one clock.
- FileLeases.FileConfigShield.CreateFirst: a write that raises is taken to have written nothing; one that raises after its bytes arrived leaves a record that nobody renews.
- FileLeases.FileConfigShield.TakeOver: the read that names the winner of a lost race only chooses the error text and is not modelled; the call fails either way.
- CronEngines.CronEngine.ExecuteJobWrapper: ledger statements of other nodes fall between steps, not between the ledger calls of one step.
- CronEngines.CronEngine.SaveJob: the scheduler registration and the jobs file are not modelled.
- AuditShippers.FreshDrainIsWholeLedger: updates of a row after it was shipped are not shipped again; the cursor follows creation time only.
- AuditShippers.FirstStartIsSafe: a checkpoint file that is valid JSON but not an object raises at start-up in the source and is not among the file cases; nor is one whose values have other types.
- KnowledgeCores.KnowledgeCore.Search: scores are real numbers; rounding, and with it ties that only rounding makes, is not modelled.
- Chunkers.Chunker.ChunkMarkdown: lines are given as split by the reader of the file; file reading and decoding are not modelled.
- SyncBuffers.SyncBuffer.Append: a write that stops inside a record is not modelled; a write of one string happens whole or not at all.
- AlertEngines.AlertAggregator.Emit: only the event fields that the aggregator looks at are modelled; the text of the summary and its channels are left out.
- AgentVms.RunChat: cancellation of the generator by its consumer is not modelled.
- SQL statements, single Redis commands, MULTI/EXEC pipelines, system calls and the code between two awaits are atomic; "database is locked" is raised before any effect.
- A lock file's existence check and read, and the check and unlink of a .stale file, are one step each.
- Heartbeat threads: whether renewal keeps running is not claimed; a thread that lost its lock stays registered until release.
- The migration of old JSONL ledgers appears only as inserts of rows in any status.
- Scheduling of triggers (APScheduler, cron expressions, jitter) and task cancellation.
- The choice of sandbox, tool and policy, prompts, skills, sessions, keys, channels, routers and the web interface: file, process or library glue without an algorithm of its own.
- Agent records, their validation and core files: one-branch checks.

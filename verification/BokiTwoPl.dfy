/** TPLRead, TPLWrite, getAllTxnLogs and the write loops of TPLCommit and TPLAbort, against the shared world. */
module BokiTwoPl {
  import opened Wrappers
  import opened BokiTags
  import opened LogModel
  import opened VersionedRows
  import opened BokiWorld
  import opened IntentFsms
  import opened LockFsms
  import opened BokiDb
  import LP = LockProtocol
  import IP = IntentProtocol

  /** Lock for a transaction's executor, which from then on sees its own proposal. */
  method LockFor(env: Env, w: World, cache: LockCache, txnId: string, table: string, key: string)
    returns (locked: bool, proposed: Option<nat>, ghost seen: nat)
    requires w.Valid() && env.Valid(w.log) && cache.Valid(w.log)
    modifies env`own, w, cache
    ensures w.Valid() && w.Evolved() && env.Valid(w.log) && cache.Valid(w.log)
    ensures Answer(w.log, LP.LockIdOf(table, key), txnId, locked, proposed, seen,
                   Later(old(env.own), old(cache.Replayed(LP.LockIdOf(table, key)))), |old(w.log)|)
    ensures w.appended == old(w.appended) + Only(proposed) && w.updated == old(w.updated)
    ensures old(env.own) <= env.own && (proposed.Some? ==> proposed.value < env.own)
  {
    locked, proposed, seen := cache.Lock(w, env.own, txnId, table, key);
    env.ValidStable(old(w.log), w.log);
    if proposed.Some? && env.own <= proposed.value { env.own := proposed.value + 1; }
  }

  /**
   A transactional read: refused exactly when Lock is, and then nothing but the lock proposal is logged; granted on a
   replay that shows the caller as holder, and then a step-logged read.
   */
  method TPLRead(env: Env, w: World, cache: LockCache, txnId: string, table: string, key: string)
    returns (locked: bool, ok: bool, v: Option<string>, proposed: Option<nat>,
             ghost seen: nat, ghost logged: IP.IntentRecord, ghost served: seq<Attempt>)
    requires w.Valid() && env.Valid(w.log) && cache.Valid(w.log)
    modifies env, env.fsm, w, cache
    ensures w.Valid() && w.Evolved() && env.Valid(w.log) && cache.Valid(w.log)
    ensures Answer(w.log, LP.LockIdOf(table, key), txnId, locked, proposed, seen,
                   Later(old(env.own), old(cache.Replayed(LP.LockIdOf(table, key)))), |old(w.log)|)
    ensures env.stepNumber == old(env.stepNumber) + if locked then 1 else 0
    ensures w.updated == old(w.updated) && (!locked ==> w.appended == old(w.appended) + Only(proposed))
    ensures proposed.Some? ==> proposed.value < env.own
    ensures locked ==> IP.Records(w.log, logged, |w.log|, env.instanceId, old(env.stepNumber), false)
    ensures locked ==> (ok <==> logged.data.ReadResult? && logged.data.table == table && logged.data.key == key)
    ensures locked && ok ==> v == logged.data.read
    ensures locked ==> ProposedAtMost(old(w.appended) + Only(proposed), w.appended)
    ensures locked && Won(old(w.appended) + Only(proposed), w.appended, logged) ==>
              ok && ReadWithin(w.initial, old(w.attempts), w.attempts, RowKey(table, key), served, v)
  {
    locked, proposed, seen := LockFor(env, w, cache, txnId, table, key);
    if !locked { return false, true, None, proposed, seen, IP.IntentRecord(0, 0, InvokeResult("")), []; }
    ghost var log1, served1 := w.log, w.attempts;
    ok, v, logged, served := Read(env, w, table, key);
    AnswerStable(log1, w.log, LP.LockIdOf(table, key), txnId, locked, proposed, seen,
                 Later(old(env.own), old(cache.Replayed(LP.LockIdOf(table, key)))), |old(w.log)|);
    cache.Carry(log1, w.log);
    EarlierStart(w.initial, old(w.attempts), served1, w.attempts, RowKey(table, key), served, v);
  }

  lemma EarlierStart(initial: map<RowKey, Item>, before: Attempts, later: Attempts, after: Attempts, row: RowKey,
                     served: seq<Attempt>, v: Option<string>)
    requires Grows(before, later)
    ensures ReadWithin(initial, later, after, row, served, v) ==> ReadWithin(initial, before, after, row, served, v)
  {
  }

  /**
   A transactional write: refused exactly when Lock is; otherwise it logs its intention after the lock was seen to be
   held. It never touches the row.
   */
  method TPLWrite(env: Env, w: World, cache: LockCache, txnId: string, table: string, key: string, value: string)
    returns (locked: bool, proposed: Option<nat>, record: nat, ghost seen: nat)
    requires w.Valid() && env.Valid(w.log) && cache.Valid(w.log)
    modifies env, w, cache
    ensures w.Valid() && w.Evolved() && env.Valid(w.log) && cache.Valid(w.log) && env.stepNumber == old(env.stepNumber)
    ensures Answer(w.log, LP.LockIdOf(table, key), txnId, locked, proposed, seen,
                   Later(old(env.own), old(cache.Replayed(LP.LockIdOf(table, key)))), |old(w.log)|)
    ensures w.appended == old(w.appended) + Only(proposed) + if locked then [record] else []
    ensures proposed.Some? ==> proposed.value < env.own
    ensures w.updated == old(w.updated)
    ensures locked ==>
              && |old(w.log)| <= record < env.own && seen <= record
              && w.log[record].Entry? && w.log[record].payload == TxnWrite(env.lambdaId, txnId, table, key, value)
  {
    locked, proposed, seen := LockFor(env, w, cache, txnId, table, key);
    record := 0;
    if !locked { return; }
    ghost var log1 := w.log;
    var tag := TransactionStreamTag(w.hash, env.lambdaId, txnId);
    record := w.Append(Entry(tag, TxnWrite(env.lambdaId, txnId, table, key, value)));
    env.ValidStable(log1, w.log);
    env.own := record + 1;
    AnswerStable(log1, w.log, LP.LockIdOf(table, key), txnId, locked, proposed, seen,
                 Later(old(env.own), old(cache.Replayed(LP.LockIdOf(table, key)))), |old(w.log)|);
    cache.Carry(log1, w.log);
  }

  // ---- getAllTxnLogs ----

  predicate IsTxnLog(slot: Slot, lambdaId: string, txnId: string) {
    slot.Entry? && match slot.payload
                   case TxnCall(l, t, _) => l == lambdaId && t == txnId
                   case TxnWrite(l, t, _, _, _) => l == lambdaId && t == txnId
                   case _ => false
  }

  /** The transaction's own records among the first n slots, in log order, as sequence numbers. */
  function TxnLogs(log: Log, lambdaId: string, txnId: string, n: nat): (r: seq<nat>)
    requires n <= |log|
    ensures forall i :: 0 <= i < |r| ==> r[i] < n && IsTxnLog(log[r[i]], lambdaId, txnId)
  {
    if n == 0 then []
    else if IsTxnLog(log[n - 1], lambdaId, txnId) then TxnLogs(log, lambdaId, txnId, n - 1) + [n - 1]
    else TxnLogs(log, lambdaId, txnId, n - 1)
  }

  /** A call that the function made for the transaction. */
  ghost predicate RecordsCall(slot: Slot, lambdaId: string, txnId: string) {
    exists callee :: slot.Entry? && slot.payload == TxnCall(lambdaId, txnId, callee)
  }

  /** A write that the function made for the transaction. */
  ghost predicate RecordsWrite(slot: Slot, lambdaId: string, txnId: string) {
    exists table, key, value :: slot.Entry? && slot.payload == TxnWrite(lambdaId, txnId, table, key, value)
  }

  /** Every call and every write of the function for the transaction, once each, in log order, and nothing else. */
  ghost predicate ListsRecords(log: Log, lambdaId: string, txnId: string, n: nat, r: seq<nat>)
    requires n <= |log|
  {
    && (forall i, j :: 0 <= i < j < |r| ==> r[i] < r[j]) && (forall i :: 0 <= i < |r| ==> r[i] < n)
    && forall k :: 0 <= k < n ==>
         (k in r <==> RecordsCall(log[k], lambdaId, txnId) || RecordsWrite(log[k], lambdaId, txnId))
  }

  lemma TxnLogIs(slot: Slot, lambdaId: string, txnId: string)
    ensures IsTxnLog(slot, lambdaId, txnId) <==>
              RecordsCall(slot, lambdaId, txnId) || RecordsWrite(slot, lambdaId, txnId)
  {
    if slot.Entry? && slot.payload.TxnCall? {
      assert slot.payload == TxnCall(slot.payload.lambdaId, slot.payload.txnId, slot.payload.callee);
    }
    if slot.Entry? && slot.payload.TxnWrite? {
      var p := slot.payload;
      assert p == TxnWrite(p.lambdaId, p.txnId, p.table, p.key, p.value);
    }
  }

  lemma {:induction false} TxnLogsComplete(log: Log, lambdaId: string, txnId: string, n: nat)
    requires n <= |log|
    ensures ListsRecords(log, lambdaId, txnId, n, TxnLogs(log, lambdaId, txnId, n))
  {
    if n > 0 {
      TxnLogsComplete(log, lambdaId, txnId, n - 1);
      TxnLogIs(log[n - 1], lambdaId, txnId);
    }
  }

  lemma {:induction false} TxnLogsQuiet(log: Log, lambdaId: string, txnId: string, a: nat, b: nat)
    requires a <= b <= |log| && forall k :: a <= k < b ==> !IsTxnLog(log[k], lambdaId, txnId)
    ensures TxnLogs(log, lambdaId, txnId, a) == TxnLogs(log, lambdaId, txnId, b)
    decreases b
  {
    if a < b { TxnLogsQuiet(log, lambdaId, txnId, a, b - 1); }
  }

  method GetAllTxnLogs(env: Env, w: World, txnId: string) returns (results: seq<nat>, ghost view: nat)
    requires w.Valid() && env.Valid(w.log)
    modifies w
    ensures w.Valid() && w.Evolved() && w.Idle() && env.Valid(w.log)
    ensures env.own <= view <= |w.log| && results == TxnLogs(w.log, env.lambdaId, txnId, view)
    ensures ListsRecords(w.log, env.lambdaId, txnId, view, results)
  {
    var limit := w.View(env.own);
    view := limit;
    env.ValidStable(old(w.log), w.log);
    results := ReadTxnLogs(w, env.lambdaId, txnId, limit);
    TxnLogsComplete(w.log, env.lambdaId, txnId, limit);
  }

  method ReadTxnLogs(w: World, lambdaId: string, txnId: string, limit: nat) returns (results: seq<nat>)
    requires w.Valid() && limit <= |w.log|
    ensures results == TxnLogs(w.log, lambdaId, txnId, limit)
  {
    var tag := TransactionStreamTag(w.hash, lambdaId, txnId);
    var seqNum := 0;
    results := [];
    var next := ReadNext(w.log, limit, tag, seqNum);
    while next.Some?
      invariant seqNum <= limit && results == TxnLogs(w.log, lambdaId, txnId, seqNum)
      invariant next == ReadNext(w.log, limit, tag, seqNum)
      decreases limit - seqNum
    {
      TxnLogsQuiet(w.log, lambdaId, txnId, seqNum, next.value);
      if IsTxnLog(w.log[next.value], lambdaId, txnId) { results := results + [next.value]; }
      seqNum := next.value + 1;
      next := ReadNext(w.log, limit, tag, seqNum);
    }
    TxnLogsQuiet(w.log, lambdaId, txnId, seqNum, limit);
  }

  // ---- ending a transaction ----

  function Writes(log: Log, logs: seq<nat>): (r: seq<nat>)
    requires forall i :: 0 <= i < |logs| ==> logs[i] < |log|
    ensures forall i :: 0 <= i < |r| ==> r[i] < |log| && log[r[i]].Entry? && log[r[i]].payload.TxnWrite?
  {
    if logs == [] then []
    else
      var last := logs[|logs| - 1];
      if IsRecord(log, last)
      then Writes(log, logs[..|logs| - 1]) + [last] else Writes(log, logs[..|logs| - 1])
  }

  type Attempts = map<RowKey, seq<Attempt>>

  /** Record r, committed at this step: its PreWrite entry is agreed, and the recorded value was served under it. */
  ghost predicate Committed(log: Log, served: Attempts, r: nat, instanceId: string, step: nat) {
    IsRecord(log, r) && exists pre: IP.IntentRecord :: CommittedBy(log, served, r, instanceId, step, pre)
  }

  ghost predicate CommittedBy(log: Log, served: Attempts, r: nat, instanceId: string, step: nat, pre: IP.IntentRecord)
    requires IsRecord(log, r)
  {
    var p := log[r].payload;
    && IP.Records(log, pre, |log|, instanceId, step, false) && pre.data == PreWrite(p.table, p.key)
    && Served(served, RowKey(p.table, p.key), Attempt(pre.seqNum, Put(p.value), Always()))
  }

  lemma CommittedStable(log: Log, longer: Log, before: Attempts, after: Attempts, r: nat, instanceId: string, step: nat)
    requires log <= longer && Grows(before, after) && Committed(log, before, r, instanceId, step)
    ensures Committed(longer, after, r, instanceId, step)
  {
    var pre :| CommittedBy(log, before, r, instanceId, step, pre);
    IP.RecordsStable(log, longer, pre, instanceId, step, false);
    assert longer[r] == log[r];
    assert CommittedBy(longer, after, r, instanceId, step, pre);
  }

  function WriteLock(log: Log, r: nat): string
    requires IsRecord(log, r)
  {
    LP.LockIdOf(log[r].payload.table, log[r].payload.key)
  }

  /** The transaction let go of the record's lock at or after this position. */
  ghost predicate Freed(log: Log, r: nat, txnId: string, from: nat) {
    IsRecord(log, r) && LP.Released(log, WriteLock(log, r), txnId, from)
  }

  /** Every write record so far has its lock freed and, when committing, is committed at its own step. */
  ghost predicate AllEnded(log: Log, served: Attempts, done: seq<nat>, instanceId: string, start: nat, txnId: string,
                           from: nat, commits: bool) {
    && (forall i :: 0 <= i < |done| ==> Freed(log, done[i], txnId, from))
    && (commits ==> forall i :: 0 <= i < |done| ==> Committed(log, served, done[i], instanceId, start + i))
  }

  /**
   Once its records are ended the transaction holds none of their locks, in a log however long, as long as it appends no
   lock operation from the position on where ending began.
   */
  lemma EndedHoldsNone(log: Log, served: Attempts, done: seq<nat>, instanceId: string, start: nat, txnId: string,
                       from: nat, commits: bool, i: nat)
    requires LP.Lawful(log) && txnId != "" && AllEnded(log, served, done, instanceId, start, txnId, from, commits)
    requires i < |done| && IsRecord(log, done[i]) && LP.NoAcquire(log, WriteLock(log, done[i]), txnId, from)
    ensures !LP.Holds(log, WriteLock(log, done[i]), txnId, |log|)
  {
    assert Freed(log, done[i], txnId, from);
    LP.ReleasedForGood(log, WriteLock(log, done[i]), txnId, from);
  }

  lemma AllEndedStable(log: Log, longer: Log, before: Attempts, after: Attempts, done: seq<nat>, instanceId: string,
                       start: nat, txnId: string, from: nat, commits: bool)
    requires log <= longer && Grows(before, after)
    requires AllEnded(log, before, done, instanceId, start, txnId, from, commits)
    ensures AllEnded(longer, after, done, instanceId, start, txnId, from, commits)
  {
    forall i | 0 <= i < |done| ensures Freed(longer, done[i], txnId, from) {
      assert Freed(log, done[i], txnId, from) && longer[done[i]] == log[done[i]];
      LP.ReleasedStable(log, longer, WriteLock(log, done[i]), txnId, from);
    }
    if commits {
      forall i | 0 <= i < |done| ensures Committed(longer, after, done[i], instanceId, start + i) {
        CommittedStable(log, longer, before, after, done[i], instanceId, start + i);
      }
    }
  }

  lemma AllEndedAdd(log: Log, served: Attempts, done: seq<nat>, r: nat, instanceId: string, start: nat, txnId: string,
                    from: nat, commits: bool)
    requires AllEnded(log, served, done, instanceId, start, txnId, from, commits) && Freed(log, r, txnId, from)
    requires commits ==> Committed(log, served, r, instanceId, start + |done|)
    ensures AllEnded(log, served, done + [r], instanceId, start, txnId, from, commits)
  {
  }

  /** The loop after i entries, with the executor at this step. */
  ghost predicate EndedSoFar(log: Log, served: Attempts, logs: seq<nat>, i: nat, instanceId: string, start: nat,
                             step: nat, txnId: string, from: nat, commits: bool)
    requires i <= |logs| && forall k :: 0 <= k < |logs| ==> logs[k] < |log|
  {
    && AllEnded(log, served, Writes(log, logs[..i]), instanceId, start, txnId, from, commits)
    && step == start + if commits then |Writes(log, logs[..i])| else 0
  }

  /** The agreed entry of the step that is to commit record r is of another operation. */
  ghost predicate Mismatch(log: Log, r: nat, instanceId: string, step: nat) {
    IsRecord(log, r) && exists pre: IP.IntentRecord :: Disagrees(log, r, instanceId, step, pre)
  }

  ghost predicate Disagrees(log: Log, r: nat, instanceId: string, step: nat, pre: IP.IntentRecord)
    requires IsRecord(log, r)
  {
    && IP.Records(log, pre, |log|, instanceId, step, false)
    && pre.data != PreWrite(log[r].payload.table, log[r].payload.key)
  }

  /** The commit came to the m-th write record, with all before it ended, and its step check panics. */
  ghost predicate StoppedAt(log: Log, served: Attempts, writes: seq<nat>, m: nat, instanceId: string, start: nat,
                            txnId: string, from: nat) {
    && m < |writes| && AllEnded(log, served, writes[..m], instanceId, start, txnId, from, true)
    && Mismatch(log, writes[m], instanceId, start + m)
  }

  ghost predicate Stopped(log: Log, served: Attempts, logs: seq<nat>, instanceId: string, start: nat, txnId: string,
                          from: nat) {
    && (forall k :: 0 <= k < |logs| ==> logs[k] < |log|)
    && exists m: nat :: StoppedAt(log, served, Writes(log, logs), m, instanceId, start, txnId, from)
  }

  /** A commit that stopped is not one that ended. */
  lemma StoppedNotEnded(log: Log, served: Attempts, logs: seq<nat>, instanceId: string, start: nat, txnId: string,
                        from: nat)
    requires Stopped(log, served, logs, instanceId, start, txnId, from)
    ensures !AllEnded(log, served, Writes(log, logs), instanceId, start, txnId, from, true)
  {
    var m: nat :| StoppedAt(log, served, Writes(log, logs), m, instanceId, start, txnId, from);
    MismatchNotCommitted(log, served, Writes(log, logs)[m], instanceId, start + m);
  }

  lemma MismatchNotCommitted(log: Log, served: Attempts, r: nat, instanceId: string, step: nat)
    requires Mismatch(log, r, instanceId, step)
    ensures !Committed(log, served, r, instanceId, step)
  {
    var other :| Disagrees(log, r, instanceId, step, other);
    forall pre ensures !CommittedBy(log, served, r, instanceId, step, pre) {
      if CommittedBy(log, served, r, instanceId, step, pre) { SameRecord(log, pre, other, instanceId, step); }
    }
  }

  lemma SameRecord(log: Log, a: IP.IntentRecord, b: IP.IntentRecord, instanceId: string, step: nat)
    requires IP.Records(log, a, |log|, instanceId, step, false) && IP.Records(log, b, |log|, instanceId, step, false)
    ensures a == b
  {
    FirstIsUnique(log, a.seqNum, b.seqNum, instanceId, step, false);
  }

  lemma StopsHere(log: Log, longer: Log, before: Attempts, after: Attempts, logs: seq<nat>, i: nat,
                  instanceId: string, start: nat, step: nat, txnId: string, from: nat)
    requires log <= longer && Grows(before, after) && i < |logs| && forall k :: 0 <= k < |logs| ==> logs[k] < |log|
    requires EndedSoFar(log, before, logs, i, instanceId, start, step, txnId, from, true)
    requires Mismatch(longer, logs[i], instanceId, step)
    ensures Stopped(longer, after, logs, instanceId, start, txnId, from)
  {
    var done := Writes(log, logs[..i]);
    WritesStable(log, longer, logs[..i]);
    WritesNext(longer, logs, i);
    WritesAppend(longer, logs, i + 1);
    AllEndedStable(log, longer, before, after, done, instanceId, start, txnId, from, true);
    assert Writes(longer, logs)[..|done|] == done;
    assert StoppedAt(longer, after, Writes(longer, logs), |done|, instanceId, start, txnId, from);
  }

  lemma OneMoreEnded(log: Log, longer: Log, before: Attempts, after: Attempts, logs: seq<nat>, i: nat,
                     instanceId: string, start: nat, step: nat, txnId: string, from: nat, commits: bool)
    requires log <= longer && Grows(before, after) && i < |logs| && forall k :: 0 <= k < |logs| ==> logs[k] < |log|
    requires EndedSoFar(log, before, logs, i, instanceId, start, step, txnId, from, commits)
    requires IsRecord(log, logs[i]) && Freed(longer, logs[i], txnId, from)
    requires commits ==> Committed(longer, after, logs[i], instanceId, step)
    ensures EndedSoFar(longer, after, logs, i + 1, instanceId, start, step + if commits then 1 else 0, txnId, from,
                       commits)
  {
    var done := Writes(log, logs[..i]);
    WritesStable(log, longer, logs[..i]);
    WritesNext(longer, logs, i);
    AllEndedStable(log, longer, before, after, done, instanceId, start, txnId, from, commits);
    AllEndedAdd(longer, after, done, logs[i], instanceId, start, txnId, from, commits);
  }

  /** The step commits record r: all its executors ask for the recorded value. */
  ghost predicate CallsFor(calls: (string, nat) -> Call, log: Log, r: nat, instanceId: string, step: nat) {
    IsRecord(log, r) && calls(instanceId, step) == Call(Put(log[r].payload.value), Always())
  }

  ghost predicate CallsForAll(calls: (string, nat) -> Call, log: Log, writes: seq<nat>, instanceId: string,
                              start: nat) {
    forall i :: 0 <= i < |writes| ==> CallsFor(calls, log, writes[i], instanceId, start + i)
  }

  /** Write when committing, then Unlock: one record. `ok` is false exactly when a step check panics. */
  method EndRecord(env: Env, w: World, cache: LockCache, txnId: string, r: nat, commits: bool, ghost from: nat)
    returns (ok: bool)
    requires w.Valid() && env.Valid(w.log) && cache.Valid(w.log) && txnId != "" && IsRecord(w.log, r) && from <= env.own
    requires commits ==> CallsFor(w.calls, w.log, r, env.instanceId, env.stepNumber)
    modifies env, env.fsm, w, cache
    ensures w.Valid() && w.Evolved() && env.Valid(w.log) && cache.Valid(w.log) && old(env.own) <= env.own
    ensures ok ==> Freed(w.log, r, txnId, from)
    ensures ok && commits ==> Committed(w.log, w.attempts, r, env.instanceId, old(env.stepNumber))
    ensures ok ==> env.stepNumber == old(env.stepNumber) + if commits then 1 else 0
    ensures !ok ==> commits && Mismatch(w.log, r, env.instanceId, old(env.stepNumber))
    ensures !commits ==> ok && w.updated == old(w.updated)
  {
    ok := true;
    if commits { ok := CommitRecord(env, w, cache, r); }
    if !ok { return; }
    ghost var log1, served1 := w.log, w.attempts;
    UnlockRecord(env, w, cache, txnId, r, from);
    if commits { CommittedStable(log1, w.log, served1, w.attempts, r, env.instanceId, old(env.stepNumber)); }
  }

  method UnlockRecord(env: Env, w: World, cache: LockCache, txnId: string, r: nat, ghost from: nat)
    requires w.Valid() && env.Valid(w.log) && cache.Valid(w.log) && txnId != "" && IsRecord(w.log, r) && from <= env.own
    modifies env`own, w, cache
    ensures w.Valid() && w.Evolved() && env.Valid(w.log) && cache.Valid(w.log) && old(env.own) <= env.own
    ensures Freed(w.log, r, txnId, from) && w.updated == old(w.updated)
    ensures old(w.appended) <= w.appended
    ensures forall k :: |old(w.appended)| <= k < |w.appended| ==> w.appended[k] < env.own
  {
    var p := w.log[r].payload;
    ghost var seen;
    var released;
    released, seen := cache.Unlock(w, env.own, txnId, p.table, p.key);
    env.ValidStable(old(w.log), w.log);
    assert w.log[r] == old(w.log)[r];
    FarewellReleases(w.log, WriteLock(w.log, r), txnId, released, seen, env.own, |old(w.log)|);
    LP.ReleasedFromEarlier(w.log, WriteLock(w.log, r), txnId, from, env.own);
    if released.Some? && env.own <= released.value { env.own := released.value + 1; }
  }

  method CommitRecord(env: Env, w: World, cache: LockCache, r: nat) returns (ok: bool)
    requires w.Valid() && env.Valid(w.log) && cache.Valid(w.log)
    requires CallsFor(w.calls, w.log, r, env.instanceId, env.stepNumber)
    modifies env, env.fsm, w
    ensures w.Valid() && w.Evolved() && env.Valid(w.log) && cache.Valid(w.log) && old(env.own) <= env.own
    ensures IsRecord(w.log, r) && (ok ==> Committed(w.log, w.attempts, r, env.instanceId, old(env.stepNumber)))
    ensures !ok ==> Mismatch(w.log, r, env.instanceId, old(env.stepNumber))
    ensures env.stepNumber == old(env.stepNumber) + 1
  {
    var p := w.log[r].payload;
    ghost var log0 := w.log;
    ghost var pre;
    ok, pre := Write(env, w, p.table, p.key, Put(p.value));
    cache.Carry(log0, w.log);
    assert w.log[r] == log0[r];
    if ok {
      assert CommittedBy(w.log, w.attempts, r, env.instanceId, old(env.stepNumber), pre);
    } else {
      assert Disagrees(w.log, r, env.instanceId, old(env.stepNumber), pre);
    }
  }

  /**
   The loop over write records that TPLCommit (write, then unlock) and TPLAbort (unlock only) start with. `from` is
   where the executor's own appends end; an abort sends no update. A commit gives up only at a write record whose step
   was agreed to be another operation, with all records before that one ended.
   */
  method EndWrites(env: Env, w: World, cache: LockCache, txnId: string, logs: seq<nat>,
                   commits: bool) returns (ok: bool)
    requires w.Valid() && env.Valid(w.log) && cache.Valid(w.log) && txnId != ""
    requires forall i :: 0 <= i < |logs| ==> logs[i] < |w.log|
    requires commits ==> CallsForAll(w.calls, w.log, Writes(w.log, logs), env.instanceId, env.stepNumber)
    modifies env, env.fsm, w, cache
    ensures w.Valid() && w.Evolved() && env.Valid(w.log) && cache.Valid(w.log)
    ensures ok ==> AllEnded(w.log, w.attempts, Writes(w.log, logs), env.instanceId, old(env.stepNumber), txnId,
                            old(env.own), commits)
    ensures ok ==> env.stepNumber == old(env.stepNumber) + if commits then |Writes(w.log, logs)| else 0
    ensures !ok ==> commits && Stopped(w.log, w.attempts, logs, env.instanceId, old(env.stepNumber), txnId,
                                       old(env.own))
    ensures !commits ==> ok && w.updated == old(w.updated)
  {
    ghost var start, from, log0 := env.stepNumber, env.own, w.log;
    ok := true;
    for i := 0 to |logs|
      invariant w.Valid() && w.Evolved() && env.Valid(w.log) && cache.Valid(w.log) && ok && from <= env.own
      invariant EndedSoFar(w.log, w.attempts, logs, i, env.instanceId, start, env.stepNumber, txnId, from, commits)
      invariant !commits ==> w.updated == old(w.updated)
    {
      ok := EndEntry(env, w, cache, txnId, logs, i, start, from, log0, commits);
      if !ok { return; }
    }
    assert logs[..|logs|] == logs;
  }

  /** One iteration; records of calls are skipped. */
  method EndEntry(env: Env, w: World, cache: LockCache, txnId: string, logs: seq<nat>, i: nat, ghost start: nat,
                  ghost from: nat, ghost log0: Log, commits: bool)
    returns (ok: bool)
    requires w.Valid() && env.Valid(w.log) && cache.Valid(w.log) && txnId != "" && i < |logs| && from <= env.own
    requires log0 <= w.log && forall k :: 0 <= k < |logs| ==> logs[k] < |log0|
    requires EndedSoFar(w.log, w.attempts, logs, i, env.instanceId, start, env.stepNumber, txnId, from, commits)
    requires commits ==> CallsForAll(w.calls, log0, Writes(log0, logs), env.instanceId, start)
    modifies env, env.fsm, w, cache
    ensures w.Valid() && w.Evolved() && env.Valid(w.log) && cache.Valid(w.log) && from <= env.own
    ensures ok ==>
              EndedSoFar(w.log, w.attempts, logs, i + 1, env.instanceId, start, env.stepNumber, txnId, from, commits)
    ensures !ok ==> commits && Stopped(w.log, w.attempts, logs, env.instanceId, start, txnId, from)
    ensures !commits ==> ok && w.updated == old(w.updated)
  {
    ok := true;
    if !IsRecord(w.log, logs[i]) {
      WritesNext(w.log, logs, i);
      return;
    }
    if commits {
      ghost var m := CarriesOver(log0, w.log, logs, i);
      CallAt(w.calls, log0, w.log, Writes(log0, logs), m, env.instanceId, start);
    }
    ok := EndNext(env, w, cache, txnId, logs, i, start, from, commits);
  }

  /** One write record of the loop. */
  method EndNext(env: Env, w: World, cache: LockCache, txnId: string, logs: seq<nat>, i: nat, ghost start: nat,
                 ghost from: nat, commits: bool)
    returns (ok: bool)
    requires w.Valid() && env.Valid(w.log) && cache.Valid(w.log) && txnId != "" && i < |logs| && from <= env.own
    requires forall k :: 0 <= k < |logs| ==> logs[k] < |w.log|
    requires EndedSoFar(w.log, w.attempts, logs, i, env.instanceId, start, env.stepNumber, txnId, from, commits)
    requires IsRecord(w.log, logs[i]) && (commits ==> CallsFor(w.calls, w.log, logs[i], env.instanceId, env.stepNumber))
    modifies env, env.fsm, w, cache
    ensures w.Valid() && w.Evolved() && env.Valid(w.log) && cache.Valid(w.log) && from <= env.own
    ensures ok ==>
              EndedSoFar(w.log, w.attempts, logs, i + 1, env.instanceId, start, env.stepNumber, txnId, from, commits)
    ensures !ok ==> commits && Stopped(w.log, w.attempts, logs, env.instanceId, start, txnId, from)
    ensures !commits ==> ok && w.updated == old(w.updated)
  {
    ghost var log1, served1, step := w.log, w.attempts, env.stepNumber;
    ok := EndRecord(env, w, cache, txnId, logs[i], commits, from);
    if !ok {
      StopsHere(log1, w.log, served1, w.attempts, logs, i, env.instanceId, start, step, txnId, from);
      return;
    }
    OneMoreEnded(log1, w.log, served1, w.attempts, logs, i, env.instanceId, start, step, txnId, from, commits);
  }

  lemma WritesNext(log: Log, logs: seq<nat>, i: nat)
    requires i < |logs| && forall k :: 0 <= k < |logs| ==> logs[k] < |log|
    ensures Writes(log, logs[..i + 1]) == Writes(log, logs[..i]) + if IsRecord(log, logs[i]) then [logs[i]] else []
  {
    assert logs[..i + 1][..i] == logs[..i];
  }

  lemma {:induction false} WritesAppend(log: Log, logs: seq<nat>, i: nat)
    requires i <= |logs| && forall k :: 0 <= k < |logs| ==> logs[k] < |log|
    ensures Writes(log, logs[..i]) <= Writes(log, logs)
    decreases |logs| - i
  {
    if i < |logs| {
      WritesAppend(log, logs, i + 1);
      WritesNext(log, logs, i);
    } else {
      assert logs[..i] == logs;
    }
  }

  /** The i-th entry, if it is a write record, is the next one of the write records. */
  lemma NextWriteIs(log: Log, logs: seq<nat>, i: nat)
    requires i < |logs| && (forall k :: 0 <= k < |logs| ==> logs[k] < |log|) && IsRecord(log, logs[i])
    ensures |Writes(log, logs[..i])| < |Writes(log, logs)|
    ensures Writes(log, logs)[|Writes(log, logs[..i])|] == logs[i]
  {
    WritesNext(log, logs, i);
    WritesAppend(log, logs, i + 1);
  }

  /** So the step that the loop has reached is the one that commits it. */
  lemma CarriesOver(log: Log, longer: Log, logs: seq<nat>, i: nat) returns (m: nat)
    requires log <= longer && i < |logs| && (forall k :: 0 <= k < |logs| ==> logs[k] < |log|)
    requires IsRecord(longer, logs[i])
    ensures m == |Writes(longer, logs[..i])| && m < |Writes(log, logs)| && Writes(log, logs)[m] == logs[i]
  {
    assert longer[logs[i]] == log[logs[i]];
    WritesStable(log, longer, logs[..i]);
    NextWriteIs(log, logs, i);
    m := |Writes(log, logs[..i])|;
  }

  lemma CallAt(calls: (string, nat) -> Call, log: Log, longer: Log, writes: seq<nat>, m: nat, instanceId: string,
               start: nat)
    requires log <= longer && CallsForAll(calls, log, writes, instanceId, start) && m < |writes|
    ensures CallsFor(calls, longer, writes[m], instanceId, start + m)
  {
    assert CallsFor(calls, log, writes[m], instanceId, start + m);
    assert longer[writes[m]] == log[writes[m]];
  }

  /** TPLAbort up to its calls: every record that was logged before the executor's last own append is let go of. */
  method AbortWrites(env: Env, w: World, cache: LockCache, txnId: string)
    requires w.Valid() && env.Valid(w.log) && cache.Valid(w.log) && txnId != ""
    modifies env, env.fsm, w, cache
    ensures w.Valid() && w.Evolved() && env.Valid(w.log) && cache.Valid(w.log) && w.updated == old(w.updated)
    ensures forall r: nat :: r < old(env.own) && RecordsWrite(w.log[r], env.lambdaId, txnId) ==>
              Freed(w.log, r, txnId, old(env.own))
  {
    var logs, view := GetAllTxnLogs(env, w, txnId);
    cache.Carry(old(w.log), w.log);
    ghost var log1 := w.log;
    var _ := EndWrites(env, w, cache, txnId, logs, false);
    forall r: nat | r < old(env.own) && RecordsWrite(w.log[r], env.lambdaId, txnId)
      ensures Freed(w.log, r, txnId, old(env.own))
    {
      assert log1[r] == w.log[r];
      WritesKeep(w.log, logs, r);
    }
  }

  lemma {:induction false} WritesKeep(log: Log, logs: seq<nat>, r: nat)
    requires r in logs && IsRecord(log, r) && forall k :: 0 <= k < |logs| ==> logs[k] < |log|
    ensures r in Writes(log, logs)
  {
    if r != logs[|logs| - 1] { WritesKeep(log, logs[..|logs| - 1], r); }
  }

  lemma {:induction false} WritesStable(log: Log, longer: Log, logs: seq<nat>)
    requires log <= longer && forall i :: 0 <= i < |logs| ==> logs[i] < |log|
    ensures Writes(log, logs) == Writes(longer, logs)
  {
    if logs != [] {
      WritesStable(log, longer, logs[..|logs| - 1]);
      assert longer[logs[|logs| - 1]] == log[logs[|logs| - 1]];
    }
  }
}

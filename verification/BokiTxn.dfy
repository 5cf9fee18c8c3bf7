/**
 Two-phase locking transactions: any number of transactions, any number of executors of each one's
 execute and commit phases, every interleaving, stale lock replays, and commits crashed and re-run.
 Guards are what the callers have observed: a lock replay of some prefix, an agreed PreWrite entry,
 an update already served.
 */
module BokiTxn {
  import opened Wrappers
  import opened LogModel
  import opened VersionedRows
  import opened LockProtocol
  import IP = IntentProtocol

  datatype StepId = StepId(instance: string, step: nat)

  /**
   Which workflow steps commit a write record (named by its sequence number): one for each time that the commit reaches
   the function that made it.
   */
  type Plan = nat -> set<StepId>

  datatype Phase = Executing | Ending(at: nat, commits: bool)

  datatype Effect = ReadOp | WriteOp(record: nat, seqNum: nat)

  /** A database access: `at` is the log length when it happened, `v` the value read or written. */
  datatype Op = Op(txn: string, row: RowKey, at: nat, effect: Effect, v: Option<string>)

  datatype State = State(
    log: Log,
    rows: map<RowKey, Item>,
    phases: map<string, Phase>,
    served: set<nat>,
    trace: seq<Op>)
  {
    function Row(row: RowKey): Item {
      if row in rows then rows[row] else ABSENT
    }
  }

  function Initial(rows: map<RowKey, Item>, row: RowKey): Item {
    if row in rows then rows[row] else ABSENT
  }

  datatype Step =
    | Other(slot: Slot)
    | Begin(txn: string)
    | TryLock(txn: string, row: RowKey, k: nat, tag: bv64)
    | TxnRead(txn: string, row: RowKey, k: nat)
    | Record(txn: string, lambda: string, row: RowKey, value: string, k: nat, tag: bv64)
    | End(txn: string, commits: bool)
    | Propose(record: nat, at: StepId, tag: bv64)
    | Attempted(record: nat, pre: nat)
    | Release(record: nat, k: nat, tag: bv64)

  function RecordTxn(log: Log, r: nat): string
    requires IsRecord(log, r)
  {
    log[r].payload.txnId
  }

  function RecordRow(log: Log, r: nat): RowKey
    requires IsRecord(log, r)
  {
    RowKey(log[r].payload.table, log[r].payload.key)
  }

  function LockSlot(tag: bv64, lockId: string, s: LockState, unlock: bool, txn: string): Slot {
    Entry(tag, LockOp(lockId, s.stepNumber, unlock, txn))
  }

  /** The replay of the first k slots shows the lock with this holder ("" when free). */
  ghost predicate Sees(s: State, row: RowKey, holder: string, k: nat) {
    k <= |s.log| && Holds(s.log, LockOf(row), holder, k)
  }

  /** PreWrite entries of the plan's steps come from Propose alone. */
  ghost predicate Foreign(plan: Plan, slot: Slot) {
    slot.Entry? ==>
      && !slot.payload.LockOp? && !slot.payload.TxnWrite?
      && (slot.payload.Intent? && !slot.payload.postStep ==>
            forall r :: StepId(slot.payload.instanceId, slot.payload.step) !in plan(r))
  }

  /** Entry j is the agreed PreWrite entry of a step that commits record r. */
  ghost predicate IsPre(plan: Plan, log: Log, r: nat, j: int) {
    && 0 <= j < |log| && log[j].Entry? && log[j].payload.Intent?
    && StepId(log[j].payload.instanceId, log[j].payload.step) in plan(r)
    && IP.IsFirst(log, j, log[j].payload.instanceId, log[j].payload.step, false)
  }

  ghost predicate InPhase(s: State, txn: string, p: Phase) {
    txn in s.phases && s.phases[txn] == p
  }

  ghost predicate Commits(s: State, txn: string) {
    txn in s.phases && s.phases[txn].Ending? && s.phases[txn].commits
  }

  ghost predicate Enabled(plan: Plan, s: State, step: Step) {
    match step
    case Other(slot) => Foreign(plan, slot)
    case Begin(t) => t != "" && t !in s.phases
    case TryLock(t, row, k, _) => InPhase(s, t, Executing) && Sees(s, row, "", k)
    case TxnRead(t, row, k) => InPhase(s, t, Executing) && Sees(s, row, t, k)
    case Record(t, _, row, _, k, _) => InPhase(s, t, Executing) && Sees(s, row, t, k)
    case End(t, _) => InPhase(s, t, Executing)
    case Propose(r, at, _) => IsRecord(s.log, r) && at in plan(r) && Commits(s, RecordTxn(s.log, r))
    case Attempted(r, j) => IsRecord(s.log, r) && IsPre(plan, s.log, r, j)
    case Release(r, k, _) =>
      && IsRecord(s.log, r)
      && var t := RecordTxn(s.log, r);
      && t in s.phases && s.phases[t].Ending? && (s.phases[t].commits ==> r in s.served)
      && Sees(s, RecordRow(s.log, r), t, k)
  }

  ghost function Overwrite(log: Log, r: nat, j: nat): Attempt
    requires IsRecord(log, r)
  {
    Attempt(j, Put(log[r].payload.value), Always())
  }

  ghost function Do(plan: Plan, s: State, step: Step): State
    requires Enabled(plan, s, step)
  {
    match step
    case Other(slot) => s.(log := s.log + [slot])
    case Begin(t) => s.(phases := s.phases[t := Executing])
    case TryLock(t, row, k, tag) =>
      s.(log := s.log + [LockSlot(tag, LockOf(row), At(s.log, LockOf(row), k).value, false, t)])
    case TxnRead(t, row, k) =>
      s.(trace := s.trace + [Op(t, row, |s.log|, ReadOp, s.Row(row).v)])
    case Record(t, lambda, row, value, k, tag) =>
      s.(log := s.log + [Entry(tag, TxnWrite(lambda, t, row.table, row.key, value))])
    case End(t, commits) => s.(phases := s.phases[t := Ending(|s.log|, commits)])
    case Propose(r, at, tag) =>
      var row := RecordRow(s.log, r);
      s.(log := s.log + [Entry(tag, Intent(at.instance, at.step, false, PreWrite(row.table, row.key)))])
    case Attempted(r, j) =>
      var row, a := RecordRow(s.log, r), Overwrite(s.log, r, j);
      var served := s.(served := s.served + {r}, rows := s.rows[row := UpdateItem(s.Row(row), a)]);
      if Accepts(s.Row(row), a)
      then
        var value := Some(s.log[r].payload.value);
        served.(trace := s.trace + [Op(RecordTxn(s.log, r), row, |s.log|, WriteOp(r, j), value)])
      else served
    case Release(r, k, tag) =>
      var row, t := RecordRow(s.log, r), RecordTxn(s.log, r);
      s.(log := s.log + [LockSlot(tag, LockOf(row), At(s.log, LockOf(row), k).value, true, t)])
  }

  /** A run from given rows, whose VERSIONs are below the n0 sequence numbers already used. */
  ghost function Run(plan: Plan, rows: map<RowKey, Item>, n0: nat, steps: seq<Step>): State {
    if steps == [] then State(seq(n0, _ => Gap), rows, map[], {}, [])
    else
      var s := Run(plan, rows, n0, steps[..|steps| - 1]);
      var step := steps[|steps| - 1];
      if Enabled(plan, s, step) then Do(plan, s, step) else s
  }

  /** The discipline: a transaction has at most one write record per lock. */
  ghost predicate OneRecordPerLock(log: Log) {
    forall r1: nat, r2: nat :: IsRecord(log, r1) && IsRecord(log, r2) && SameLock(log, r1, r2) ==> r1 == r2
  }

  ghost predicate SameLock(log: Log, r1: nat, r2: nat)
    requires IsRecord(log, r1) && IsRecord(log, r2)
  {
    RecordTxn(log, r1) == RecordTxn(log, r2) && LockOf(RecordRow(log, r1)) == LockOf(RecordRow(log, r2))
  }

  ghost predicate StartsBelow(rows: map<RowKey, Item>, n0: nat) {
    forall row :: row in rows && rows[row].version.Some? ==> rows[row].version.value < n0
  }

  /** A step commits one record. */
  ghost predicate Injective(plan: Plan) {
    forall r1: nat, r2: nat, at: StepId :: at in plan(r1) && at in plan(r2) ==> r1 == r2
  }

  /** A record is committed by one step. (There is no record at 0: a lock operation comes before it.) */
  ghost predicate OneStepPerRecord(plan: Plan) {
    forall r: nat, a, b :: r > 0 && a in plan(r) && b in plan(r) ==> a == b
  }

  // ---- the invariant ----

  ghost predicate LockOpOk(s: State, i: nat)
    requires i < |s.log| && s.log[i].Entry? && s.log[i].payload.LockOp?
  {
    var op := s.log[i].payload;
    var t := op.holder;
    && t in s.phases
    && if op.unlockOp then s.phases[t].Ending? && s.phases[t].at <= i && exists r: nat :: ReleasedBy(s, i, r)
       else s.phases[t].Ending? ==> i < s.phases[t].at
  }

  /** The unlock at i releases the lock of record r, after r was served when the transaction commits. */
  ghost predicate ReleasedBy(s: State, i: nat, r: nat)
    requires i < |s.log| && s.log[i].Entry? && s.log[i].payload.LockOp?
  {
    var op := s.log[i].payload;
    && r < i && IsRecord(s.log, r) && RecordTxn(s.log, r) == op.holder && LockOf(RecordRow(s.log, r)) == op.lockId
    && (Commits(s, op.holder) ==> r in s.served)
  }

  ghost predicate LocksOk(s: State) {
    && Lawful(s.log)
    && forall i: nat :: i < |s.log| && s.log[i].Entry? && s.log[i].payload.LockOp? ==> LockOpOk(s, i)
  }

  /** A write record was appended while its transaction held the lock, before it began to end. */
  ghost predicate RecordOk(s: State, r: nat)
    requires IsRecord(s.log, r)
  {
    var t := RecordTxn(s.log, r);
    && t in s.phases && t != "" && (s.phases[t].Ending? ==> r < s.phases[t].at)
    && Holds(s.log, LockOf(RecordRow(s.log, r)), t, r)
  }

  ghost predicate RecordsOk(s: State) {
    forall r: nat :: IsRecord(s.log, r) ==> RecordOk(s, r)
  }

  /** An agreed PreWrite entry comes after its record, from a committing transaction, and names the record's row. */
  ghost predicate PreOk(plan: Plan, s: State, r: nat, j: nat) {
    IsPre(plan, s.log, r, j) ==>
      && IsRecord(s.log, r) && r < j && Commits(s, RecordTxn(s.log, r))
      && s.log[j].payload.data == PreWrite(s.log[r].payload.table, s.log[r].payload.key)
  }

  ghost predicate PresOk(plan: Plan, s: State) {
    forall r: nat, j: nat :: PreOk(plan, s, r, j)
  }

  /** Where and by whom it was made; a write is that of a served record, under its agreed entry. */
  ghost predicate MadeOk(plan: Plan, s: State, i: nat)
    requires i < |s.trace|
  {
    var o := s.trace[i];
    && o.at <= |s.log| && o.txn != ""
    && (o.effect.WriteOp? ==>
          && IsRecord(s.log, o.effect.record) && o.effect.record in s.served
          && RecordTxn(s.log, o.effect.record) == o.txn && RecordRow(s.log, o.effect.record) == o.row
          && IsPre(plan, s.log, o.effect.record, o.effect.seqNum) && o.effect.seqNum < o.at
          && o.v == Some(s.log[o.effect.record].payload.value))
  }

  /** The access was made by the holder of the row's lock. */
  ghost predicate UnderLock(s: State, i: nat)
    requires i < |s.trace|
  {
    Holds(s.log, LockOf(s.trace[i].row), s.trace[i].txn, s.trace[i].at)
  }

  ghost predicate OpOk(plan: Plan, s: State, i: nat)
    requires i < |s.trace|
  {
    MadeOk(plan, s, i) && UnderLock(s, i)
  }

  /** A served record has an agreed entry, and its row's VERSION has reached that. */
  ghost predicate ServedAt(plan: Plan, s: State, r: nat, j: nat) {
    && IsRecord(s.log, r) && IsPre(plan, s.log, r, j)
    && AtMost(Some(j), s.Row(RecordRow(s.log, r)).version)
  }

  ghost predicate VersionsOk(plan: Plan, s: State) {
    forall r :: r in s.served ==> exists j: nat :: ServedAt(plan, s, r, j)
  }

  ghost predicate TraceOk(plan: Plan, s: State) {
    && (forall i: nat :: i < |s.trace| ==> OpOk(plan, s, i))
    && (forall i, j :: 0 <= i <= j < |s.trace| ==> s.trace[i].at <= s.trace[j].at)
  }

  ghost predicate WritesIncrease(trace: seq<Op>) {
    forall i, j :: 0 <= i < j < |trace| && Wrote(trace[i], trace[j].row) && trace[j].effect.WriteOp? ==>
      trace[i].effect.seqNum < trace[j].effect.seqNum
  }

  predicate Wrote(o: Op, row: RowKey) {
    o.effect.WriteOp? && o.row == row
  }

  /** The last write to a row, as VERSION and value. */
  function LastWrite(start: Item, trace: seq<Op>, row: RowKey): Item {
    if trace == [] then start
    else
      var o := trace[|trace| - 1];
      if Wrote(o, row) then Item(Some(o.effect.seqNum), o.v) else LastWrite(start, trace[..|trace| - 1], row)
  }

  ghost predicate WritesOf(trace: seq<Op>, i: int, r: nat) {
    0 <= i < |trace| && trace[i].effect.WriteOp? && trace[i].effect.record == r
  }

  /** Every served record took effect exactly once. */
  ghost predicate ServedOk(s: State) {
    && (forall r :: r in s.served ==> exists i :: WritesOf(s.trace, i, r))
    && (forall i, j, r :: WritesOf(s.trace, i, r) && WritesOf(s.trace, j, r) ==> i == j)
  }

  ghost predicate RowsOk(rows: map<RowKey, Item>, s: State) {
    forall row :: s.Row(row) == LastWrite(Initial(rows, row), s.trace, row)
  }

  ghost predicate PhasesOk(s: State) {
    forall t :: t in s.phases ==> t != "" && (s.phases[t].Ending? ==> s.phases[t].at <= |s.log|)
  }

  /** What holds whatever the transactions record and however often their records are committed. */
  ghost predicate Base(plan: Plan, s: State) {
    && LocksOk(s) && RecordsOk(s) && PresOk(plan, s) && PhasesOk(s) && VersionsOk(plan, s)
    && forall i: nat :: i < |s.trace| ==> MadeOk(plan, s, i)
  }

  ghost predicate Inv(plan: Plan, rows: map<RowKey, Item>, n0: nat, s: State) {
    && Base(plan, s) && TraceOk(plan, s) && ServedOk(s) && RowsOk(rows, s) && WritesIncrease(s.trace)
    && n0 <= |s.log| && (forall i :: 0 <= i < n0 ==> s.log[i].Gap?)
  }

  // ---- what growth keeps ----

  /** The log and the served records grow, and an executing transaction may begin to end, now. */
  ghost predicate Grown(s: State, s': State) {
    && s.log <= s'.log && s.served <= s'.served
    && forall t :: t in s.phases ==>
         t in s'.phases &&
         (s'.phases[t] == s.phases[t] || (s.phases[t].Executing? && s'.phases[t].Ending? && |s.log| <= s'.phases[t].at))
  }

  lemma LockOpStable(s: State, s': State, i: nat)
    requires Grown(s, s') && i < |s.log| && s.log[i].Entry? && s.log[i].payload.LockOp? && LockOpOk(s, i)
    ensures LockOpOk(s', i)
  {
    assert s'.log[i] == s.log[i];
    if s.log[i].payload.unlockOp {
      var r: nat :| ReleasedBy(s, i, r);
      assert s'.log[r] == s.log[r];
      assert ReleasedBy(s', i, r);
    }
  }

  lemma RecordStable(s: State, s': State, r: nat)
    requires Grown(s, s') && IsRecord(s.log, r) && RecordOk(s, r)
    ensures IsRecord(s'.log, r) && RecordOk(s', r)
  {
    assert s'.log[r] == s.log[r];
    PrefixStable(s.log, s'.log, LockOf(RecordRow(s.log, r)), r);
  }

  lemma PreKept(plan: Plan, log: Log, longer: Log, r: nat, j: nat)
    requires log <= longer && j < |log|
    ensures IsPre(plan, longer, r, j) <==> IsPre(plan, log, r, j)
  {
    assert longer[j] == log[j];
    if log[j].Entry? && log[j].payload.Intent? {
      IP.FirstStable(log, longer, j, log[j].payload.instanceId, log[j].payload.step, false);
    }
  }

  lemma PreStable(plan: Plan, s: State, s': State, r: nat, j: nat)
    requires Grown(s, s') && PreOk(plan, s, r, j) && j < |s.log|
    ensures PreOk(plan, s', r, j)
  {
    PreKept(plan, s.log, s'.log, r, j);
    if IsPre(plan, s.log, r, j) { assert s'.log[r] == s.log[r]; }
  }

  lemma MadeStable(plan: Plan, s: State, s': State, i: nat)
    requires Grown(s, s') && i < |s.trace| <= |s'.trace| && s'.trace[i] == s.trace[i] && MadeOk(plan, s, i)
    ensures MadeOk(plan, s', i)
    ensures UnderLock(s', i) <==> UnderLock(s, i)
  {
    var o := s.trace[i];
    PrefixStable(s.log, s'.log, LockOf(o.row), o.at);
    if o.effect.WriteOp? {
      PreKept(plan, s.log, s'.log, o.effect.record, o.effect.seqNum);
      assert s'.log[o.effect.record] == s.log[o.effect.record];
    }
  }

  lemma OpStable(plan: Plan, s: State, s': State, i: nat)
    requires Grown(s, s') && i < |s.trace| <= |s'.trace| && s'.trace[i] == s.trace[i] && OpOk(plan, s, i)
    ensures OpOk(plan, s', i)
  {
    MadeStable(plan, s, s', i);
  }

  lemma ServedStays(plan: Plan, s: State, s': State, r: nat, j: nat)
    requires Grown(s, s') && ServedAt(plan, s, r, j)
    requires AtMost(s.Row(RecordRow(s.log, r)).version, s'.Row(RecordRow(s.log, r)).version)
    ensures ServedAt(plan, s', r, j)
  {
    PreKept(plan, s.log, s'.log, r, j);
    assert s'.log[r] == s.log[r];
  }

  lemma LocksGrow(s: State, s': State)
    requires LocksOk(s) && Grown(s, s') && s'.log == s.log
    ensures LocksOk(s')
  {
    forall i: nat | i < |s'.log| && s'.log[i].Entry? && s'.log[i].payload.LockOp? ensures LockOpOk(s', i) {
      LockOpStable(s, s', i);
    }
  }

  lemma LocksAppend(s: State, s': State, slot: Slot)
    requires LocksOk(s) && Grown(s, s') && s'.log == s.log + [slot]
    requires slot.Entry? && slot.payload.LockOp? ==> MayAppend(s.log, |s.log|, slot.payload) && LockOpOk(s', |s.log|)
    ensures LocksOk(s')
  {
    LawfulAppend(s.log, slot);
    forall i: nat | i < |s'.log| && s'.log[i].Entry? && s'.log[i].payload.LockOp? ensures LockOpOk(s', i) {
      if i < |s.log| {
        assert s'.log[i] == s.log[i];
        LockOpStable(s, s', i);
      }
    }
  }

  lemma RecordsGrow(s: State, s': State)
    requires RecordsOk(s) && Grown(s, s')
    requires forall r: nat :: |s.log| <= r < |s'.log| && IsRecord(s'.log, r) ==> RecordOk(s', r)
    ensures RecordsOk(s')
  {
    forall r: nat | IsRecord(s'.log, r) ensures RecordOk(s', r) {
      if r < |s.log| {
        assert s'.log[r] == s.log[r];
        RecordStable(s, s', r);
      }
    }
  }

  lemma PresGrow(plan: Plan, s: State, s': State)
    requires PresOk(plan, s) && Grown(s, s')
    requires forall r: nat, j: nat :: |s.log| <= j < |s'.log| ==> PreOk(plan, s', r, j)
    ensures PresOk(plan, s')
  {
    forall r: nat, j: nat ensures PreOk(plan, s', r, j) {
      if j < |s.log| { PreStable(plan, s, s', r, j); }
    }
  }

  lemma TraceGrow(plan: Plan, s: State, s': State)
    requires TraceOk(plan, s) && Grown(s, s') && s'.trace == s.trace
    ensures TraceOk(plan, s')
  {
    forall i: nat | i < |s'.trace| ensures OpOk(plan, s', i) { OpStable(plan, s, s', i); }
  }

  lemma TraceAppend(plan: Plan, s: State, s': State, o: Op)
    requires TraceOk(plan, s) && Grown(s, s') && s'.trace == s.trace + [o] && o.at == |s.log|
    requires OpOk(plan, s', |s.trace|)
    ensures TraceOk(plan, s')
  {
    forall i: nat | i < |s'.trace| ensures OpOk(plan, s', i) {
      if i < |s.trace| { OpStable(plan, s, s', i); }
    }
    forall i, j | 0 <= i <= j < |s'.trace| ensures s'.trace[i].at <= s'.trace[j].at {
      if i < |s.trace| { assert OpOk(plan, s, i); }
    }
  }

  /** No row changed. */
  lemma BaseGrows(plan: Plan, s: State, s': State)
    requires Base(plan, s) && Grown(s, s') && s'.rows == s.rows && s'.served == s.served && s.trace <= s'.trace
    requires forall i: nat :: |s.trace| <= i < |s'.trace| ==> MadeOk(plan, s', i)
    requires PhasesOk(s') && LocksOk(s') && RecordsOk(s') && PresOk(plan, s')
    ensures Base(plan, s')
  {
    forall r | r in s'.served ensures exists j: nat :: ServedAt(plan, s', r, j) {
      var j: nat :| ServedAt(plan, s, r, j);
      ServedStays(plan, s, s', r, j);
    }
    forall i: nat | i < |s'.trace| ensures MadeOk(plan, s', i) {
      if i < |s.trace| { MadeStable(plan, s, s', i); }
    }
  }

  lemma LogStepKeeps(plan: Plan, rows: map<RowKey, Item>, n0: nat, s: State, s': State)
    requires Inv(plan, rows, n0, s) && Grown(s, s') && Base(plan, s')
    requires s'.rows == s.rows && s'.served == s.served && s'.trace == s.trace
    ensures Inv(plan, rows, n0, s')
  {
    TraceGrow(plan, s, s');
    assert forall row :: s'.Row(row) == s.Row(row);
    assert forall i :: 0 <= i < n0 ==> s'.log[i] == s.log[i];
  }

  // ---- holding locks ----

  /** An executing transaction that ever saw itself as holder is the holder now. */
  lemma HoldsNow(s: State, t: string, row: RowKey, k: nat)
    requires LocksOk(s) && t != "" && InPhase(s, t, Executing) && Sees(s, row, t, k)
    ensures Holds(s.log, LockOf(row), t, |s.log|)
  {
    StillHolds(s.log, LockOf(row), t, k, |s.log|);
  }

  /** From its record on, a committing transaction keeps the lock until that record is served. */
  lemma HoldsUntilServed(plan: Plan, s: State, r: nat, n: nat)
    requires LocksOk(s) && RecordsOk(s) && OneRecordPerLock(s.log)
    requires IsRecord(s.log, r) && Commits(s, RecordTxn(s.log, r)) && r !in s.served && r <= n <= |s.log|
    ensures Holds(s.log, LockOf(RecordRow(s.log, r)), RecordTxn(s.log, r), n)
  {
    var t, id := RecordTxn(s.log, r), LockOf(RecordRow(s.log, r));
    assert RecordOk(s, r);
    forall i | r <= i < n ensures !Unlocks(s.log[i], id, t) {
      if Unlocks(s.log[i], id, t) {
        assert LockOpOk(s, i);
        var r2: nat :| ReleasedBy(s, i, r2);
        assert SameLock(s.log, r, r2);
      }
    }
    StillHolds(s.log, id, t, r, n);
  }

  // ---- what every step keeps, with any records and any number of commit steps ----

  lemma StepGrows(plan: Plan, s: State, step: Step)
    requires Enabled(plan, s, step)
    ensures Grown(s, Do(plan, s, step))
  {
  }

  lemma PlainAppendBase(plan: Plan, s: State, slot: Slot)
    requires Base(plan, s) && !IsRecord([slot], 0) && (slot.Entry? ==> !slot.payload.LockOp?)
    requires forall r: nat :: PreOk(plan, s.(log := s.log + [slot]), r, |s.log|)
    ensures Base(plan, s.(log := s.log + [slot]))
  {
    var s' := s.(log := s.log + [slot]);
    LocksAppend(s, s', slot);
    RecordsGrow(s, s');
    PresGrow(plan, s, s');
    BaseGrows(plan, s, s');
  }

  lemma ProposeBase(plan: Plan, s: State, step: Step)
    requires Injective(plan) && Base(plan, s) && step.Propose? && Enabled(plan, s, step)
    ensures Base(plan, Do(plan, s, step))
  {
    var s' := Do(plan, s, step);
    var slot := s'.log[|s.log|];
    assert s'.log == s.log + [slot];
    forall r: nat ensures PreOk(plan, s', r, |s.log|) {
      if IsPre(plan, s'.log, r, |s.log|) {
        assert step.at in plan(r) && step.at in plan(step.record);
      }
    }
    PlainAppendBase(plan, s, slot);
  }

  lemma OtherBase(plan: Plan, s: State, slot: Slot)
    requires Base(plan, s) && Foreign(plan, slot)
    ensures Base(plan, s.(log := s.log + [slot]))
  {
    var s' := s.(log := s.log + [slot]);
    forall r: nat ensures PreOk(plan, s', r, |s.log|) {
      assert s'.log[|s.log|] == slot;
    }
    PlainAppendBase(plan, s, slot);
  }

  lemma RecordBase(plan: Plan, s: State, step: Step)
    requires Base(plan, s) && step.Record? && Enabled(plan, s, step)
    ensures Base(plan, Do(plan, s, step))
  {
    var s' := Do(plan, s, step);
    HoldsNow(s, step.txn, step.row, step.k);
    PrefixStable(s.log, s'.log, LockOf(step.row), |s.log|);
    LocksAppend(s, s', s'.log[|s.log|]);
    assert RecordRow(s'.log, |s.log|) == step.row;
    RecordsGrow(s, s');
    PresGrow(plan, s, s');
    BaseGrows(plan, s, s');
  }

  lemma LockStepBase(plan: Plan, s: State, step: Step)
    requires Base(plan, s) && (step.TryLock? || step.Release?) && Enabled(plan, s, step)
    ensures Base(plan, Do(plan, s, step))
  {
    var s' := Do(plan, s, step);
    var slot := s'.log[|s.log|];
    assert Proposes(s.log, step.k, slot.payload);
    if step.Release? {
      assert RecordOk(s, step.record);
      assert s'.log[step.record] == s.log[step.record];
      assert ReleasedBy(s', |s.log|, step.record);
    }
    LocksAppend(s, s', slot);
    RecordsGrow(s, s');
    PresGrow(plan, s, s');
    BaseGrows(plan, s, s');
  }

  lemma PhaseStepBase(plan: Plan, s: State, step: Step)
    requires Base(plan, s) && (step.Begin? || step.End?) && Enabled(plan, s, step)
    ensures Base(plan, Do(plan, s, step))
  {
    var s' := Do(plan, s, step);
    LocksGrow(s, s');
    RecordsGrow(s, s');
    PresGrow(plan, s, s');
    BaseGrows(plan, s, s');
  }

  lemma ReadBase(plan: Plan, s: State, step: Step)
    requires Base(plan, s) && step.TxnRead? && Enabled(plan, s, step)
    ensures Base(plan, Do(plan, s, step))
  {
    var s' := Do(plan, s, step);
    LocksGrow(s, s');
    RecordsGrow(s, s');
    PresGrow(plan, s, s');
    BaseGrows(plan, s, s');
  }

  /** No VERSION goes down, and the served record's row has reached the attempt's. */
  lemma AttemptRaises(plan: Plan, s: State, step: Step, row: RowKey)
    requires step.Attempted? && Enabled(plan, s, step)
    ensures AtMost(s.Row(row).version, Do(plan, s, step).Row(row).version)
    ensures row == RecordRow(s.log, step.record) ==> AtMost(Some(step.pre), Do(plan, s, step).Row(row).version)
  {
  }

  lemma ServeBase(plan: Plan, s: State, step: Step)
    requires Base(plan, s) && step.Attempted? && Enabled(plan, s, step)
    ensures Base(plan, Do(plan, s, step))
  {
    var s', r, j := Do(plan, s, step), step.record, step.pre;
    LocksGrow(s, s');
    RecordsGrow(s, s');
    PresGrow(plan, s, s');
    forall q | q in s'.served ensures exists k: nat :: ServedAt(plan, s', q, k) {
      if q == r {
        AttemptRaises(plan, s, step, RecordRow(s.log, r));
        assert ServedAt(plan, s', r, j);
      } else {
        var k: nat :| ServedAt(plan, s, q, k);
        AttemptRaises(plan, s, step, RecordRow(s.log, q));
        ServedStays(plan, s, s', q, k);
      }
    }
    assert PreOk(plan, s, r, j) && RecordOk(s, r);
    forall i: nat | i < |s'.trace| ensures MadeOk(plan, s', i) {
      if i < |s.trace| { MadeStable(plan, s, s', i); }
    }
  }

  lemma StepKeepsBase(plan: Plan, s: State, step: Step)
    requires Injective(plan) && Base(plan, s) && Enabled(plan, s, step)
    ensures Base(plan, Do(plan, s, step))
  {
    match step
    case Other(slot) => OtherBase(plan, s, slot);
    case Begin(_) => PhaseStepBase(plan, s, step);
    case End(_, _) => PhaseStepBase(plan, s, step);
    case TryLock(_, _, _, _) => LockStepBase(plan, s, step);
    case Release(_, _, _) => LockStepBase(plan, s, step);
    case TxnRead(_, _, _) => ReadBase(plan, s, step);
    case Record(_, _, _, _, _, _) => RecordBase(plan, s, step);
    case Propose(_, _, _) => ProposeBase(plan, s, step);
    case Attempted(_, _) => ServeBase(plan, s, step);
  }

  lemma {:induction false} RunKeepsBase(plan: Plan, rows: map<RowKey, Item>, n0: nat, steps: seq<Step>)
    requires Injective(plan)
    ensures Base(plan, Run(plan, rows, n0, steps))
  {
    if steps != [] {
      var s, step := Run(plan, rows, n0, steps[..|steps| - 1]), steps[|steps| - 1];
      RunKeepsBase(plan, rows, n0, steps[..|steps| - 1]);
      if Enabled(plan, s, step) { StepKeepsBase(plan, s, step); }
    }
  }

  // ---- every step keeps the invariant ----

  lemma ReadKeeps(plan: Plan, rows: map<RowKey, Item>, n0: nat, s: State, step: Step)
    requires Inv(plan, rows, n0, s) && step.TxnRead? && Enabled(plan, s, step) && Base(plan, Do(plan, s, step))
    ensures Inv(plan, rows, n0, Do(plan, s, step))
  {
    var s' := Do(plan, s, step);
    var o := s'.trace[|s.trace|];
    HoldsNow(s, step.txn, step.row, step.k);
    TraceAppend(plan, s, s', o);
    ReadLeavesRows(rows, s, s', o);
    assert forall i, r :: WritesOf(s'.trace, i, r) <==> WritesOf(s.trace, i, r);
  }

  lemma ReadLeavesRows(rows: map<RowKey, Item>, s: State, s': State, o: Op)
    requires RowsOk(rows, s) && s'.rows == s.rows && s'.trace == s.trace + [o] && o.effect.ReadOp?
    ensures RowsOk(rows, s')
  {
    assert s'.trace[..|s.trace|] == s.trace;
    forall row ensures s'.Row(row) == LastWrite(Initial(rows, row), s'.trace, row) {
      assert s'.Row(row) == s.Row(row);
    }
  }

  // ---- serving a write record ----

  lemma {:induction false} LastWriteFrom(start: Item, trace: seq<Op>, row: RowKey)
    ensures var w := LastWrite(start, trace, row);
            || w == start
            || exists m :: 0 <= m < |trace| && Wrote(trace[m], row) && w.version == Some(trace[m].effect.seqNum)
  {
    if trace != [] && !Wrote(trace[|trace| - 1], row) { LastWriteFrom(start, trace[..|trace| - 1], row); }
  }

  lemma {:induction false} LastWriteIsNewest(start: Item, trace: seq<Op>, row: RowKey, i: nat)
    requires WritesIncrease(trace) && i < |trace| && Wrote(trace[i], row)
    ensures AtMost(Some(trace[i].effect.seqNum), LastWrite(start, trace, row).version)
  {
    if i < |trace| - 1 && !Wrote(trace[|trace| - 1], row) {
      LastWriteIsNewest(start, trace[..|trace| - 1], row, i);
    }
  }

  /** With one step per record the agreed entry is the same one. */
  lemma SamePre(plan: Plan, s: State, r: nat, j: nat, k: nat)
    requires RecordsOk(s) && IsRecord(s.log, r) && OneStepPerRecord(plan) && IsPre(plan, s.log, r, j)
    requires IsPre(plan, s.log, r, k)
    ensures j == k
  {
    assert RecordOk(s, r);
    var p, q := s.log[j].payload, s.log[k].payload;
    assert StepId(p.instanceId, p.step) == StepId(q.instanceId, q.step);
    assert IP.IsStep(s.log, j, q.instanceId, q.step, false);
  }

  /** A record that was served is never served again, whoever retries it and whenever. */
  lemma ServedOnceOnly(plan: Plan, rows: map<RowKey, Item>, n0: nat, s: State, r: nat, j: nat)
    requires Inv(plan, rows, n0, s) && IsRecord(s.log, r) && IsPre(plan, s.log, r, j) && r in s.served
    requires OneStepPerRecord(plan)
    ensures !Accepts(s.Row(RecordRow(s.log, r)), Overwrite(s.log, r, j))
  {
    var row := RecordRow(s.log, r);
    var i: nat :| WritesOf(s.trace, i, r);
    assert OpOk(plan, s, i);
    SamePre(plan, s, r, j, s.trace[i].effect.seqNum);
    LastWriteIsNewest(Initial(rows, row), s.trace, row, i);
  }

  /** The VERSION guard never skips the first attempt: every earlier write of the row has a smaller SeqNum. */
  lemma NeverSkipped(plan: Plan, rows: map<RowKey, Item>, n0: nat, s: State, r: nat, j: nat)
    requires Inv(plan, rows, n0, s) && OneRecordPerLock(s.log) && StartsBelow(rows, n0)
    requires IsRecord(s.log, r) && IsPre(plan, s.log, r, j) && r !in s.served
    ensures Accepts(s.Row(RecordRow(s.log, r)), Overwrite(s.log, r, j))
  {
    var row, t := RecordRow(s.log, r), RecordTxn(s.log, r);
    assert PreOk(plan, s, r, j);
    LastWriteFrom(Initial(rows, row), s.trace, row);
    if s.Row(row) != Initial(rows, row) {
      var m :| 0 <= m < |s.trace| && Wrote(s.trace[m], row) && s.Row(row).version == Some(s.trace[m].effect.seqNum);
      EarlierWriteIsOlder(plan, s, r, j, m);
    }
  }

  lemma EarlierWriteIsOlder(plan: Plan, s: State, r: nat, j: nat, m: nat)
    requires LocksOk(s) && RecordsOk(s) && TraceOk(plan, s) && OneRecordPerLock(s.log)
    requires IsRecord(s.log, r) && Commits(s, RecordTxn(s.log, r)) && r < j && r !in s.served
    requires m < |s.trace| && Wrote(s.trace[m], RecordRow(s.log, r))
    ensures s.trace[m].effect.seqNum < j
  {
    var o, t := s.trace[m], RecordTxn(s.log, r);
    assert OpOk(plan, s, m);
    OwnWriteIsThisRecord(plan, s, r, m);
    if r <= o.at { HoldsUntilServed(plan, s, r, o.at); }
  }

  lemma OwnWriteIsThisRecord(plan: Plan, s: State, r: nat, m: nat)
    requires OneRecordPerLock(s.log) && IsRecord(s.log, r)
    requires m < |s.trace| && Wrote(s.trace[m], RecordRow(s.log, r)) && OpOk(plan, s, m)
    ensures s.trace[m].txn == RecordTxn(s.log, r) ==> s.trace[m].effect.record == r
  {
    if s.trace[m].txn == RecordTxn(s.log, r) { assert SameLock(s.log, r, s.trace[m].effect.record); }
  }

  lemma ServeKeeps(plan: Plan, rows: map<RowKey, Item>, n0: nat, s: State, step: Step)
    requires Inv(plan, rows, n0, s) && OneRecordPerLock(s.log) && OneStepPerRecord(plan) && StartsBelow(rows, n0)
    requires step.Attempted? && Enabled(plan, s, step) && Base(plan, Do(plan, s, step))
    ensures Inv(plan, rows, n0, Do(plan, s, step))
  {
    var s', r, j := Do(plan, s, step), step.record, step.pre;
    if r in s.served {
      ServedOnceOnly(plan, rows, n0, s, r, j);
      TraceGrow(plan, s, s');
      assert s'.served == s.served;
      assert forall row :: s'.Row(row) == s.Row(row);
    } else {
      NeverSkipped(plan, rows, n0, s, r, j);
      assert PreOk(plan, s, r, j);
      HoldsUntilServed(plan, s, r, |s.log|);
      FirstServeKeeps(plan, rows, s, s', r, j);
    }
  }

  lemma FirstServeKeeps(plan: Plan, rows: map<RowKey, Item>, s: State, s': State, r: nat, j: nat)
    requires TraceOk(plan, s) && ServedOk(s) && RowsOk(rows, s) && WritesIncrease(s.trace)
    requires IsRecord(s.log, r) && IsPre(plan, s.log, r, j) && r < j && r !in s.served
    requires RecordOk(s, r) && Holds(s.log, LockOf(RecordRow(s.log, r)), RecordTxn(s.log, r), |s.log|)
    requires Accepts(s.Row(RecordRow(s.log, r)), Overwrite(s.log, r, j)) && s' == Do(plan, s, Attempted(r, j))
    ensures TraceOk(plan, s') && ServedOk(s') && RowsOk(rows, s') && WritesIncrease(s'.trace)
  {
    var o := s'.trace[|s.trace|];
    TraceAppend(plan, s, s', o);
    ServeMarks(plan, s, s', r, o);
    WriteUpdatesRows(rows, s, s', o);
    forall i | 0 <= i < |s.trace| && Wrote(s.trace[i], o.row) ensures s.trace[i].effect.seqNum < j {
      LastWriteIsNewest(Initial(rows, o.row), s.trace, o.row, i);
    }
  }

  lemma ServeMarks(plan: Plan, s: State, s': State, r: nat, o: Op)
    requires TraceOk(plan, s) && ServedOk(s) && s'.trace == s.trace + [o] && s'.served == s.served + {r}
    requires o.effect.WriteOp? && o.effect.record == r && r !in s.served
    ensures ServedOk(s')
  {
    assert WritesOf(s'.trace, |s.trace|, r);
    forall q | q in s'.served ensures exists i :: WritesOf(s'.trace, i, q) {
      if q != r {
        var i :| WritesOf(s.trace, i, q);
        assert WritesOf(s'.trace, i, q);
      }
    }
    forall i, k, q | WritesOf(s'.trace, i, q) && WritesOf(s'.trace, k, q) ensures i == k {
      if i < |s.trace| { assert OpOk(plan, s, i) && WritesOf(s.trace, i, q); }
      if k < |s.trace| { assert OpOk(plan, s, k) && WritesOf(s.trace, k, q); }
    }
  }

  lemma WriteUpdatesRows(rows: map<RowKey, Item>, s: State, s': State, o: Op)
    requires RowsOk(rows, s) && s'.trace == s.trace + [o] && o.effect.WriteOp?
    requires s'.rows == s.rows[o.row := Item(Some(o.effect.seqNum), o.v)]
    ensures RowsOk(rows, s')
  {
    assert s'.trace[..|s.trace|] == s.trace;
    forall row ensures s'.Row(row) == LastWrite(Initial(rows, row), s'.trace, row) {
      assert row != o.row ==> s'.Row(row) == s.Row(row);
    }
  }

  lemma StepKeeps(plan: Plan, rows: map<RowKey, Item>, n0: nat, s: State, step: Step)
    requires Injective(plan) && OneStepPerRecord(plan) && StartsBelow(rows, n0) && OneRecordPerLock(s.log)
    requires Inv(plan, rows, n0, s) && Enabled(plan, s, step)
    ensures Inv(plan, rows, n0, Do(plan, s, step))
  {
    StepKeepsBase(plan, s, step);
    StepGrows(plan, s, step);
    if step.TxnRead? {
      ReadKeeps(plan, rows, n0, s, step);
    } else if step.Attempted? {
      ServeKeeps(plan, rows, n0, s, step);
    } else {
      LogStepKeeps(plan, rows, n0, s, Do(plan, s, step));
    }
  }

  lemma {:induction false} RunKeeps(plan: Plan, rows: map<RowKey, Item>, n0: nat, steps: seq<Step>)
    requires Injective(plan) && OneStepPerRecord(plan)
    requires StartsBelow(rows, n0) && OneRecordPerLock(Run(plan, rows, n0, steps).log)
    ensures Inv(plan, rows, n0, Run(plan, rows, n0, steps))
  {
    if steps == [] {
      StartOk(plan, rows, n0);
    } else {
      var s, step := Run(plan, rows, n0, steps[..|steps| - 1]), steps[|steps| - 1];
      if Enabled(plan, s, step) {
        FewerRecords(s.log, Do(plan, s, step).log);
        RunKeeps(plan, rows, n0, steps[..|steps| - 1]);
        StepKeeps(plan, rows, n0, s, step);
      } else {
        RunKeeps(plan, rows, n0, steps[..|steps| - 1]);
      }
    }
  }

  lemma StartOk(plan: Plan, rows: map<RowKey, Item>, n0: nat)
    ensures Inv(plan, rows, n0, Run(plan, rows, n0, []))
  {
  }

  lemma FewerRecords(log: Log, longer: Log)
    requires log <= longer && OneRecordPerLock(longer)
    ensures OneRecordPerLock(log)
  {
    forall r1: nat, r2: nat | IsRecord(log, r1) && IsRecord(log, r2) && SameLock(log, r1, r2) ensures r1 == r2 {
      assert longer[r1] == log[r1] && longer[r2] == log[r2];
      assert SameLock(longer, r1, r2);
    }
  }

  // ---- exactly-once commit ----

  /** Whether an attempt to serve a committed record takes effect: exactly when it is the first one. */
  lemma FirstAttemptAlone(plan: Plan, rows: map<RowKey, Item>, n0: nat, steps: seq<Step>, r: nat, j: nat)
    requires Injective(plan) && OneStepPerRecord(plan)
    requires StartsBelow(rows, n0) && OneRecordPerLock(Run(plan, rows, n0, steps).log)
    requires Enabled(plan, Run(plan, rows, n0, steps), Attempted(r, j))
    ensures var s := Run(plan, rows, n0, steps);
            Accepts(s.Row(RecordRow(s.log, r)), Overwrite(s.log, r, j)) <==> r !in s.served
  {
    var s := Run(plan, rows, n0, steps);
    RunKeeps(plan, rows, n0, steps);
    if r in s.served { ServedOnceOnly(plan, rows, n0, s, r, j); } else { NeverSkipped(plan, rows, n0, s, r, j); }
  }

  /** The entry agreed on for a write names its row. */
  ghost predicate AgreedFor(log: Log, j: nat, row: RowKey) {
    && j < |log| && log[j].Entry? && log[j].payload.Intent?
    && IP.IsFirst(log, j, log[j].payload.instanceId, log[j].payload.step, false)
    && log[j].payload.data == PreWrite(row.table, row.key)
  }

  ghost predicate WrittenUnderLock(s: State, i: nat, r: nat)
    requires IsRecord(s.log, r)
  {
    && WritesOf(s.trace, i, r)
    && var o := s.trace[i];
    && AgreedFor(s.log, o.effect.seqNum, o.row)
    && o.txn == RecordTxn(s.log, r) && o.row == RecordRow(s.log, r) && o.v == Some(s.log[r].payload.value)
    && Holds(s.log, LockOf(o.row), o.txn, o.at)
  }

  /** A served record has exactly one write in the history, made while its transaction held the lock. */
  lemma ExactlyOnceUnderLock(plan: Plan, rows: map<RowKey, Item>, n0: nat, steps: seq<Step>, r: nat)
    requires Injective(plan) && OneStepPerRecord(plan)
    requires StartsBelow(rows, n0) && OneRecordPerLock(Run(plan, rows, n0, steps).log)
    requires IsRecord(Run(plan, rows, n0, steps).log, r)
    ensures var s := Run(plan, rows, n0, steps);
            && (r in s.served <==> exists i: nat :: WrittenUnderLock(s, i, r))
            && (forall i, j :: WritesOf(s.trace, i, r) && WritesOf(s.trace, j, r) ==> i == j)
  {
    var s := Run(plan, rows, n0, steps);
    RunKeeps(plan, rows, n0, steps);
    if r in s.served {
      var i: nat :| WritesOf(s.trace, i, r);
      assert OpOk(plan, s, i);
      assert PreOk(plan, s, r, s.trace[i].effect.seqNum);
      assert WrittenUnderLock(s, i, r);
    }
    forall i: nat | WrittenUnderLock(s, i, r) ensures r in s.served { assert OpOk(plan, s, i); }
  }
}

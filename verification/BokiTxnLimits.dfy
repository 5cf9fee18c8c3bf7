/**
 When a transactional write is made under its lock, without any discipline on what transactions record or how often
 their records are committed: for one write of one run, and for all runs of given transactions and a given plan.
 */
module BokiTxnLimits {
  import opened Wrappers
  import opened LogModel
  import opened VersionedRows
  import opened LockProtocol
  import opened BokiTxn
  import opened BokiEscape

  // ---- one write ----

  /** Since the record, its transaction appended no unlock of that lock. */
  ghost predicate NotUnlocked(s: State, m: nat)
    requires m < |s.trace| && s.trace[m].effect.WriteOp?
  {
    var o := s.trace[m];
    forall i :: o.effect.record <= i < o.at && i < |s.log| ==> !Unlocks(s.log[i], LockOf(o.row), o.txn)
  }

  lemma {:induction false} FirstUnlock(log: Log, id: string, t: string, r: nat, i: nat) returns (f: nat)
    requires r <= i < |log| && Unlocks(log[i], id, t)
    ensures r <= f <= i && Unlocks(log[f], id, t) && forall j :: r <= j < f ==> !Unlocks(log[j], id, t)
    decreases i - r
  {
    if Unlocks(log[r], id, t) { f := r; } else { f := FirstUnlock(log, id, t, r + 1, i); }
  }

  lemma AcquiresEarly(s: State, id: string, t: string, j: nat)
    requires LocksOk(s) && j < |s.log| && Acquires(s.log[j], id, t)
    ensures t in s.phases && (s.phases[t].Ending? ==> j < s.phases[t].at)
  {
    assert LockOpOk(s, j);
  }

  /** A transaction unlocks only while it ends, after its records and all its lock operations. */
  lemma EndsBeforeUnlock(s: State, r: nat, i: nat)
    requires LocksOk(s) && RecordsOk(s) && IsRecord(s.log, r) && i < |s.log|
    requires Unlocks(s.log[i], LockOf(RecordRow(s.log, r)), RecordTxn(s.log, r))
    ensures r < i && NoAcquire(s.log, LockOf(RecordRow(s.log, r)), RecordTxn(s.log, r), i + 1)
  {
    assert RecordOk(s, r) && LockOpOk(s, i);
    var id, t := LockOf(RecordRow(s.log, r)), RecordTxn(s.log, r);
    forall j: nat | i + 1 <= j < |s.log| ensures !Acquires(s.log[j], id, t) {
      if Acquires(s.log[j], id, t) { AcquiresEarly(s, id, t, j); }
    }
  }

  /** Its first unlock takes effect, however old the replay on which it was made. */
  lemma FirstUnlockWorks(s: State, r: nat, f: nat)
    requires LocksOk(s) && RecordsOk(s) && IsRecord(s.log, r) && r <= f < |s.log|
    requires Unlocks(s.log[f], LockOf(RecordRow(s.log, r)), RecordTxn(s.log, r))
    requires forall j :: r <= j < f ==> !Unlocks(s.log[j], LockOf(RecordRow(s.log, r)), RecordTxn(s.log, r))
    ensures At(s.log, LockOf(RecordRow(s.log, r)), f + 1).Ok?
    ensures !Holds(s.log, LockOf(RecordRow(s.log, r)), RecordTxn(s.log, r), f + 1)
  {
    var id, t := LockOf(RecordRow(s.log, r)), RecordTxn(s.log, r);
    assert RecordOk(s, r);
    assert MayAppend(s.log, f, s.log[f].payload);
    var k: nat :| k <= f && Proposes(s.log, k, s.log[f].payload);
    forall j | k <= j < f ensures !Unlocks(s.log[j], id, t) {
      if Unlocks(s.log[j], id, t) { EndsBeforeUnlock(s, r, j); }
    }
    StillHolds(s.log, id, t, k, f);
    NoPanic(s.log, id, f + 1);
  }

  lemma LostAfterUnlock(s: State, r: nat, i: nat, n: nat)
    requires LocksOk(s) && RecordsOk(s) && IsRecord(s.log, r) && r <= i < n <= |s.log|
    requires Unlocks(s.log[i], LockOf(RecordRow(s.log, r)), RecordTxn(s.log, r))
    ensures !Holds(s.log, LockOf(RecordRow(s.log, r)), RecordTxn(s.log, r), n)
  {
    var id, t := LockOf(RecordRow(s.log, r)), RecordTxn(s.log, r);
    assert RecordOk(s, r);
    var f := FirstUnlock(s.log, id, t, r, i);
    FirstUnlockWorks(s, r, f);
    EndsBeforeUnlock(s, r, f);
    StaysFree(s.log, id, t, f + 1, f + 1, n);
  }

  /** In every run: a write is under its lock if and only if its transaction had not unlocked that since the record. */
  lemma UnderLockIffNotUnlocked(plan: Plan, rows: map<RowKey, Item>, n0: nat, steps: seq<Step>, m: nat)
    requires Injective(plan)
    requires var s := Run(plan, rows, n0, steps); m < |s.trace| && s.trace[m].effect.WriteOp?
    ensures var s := Run(plan, rows, n0, steps); UnderLock(s, m) <==> NotUnlocked(s, m)
  {
    var s := Run(plan, rows, n0, steps);
    var o := s.trace[m];
    RunKeepsBase(plan, rows, n0, steps);
    assert MadeOk(plan, s, m);
    var r := o.effect.record;
    assert PreOk(plan, s, r, o.effect.seqNum) && RecordOk(s, r);
    if NotUnlocked(s, m) {
      StillHolds(s.log, LockOf(o.row), o.txn, r, o.at);
    } else {
      var i: nat :| r <= i < o.at && i < |s.log| && Unlocks(s.log[i], LockOf(o.row), o.txn);
      LostAfterUnlock(s, r, i, o.at);
    }
  }

  // ---- where an escape comes from ----

  /** The step `b` of record r has a rival: a step of a record of the same transaction and lock. */
  ghost predicate Rival(plan: Plan, log: Log, r: nat, b: StepId, r1: nat, a: StepId) {
    && IsRecord(log, r) && IsRecord(log, r1) && SameLock(log, r1, r)
    && a in plan(r1) && b in plan(r) && a != b
  }

  ghost predicate HasRival(plan: Plan, log: Log, r: nat) {
    exists b, r1: nat, a :: Rival(plan, log, r, b, r1, a)
  }

  lemma RivalStable(plan: Plan, log: Log, longer: Log, r: nat)
    requires log <= longer && HasRival(plan, log, r)
    ensures HasRival(plan, longer, r)
  {
    var b, r1: nat, a :| Rival(plan, log, r, b, r1, a);
    assert longer[r] == log[r] && longer[r1] == log[r1];
    assert Rival(plan, longer, r, b, r1, a);
  }

  ghost predicate Explained(plan: Plan, s: State, m: nat)
    requires m < |s.trace|
  {
    s.trace[m].effect.WriteOp? ==> UnderLock(s, m) || HasRival(plan, s.log, s.trace[m].effect.record)
  }

  lemma SameEntry(plan: Plan, log: Log, r1: nat, j1: nat, r: nat, j: nat)
    requires Injective(plan) && IsPre(plan, log, r1, j1) && IsPre(plan, log, r, j)
    requires log[j1].payload.instanceId == log[j].payload.instanceId && log[j1].payload.step == log[j].payload.step
    ensures r1 == r && j1 == j
  {
    var p, q := log[j1].payload, log[j].payload;
    assert StepId(p.instanceId, p.step) == StepId(q.instanceId, q.step);
    assert IP.IsStep(log, j1, q.instanceId, q.step, false) && IP.IsStep(log, j, p.instanceId, p.step, false);
  }

  /** An attempt that takes effect after an unlock follows another step: after its own, VERSION would refuse it. */
  lemma LateAttemptHasRival(plan: Plan, s: State, r: nat, j: nat, i: nat)
    requires Injective(plan) && Base(plan, s) && Enabled(plan, s, Attempted(r, j)) && i < |s.log|
    requires Unlocks(s.log[i], LockOf(RecordRow(s.log, r)), RecordTxn(s.log, r))
    requires Accepts(s.Row(RecordRow(s.log, r)), Overwrite(s.log, r, j))
    ensures HasRival(plan, s.log, r)
  {
    assert LockOpOk(s, i) && PreOk(plan, s, r, j);
    var r1: nat :| ReleasedBy(s, i, r1);
    var j1: nat :| ServedAt(plan, s, r1, j1);
    var p, q := s.log[j1].payload, s.log[j].payload;
    var a, b := StepId(p.instanceId, p.step), StepId(q.instanceId, q.step);
    if a == b { SameEntry(plan, s.log, r1, j1, r, j); }
    assert Rival(plan, s.log, r, b, r1, a);
  }

  lemma AttemptExplained(plan: Plan, s: State, r: nat, j: nat)
    requires Injective(plan) && Base(plan, s) && Enabled(plan, s, Attempted(r, j))
    requires Accepts(s.Row(RecordRow(s.log, r)), Overwrite(s.log, r, j))
    ensures Explained(plan, Do(plan, s, Attempted(r, j)), |s.trace|)
  {
    var id, t := LockOf(RecordRow(s.log, r)), RecordTxn(s.log, r);
    assert RecordOk(s, r);
    if i: nat :| i < |s.log| && Unlocks(s.log[i], id, t) {
      LateAttemptHasRival(plan, s, r, j, i);
    } else {
      StillHolds(s.log, id, t, r, |s.log|);
    }
  }

  lemma ExplainedStays(plan: Plan, s: State, s': State, m: nat)
    requires Base(plan, s) && Grown(s, s') && m < |s.trace| <= |s'.trace| && s'.trace[m] == s.trace[m]
    requires Explained(plan, s, m)
    ensures Explained(plan, s', m)
  {
    assert MadeOk(plan, s, m);
    MadeStable(plan, s, s', m);
    if s.trace[m].effect.WriteOp? && !UnderLock(s, m) { RivalStable(plan, s.log, s'.log, s.trace[m].effect.record); }
  }

  /** In every run: a write without its lock has a rival. */
  lemma {:induction false} RunExplained(plan: Plan, rows: map<RowKey, Item>, n0: nat, steps: seq<Step>, m: nat)
    requires Injective(plan) && m < |Run(plan, rows, n0, steps).trace|
    ensures Explained(plan, Run(plan, rows, n0, steps), m)
  {
    var s, step := Run(plan, rows, n0, steps[..|steps| - 1]), steps[|steps| - 1];
    RunKeepsBase(plan, rows, n0, steps[..|steps| - 1]);
    if m < |s.trace| { RunExplained(plan, rows, n0, steps[..|steps| - 1], m); }
    if Enabled(plan, s, step) { StepExplained(plan, s, step, m); }
  }

  lemma StepExplained(plan: Plan, s: State, step: Step, m: nat)
    requires Injective(plan) && Base(plan, s) && Enabled(plan, s, step) && m < |Do(plan, s, step).trace|
    requires m < |s.trace| ==> Explained(plan, s, m)
    ensures Explained(plan, Do(plan, s, step), m)
  {
    StepGrows(plan, s, step);
    if m < |s.trace| {
      ExplainedStays(plan, s, Do(plan, s, step), m);
    } else if step.Attempted? {
      AttemptExplained(plan, s, step.record, step.pre);
    }
  }

  // ---- all runs of given transactions ----

  /** The rows that the TPLWrite calls of each transaction name. */
  type Writes = string -> seq<RowKey>

  /** Each record comes from a call of its own. */
  ghost predicate FollowsBy(log: Log, writes: Writes, call: nat -> nat) {
    && (forall r: nat :: IsRecord(log, r) ==> RecordedBy(log, writes, r, call(r)))
    && (forall r1: nat, r2: nat :: SameCall(log, call, r1, r2) ==> r1 == r2)
  }

  ghost predicate RecordedBy(log: Log, writes: Writes, r: nat, i: nat)
    requires IsRecord(log, r)
  {
    i < |writes(RecordTxn(log, r))| && writes(RecordTxn(log, r))[i] == RecordRow(log, r)
  }

  ghost predicate SameCall(log: Log, call: nat -> nat, r1: nat, r2: nat) {
    IsRecord(log, r1) && IsRecord(log, r2) && RecordTxn(log, r1) == RecordTxn(log, r2) && call(r1) == call(r2)
  }

  ghost predicate Follows(log: Log, writes: Writes) {
    exists call: nat -> nat :: FollowsBy(log, writes, call)
  }

  ghost predicate AlwaysUnderLock(plan: Plan, writes: Writes) {
    forall rows, n0, steps ::
      StartsBelow(rows, n0) && Follows(Run(plan, rows, n0, steps).log, writes) ==>
        WritesUnderLock(Run(plan, rows, n0, steps))
  }

  /** Two commit steps for one lock: of one call recorded at r1, or of two calls recorded at r1 and r2. */
  ghost predicate Clash(plan: Plan, writes: Writes, t: string, r1: nat, a: StepId, i: nat, r2: nat, b: StepId, j: nat) {
    && t != "" && 0 < r1 <= r2 && a in plan(r1) && b in plan(r2) && a != b
    && i < |writes(t)| && j < |writes(t)| && LockOf(writes(t)[i]) == LockOf(writes(t)[j]) && (i == j <==> r1 == r2)
  }

  ghost predicate Clashes(plan: Plan, writes: Writes) {
    exists t, r1: nat, a, i: nat, r2: nat, b, j: nat :: Clash(plan, writes, t, r1, a, i, r2, b, j)
  }

  lemma RecordNotFirst(s: State, r: nat)
    requires RecordsOk(s) && IsRecord(s.log, r)
    ensures r > 0 && RecordTxn(s.log, r) != ""
  {
    assert RecordOk(s, r);
  }

  lemma RivalMeansClash(plan: Plan, writes: Writes, s: State, r: nat)
    requires RecordsOk(s) && Follows(s.log, writes) && HasRival(plan, s.log, r)
    ensures Clashes(plan, writes)
  {
    var call: nat -> nat :| FollowsBy(s.log, writes, call);
    var b, r1: nat, a :| Rival(plan, s.log, r, b, r1, a);
    var t := RecordTxn(s.log, r);
    RecordNotFirst(s, r);
    RecordNotFirst(s, r1);
    assert RecordedBy(s.log, writes, r, call(r)) && RecordedBy(s.log, writes, r1, call(r1));
    assert call(r1) == call(r) ==> SameCall(s.log, call, r1, r);
    if r1 <= r {
      assert Clash(plan, writes, t, r1, a, call(r1), r, b, call(r));
    } else {
      assert Clash(plan, writes, t, r, b, call(r), r1, a, call(r1));
    }
  }

  /** Without a clash every write of every run is under its lock, whatever the rows held before. */
  lemma NoClashSuffices(plan: Plan, writes: Writes, rows: map<RowKey, Item>, n0: nat, steps: seq<Step>)
    requires Injective(plan) && !Clashes(plan, writes) && Follows(Run(plan, rows, n0, steps).log, writes)
    ensures WritesUnderLock(Run(plan, rows, n0, steps))
  {
    var s := Run(plan, rows, n0, steps);
    RunKeepsBase(plan, rows, n0, steps);
    forall m: nat | m < |s.trace| && s.trace[m].effect.WriteOp? ensures UnderLock(s, m) {
      RunExplained(plan, rows, n0, steps, m);
      if !UnderLock(s, m) { RivalMeansClash(plan, writes, s, s.trace[m].effect.record); }
    }
  }

  /** The run that a clash makes possible, with any functions and values and any other transaction. */
  function EscapeOf(writes: Writes, t: string, r1: nat, a: StepId, i: nat, r2: nat, b: StepId, j: nat, other: string,
                    lambda: string, value: string): Escape
    requires i < |writes(t)| && j < |writes(t)|
  {
    Escape(t, other, r1, Write(lambda, writes(t)[i], value), r2, Write(lambda, writes(t)[j], value), a, b)
  }

  lemma EscapeFollows(plan: Plan, writes: Writes, w: Escape, i: nat, j: nat)
    requires 0 < w.r1 <= w.r2 && i < |writes(w.txn)| && j < |writes(w.txn)| && (i == j ==> w.r1 == w.r2)
    requires w.first.row == writes(w.txn)[i] && w.second.row == writes(w.txn)[j]
    ensures Follows(Prefix(w, w.r2 + 5), writes)
  {
    var log, call := Prefix(w, w.r2 + 5), (r: nat) => if r == w.r1 then i else j;
    forall r: nat | IsRecord(log, r) ensures RecordedBy(log, writes, r, call(r)) { ItsRecords(w, w.r2 + 5, r); }
    forall q: nat, r: nat | SameCall(log, call, q, r) ensures q == r {
      ItsRecords(w, w.r2 + 5, q);
      ItsRecords(w, w.r2 + 5, r);
    }
    assert FollowsBy(log, writes, call);
  }

  lemma ClashEscapes(plan: Plan, writes: Writes, t: string, r1: nat, a: StepId, i: nat, r2: nat, b: StepId, j: nat,
                     other: string, lambda: string, value: string)
    requires Clash(plan, writes, t, r1, a, i, r2, b, j) && other != "" && other != t
    ensures var w := EscapeOf(writes, t, r1, a, i, r2, b, j, other, lambda, value);
            var s := Run(plan, map[], r1 - 1, Steps(w, Length(w)));
            StartsBelow(map[], r1 - 1) && Follows(s.log, writes) && Escapes(s, w)
  {
    var w := EscapeOf(writes, t, r1, a, i, r2, b, j, other, lambda, value);
    SecondWriteEscapes(plan, w);
    EscapeFollows(plan, writes, w, i, j);
  }

  lemma EscapedNotUnderLock(s: State, w: Escape)
    requires Escapes(s, w)
    ensures !WritesUnderLock(s)
  {
    assert s.trace[1].effect.WriteOp? && !UnderLock(s, 1);
  }

  lemma ClashRefutes(plan: Plan, writes: Writes)
    requires Clashes(plan, writes)
    ensures !AlwaysUnderLock(plan, writes)
  {
    var t, r1: nat, a, i: nat, r2: nat, b, j: nat :| Clash(plan, writes, t, r1, a, i, r2, b, j);
    var other := if t == "a" then "b" else "a";
    ClashEscapes(plan, writes, t, r1, a, i, r2, b, j, other, "f", "x");
    var w := EscapeOf(writes, t, r1, a, i, r2, b, j, other, "f", "x");
    EscapedNotUnderLock(Run(plan, map[], r1 - 1, Steps(w, Length(w))), w);
  }

  /**
   The exact condition, for every plan and every set of transactions: all writes of all their runs are under their locks
   if and only if no transaction has two commit steps for one lock.
   */
  lemma UnderLockIffNoClash(plan: Plan, writes: Writes)
    requires Injective(plan)
    ensures AlwaysUnderLock(plan, writes) <==> !Clashes(plan, writes)
  {
    if Clashes(plan, writes) {
      ClashRefutes(plan, writes);
    } else {
      forall rows, n0, steps | StartsBelow(rows, n0) && Follows(Run(plan, rows, n0, steps).log, writes)
        ensures WritesUnderLock(Run(plan, rows, n0, steps))
      {
        NoClashSuffices(plan, writes, rows, n0, steps);
      }
    }
  }

  /** No transaction names two rows of one lock, be they the same or not. */
  ghost predicate OneRowPerLock(writes: Writes) {
    forall t, i: nat, j: nat :: t != "" && i < j < |writes(t)| ==> LockOf(writes(t)[i]) != LockOf(writes(t)[j])
  }

  /** Every record is committed, by one step. */
  ghost predicate CommitsOnce(plan: Plan) {
    OneStepPerRecord(plan) && forall r: nat :: r > 0 ==> plan(r) != {}
  }

  /** When each record is committed once: if and only if no transaction names two rows of one lock. */
  lemma UnderLockIffOneRowPerLock(plan: Plan, writes: Writes)
    requires Injective(plan) && CommitsOnce(plan)
    ensures AlwaysUnderLock(plan, writes) <==> OneRowPerLock(writes)
  {
    UnderLockIffNoClash(plan, writes);
    if t, r1: nat, a, i: nat, r2: nat, b, j: nat :| Clash(plan, writes, t, r1, a, i, r2, b, j) {
      assert i != j;
    }
    if t, i: nat, j: nat :|
        t != "" && i < j < |writes(t)| && LockOf(writes(t)[i]) == LockOf(writes(t)[j]) {
      var one, two: nat := 1, 2;
      assert plan(one) != {} && plan(two) != {};
      var a :| a in plan(one);
      var b :| b in plan(two);
      assert Clash(plan, writes, t, 1, a, i, 2, b, j);
    }
  }

  /** Then a run meets the discipline of the theorems on transactions. */
  lemma OneRecordFollows(plan: Plan, writes: Writes, rows: map<RowKey, Item>, n0: nat, steps: seq<Step>)
    requires Injective(plan) && OneRowPerLock(writes) && Follows(Run(plan, rows, n0, steps).log, writes)
    ensures OneRecordPerLock(Run(plan, rows, n0, steps).log)
  {
    var s := Run(plan, rows, n0, steps);
    RunKeepsBase(plan, rows, n0, steps);
    var call: nat -> nat :| FollowsBy(s.log, writes, call);
    forall r1: nat, r2: nat | IsRecord(s.log, r1) && IsRecord(s.log, r2) && SameLock(s.log, r1, r2) ensures r1 == r2 {
      RecordNotFirst(s, r1);
      assert RecordedBy(s.log, writes, r1, call(r1)) && RecordedBy(s.log, writes, r2, call(r2));
      assert SameCall(s.log, call, r1, r2);
    }
  }
}

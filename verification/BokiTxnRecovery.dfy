/**
 What a transaction can always do: from every reachable state one that began to end can be ended, wherever its commit or
 abort crashed, and a new one can run on every row whose lock is free.
 */
module BokiTxnRecovery {
  import opened Wrappers
  import opened LogModel
  import opened VersionedRows
  import opened LockProtocol
  import opened BokiTxn
  import opened BokiTxnLimits
  import IP = IntentProtocol

  ghost function RunFrom(plan: Plan, s: State, steps: seq<Step>): State {
    if steps == [] then s
    else
      var t := RunFrom(plan, s, steps[..|steps| - 1]);
      var step := steps[|steps| - 1];
      if Enabled(plan, t, step) then Do(plan, t, step) else t
  }

  lemma {:induction false} RunsOn(plan: Plan, rows: map<RowKey, Item>, n0: nat, steps: seq<Step>, more: seq<Step>)
    ensures Run(plan, rows, n0, steps + more) == RunFrom(plan, Run(plan, rows, n0, steps), more)
  {
    if more == [] {
      assert steps + more == steps;
    } else {
      RunsOn(plan, rows, n0, steps, more[..|more| - 1]);
      assert (steps + more)[..|steps + more| - 1] == steps + more[..|more| - 1];
    }
  }

  lemma {:induction false} FromConcat(plan: Plan, s: State, a: seq<Step>, b: seq<Step>)
    ensures RunFrom(plan, s, a + b) == RunFrom(plan, RunFrom(plan, s, a), b)
  {
    if b == [] {
      assert a + b == a;
    } else {
      FromConcat(plan, s, a, b[..|b| - 1]);
      assert (a + b)[..|a + b| - 1] == a + b[..|b| - 1];
    }
  }

  /** The transaction is at its end, committing or aborting. */
  ghost predicate AtEnd(s: State, t: string) {
    t in s.phases && s.phases[t].Ending?
  }

  /** The steps lead there; phases stay, and no record is added. */
  ghost predicate LeadsTo(plan: Plan, s: State, steps: seq<Step>, s': State) {
    && RunFrom(plan, s, steps) == s' && Base(plan, s') && s.log <= s'.log && s'.phases == s.phases
    && s.served <= s'.served
    && forall r: nat :: |s.log| <= r && r < |s'.log| ==> !IsRecord(s'.log, r)
  }

  lemma Goes(plan: Plan, s: State, step: Step)
    requires Injective(plan) && Base(plan, s) && Enabled(plan, s, step)
    requires step.Propose? || step.Attempted? || step.Release?
    ensures LeadsTo(plan, s, [step], Do(plan, s, step))
  {
    assert [step][..0] == [];
    StepKeepsBase(plan, s, step);
  }

  lemma Stays(plan: Plan, s: State)
    requires Base(plan, s)
    ensures LeadsTo(plan, s, [], s)
  {
  }

  lemma Then(plan: Plan, s: State, a: seq<Step>, t: State, b: seq<Step>, u: State)
    requires LeadsTo(plan, s, a, t) && LeadsTo(plan, t, b, u)
    ensures LeadsTo(plan, s, a + b, u)
  {
    FromConcat(plan, s, a, b);
    forall r: nat | |s.log| <= r && r < |u.log| ensures !IsRecord(u.log, r) {
      if r < |t.log| { assert u.log[r] == t.log[r] && !IsRecord(t.log, r); }
    }
  }

  // ---- one record ----

  /** A record of a committing transaction can be served. */
  lemma Serves(plan: Plan, s: State, r: nat) returns (more: seq<Step>, s': State)
    requires Injective(plan) && Base(plan, s) && IsRecord(s.log, r) && Commits(s, RecordTxn(s.log, r))
    requires plan(r) != {}
    ensures LeadsTo(plan, s, more, s') && r in s'.served
  {
    var at: StepId :| at in plan(r);
    var propose := Propose(r, at, 0);
    Goes(plan, s, propose);
    var s1 := Do(plan, s, propose);
    var j := IP.SomeFirst(s1.log, |s.log|, at.instance, at.step, false);
    assert s1.log[r] == s.log[r];
    assert IsPre(plan, s1.log, r, j);
    Goes(plan, s1, Attempted(r, j));
    s' := Do(plan, s1, Attempted(r, j));
    Then(plan, s, [propose], s1, [Attempted(r, j)], s');
    more := [propose] + [Attempted(r, j)];
  }

  /** Its lock is not held by its transaction. */
  ghost predicate LetGo(s: State, r: nat) {
    IsRecord(s.log, r) && !Holds(s.log, LockOf(RecordRow(s.log, r)), RecordTxn(s.log, r), |s.log|)
  }

  lemma Releases(plan: Plan, s: State, r: nat) returns (more: seq<Step>, s': State)
    requires Injective(plan) && Base(plan, s) && IsRecord(s.log, r) && AtEnd(s, RecordTxn(s.log, r))
    requires Commits(s, RecordTxn(s.log, r)) ==> r in s.served
    ensures LeadsTo(plan, s, more, s') && LetGo(s', r)
  {
    more, s' := [], s;
    Stays(plan, s);
    if !LetGo(s, r) {
      var step := Release(r, |s.log|, 0);
      Goes(plan, s, step);
      s' := Do(plan, s, step);
      more := [step];
      LockFreed(s, s', r);
    }
  }

  lemma LockFreed(s: State, s': State, r: nat)
    requires LocksOk(s') && RecordsOk(s) && IsRecord(s.log, r)
    requires var id, t := LockOf(RecordRow(s.log, r)), RecordTxn(s.log, r);
             && Holds(s.log, id, t, |s.log|)
             && s'.log == s.log + [LockSlot(0, id, At(s.log, id, |s.log|).value, true, t)]
    ensures LetGo(s', r)
  {
    var id, t := LockOf(RecordRow(s.log, r)), RecordTxn(s.log, r);
    assert RecordOk(s, r);
    PrefixStable(s.log, s'.log, id, |s.log|);
    NoPanic(s'.log, id, |s'.log|);
    assert s'.log[r] == s.log[r];
  }

  /** Once let go of, the lock stays so: an ending transaction does not lock. */
  lemma StaysLetGo(plan: Plan, s: State, s': State, r: nat)
    requires Base(plan, s) && Base(plan, s') && s.log <= s'.log && s'.phases == s.phases
    requires LetGo(s, r) && AtEnd(s, RecordTxn(s.log, r))
    ensures LetGo(s', r)
  {
    var id, t := LockOf(RecordRow(s.log, r)), RecordTxn(s.log, r);
    assert s'.log[r] == s.log[r];
    assert RecordOk(s, r);
    PrefixStable(s.log, s'.log, id, |s.log|);
    NoPanic(s'.log, id, |s.log|);
    forall j: nat | |s.log| <= j < |s'.log| ensures !Acquires(s'.log[j], id, t) {
      if Acquires(s'.log[j], id, t) { AcquiresEarly(s', id, t, j); }
    }
    StaysFree(s'.log, id, t, |s.log|, |s.log|, |s'.log|);
  }

  // ---- the whole transaction ----

  /** Record r, if it is one of t, is served when t commits, and its lock is let go of. */
  ghost predicate Done(s: State, t: string, r: nat) {
    IsRecord(s.log, r) && RecordTxn(s.log, r) == t ==> (Commits(s, t) ==> r in s.served) && LetGo(s, r)
  }

  ghost predicate DoneBelow(s: State, t: string, n: nat) {
    forall r: nat :: r < n ==> Done(s, t, r)
  }

  lemma DoneStays(plan: Plan, s: State, s': State, t: string, r: nat)
    requires Base(plan, s) && Base(plan, s') && s.log <= s'.log && s'.phases == s.phases && s.served <= s'.served
    requires AtEnd(s, t) && Done(s, t, r) && r < |s.log|
    ensures Done(s', t, r)
  {
    assert s'.log[r] == s.log[r];
    if IsRecord(s.log, r) && RecordTxn(s.log, r) == t { StaysLetGo(plan, s, s', r); }
  }

  lemma EndsRecord(plan: Plan, s: State, t: string, r: nat) returns (more: seq<Step>, s': State)
    requires Injective(plan) && Base(plan, s) && AtEnd(s, t) && IsRecord(s.log, r) && RecordTxn(s.log, r) == t
    requires plan(r) != {}
    ensures LeadsTo(plan, s, more, s') && Done(s', t, r)
  {
    var s1;
    more, s1 := [], s;
    Stays(plan, s);
    if Commits(s, t) { more, s1 := Serves(plan, s, r); }
    assert s1.log[r] == s.log[r];
    var rest;
    rest, s' := Releases(plan, s1, r);
    Then(plan, s, more, s1, rest, s');
    more := more + rest;
  }

  lemma {:induction false} EndsBelow(plan: Plan, s: State, t: string, n: nat) returns (more: seq<Step>, s': State)
    requires Injective(plan) && Base(plan, s) && AtEnd(s, t) && n <= |s.log|
    requires forall r: nat :: r > 0 ==> plan(r) != {}
    ensures LeadsTo(plan, s, more, s') && DoneBelow(s', t, n)
  {
    if n == 0 {
      more, s' := [], s;
      Stays(plan, s);
    } else {
      var s1;
      more, s1 := EndsBelow(plan, s, t, n - 1);
      var rest;
      rest, s' := EndsOneMore(plan, s1, t, n - 1);
      Then(plan, s, more, s1, rest, s');
      more := more + rest;
    }
  }

  lemma EndsOneMore(plan: Plan, s: State, t: string, r: nat) returns (more: seq<Step>, s': State)
    requires Injective(plan) && Base(plan, s) && AtEnd(s, t) && r < |s.log| && DoneBelow(s, t, r)
    requires forall q: nat :: q > 0 ==> plan(q) != {}
    ensures LeadsTo(plan, s, more, s') && DoneBelow(s', t, r + 1)
  {
    more, s' := [], s;
    Stays(plan, s);
    if IsRecord(s.log, r) && RecordTxn(s.log, r) == t {
      RecordNotFirst(s, r);
      more, s' := EndsRecord(plan, s, t, r);
      forall q: nat | q < r ensures Done(s', t, q) { DoneStays(plan, s, s', t, q); }
    }
  }

  /** Every record of t is served when it commits, and it holds none of their locks. */
  ghost predicate Ended(s: State, t: string) {
    forall r: nat :: Done(s, t, r)
  }

  /**
   From every reachable state, whatever was recorded: a transaction that began to end, and whose executors all crashed,
   can be brought to its end. If it commits every record is served, and either way it holds none of their locks.
   */
  lemma CommitRecovers(plan: Plan, rows: map<RowKey, Item>, n0: nat, steps: seq<Step>, t: string)
    returns (more: seq<Step>)
    requires Injective(plan) && forall r: nat :: r > 0 ==> plan(r) != {}
    requires AtEnd(Run(plan, rows, n0, steps), t)
    ensures var s, s' := Run(plan, rows, n0, steps), Run(plan, rows, n0, steps + more);
            s'.phases == s.phases && Ended(s', t)
  {
    var s := Run(plan, rows, n0, steps);
    RunKeepsBase(plan, rows, n0, steps);
    var s';
    more, s' := EndsBelow(plan, s, t, |s.log|);
    RunsOn(plan, rows, n0, steps, more);
  }

  // ---- a new transaction ----

  /** Begin, lock, read, record one write, and commit or abort. */
  function NewTransaction(t: string, lambda: string, row: RowKey, value: string, n: nat, commits: bool): seq<Step> {
    [Begin(t), TryLock(t, row, n, 0), TxnRead(t, row, n + 1), Record(t, lambda, row, value, n + 1, 0), End(t, commits)]
  }

  lemma OneStep(plan: Plan, s: State, steps: seq<Step>, step: Step, t: State)
    requires RunFrom(plan, s, steps) == t && Enabled(plan, t, step)
    ensures RunFrom(plan, s, steps + [step]) == Do(plan, t, step)
  {
    assert (steps + [step])[..|steps|] == steps;
  }

  /** The transaction holds the lock and has written nothing yet. */
  lemma BeginsAndLocks(plan: Plan, s: State, t: string, row: RowKey) returns (s': State)
    requires Base(plan, s) && t != "" && t !in s.phases && Holds(s.log, LockOf(row), "", |s.log|)
    ensures RunFrom(plan, s, [Begin(t), TryLock(t, row, |s.log|, 0)]) == s'
    ensures InPhase(s', t, Executing) && s'.phases == s.phases[t := Executing] && |s'.log| == |s.log| + 1
    ensures s.log <= s'.log && Holds(s'.log, LockOf(row), t, |s'.log|)
    ensures s'.rows == s.rows && s'.trace == s.trace && s'.served == s.served
  {
    OneStep(plan, s, [], Begin(t), s);
    var s1 := Do(plan, s, Begin(t));
    OneStep(plan, s, [Begin(t)], TryLock(t, row, |s.log|, 0), s1);
    s' := Do(plan, s1, TryLock(t, row, |s.log|, 0));
    NoPanic(s.log, LockOf(row), |s.log|);
    assert [] + [Begin(t)] == [Begin(t)];
    assert [Begin(t)] + [TryLock(t, row, |s.log|, 0)] == [Begin(t), TryLock(t, row, |s.log|, 0)];
    PrefixStable(s.log, s'.log, LockOf(row), |s.log|);
  }

  /** What such a transaction has done. */
  ghost predicate Ran(s: State, s': State, t: string, lambda: string, row: RowKey, value: string, commits: bool) {
    && s.log <= s'.log && |s'.log| == |s.log| + 2 && Holds(s'.log, LockOf(row), t, |s'.log| - 1)
    && s'.log[|s.log| + 1].Entry?
    && s'.log[|s.log| + 1].payload == TxnWrite(lambda, t, row.table, row.key, value)
    && s'.trace == s.trace + [Op(t, row, |s.log| + 1, ReadOp, s.Row(row).v)] && s'.rows == s.rows
    && s'.phases == s.phases[t := Ending(|s'.log|, commits)]
  }

  lemma ReadsAndRecords(plan: Plan, s: State, t: string, lambda: string, row: RowKey, value: string, commits: bool)
    returns (s': State)
    requires InPhase(s, t, Executing) && Holds(s.log, LockOf(row), t, |s.log|)
    ensures RunFrom(plan, s, [TxnRead(t, row, |s.log|), Record(t, lambda, row, value, |s.log|, 0), End(t, commits)])
              == s'
    ensures s'.log == s.log + [Entry(0, TxnWrite(lambda, t, row.table, row.key, value))] && s'.rows == s.rows
    ensures s'.trace == s.trace + [Op(t, row, |s.log|, ReadOp, s.Row(row).v)]
    ensures s'.phases == s.phases[t := Ending(|s'.log|, commits)]
  {
    var read, record := TxnRead(t, row, |s.log|), Record(t, lambda, row, value, |s.log|, 0);
    OneStep(plan, s, [], read, s);
    var s1 := Do(plan, s, read);
    OneStep(plan, s, [read], record, s1);
    var s2 := Do(plan, s1, record);
    OneStep(plan, s, [read, record], End(t, commits), s2);
    s' := Do(plan, s2, End(t, commits));
    assert [] + [read] == [read] && [read] + [record] == [read, record];
    assert [read, record] + [End(t, commits)] == [read, record, End(t, commits)];
  }

  /** In every reachable state a new transaction can lock a free row, read it, record a write, and commit or abort. */
  lemma NewTransactionRuns(plan: Plan, rows: map<RowKey, Item>, n0: nat, steps: seq<Step>, t: string, lambda: string,
                           row: RowKey, value: string, commits: bool)
    requires Injective(plan) && t != "" && t !in Run(plan, rows, n0, steps).phases
    requires var s := Run(plan, rows, n0, steps); Holds(s.log, LockOf(row), "", |s.log|)
    ensures var s := Run(plan, rows, n0, steps);
            Ran(s, Run(plan, rows, n0, steps + NewTransaction(t, lambda, row, value, |s.log|, commits)), t, lambda, row,
                value, commits)
  {
    var s := Run(plan, rows, n0, steps);
    RunKeepsBase(plan, rows, n0, steps);
    var s1 := BeginsAndLocks(plan, s, t, row);
    var s2 := ReadsAndRecords(plan, s1, t, lambda, row, value, commits);
    var first := [Begin(t), TryLock(t, row, |s.log|, 0)];
    var rest := [TxnRead(t, row, |s1.log|), Record(t, lambda, row, value, |s1.log|, 0), End(t, commits)];
    FromConcat(plan, s, first, rest);
    assert NewTransaction(t, lambda, row, value, |s.log|, commits) == first + rest;
    RunsOn(plan, rows, n0, steps, first + rest);
    PrefixStable(s1.log, s2.log, LockOf(row), |s1.log|);
  }
}

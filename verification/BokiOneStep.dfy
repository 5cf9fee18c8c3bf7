/**
 When transactional writes stay under their locks, for transactions with one record per lock: exactly when each write
 record is committed by one workflow step. A function that its transaction called twice has its records committed by
 two.
 */
module BokiOneStep {
  import opened Wrappers
  import opened LogModel
  import opened VersionedRows
  import opened LockProtocol
  import opened BokiTxn
  import opened BokiEscape
  import BokiTxnLimits

  ghost predicate AlwaysUnderLock(plan: Plan) {
    forall rows, n0, steps ::
      StartsBelow(rows, n0) && OneRecordPerLock(Run(plan, rows, n0, steps).log) ==>
        WritesUnderLock(Run(plan, rows, n0, steps))
  }

  /** One step per record suffices. */
  lemma OneStepSuffices(plan: Plan, rows: map<RowKey, Item>, n0: nat, steps: seq<Step>)
    requires Injective(plan) && OneStepPerRecord(plan) && OneRecordPerLock(Run(plan, rows, n0, steps).log)
    ensures WritesUnderLock(Run(plan, rows, n0, steps))
  {
    var s := Run(plan, rows, n0, steps);
    RunKeepsBase(plan, rows, n0, steps);
    forall m: nat | m < |s.trace| && s.trace[m].effect.WriteOp? ensures UnderLock(s, m) {
      BokiTxnLimits.RunExplained(plan, rows, n0, steps, m);
      if !UnderLock(s, m) { NoRival(plan, s, s.trace[m].effect.record); }
    }
  }

  lemma NoRival(plan: Plan, s: State, r: nat)
    requires RecordsOk(s) && OneStepPerRecord(plan) && OneRecordPerLock(s.log)
    ensures !BokiTxnLimits.HasRival(plan, s.log, r)
  {
    if b, r1: nat, a :| BokiTxnLimits.Rival(plan, s.log, r, b, r1, a) {
      assert SameLock(s.log, r1, r);
      BokiTxnLimits.RecordNotFirst(s, r);
    }
  }

  /** The second commit of a record takes effect while another transaction holds the lock: whoever wrote what, where. */
  lemma SecondStepEscapes(plan: Plan, w: Escape)
    requires Possible(plan, w) && w.r1 == w.r2
    ensures StartsBelow(map[], w.r1 - 1)
    ensures var s := Run(plan, map[], w.r1 - 1, Steps(w, Length(w)));
            OneRecordPerLock(s.log) && Escapes(s, w) && !WritesUnderLock(s)
  {
    SecondWriteEscapes(plan, w);
    OneRecord(w, w.r2 + 5);
    BokiTxnLimits.EscapedNotUnderLock(Run(plan, map[], w.r1 - 1, Steps(w, Length(w))), w);
  }

  /** Two commits of one record. */
  function Twice(r: nat, a: StepId, b: StepId, txn: string, other: string, x: Write): Escape {
    Escape(txn, other, r, x, r, x, a, b)
  }

  /** The exact condition: writes are always made under their locks if and only if no record has two commit steps. */
  lemma UnderLockIffOneStep(plan: Plan)
    requires Injective(plan)
    ensures AlwaysUnderLock(plan) <==> OneStepPerRecord(plan)
  {
    if OneStepPerRecord(plan) {
      forall rows, n0, steps | StartsBelow(rows, n0) && OneRecordPerLock(Run(plan, rows, n0, steps).log)
        ensures WritesUnderLock(Run(plan, rows, n0, steps))
      {
        OneStepSuffices(plan, rows, n0, steps);
      }
    } else {
      var r: nat, a, b :| r > 0 && a in plan(r) && b in plan(r) && a != b;
      SecondStepEscapes(plan, Twice(r, a, b, "a", "b", Write("f", RowKey("t", "k"), "x")));
    }
  }
}

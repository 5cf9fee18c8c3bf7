/**
 The shared log as a value. A record's sequence number is its index; gaps stand for
 sequence numbers the log engine skipped, so numbers increase strictly but are not dense.
 */
module LogModel {
  import opened Wrappers
  import opened BokiTags

  /** The JSON payload of an intent step, one constructor per value of its "type" field. */
  datatype StepData =
    | PreWrite(table: string, key: string)
    | PostWrite(table: string, key: string)
    | ReadResult(table: string, key: string, read: Option<string>)
    | ScanResult(table: string, scanned: seq<Option<string>>)
    | PreInvoke(callee: string, calleeInstance: string)
    | InvokeResult(output: string)

  datatype Payload =
    | Intent(instanceId: string, step: nat, postStep: bool, data: StepData)
    | LockOp(lockId: string, lockStep: nat, unlockOp: bool, holder: string)
    | TxnCall(lambdaId: string, txnId: string, callee: string)
    | TxnWrite(lambdaId: string, txnId: string, table: string, key: string, value: string)
    | Progress(doneInstance: string, done: bool)

  datatype Slot = Gap | Entry(tag: bv64, payload: Payload)

  type Log = seq<Slot>

  /** A transaction's write record. */
  predicate IsRecord(log: Log, r: nat) {
    r < |log| && log[r].Entry? && log[r].payload.TxnWrite?
  }

  function TagOf(hash: Hash, p: Payload): bv64 {
    match p
    case Intent(id, _, _, _) => IntentStepStreamTag(hash, id)
    case LockOp(id, _, _, _) => LockStreamTag(hash, id)
    case TxnCall(l, t, _) => TransactionStreamTag(hash, l, t)
    case TxnWrite(l, t, _, _, _) => TransactionStreamTag(hash, l, t)
    case Progress(_, _) => INTENT_LOG_TAG
  }

  ghost predicate WellTagged(hash: Hash, log: Log) {
    forall i :: 0 <= i < |log| && log[i].Entry? ==> log[i].tag == TagOf(hash, log[i].payload)
  }

  /** SharedLogReadNext on the prefix `log[..view]`: the first entry of the stream at or after `from`. */
  function ReadNext(log: Log, view: nat, tag: bv64, from: nat): (r: Option<nat>)
    requires view <= |log|
    ensures r.Some? ==> from <= r.value < view && log[r.value].Entry? && log[r.value].tag == tag
    ensures forall i :: from <= i < (if r.Some? then r.value else view) && log[i].Entry? ==> log[i].tag != tag
    decreases view - from
  {
    if from >= view then None
    else if log[from].Entry? && log[from].tag == tag then Some(from)
    else ReadNext(log, view, tag, from + 1)
  }
}

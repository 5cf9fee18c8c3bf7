/**
 A database row under version-guarded updates. Each UpdateItem is one atomic attempt; the
 history of a row is the order in which the database served the attempts, retries included.
 */
module VersionedRows {
  import opened Wrappers

  datatype RowKey = RowKey(table: string, key: string)

  datatype Item = Item(version: Option<nat>, v: Option<string>)

  const ABSENT := Item(None, None)

  datatype Attempt = Attempt(seqNum: nat, update: Option<string> -> Option<string>, cond: Item -> bool)

  /** What a handler asks of a row under one step; re-executions of the step ask the same. */
  datatype Call = Call(update: Option<string> -> Option<string>, cond: Item -> bool)

  /** The update of a transactional write: the value as it was recorded. */
  function Put(value: string): Option<string> -> Option<string> {
    _ => Some(value)
  }

  function Always(): Item -> bool {
    _ => true
  }

  /** The guard CondWrite builds: VERSION missing or below the PreWrite sequence number, and the caller's condition. */
  predicate Accepts(row: Item, a: Attempt) {
    (row.version.None? || row.version.value < a.seqNum) && a.cond(row)
  }

  function UpdateItem(row: Item, a: Attempt): Item {
    if Accepts(row, a) then Item(Some(a.seqNum), a.update(row.v)) else row
  }

  function Serve(row: Item, tries: seq<Attempt>): Item {
    if tries == [] then row
    else UpdateItem(Serve(row, tries[..|tries| - 1]), tries[|tries| - 1])
  }

  /** The attempts that took effect, in order. */
  function Applied(row: Item, tries: seq<Attempt>): seq<Attempt> {
    if tries == [] then []
    else
      var before, last := tries[..|tries| - 1], tries[|tries| - 1];
      if Accepts(Serve(row, before), last) then Applied(row, before) + [last] else Applied(row, before)
  }

  function ApplyAll(v: Option<string>, updates: seq<Attempt>): Option<string> {
    if updates == [] then v
    else updates[|updates| - 1].update(ApplyAll(v, updates[..|updates| - 1]))
  }

  /** One more attempt: what it does depends on VERSION and the caller's condition, as they are when it is served. */
  lemma OneAttempt(row: Item, tries: seq<Attempt>, a: Attempt)
    ensures var now := Serve(row, tries);
            var after := Serve(row, tries + [a]);
            && (!a.cond(now) ==> after == now)
            && (now.version.Some? && a.seqNum <= now.version.value ==> after == now)
            && ((now.version.None? || now.version.value < a.seqNum) && a.cond(now) ==>
                  after == Item(Some(a.seqNum), a.update(now.v)))
            && (after == Item(Some(a.seqNum), a.update(now.v)) && after != now ==>
                  (now.version.None? || now.version.value < a.seqNum) && a.cond(now))
  {
    assert (tries + [a])[..|tries|] == tries;
  }

  /** The i-th attempt met a row of which its condition held, with a smaller VERSION or none. */
  ghost predicate MetItsCondition(row: Item, tries: seq<Attempt>, i: nat)
    requires i < |tries|
  {
    var met := Serve(row, tries[..i]);
    tries[i].cond(met) && (met.version.None? || met.version.value < tries[i].seqNum)
  }

  /** The attempts that took effect are those that met their conditions, in the order in which they were served. */
  ghost predicate AreTheMet(row: Item, tries: seq<Attempt>, done: seq<Attempt>, at: seq<nat>) {
    && |at| == |done|
    && (forall k :: 0 <= k < |at| ==> at[k] < |tries| && done[k] == tries[at[k]] && MetItsCondition(row, tries, at[k]))
    && (forall k, m :: 0 <= k < m < |at| ==> at[k] < at[m])
    && (forall i: nat :: i < |tries| && MetItsCondition(row, tries, i) ==> i in at)
  }

  lemma MetEarlier(row: Item, tries: seq<Attempt>, i: nat)
    requires tries != [] && i < |tries| - 1
    ensures MetItsCondition(row, tries[..|tries| - 1], i) <==> MetItsCondition(row, tries, i)
  {
    assert tries[..|tries| - 1][..i] == tries[..i];
  }

  lemma {:induction false} AppliedAreTheMet(row: Item, tries: seq<Attempt>) returns (at: seq<nat>)
    ensures AreTheMet(row, tries, Applied(row, tries), at)
  {
    at := [];
    if tries != [] {
      var before := tries[..|tries| - 1];
      at := AppliedAreTheMet(row, before);
      forall i: nat | i < |before| ensures MetItsCondition(row, before, i) <==> MetItsCondition(row, tries, i) {
        MetEarlier(row, tries, i);
      }
      if MetItsCondition(row, tries, |tries| - 1) { at := at + [|tries| - 1]; }
    }
  }

  ghost predicate AtMost(version: Option<nat>, bound: Option<nat>) {
    version.None? || (bound.Some? && version.value <= bound.value)
  }

  lemma {:induction false} ServePrefix(row: Item, tries: seq<Attempt>, more: seq<Attempt>)
    requires tries <= more
    ensures AtMost(Serve(row, tries).version, Serve(row, more).version)
    decreases |more|
  {
    if |tries| < |more| {
      assert tries <= more[..|more| - 1];
      ServePrefix(row, tries, more[..|more| - 1]);
    } else {
      assert tries == more;
    }
  }

  /** `now` is what `row` becomes when exactly the updates `done` take effect, in increasing SeqNum order. */
  ghost predicate Explains(row: Item, done: seq<Attempt>, now: Item) {
    && (forall i, j :: 0 <= i < j < |done| ==> done[i].seqNum < done[j].seqNum)
    && (forall i :: 0 <= i < |done| && row.version.Some? ==> row.version.value < done[i].seqNum)
    && now.version == (if done == [] then row.version else Some(done[|done| - 1].seqNum))
    && now.v == ApplyAll(row.v, done)
  }

  /**
   Whatever is retried, in whatever order, each sequence number takes effect at most once, effects come
   in increasing order of sequence number, and the row is exactly the applied updates in that order.
   */
  lemma {:induction false} AppliedAtMostOnceInOrder(row: Item, tries: seq<Attempt>)
    ensures Explains(row, Applied(row, tries), Serve(row, tries))
  {
    if tries != [] {
      var before, last := tries[..|tries| - 1], tries[|tries| - 1];
      AppliedAtMostOnceInOrder(row, before);
    }
  }

  ghost predicate Unconditional(a: Attempt) {
    forall row :: a.cond(row)
  }

  /** Once an unconditional write was attempted, the row's VERSION is at least its sequence number for good. */
  lemma {:induction false} AttemptedMeansVersionReached(row: Item, tries: seq<Attempt>, i: nat)
    requires i < |tries| && Unconditional(tries[i])
    ensures AtMost(Some(tries[i].seqNum), Serve(row, tries).version)
  {
    assert tries[..i + 1][..i] == tries[..i];
    assert Serve(row, tries[..i + 1]) == UpdateItem(Serve(row, tries[..i]), tries[i]);
    ServePrefix(row, tries[..i + 1], tries);
  }

  /** Hence a retry of an already attempted unconditional write never takes effect again. */
  lemma RetryIsRejected(row: Item, tries: seq<Attempt>, i: nat, retry: Attempt)
    requires i < |tries| && Unconditional(tries[i]) && retry.seqNum == tries[i].seqNum
    ensures Serve(row, tries + [retry]) == Serve(row, tries)
  {
    AttemptedMeansVersionReached(row, tries, i);
    assert (tries + [retry])[..|tries|] == tries;
  }

  ghost predicate Overwrites(tries: seq<Attempt>, values: map<nat, string>) {
    forall i :: 0 <= i < |tries| ==>
      && tries[i].seqNum in values && Unconditional(tries[i])
      && (forall v :: tries[i].update(v) == Some(values[tries[i].seqNum]))
  }

  ghost predicate IsLargest(tries: seq<Attempt>, m: nat) {
    (exists i :: 0 <= i < |tries| && tries[i].seqNum == m) && forall i :: 0 <= i < |tries| ==> tries[i].seqNum <= m
  }

  /**
   Whole-value overwrites end in the value of the largest sequence number that reached the database,
   exactly when that number exceeds the VERSION the row started with.
   */
  lemma LargestSeqNumWins(row: Item, tries: seq<Attempt>, values: map<nat, string>, m: nat)
    requires Overwrites(tries, values) && IsLargest(tries, m)
    ensures Serve(row, tries) ==
              if row.version.None? || row.version.value < m then Item(Some(m), Some(values[m])) else row
  {
    var done := Applied(row, tries);
    AppliedAtMostOnceInOrder(row, tries);
    AppliedComeFromTries(row, tries);
    var i :| 0 <= i < |tries| && tries[i].seqNum == m;
    AttemptedMeansVersionReached(row, tries, i);
    if done == [] {
      NothingApplied(row, tries);
    } else {
      assert done[|done| - 1] in tries;
    }
  }

  lemma {:induction false} AppliedComeFromTries(row: Item, tries: seq<Attempt>)
    ensures forall a :: a in Applied(row, tries) ==> a in tries
  {
    if tries != [] { AppliedComeFromTries(row, tries[..|tries| - 1]); }
  }

  lemma {:induction false} NothingApplied(row: Item, tries: seq<Attempt>)
    requires Applied(row, tries) == []
    ensures Serve(row, tries) == row
  {
    if tries != [] { NothingApplied(row, tries[..|tries| - 1]); }
  }
}

/**
 The lock state machine as a fold over the log, the discipline that callers of Lock and
 Unlock follow, and what that discipline implies for every log and every stale reader.
 */
module LockProtocol {
  import opened Wrappers
  import opened LogModel
  import opened VersionedRows

  datatype LockRecord = LockRecord(seqNum: nat, unlockOp: bool, holder: string)

  datatype LockState = LockState(stepNumber: nat, tail: Option<LockRecord>) {
    function Holder(): string {
      if tail.None? || tail.value.unlockOp then "" else tail.value.holder
    }
  }

  /** Distinct rows may share a lock: ("a-b", "c") and ("a", "b-c") do. */
  function LockIdOf(table: string, key: string): string {
    table + "-" + key
  }

  function LockOf(row: RowKey): string {
    LockIdOf(row.table, row.key)
  }

  /** The second table name goes on where the first ends, into the first one's key. */
  predicate Continues(a: RowKey, b: RowKey) {
    && a.table + "-" <= b.table
    && a.key == b.table[|a.table| + 1..] + "-" + b.key
  }

  lemma LongerTable(a: RowKey, b: RowKey)
    requires |a.table| < |b.table|
    ensures a.table + "-" + a.key == b.table + "-" + b.key <==> Continues(a, b)
  {
    var x, y, n := a.table + "-" + a.key, b.table + "-" + b.key, |a.table|;
    assert x[..n + 1] == a.table + "-" && x[n + 1..] == a.key;
    assert y[..n + 1] == b.table[..n + 1] && y[n + 1..] == b.table[n + 1..] + "-" + b.key;
    assert x == x[..n + 1] + x[n + 1..] && y == y[..n + 1] + y[n + 1..];
  }

  /** Two rows share a lock if and only if they are one row, or one table name is the other, a dash and more. */
  lemma SharesLockIff(a: RowKey, b: RowKey)
    ensures LockOf(a) == LockOf(b) <==> a == b || Continues(a, b) || Continues(b, a)
  {
    var x, y := a.table + "-" + a.key, b.table + "-" + b.key;
    if |a.table| < |b.table| {
      LongerTable(a, b);
    } else if |b.table| < |a.table| {
      LongerTable(b, a);
    } else {
      var n := |a.table|;
      assert x[..n] == a.table && x[n + 1..] == a.key;
      assert y[..n] == b.table && y[n + 1..] == b.key;
    }
  }

  lemma ContinuedHasDash(a: RowKey, b: RowKey)
    requires Continues(a, b)
    ensures '-' in b.table
  {
    assert b.table[|a.table|] == '-';
  }

  /** Some rows of two tables share a lock if and only if one table name is the other, or that, a dash and more. */
  lemma TablesShareIff(t1: string, t2: string)
    ensures (exists k1, k2 :: LockIdOf(t1, k1) == LockIdOf(t2, k2)) <==>
              t1 == t2 || t1 + "-" <= t2 || t2 + "-" <= t1
  {
    if k1, k2 :| LockIdOf(t1, k1) == LockIdOf(t2, k2) { SharesLockIff(RowKey(t1, k1), RowKey(t2, k2)); }
    if t1 == t2 { assert LockIdOf(t1, "") == LockIdOf(t2, ""); }
    if t1 + "-" <= t2 {
      SharesLockIff(RowKey(t1, t2[|t1| + 1..] + "-"), RowKey(t2, ""));
      assert LockIdOf(t1, t2[|t1| + 1..] + "-") == LockIdOf(t2, "");
    }
    if t2 + "-" <= t1 {
      SharesLockIff(RowKey(t1, ""), RowKey(t2, t1[|t2| + 1..] + "-"));
      assert LockIdOf(t1, "") == LockIdOf(t2, t1[|t2| + 1..] + "-");
    }
  }

  /** Tables named without a dash never share a lock between different rows. */
  lemma OwnLocks(a: RowKey, b: RowKey)
    requires '-' !in a.table && '-' !in b.table
    ensures LockOf(a) == LockOf(b) <==> a == b
  {
    SharesLockIff(a, b);
    if Continues(a, b) { ContinuedHasDash(a, b); }
    if Continues(b, a) { ContinuedHasDash(b, a); }
  }

  const INITIAL := LockState(0, None)

  /** One iteration of the catch-up loop, for an entry of the lock's stream. */
  function Apply(s: LockState, seqNum: nat, lockStep: nat, unlockOp: bool, holder: string): Result<LockState> {
    if lockStep != s.stepNumber then Ok(s)
    else if unlockOp && (s.tail.None? || s.tail.value.unlockOp || s.tail.value.holder != holder) then
      Panic("Invalid Unlock op")
    else if !unlockOp && s.tail.Some? && !s.tail.value.unlockOp then
      Panic("Invalid Lock op")
    else Ok(LockState(s.stepNumber + 1, Some(LockRecord(seqNum, unlockOp, holder))))
  }

  predicate IsOp(slot: Slot, lockId: string) {
    slot.Entry? && slot.payload.LockOp? && slot.payload.lockId == lockId
  }

  function ApplySlot(s: LockState, seqNum: nat, slot: Slot, lockId: string): Result<LockState> {
    if IsOp(slot, lockId) then Apply(s, seqNum, slot.payload.lockStep, slot.payload.unlockOp, slot.payload.holder)
    else Ok(s)
  }

  /** Full replay of the first n slots. */
  function At(log: Log, lockId: string, n: nat): Result<LockState>
    requires n <= |log|
  {
    if n == 0 then Ok(INITIAL)
    else match At(log, lockId, n - 1)
         case Panic(m) => Panic(m)
         case Ok(s) => ApplySlot(s, n - 1, log[n - 1], lockId)
  }

  ghost predicate Holds(log: Log, lockId: string, holder: string, n: nat) {
    n <= |log| && At(log, lockId, n).Ok? && At(log, lockId, n).value.Holder() == holder
  }

  /** What Lock and Unlock check on their own replay of the first k slots before they append `op`. */
  ghost predicate Proposes(log: Log, k: nat, op: Payload)
    requires op.LockOp?
  {
    && k <= |log|
    && Holds(log, op.lockId, if op.unlockOp then op.holder else "", k)
    && At(log, op.lockId, k).value.stepNumber == op.lockStep
  }

  /** `op` may be appended at position n: some executor's possibly stale replay justified it. */
  ghost predicate MayAppend(log: Log, n: nat, op: Payload)
    requires op.LockOp?
  {
    op.holder != "" && exists k: nat :: k <= n && Proposes(log, k, op)
  }

  ghost predicate Lawful(log: Log) {
    forall i :: 0 <= i < |log| && log[i].Entry? && log[i].payload.LockOp? ==> MayAppend(log, i, log[i].payload)
  }

  ghost predicate Alternating(s: LockState) {
    && (s.tail.None? <==> s.stepNumber == 0)
    && (s.tail.Some? ==> s.tail.value.unlockOp == (s.stepNumber % 2 == 0) && s.tail.value.holder != "")
  }

  lemma {:induction false} PrefixStable(log: Log, longer: Log, lockId: string, n: nat)
    requires log <= longer && n <= |log|
    ensures At(log, lockId, n) == At(longer, lockId, n)
  {
    if n > 0 {
      PrefixStable(log, longer, lockId, n - 1);
      assert longer[n - 1] == log[n - 1];
    }
  }

  lemma {:induction false} StepMonotone(log: Log, lockId: string, i: nat, j: nat)
    requires i <= j <= |log| && At(log, lockId, j).Ok?
    ensures At(log, lockId, i).Ok?
    ensures At(log, lockId, i).value.stepNumber <= At(log, lockId, j).value.stepNumber
    ensures At(log, lockId, i).value.stepNumber == At(log, lockId, j).value.stepNumber ==>
              At(log, lockId, i) == At(log, lockId, j)
    decreases j
  {
    if i < j { StepMonotone(log, lockId, i, j - 1); }
  }

  /** Slots that are not operations of this lock change nothing. */
  lemma {:induction false} Quiet(log: Log, lockId: string, a: nat, b: nat)
    requires a <= b <= |log| && forall j :: a <= j < b ==> !IsOp(log[j], lockId)
    ensures At(log, lockId, a) == At(log, lockId, b)
    decreases b
  {
    if a < b { Quiet(log, lockId, a, b - 1); }
  }

  /** Neither panic is reachable, and operations alternate, in every log the discipline allows. */
  lemma {:induction false} NoPanic(log: Log, lockId: string, n: nat)
    requires Lawful(log) && n <= |log|
    ensures At(log, lockId, n).Ok? && Alternating(At(log, lockId, n).value)
  {
    if n > 0 {
      NoPanic(log, lockId, n - 1);
      if IsOp(log[n - 1], lockId) {
        var op := log[n - 1].payload;
        var k: nat :| k <= n - 1 && Proposes(log, k, op);
        StepMonotone(log, lockId, k, n - 1);
      }
    }
  }

  /** The operations a replay of the first n slots accepted, in order. */
  function Accepted(log: Log, lockId: string, n: nat): seq<LockRecord>
    requires n <= |log|
  {
    if n == 0 then []
    else if At(log, lockId, n).Ok? && At(log, lockId, n) != At(log, lockId, n - 1)
    then Accepted(log, lockId, n - 1) + [At(log, lockId, n).value.tail.value]
    else Accepted(log, lockId, n - 1)
  }

  /** Even operations lock, odd ones unlock, and each unlock names the holder that locked just before. */
  ghost predicate Alternates(h: seq<LockRecord>, n: nat) {
    && (forall i :: 0 <= i < |h| ==> h[i].holder != "" && h[i].unlockOp == (i % 2 == 1) && h[i].seqNum < n)
    && (forall i, j :: 0 <= i < j < |h| ==> h[i].seqNum < h[j].seqNum)
    && (forall i :: 0 < i < |h| && h[i].unlockOp ==> h[i].holder == h[i - 1].holder)
  }

  /** What one more slot does to the replay: nothing, or one accepted operation that fits the one before. */
  lemma AcceptedOp(log: Log, lockId: string, n: nat)
    requires Lawful(log) && 0 < n <= |log|
    ensures At(log, lockId, n - 1).Ok? && At(log, lockId, n).Ok?
    ensures var before, after := At(log, lockId, n - 1).value, At(log, lockId, n).value;
            after == before || (after.tail.Some? && Follows(before, after.tail.value, n - 1) &&
                                after.stepNumber == before.stepNumber + 1)
  {
    NoPanic(log, lockId, n - 1);
    NoPanic(log, lockId, n);
  }

  ghost predicate Follows(before: LockState, r: LockRecord, seqNum: nat) {
    && r.seqNum == seqNum && r.holder != "" && r.unlockOp == (before.stepNumber % 2 == 1)
    && (r.unlockOp ==> before.tail.Some? && before.tail.value.holder == r.holder)
  }

  lemma {:induction false} LockHistory(log: Log, lockId: string, n: nat)
    requires Lawful(log) && n <= |log|
    ensures At(log, lockId, n).Ok? && Tells(Accepted(log, lockId, n), At(log, lockId, n).value, n)
  {
    if n > 0 {
      LockHistory(log, lockId, n - 1);
      AcceptedOp(log, lockId, n);
      var before, after := At(log, lockId, n - 1).value, At(log, lockId, n).value;
      if before != after {
        ExtendHistory(Accepted(log, lockId, n - 1), before, after.tail.value, n);
      } else {
        assert Tells(Accepted(log, lockId, n - 1), before, n);
      }
    }
  }

  /** The history alternates and ends in the state. */
  ghost predicate Tells(h: seq<LockRecord>, s: LockState, n: nat) {
    Alternates(h, n) && |h| == s.stepNumber && s.tail == (if h == [] then None else Some(h[|h| - 1]))
  }

  lemma ExtendHistory(h: seq<LockRecord>, before: LockState, r: LockRecord, n: nat)
    requires n > 0 && Tells(h, before, n - 1) && Follows(before, r, n - 1)
    ensures Tells(h + [r], LockState(before.stepNumber + 1, Some(r)), n)
  {
  }

  /** Who holds a lock acquired it. */
  lemma {:induction false} HolderLocked(log: Log, lockId: string, holder: string, n: nat) returns (j: nat)
    requires holder != "" && Holds(log, lockId, holder, n)
    ensures j < n && Acquires(log[j], lockId, holder)
  {
    if Holds(log, lockId, holder, n - 1) {
      j := HolderLocked(log, lockId, holder, n - 1);
    } else {
      j := n - 1;
    }
  }

  /** The i-th slot takes effect on the lock. */
  ghost predicate TakesEffect(log: Log, lockId: string, i: nat) {
    i < |log| && At(log, lockId, i + 1) != At(log, lockId, i)
  }

  lemma {:induction false} Unaltered(log: Log, lockId: string, a: nat, b: nat)
    requires a <= b <= |log| && forall i: nat :: a <= i < b ==> !TakesEffect(log, lockId, i)
    ensures At(log, lockId, a) == At(log, lockId, b)
    decreases b
  {
    if a < b {
      Unaltered(log, lockId, a, b - 1);
      assert !TakesEffect(log, lockId, b - 1);
    }
  }

  ghost predicate Unlocks(slot: Slot, lockId: string, holder: string) {
    IsOp(slot, lockId) && slot.payload.unlockOp && slot.payload.holder == holder
  }

  /**
   Mutual exclusion despite stale replays: whoever saw itself as the holder in some prefix still is, by the same
   acquisition, as long as it appended no unlock from there on.
   */
  lemma {:induction false} StillHolds(log: Log, lockId: string, holder: string, k: nat, n: nat)
    requires Lawful(log) && holder != "" && k <= n <= |log|
    requires Holds(log, lockId, holder, k)
    requires forall j :: k <= j < n ==> !Unlocks(log[j], lockId, holder)
    ensures Holds(log, lockId, holder, n) && At(log, lockId, n) == At(log, lockId, k)
  {
    if k < n {
      StillHolds(log, lockId, holder, k, n - 1);
      NoPanic(log, lockId, n);
    }
  }

  lemma NeverTwoHolders(log: Log, lockId: string, h1: string, k1: nat, h2: string, k2: nat)
    requires Lawful(log) && h1 != "" && h2 != "" && k1 <= |log| && k2 <= |log|
    requires Holds(log, lockId, h1, k1) && forall j :: k1 <= j < |log| ==> !Unlocks(log[j], lockId, h1)
    requires Holds(log, lockId, h2, k2) && forall j :: k2 <= j < |log| ==> !Unlocks(log[j], lockId, h2)
    ensures h1 == h2
  {
    StillHolds(log, lockId, h1, k1, |log|);
    StillHolds(log, lockId, h2, k2, |log|);
  }

  ghost predicate Acquires(slot: Slot, lockId: string, holder: string) {
    IsOp(slot, lockId) && !slot.payload.unlockOp && slot.payload.holder == holder
  }

  ghost predicate NoAcquire(log: Log, lockId: string, holder: string, from: nat) {
    forall j :: from <= j < |log| ==> !Acquires(log[j], lockId, holder)
  }

  /**
   At or after `from`, this holder either was seen not to hold the lock, or appended an unlock on a replay, of a prefix
   that reaches to `from`, in which it did.
   */
  ghost predicate Released(log: Log, lockId: string, holder: string, from: nat) {
    exists k: nat, n: nat :: ReleasedAt(log, lockId, holder, from, k, n)
  }

  ghost predicate ReleasedAt(log: Log, lockId: string, holder: string, from: nat, k: nat, n: nat) {
    && from <= k <= n <= |log|
    && (|| (k == n && At(log, lockId, k).Ok? && !Holds(log, lockId, holder, k))
        || (n < |log| && Unlocks(log[n], lockId, holder) && Proposes(log, k, log[n].payload)))
  }

  lemma ReleasedFromEarlier(log: Log, lockId: string, holder: string, from: nat, later: nat)
    requires from <= later && Released(log, lockId, holder, later)
    ensures Released(log, lockId, holder, from)
  {
    var k: nat, n: nat :| ReleasedAt(log, lockId, holder, later, k, n);
    assert ReleasedAt(log, lockId, holder, from, k, n);
  }

  lemma ReleasedStable(log: Log, longer: Log, lockId: string, holder: string, from: nat)
    requires log <= longer && Released(log, lockId, holder, from)
    ensures Released(longer, lockId, holder, from)
  {
    var k: nat, n: nat :| ReleasedAt(log, lockId, holder, from, k, n);
    PrefixStable(log, longer, lockId, k);
    assert n < |log| ==> longer[n] == log[n];
    assert ReleasedAt(longer, lockId, holder, from, k, n);
  }

  /** Who does not hold a lock and appends no lock operation for it never comes to hold it. */
  lemma {:induction false} StaysFree(log: Log, lockId: string, holder: string, from: nat, k: nat, n: nat)
    requires Lawful(log) && holder != "" && from <= k <= n <= |log| && NoAcquire(log, lockId, holder, from)
    requires At(log, lockId, k).Ok? && !Holds(log, lockId, holder, k)
    ensures At(log, lockId, n).Ok? && !Holds(log, lockId, holder, n)
    decreases n
  {
    NoPanic(log, lockId, n);
    if k < n {
      StaysFree(log, lockId, holder, from, k, n - 1);
    }
  }

  /** An unlock that comes late finds the lock released already, by its own holder. */
  lemma {:induction false} UnlockReleases(log: Log, lockId: string, holder: string, from: nat, k: nat, n: nat)
    requires Lawful(log) && holder != "" && from <= k <= n < |log| && NoAcquire(log, lockId, holder, from)
    requires Unlocks(log[n], lockId, holder) && Proposes(log, k, log[n].payload)
    ensures At(log, lockId, n + 1).Ok? && !Holds(log, lockId, holder, n + 1)
  {
    NoPanic(log, lockId, n + 1);
    NoPanic(log, lockId, n);
    StepMonotone(log, lockId, k, n);
    if Holds(log, lockId, holder, n) { HeldThroughout(log, lockId, holder, from, k, n); }
  }

  /** Without lock operations of its own in between, who holds at k and at n holds by the same acquisition. */
  lemma {:induction false} HeldThroughout(log: Log, lockId: string, holder: string, from: nat, k: nat, n: nat)
    requires Lawful(log) && holder != "" && from <= k <= n <= |log| && NoAcquire(log, lockId, holder, from)
    requires Holds(log, lockId, holder, k) && Holds(log, lockId, holder, n)
    ensures At(log, lockId, k) == At(log, lockId, n)
    decreases n
  {
    if k < n {
      NoPanic(log, lockId, n - 1);
      HeldThroughout(log, lockId, holder, from, k, n - 1);
    }
  }

  /**
   Once released, a lock is not held by that holder in the whole log, however long it grows, unless the holder appends
   another lock operation.
   */
  lemma ReleasedForGood(log: Log, lockId: string, holder: string, from: nat)
    requires Lawful(log) && holder != "" && Released(log, lockId, holder, from) && NoAcquire(log, lockId, holder, from)
    ensures !Holds(log, lockId, holder, |log|)
  {
    var k: nat, n: nat :| ReleasedAt(log, lockId, holder, from, k, n);
    if k == n && !Holds(log, lockId, holder, k) {
      StaysFree(log, lockId, holder, from, k, |log|);
    } else {
      UnlockReleases(log, lockId, holder, from, k, n);
      StaysFree(log, lockId, holder, from, n + 1, |log|);
    }
  }

  /**
   Unlock appends whenever the replayed holder equals its argument, and a free lock replays to the
   holder "". The next replay panics exactly when the argument was empty and no operation intervened.
   */
  lemma UnlockPanicsExactlyWhenEmpty(log: Log, tag: bv64, k: nat, op: Payload)
    requires Lawful(log) && op.LockOp? && op.unlockOp && Proposes(log, k, op)
    ensures At(log + [Entry(tag, op)], op.lockId, |log| + 1).Panic? <==>
              op.holder == "" && At(log, op.lockId, |log|) == At(log, op.lockId, k)
  {
    NoPanic(log, op.lockId, |log|);
    NoPanic(log, op.lockId, k);
    StepMonotone(log, op.lockId, k, |log|);
    PrefixStable(log, log + [Entry(tag, op)], op.lockId, |log|);
  }

  /** Growing the log keeps every earlier justification. */
  lemma LawfulAppend(log: Log, slot: Slot)
    requires Lawful(log)
    requires slot.Entry? && slot.payload.LockOp? ==> MayAppend(log, |log|, slot.payload)
    ensures Lawful(log + [slot])
  {
    var log' := log + [slot];
    forall i | 0 <= i < |log'| && log'[i].Entry? && log'[i].payload.LockOp?
      ensures MayAppend(log', i, log'[i].payload)
    {
      MayAppendStable(log, log', i, log'[i].payload);
    }
  }

  lemma MayAppendStable(log: Log, longer: Log, n: nat, op: Payload)
    requires log <= longer && op.LockOp? && MayAppend(log, n, op)
    ensures MayAppend(longer, n, op)
  {
    var k: nat :| k <= n && Proposes(log, k, op);
    PrefixStable(log, longer, op.lockId, k);
    assert Proposes(longer, k, op);
  }
}

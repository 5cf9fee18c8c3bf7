/** LockFsm, its process-wide cache, and the Lock and Unlock calls that go through the cache. */
module LockFsms {
  import opened Wrappers
  import opened BokiTags
  import opened LogModel
  import opened VersionedRows
  import opened BokiWorld
  import opened LockProtocol

  /** A LockFsm by value, as the cache stores it. */
  datatype Snapshot = Snapshot(tailSeqNum: nat, state: LockState)

  ghost predicate InSync(log: Log, lockId: string, s: Snapshot) {
    s.tailSeqNum <= |log| && At(log, lockId, s.tailSeqNum) == Ok(s.state)
  }

  lemma InSyncStable(log: Log, longer: Log, lockId: string, s: Snapshot)
    requires log <= longer && InSync(log, lockId, s)
    ensures InSync(longer, lockId, s)
  {
    PrefixStable(log, longer, lockId, s.tailSeqNum);
  }

  /** What a call must have seen: its own appends, and what the cached replay has. */
  function Later(own: nat, replayed: nat): (base: nat)
    ensures own <= base && replayed <= base && base in {own, replayed}
  {
    if own < replayed then replayed else own
  }

  /**
   What Lock answers: granted exactly when the prefix of length `seen`, which covers all up to `base`, shows the caller
   as the holder; refused only if another holder was seen there or an own proposal lost. The proposal was made after
   the call began, on a replay of a prefix that covers all up to `base` and shows the lock free.
   */
  ghost predicate Answer(log: Log, lockId: string, holder: string, ok: bool, proposed: Option<nat>, seen: nat,
                         base: nat, began: nat) {
    && base <= seen <= |log| && At(log, lockId, seen).Ok?
    && (ok <==> Holds(log, lockId, holder, seen))
    && (!ok && proposed.None? ==> At(log, lockId, seen).value.Holder() !in {"", holder})
    && (proposed.Some? ==>
          && began <= proposed.value < seen && Acquires(log[proposed.value], lockId, holder)
          && exists k: nat :: ProposedOn(log, proposed.value, base, k))
  }

  /** The operation at p was proposed on a replay of the first k slots. */
  ghost predicate ProposedOn(log: Log, p: nat, base: nat, k: nat)
    requires p < |log| && log[p].Entry? && log[p].payload.LockOp?
  {
    base <= k <= p && Proposes(log, k, log[p].payload)
  }

  lemma AnswerStable(log: Log, longer: Log, lockId: string, holder: string, ok: bool, proposed: Option<nat>, seen: nat,
                     base: nat, began: nat)
    requires log <= longer && Answer(log, lockId, holder, ok, proposed, seen, base, began)
    ensures Answer(longer, lockId, holder, ok, proposed, seen, base, began)
  {
    PrefixStable(log, longer, lockId, seen);
    if proposed.Some? {
      var k: nat :| ProposedOn(log, proposed.value, base, k);
      PrefixStable(log, longer, lockId, k);
      assert ProposedOn(longer, proposed.value, base, k);
    }
  }

  lemma AnswerFromEarlier(log: Log, lockId: string, holder: string, ok: bool, proposed: Option<nat>, seen: nat,
                          base: nat, earlier: nat, began: nat)
    requires earlier <= base && Answer(log, lockId, holder, ok, proposed, seen, base, began)
    ensures Answer(log, lockId, holder, ok, proposed, seen, earlier, began)
  {
    if proposed.Some? {
      var k: nat :| ProposedOn(log, proposed.value, base, k);
      assert ProposedOn(log, proposed.value, earlier, k);
    }
  }

  /** An own proposal loses only if another operation on the lock was accepted after the replay it was made on. */
  lemma LosesToAnother(log: Log, lockId: string, holder: string, p: nat, seen: nat, base: nat, began: nat)
    returns (k: nat, i: nat)
    requires Lawful(log) && holder != "" && Answer(log, lockId, holder, false, Some(p), seen, base, began)
    ensures ProposedOn(log, p, base, k) && k <= i < seen && i != p && TakesEffect(log, lockId, i)
  {
    k :| ProposedOn(log, p, base, k);
    if j: nat :| k <= j < p && TakesEffect(log, lockId, j) {
      i := j;
    } else {
      Unaltered(log, lockId, k, p);
      NoPanic(log, lockId, p + 1);
      if j: nat :| p < j < seen && TakesEffect(log, lockId, j) {
        i := j;
      } else {
        Unaltered(log, lockId, p + 1, seen);
        assert false;
      }
    }
  }

  /** An operation on the lock of this row, and of no other row of a table named without a dash. */
  ghost predicate ForRow(slot: Slot, row: RowKey) {
    && slot.Entry? && slot.payload.LockOp? && slot.payload.lockId == row.table + "-" + row.key
    && forall other: RowKey :: '-' !in other.table && LockOf(other) == slot.payload.lockId ==> other == row
  }

  lemma OpIsForRow(slot: Slot, row: RowKey)
    requires IsOp(slot, LockOf(row)) && '-' !in row.table
    ensures ForRow(slot, row)
  {
    forall other: RowKey | '-' !in other.table && LockOf(other) == slot.payload.lockId ensures other == row {
      OwnLocks(other, row);
    }
  }

  /**
   Among tables named without a dash, Lock is refused on account of operations on that very row only: another holder
   locked it, or another operation on it was accepted before the own proposal.
   */
  lemma RefusedForThisRow(log: Log, row: RowKey, holder: string, proposed: Option<nat>, seen: nat, base: nat,
                          began: nat)
    returns (i: nat)
    requires Lawful(log) && holder != "" && '-' !in row.table
    requires Answer(log, LockOf(row), holder, false, proposed, seen, base, began)
    ensures i < seen && proposed != Some(i) && ForRow(log[i], row)
    ensures proposed.None? ==> !log[i].payload.unlockOp && log[i].payload.holder != holder
  {
    if proposed.Some? {
      var k;
      k, i := LosesToAnother(log, LockOf(row), holder, proposed.value, seen, base, began);
    } else {
      i := HolderLocked(log, LockOf(row), At(log, LockOf(row), seen).value.Holder(), seen);
    }
    OpIsForRow(log[i], row);
  }

  /**
   What Unlock does: it appends an unlock, after the call began and on that replay, exactly when the prefix of length
   `seen`, which covers the caller's own appends, shows it as the holder.
   */
  ghost predicate Farewell(log: Log, lockId: string, holder: string, released: Option<nat>, seen: nat, own: nat,
                           began: nat) {
    && own <= seen <= |log| && At(log, lockId, seen).Ok?
    && (released.Some? <==> Holds(log, lockId, holder, seen))
    && (released.Some? ==>
          && began <= released.value < |log| && seen <= released.value && Unlocks(log[released.value], lockId, holder)
          && Proposes(log, seen, log[released.value].payload))
  }

  /** Either way the caller has let go of the lock. */
  lemma FarewellReleases(log: Log, lockId: string, holder: string, released: Option<nat>, seen: nat, own: nat,
                         began: nat)
    requires Farewell(log, lockId, holder, released, seen, own, began)
    ensures Released(log, lockId, holder, own)
  {
    assert ReleasedAt(log, lockId, holder, own, seen, if released.Some? then released.value else seen);
  }

  class LockFsm {
    const lockId: string
    var tailSeqNum: nat
    var stepNumber: nat
    var tail: Option<LockRecord>

    constructor (lockId: string, s: Snapshot)
      ensures this.lockId == lockId && Value() == s
    {
      this.lockId := lockId;
      tailSeqNum, stepNumber, tail := s.tailSeqNum, s.state.stepNumber, s.state.tail;
    }

    function Value(): Snapshot
      reads this
    {
      Snapshot(tailSeqNum, LockState(stepNumber, tail))
    }

    function Holder(): string
      reads this
    {
      if tail.None? || tail.value.unlockOp then "" else tail.value.holder
    }

    ghost predicate Synced(log: Log)
      reads this
    {
      InSync(log, lockId, Value())
    }

    /** Replay only moves forward. */
    ghost predicate Moved(before: Snapshot)
      reads this
    {
      before == Value() || before.tailSeqNum < tailSeqNum
    }

    /**
     Reads the lock's stream up to some view of the log. However the work is split over calls, and
     whatever other locks share the tag, the result is the full replay of the log prefix.
     */
    method Catch(w: World, own: nat) returns (ghost view: nat)
      requires w.Valid() && Synced(w.log) && own <= |w.log|
      modifies this, w
      ensures w.Valid() && w.Evolved() && w.Idle() && Synced(w.log)
      ensures Moved(old(Value())) && own <= view <= |w.log|
      ensures forall n :: tailSeqNum <= n <= view ==> At(w.log, lockId, n) == Ok(Value().state)
      ensures tailSeqNum <= view ==> forall i :: tailSeqNum <= i < view ==> !IsOp(w.log[i], lockId)
    {
      var limit := w.View(own);
      view := limit;
      InSyncStable(old(w.log), w.log, lockId, Value());
      var tag := LockStreamTag(w.hash, lockId);
      var next := ReadNext(w.log, limit, tag, tailSeqNum);
      while next.Some?
        modifies this
        invariant Synced(w.log) && Moved(old(Value()))
        invariant next == ReadNext(w.log, limit, tag, tailSeqNum)
        decreases limit - tailSeqNum
      {
        Absorb(w, next.value, tag);
        next := ReadNext(w.log, limit, tag, tailSeqNum);
      }
      forall n | tailSeqNum <= n <= limit ensures At(w.log, lockId, n) == Ok(Value().state) {
        Quiet(w.log, lockId, tailSeqNum, n);
      }
    }

    /** One loop iteration: the entry at seqNum is the next one of the stream. */
    method Absorb(w: World, seqNum: nat, ghost tag: bv64)
      requires w.Valid() && Synced(w.log) && tailSeqNum <= seqNum < |w.log|
      requires tag == LockStreamTag(w.hash, lockId) && w.log[seqNum].Entry?
      requires forall i :: tailSeqNum <= i < seqNum && w.log[i].Entry? ==> w.log[i].tag != tag
      modifies this
      ensures Synced(w.log) && tailSeqNum == seqNum + 1
    {
      Quiet(w.log, lockId, tailSeqNum, seqNum);
      NoPanic(w.log, lockId, seqNum + 1);
      var p := w.log[seqNum].payload;
      if p.LockOp? && p.lockId == lockId && p.lockStep == stepNumber {
        if p.unlockOp {
          if tail.None? || tail.value.unlockOp || tail.value.holder != p.holder {
            assert false;  // panic "Invalid Unlock op"
          }
        } else {
          if tail.Some? && !tail.value.unlockOp {
            assert false;  // panic "Invalid Lock op"
          }
        }
        tail := Some(LockRecord(seqNum, p.unlockOp, p.holder));
        stepNumber := stepNumber + 1;
      }
      tailSeqNum := seqNum + 1;
    }

    /** Where this FSM stands after a catch-up: its replay is that of every prefix up to there. */
    ghost function Seen(view: nat): nat
      reads this
    {
      if view < tailSeqNum then tailSeqNum else view
    }

    /**
     True exactly when the caller is the holder in the prefix replayed on return, which covers its own appends. A
     refusal without a proposal means that another holder was seen; `proposed` is where the own proposal went, made on
     a replay that covers the own appends too.
     */
    method Lock(w: World, own: nat, holder: string) returns (ok: bool, proposed: Option<nat>, ghost seen: nat)
      requires w.Valid() && Synced(w.log) && own <= |w.log|
      modifies this, w
      ensures w.Valid() && w.Evolved() && Synced(w.log) && Moved(old(Value())) && tailSeqNum <= seen
      ensures Answer(w.log, lockId, holder, ok, proposed, seen, Later(own, old(tailSeqNum)), |old(w.log)|)
      ensures w.appended == old(w.appended) + Only(proposed) && w.updated == old(w.updated)
    {
      var view := Catch(w, own);
      var currentHolder := Holder();
      if currentHolder == holder { return true, None, Seen(view); }
      if currentHolder != "" { return false, None, Seen(view); }
      ok, proposed, seen := Contend(w, holder, Seen(view), Later(own, old(tailSeqNum)));
    }

    /** The lock was seen free: propose to take it, and see who got it. */
    method Contend(w: World, holder: string, ghost free: nat, ghost base: nat)
      returns (ok: bool, proposed: Option<nat>, ghost seen: nat)
      requires w.Valid() && Synced(w.log) && holder != "" && base <= free && tailSeqNum <= free <= |w.log|
      requires At(w.log, lockId, free) == Ok(Value().state) && Value().state.Holder() == ""
      modifies this, w
      ensures w.Valid() && w.Evolved() && Synced(w.log) && Moved(old(Value())) && tailSeqNum <= seen
      ensures Answer(w.log, lockId, holder, ok, proposed, seen, base, |old(w.log)|)
      ensures w.appended == old(w.appended) + Only(proposed) && w.updated == old(w.updated)
    {
      var seqNum := Propose(w, false, holder, free);
      ghost var log1 := w.log;
      var view := Catch(w, seqNum + 1);
      PrefixStable(log1, w.log, lockId, free);
      assert ProposedOn(w.log, seqNum, base, free);
      ok, proposed, seen := Holder() == holder, Some(seqNum), Seen(view);
    }

    /** Appends a lock or unlock operation for the step after the replay. */
    method Propose(w: World, unlockOp: bool, holder: string, ghost seen: nat) returns (seqNum: nat)
      requires w.Valid() && Synced(w.log) && holder != "" && tailSeqNum <= seen <= |w.log|
      requires At(w.log, lockId, seen) == Ok(Value().state) && Value().state.Holder() == if unlockOp then holder else ""
      modifies w
      ensures w.Valid() && w.Evolved() && Synced(w.log)
      ensures |old(w.log)| <= seqNum == |w.log| - 1 && seen <= seqNum
      ensures w.log[seqNum].Entry? && w.log[seqNum].payload == LockOp(lockId, stepNumber, unlockOp, holder)
      ensures Proposes(w.log, seen, w.log[seqNum].payload)
      ensures w.appended == old(w.appended) + [seqNum] && w.updated == old(w.updated)
    {
      var op := LockOp(lockId, stepNumber, unlockOp, holder);
      assert Proposes(w.log, seen, op);
      seqNum := w.Append(Entry(LockStreamTag(w.hash, lockId), op));
      InSyncStable(old(w.log), w.log, lockId, Value());
      PrefixStable(old(w.log), w.log, lockId, seen);
    }

    /**
     Appends one unlock exactly when the replayed holder, in a prefix that covers the own appends, is the caller, and
     otherwise appends nothing.
     */
    method Unlock(w: World, own: nat, holder: string) returns (released: Option<nat>, ghost seen: nat)
      requires w.Valid() && Synced(w.log) && holder != "" && own <= |w.log|
      modifies this, w
      ensures w.Valid() && w.Evolved() && Synced(w.log) && Moved(old(Value())) && tailSeqNum <= seen
      ensures Farewell(w.log, lockId, holder, released, seen, own, |old(w.log)|)
      ensures w.appended == old(w.appended) + Only(released) && w.updated == old(w.updated)
    {
      var view := Catch(w, own);
      seen := Seen(view);
      if Holder() != holder { return None, seen; }
      var seqNum := Propose(w, true, holder, seen);
      released := Some(seqNum);
    }
  }

  /** The map of FSMs one process keeps; other threads of the process store into it too. */
  class LockCache {
    var fsms: map<string, Snapshot>

    constructor ()
      ensures fsms == map[]
    {
      fsms := map[];
    }

    ghost predicate Valid(log: Log)
      reads this
    {
      forall id :: id in fsms ==> InSync(log, id, fsms[id])
    }

    /** Cached FSMs are only ever replaced by ones that replayed more of the log. */
    twostate predicate Forward()
      reads this
    {
      forall id :: id in old(fsms) ==>
        id in fsms && (fsms[id] == old(fsms)[id] || old(fsms)[id].tailSeqNum < fsms[id].tailSeqNum)
    }

    /** Other threads may store back at any moment; callers rely on the contract alone. */
    method OtherThreads(w: World)
      requires Valid(w.log)
      modifies this
      ensures Valid(w.log) && Forward()
    {
    }

    method GetOrCreate(w: World, lockId: string) returns (fsm: LockFsm)
      requires Valid(w.log)
      modifies this
      ensures Valid(w.log) && Forward()
      ensures fresh(fsm) && fsm.lockId == lockId && fsm.Synced(w.log)
      ensures fsm.Value() == if lockId in fsms then fsms[lockId] else Snapshot(0, INITIAL)
    {
      OtherThreads(w);
      fsm := new LockFsm(lockId, if lockId in fsms then fsms[lockId] else Snapshot(0, INITIAL));
    }

    method StoreBack(w: World, fsm: LockFsm)
      requires Valid(w.log) && fsm.Synced(w.log)
      modifies this
      ensures Valid(w.log) && Forward()
      ensures fsm.lockId in fsms && fsm.tailSeqNum <= fsms[fsm.lockId].tailSeqNum
    {
      OtherThreads(w);
      if fsm.lockId !in fsms || fsms[fsm.lockId].tailSeqNum < fsm.tailSeqNum {
        fsms := fsms[fsm.lockId := fsm.Value()];
      }
    }

    /** How far the cached replay of a lock goes. */
    function Replayed(lockId: string): nat
      reads this
    {
      if lockId in fsms then fsms[lockId].tailSeqNum else 0
    }

    method Lock(w: World, own: nat, txnId: string, table: string, key: string)
      returns (ok: bool, proposed: Option<nat>, ghost seen: nat)
      requires w.Valid() && Valid(w.log) && own <= |w.log|
      modifies this, w
      ensures w.Valid() && w.Evolved() && Valid(w.log) && Forward()
      ensures Answer(w.log, LockIdOf(table, key), txnId, ok, proposed, seen,
                     Later(own, old(Replayed(LockIdOf(table, key)))), |old(w.log)|)
      ensures w.appended == old(w.appended) + Only(proposed) && w.updated == old(w.updated)
    {
      var fsm := GetOrCreate(w, LockIdOf(table, key));
      ghost var base := Later(own, fsm.tailSeqNum);
      ok, proposed, seen := fsm.Lock(w, own, txnId);
      AnswerFromEarlier(w.log, fsm.lockId, txnId, ok, proposed, seen, base,
                        Later(own, old(Replayed(LockIdOf(table, key)))), |old(w.log)|);
      Carry(old(w.log), w.log);
      StoreBack(w, fsm);
    }

    method Unlock(w: World, own: nat, txnId: string, table: string, key: string)
      returns (released: Option<nat>, ghost seen: nat)
      requires w.Valid() && Valid(w.log) && txnId != "" && own <= |w.log|
      modifies this, w
      ensures w.Valid() && w.Evolved() && Valid(w.log) && Forward()
      ensures old(Replayed(LockIdOf(table, key))) <= seen
      ensures Farewell(w.log, LockIdOf(table, key), txnId, released, seen, own, |old(w.log)|)
      ensures w.appended == old(w.appended) + Only(released) && w.updated == old(w.updated)
    {
      var fsm := GetOrCreate(w, LockIdOf(table, key));
      released, seen := fsm.Unlock(w, own, txnId);
      Carry(old(w.log), w.log);
      StoreBack(w, fsm);
    }

    lemma Carry(log: Log, longer: Log)
      requires Valid(log) && log <= longer
      ensures Valid(longer)
    {
      forall id | id in fsms ensures InSync(longer, id, fsms[id]) { InSyncStable(log, longer, id, fsms[id]); }
    }
  }
}

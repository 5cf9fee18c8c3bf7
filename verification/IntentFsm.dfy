/** IntentFsm, the executor's Env, and the step agreement calls built on them. */
module IntentFsms {
  import opened Wrappers
  import opened BokiTags
  import opened LogModel
  import opened VersionedRows
  import opened BokiWorld
  import opened IntentProtocol

  class IntentFsm {
    const instanceId: string
    var stepNumber: nat
    var tail: Option<nat>
    var stepLogs: map<nat, IntentRecord>
    var postStepLogs: map<nat, IntentRecord>

    constructor (instanceId: string)
      ensures this.instanceId == instanceId && State() == INITIAL
    {
      this.instanceId := instanceId;
      stepNumber, tail, stepLogs, postStepLogs := 0, None, map[], map[];
    }

    function State(): IntentState
      reads this
    {
      IntentState(stepNumber, tail, stepLogs, postStepLogs)
    }

    /** Where the next catch-up starts reading: just after the last own entry. */
    function Position(): nat
      reads this
    {
      if tail.None? then 0 else tail.value + 1
    }

    ghost predicate Synced(log: Log)
      reads this
    {
      Position() <= |log| && At(log, instanceId, Position()) == Ok(State())
    }

    method ApplyLog(ghost log: Log, seqNum: nat, p: Payload)
      requires Lawful(log) && Synced(log) && Position() <= seqNum < |log|
      requires log[seqNum].Entry? && log[seqNum].payload == p && IsIntent(log[seqNum], instanceId)
      requires NoneOfMine(log, Position(), seqNum)
      modifies this
      ensures Synced(log) && Position() == seqNum + 1
    {
      Quiet(log, instanceId, Position(), seqNum);
      NoPanic(log, instanceId, seqNum + 1);
      var record := IntentRecord(seqNum, p.step, p.data);
      tail := Some(seqNum);
      if p.postStep {
        if p.step !in postStepLogs { postStepLogs := postStepLogs[p.step := record]; }
      } else if p.step !in stepLogs {
        if p.step != stepNumber {
          assert false;  // panic "StepNumber is not monotonic"
        }
        stepNumber := stepNumber + 1;
        stepLogs := stepLogs[p.step := record];
      }
    }

    /** Reads the rest of the stream up to some view; the result is the full replay of that log prefix. */
    method Catch(w: World, own: nat) returns (ghost view: nat)
      requires w.Valid() && Synced(w.log) && own <= |w.log|
      modifies this, w
      ensures w.Valid() && w.Evolved() && w.Idle() && Synced(w.log)
      ensures own <= view <= |w.log| && old(Position()) <= Position()
      ensures forall n :: Position() <= n <= view ==> At(w.log, instanceId, n) == Ok(State())
      ensures old(stepNumber) <= stepNumber
    {
      var limit := w.View(own);
      view := limit;
      SyncedStable(old(w.log), w.log);
      ghost var before := Position();
      ReadUpTo(w, limit);
      StepMonotone(w.log, instanceId, before, Position());
    }

    ghost predicate NoneOfMine(log: Log, a: nat, b: nat) {
      forall i :: a <= i < b && i < |log| ==> !IsIntent(log[i], instanceId)
    }

    lemma SkippedAreForeign(hash: Hash, log: Log, a: nat, mid: nat, b: nat)
      requires WellTagged(hash, log) && NoneOfMine(log, a, mid)
      requires forall i :: mid <= i < b && i < |log| && log[i].Entry? ==>
                 log[i].tag != IntentStepStreamTag(hash, instanceId)
      ensures NoneOfMine(log, a, b)
    {
    }

    method ReadUpTo(w: World, limit: nat)
      requires w.Valid() && Synced(w.log) && limit <= |w.log|
      modifies this
      ensures Synced(w.log) && old(Position()) <= Position()
      ensures forall n :: Position() <= n <= limit ==> At(w.log, instanceId, n) == Ok(State())
    {
      var tag := IntentStepStreamTag(w.hash, instanceId);
      var seqNum := Position();
      var next := ReadNext(w.log, limit, tag, seqNum);
      while next.Some?
        invariant Synced(w.log) && old(Position()) <= Position() <= seqNum
        invariant NoneOfMine(w.log, Position(), seqNum)
        invariant next == ReadNext(w.log, limit, tag, seqNum)
        decreases limit - seqNum
      {
        SkippedAreForeign(w.hash, w.log, Position(), seqNum, next.value);
        Absorb(w, next.value);
        seqNum := next.value + 1;
        next := ReadNext(w.log, limit, tag, seqNum);
      }
      SkippedAreForeign(w.hash, w.log, Position(), seqNum, limit);
      CaughtUp(w.log, limit);
    }

    /** One loop iteration; a colliding instance's entry is skipped. */
    method Absorb(w: World, seqNum: nat)
      requires w.Valid() && Synced(w.log) && Position() <= seqNum < |w.log| && w.log[seqNum].Entry?
      requires NoneOfMine(w.log, Position(), seqNum)
      modifies this
      ensures Synced(w.log) && old(Position()) <= Position() <= seqNum + 1
      ensures NoneOfMine(w.log, Position(), seqNum + 1)
    {
      var p := w.log[seqNum].payload;
      if p.Intent? && p.instanceId == instanceId { ApplyLog(w.log, seqNum, p); }
    }

    lemma CaughtUp(log: Log, limit: nat)
      requires Synced(log) && limit <= |log| && NoneOfMine(log, Position(), limit)
      ensures forall n :: Position() <= n <= limit ==> At(log, instanceId, n) == Ok(State())
    {
      forall n | Position() <= n <= limit ensures At(log, instanceId, n) == Ok(State()) {
        Quiet(log, instanceId, Position(), n);
      }
    }

    lemma SyncedStable(log: Log, longer: Log)
      requires log <= longer && Synced(log)
      ensures Synced(longer)
    {
      PrefixStable(log, longer, instanceId, Position());
    }
  }

  /** One executor of one workflow instance. */
  class Env {
    const lambdaId: string
    const instanceId: string
    const fsm: IntentFsm
    var stepNumber: nat
    var own: nat  // every own append lies below this sequence number

    constructor (w: World, lambdaId: string, instanceId: string)
      requires w.Valid()
      modifies w
      ensures w.Valid() && w.Evolved() && w.Idle() && Valid(w.log) && fresh(fsm)
      ensures this.lambdaId == lambdaId && this.instanceId == instanceId && stepNumber == 0
    {
      this.lambdaId, this.instanceId := lambdaId, instanceId;
      stepNumber, own := 0, 0;
      fsm := new IntentFsm(instanceId);
      new;
      var _ := fsm.Catch(w, 0);
    }

    ghost predicate Valid(log: Log)
      reads this, fsm
    {
      fsm.instanceId == instanceId && fsm.Synced(log) && stepNumber <= fsm.stepNumber && own <= |log|
    }

    lemma ValidStable(log: Log, longer: Log)
      requires log <= longer && Valid(log)
      ensures Valid(longer)
    {
      fsm.SyncedStable(log, longer);
    }

    /**
     Agreement on the next step. Every call for this instance and step returns the first entry the log
     holds for it; a call reports a new entry exactly when that entry is the one it appended itself.
     It appends its own proposal or, if it knows the step already, nothing.
     */
    method ProposeNextStep(w: World, data: StepData) returns (isNew: bool, r: IntentRecord, ghost mine: Option<nat>)
      requires w.Valid() && Valid(w.log)
      modifies this, fsm, w
      ensures w.Valid() && w.Evolved() && Valid(w.log)
      ensures stepNumber == old(stepNumber) + 1
      ensures Records(w.log, r, |w.log|, instanceId, old(stepNumber), false)
      ensures isNew <==> mine == Some(r.seqNum)
      ensures w.appended == old(w.appended) + Only(mine) && w.updated == old(w.updated)
      ensures old(own) <= own && (mine.Some? ==> mine.value < own)
      ensures old(stepNumber in fsm.stepLogs) ==> mine.None? && fsm.postStepLogs == old(fsm.postStepLogs)
      ensures mine.Some? ==>
                |old(w.log)| <= mine.value < |w.log| &&
                w.log[mine.value].Entry? &&
                w.log[mine.value].payload == Intent(instanceId, old(stepNumber), false, data)
    {
      var step := stepNumber;
      var known := KnownStep(w);
      stepNumber := stepNumber + 1;
      if known.Some? { return false, known.value, None; }
      NoPanic(w.log, instanceId, fsm.Position());
      var p := Intent(instanceId, step, false, data);
      assert NextStepIs(w.log, fsm.Position(), instanceId, step);
      ghost var before := w.log;
      var seqNum := w.Append(Entry(IntentStepStreamTag(w.hash, instanceId), p));
      fsm.SyncedStable(before, w.log);
      own := seqNum + 1;
      r := CatchStep(w, seqNum, step);
      mine := Some(seqNum);
      isNew := seqNum == r.seqNum;
    }

    /**
     What the wrapper of a function appends before it runs the function; from then on the executor sees all before.
     */
    method LogIntent(w: World)
      requires w.Valid() && Valid(w.log)
      modifies this, w
      ensures w.Valid() && w.Evolved() && Valid(w.log) && stepNumber == old(stepNumber)
      ensures |old(w.log)| < own == |w.log| && w.log[own - 1].Entry?
      ensures w.log[own - 1].payload == Progress(instanceId, false)
      ensures w.appended == old(w.appended) + [own - 1] && w.updated == old(w.updated)
    {
      ghost var before := w.log;
      var seqNum := w.Append(Entry(INTENT_LOG_TAG, Progress(instanceId, false)));
      ValidStable(before, w.log);
      own := seqNum + 1;
    }

    /** GetStepLog for the executor's next step. */
    method KnownStep(w: World) returns (r: Option<IntentRecord>)
      requires w.Valid() && Valid(w.log)
      ensures r.Some? ==> Records(w.log, r.value, |w.log|, instanceId, stepNumber, false) && stepNumber < fsm.stepNumber
      ensures r.None? <==> stepNumber !in fsm.stepLogs
    {
      NoPanic(w.log, instanceId, fsm.Position());
      FirstAppendWins(w.log, instanceId, fsm.Position(), stepNumber);
      if stepNumber !in fsm.stepLogs { return None; }
      Widen(w.log, fsm.stepLogs[stepNumber], fsm.Position(), stepNumber, false);
      r := Some(fsm.stepLogs[stepNumber]);
    }

    /** After an own append the step is always found: the "Cannot find intent log" panic is unreachable. */
    method CatchStep(w: World, seqNum: nat, step: nat) returns (r: IntentRecord)
      requires w.Valid() && fsm.instanceId == instanceId && fsm.Synced(w.log) && own == seqNum + 1 == |w.log|
      requires IsStep(w.log, seqNum, instanceId, step, false)
      modifies fsm, w
      ensures w.Valid() && w.Evolved() && w.Idle() && fsm.Synced(w.log) && step < fsm.stepNumber
      ensures Records(w.log, r, |w.log|, instanceId, step, false)
    {
      var view := fsm.Catch(w, own);
      ghost var n := if view < fsm.Position() then fsm.Position() else view;
      FirstAppendWins(w.log, instanceId, n, step);
      NoPanic(w.log, instanceId, n);
      assert IsStep(w.log, seqNum, instanceId, step, false);
      if step !in fsm.stepLogs {
        assert false;  // panic "Cannot find intent log"
      }
      r := fsm.stepLogs[step];
      Widen(w.log, r, n, step, false);
    }

    lemma Widen(log: Log, r: IntentRecord, n: nat, step: nat, post: bool)
      requires n <= |log| && Records(log, r, n, instanceId, step, post)
      ensures Records(log, r, |log|, instanceId, step, post)
    {
    }

    method LogStepResult(w: World, caller: string, step: nat, data: StepData)
      requires w.Valid() && Valid(w.log) && MayPost(w.log, |w.log|, w.attempts, Intent(caller, step, true, data))
      modifies this, w
      ensures w.Valid() && w.Evolved() && Valid(w.log) && stepNumber == old(stepNumber) && old(own) <= own
      ensures |w.log| > |old(w.log)| && w.log[|w.log| - 1].Entry?
      ensures w.log[|w.log| - 1].payload == Intent(caller, step, true, data) && own == |w.log|
      ensures w.appended == old(w.appended) + [|w.log| - 1] && w.updated == old(w.updated)
    {
      ghost var before := w.log;
      var seqNum := w.Append(Entry(IntentStepStreamTag(w.hash, caller), Intent(caller, step, true, data)));
      ValidStable(before, w.log);
      own := seqNum + 1;
    }

    method FetchStepResultLog(w: World, step: nat, catch: bool) returns (r: Option<IntentRecord>)
      requires w.Valid() && Valid(w.log)
      modifies fsm, w
      ensures w.Valid() && w.Evolved() && w.Idle() && Valid(w.log)
      ensures r.Some? ==> Records(w.log, r.value, |w.log|, instanceId, step, true)
      ensures old(step in fsm.postStepLogs) ==> r.Some?
      ensures !catch ==> unchanged(w) && (r.Some? <==> old(step in fsm.postStepLogs))
      ensures r.None? && catch ==> forall i :: 0 <= i < own ==> !IsStep(w.log, i, instanceId, step, true)
    {
      if step !in fsm.postStepLogs {
        if !catch { return None; }
        var view := fsm.Catch(w, own);
        FirstAppendWins(w.log, instanceId, if view < fsm.Position() then fsm.Position() else view, step);
      }
      FirstAppendWins(w.log, instanceId, fsm.Position(), step);
      if step !in fsm.postStepLogs { return None; }
      r := Some(fsm.postStepLogs[step]);
    }
  }
}

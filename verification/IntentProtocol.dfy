/**
 One workflow instance's stream as a replicated state machine: the fold that IntentFsm
 computes, the rule by which executors append steps, and first-append-wins agreement.
 */
module IntentProtocol {
  import opened Wrappers
  import opened LogModel

  datatype IntentRecord = IntentRecord(seqNum: nat, step: nat, data: StepData)

  datatype IntentState = IntentState(
    stepNumber: nat,
    tail: Option<nat>,
    stepLogs: map<nat, IntentRecord>,
    postStepLogs: map<nat, IntentRecord>)

  const INITIAL := IntentState(0, None, map[], map[])

  /** applyLog, for an entry whose instance id matches. */
  function Apply(s: IntentState, seqNum: nat, p: Payload): Result<IntentState>
    requires p.Intent?
  {
    var record := IntentRecord(seqNum, p.step, p.data);
    var seen := s.(tail := Some(seqNum));
    if p.postStep then
      Ok(if p.step in s.postStepLogs then seen else seen.(postStepLogs := s.postStepLogs[p.step := record]))
    else if p.step in s.stepLogs then Ok(seen)
    else if p.step != s.stepNumber then Panic("StepNumber is not monotonic")
    else Ok(seen.(stepNumber := s.stepNumber + 1, stepLogs := s.stepLogs[p.step := record]))
  }

  predicate IsIntent(slot: Slot, instanceId: string) {
    slot.Entry? && slot.payload.Intent? && slot.payload.instanceId == instanceId
  }

  function ApplySlot(s: IntentState, seqNum: nat, slot: Slot, instanceId: string): Result<IntentState> {
    if IsIntent(slot, instanceId) then Apply(s, seqNum, slot.payload) else Ok(s)
  }

  /** Full replay of the first n slots. */
  function At(log: Log, instanceId: string, n: nat): Result<IntentState>
    requires n <= |log|
  {
    if n == 0 then Ok(INITIAL)
    else match At(log, instanceId, n - 1)
         case Panic(m) => Panic(m)
         case Ok(s) => ApplySlot(s, n - 1, log[n - 1], instanceId)
  }

  /** Entry i is an append for this step (a proposal, or a result when `post`). */
  predicate IsStep(log: Log, i: int, instanceId: string, step: nat, post: bool) {
    0 <= i < |log| && IsIntent(log[i], instanceId) && log[i].payload.step == step && log[i].payload.postStep == post
  }

  /** The independent meaning of a step's log: index i holds the first append for it. */
  ghost predicate IsFirst(log: Log, i: int, instanceId: string, step: nat, post: bool) {
    IsStep(log, i, instanceId, step, post) && forall j :: 0 <= j < i ==> !IsStep(log, j, instanceId, step, post)
  }

  /** Whatever was appended for a step, some append was the first. */
  lemma {:induction false} SomeFirst(log: Log, i: nat, instanceId: string, step: nat, post: bool) returns (j: nat)
    requires IsStep(log, i, instanceId, step, post)
    ensures j <= i && IsFirst(log, j, instanceId, step, post)
  {
    if k: nat :| k < i && IsStep(log, k, instanceId, step, post) {
      j := SomeFirst(log, k, instanceId, step, post);
    } else {
      j := i;
    }
  }

  lemma FirstStable(log: Log, longer: Log, i: int, instanceId: string, step: nat, post: bool)
    requires log <= longer && i < |log|
    ensures IsFirst(log, i, instanceId, step, post) <==> IsFirst(longer, i, instanceId, step, post)
  {
    assert forall j :: 0 <= j <= i ==> log[j] == longer[j];
    assert forall j :: j <= i ==> IsStep(log, j, instanceId, step, post) == IsStep(longer, j, instanceId, step, post);
  }

  /** ProposeNextStep appends step s only when some replay of a prefix had exactly the steps below s. */
  ghost predicate MayAppend(log: Log, n: nat, p: Payload)
    requires p.Intent?
  {
    p.postStep || exists k: nat :: k <= n && NextStepIs(log, k, p.instanceId, p.step)
  }

  ghost predicate NextStepIs(log: Log, k: nat, instanceId: string, step: nat) {
    k <= |log| && At(log, instanceId, k).Ok? && At(log, instanceId, k).value.stepNumber == step
  }

  ghost predicate Lawful(log: Log) {
    forall i :: 0 <= i < |log| && log[i].Entry? && log[i].payload.Intent? ==> MayAppend(log, i, log[i].payload)
  }

  lemma {:induction false} PrefixStable(log: Log, longer: Log, instanceId: string, n: nat)
    requires log <= longer && n <= |log|
    ensures At(log, instanceId, n) == At(longer, instanceId, n)
  {
    if n > 0 {
      PrefixStable(log, longer, instanceId, n - 1);
      assert longer[n - 1] == log[n - 1];
    }
  }

  lemma {:induction false} StepMonotone(log: Log, instanceId: string, i: nat, j: nat)
    requires i <= j <= |log| && At(log, instanceId, j).Ok?
    ensures At(log, instanceId, i).Ok?
    ensures At(log, instanceId, i).value.stepNumber <= At(log, instanceId, j).value.stepNumber
    decreases j
  {
    if i < j { StepMonotone(log, instanceId, i, j - 1); }
  }

  /** Slots of other instances change nothing. */
  lemma {:induction false} Quiet(log: Log, instanceId: string, a: nat, b: nat)
    requires a <= b <= |log| && forall j :: a <= j < b ==> !IsIntent(log[j], instanceId)
    ensures At(log, instanceId, a) == At(log, instanceId, b)
    decreases b
  {
    if a < b { Quiet(log, instanceId, a, b - 1); }
  }

  /** The recorded steps are exactly 0..stepNumber-1, so the "not monotonic" panic is unreachable. */
  lemma {:induction false} NoPanic(log: Log, instanceId: string, n: nat)
    requires Lawful(log) && n <= |log|
    ensures At(log, instanceId, n).Ok?
    ensures var s := At(log, instanceId, n).value;
            && (forall step :: step in s.stepLogs <==> 0 <= step < s.stepNumber)
            && (s.tail.Some? ==> s.tail.value < n)
  {
    if n > 0 {
      NoPanic(log, instanceId, n - 1);
      if IsIntent(log[n - 1], instanceId) && !log[n - 1].payload.postStep {
        var p := log[n - 1].payload;
        var k: nat :| k <= n - 1 && NextStepIs(log, k, p.instanceId, p.step);
        StepMonotone(log, instanceId, k, n - 1);
      }
    }
  }

  /** First append wins: the replayed record of a step is the first append for it, in every prefix. */
  lemma {:induction false} FirstAppendWins(log: Log, instanceId: string, n: nat, step: nat)
    requires Lawful(log) && n <= |log|
    ensures At(log, instanceId, n).Ok?
    ensures var s := At(log, instanceId, n).value;
            && (step in s.stepLogs ==> Records(log, s.stepLogs[step], n, instanceId, step, false))
            && (step in s.postStepLogs ==> Records(log, s.postStepLogs[step], n, instanceId, step, true))
            && (forall i :: 0 <= i < n && IsStep(log, i, instanceId, step, false) ==> step in s.stepLogs)
            && (forall i :: 0 <= i < n && IsStep(log, i, instanceId, step, true) ==> step in s.postStepLogs)
  {
    NoPanic(log, instanceId, n);
    if n > 0 {
      FirstAppendWins(log, instanceId, n - 1, step);
      NoPanic(log, instanceId, n - 1);
    }
  }

  ghost predicate Records(log: Log, r: IntentRecord, n: nat, instanceId: string, step: nat, post: bool) {
    && r.seqNum < n && r.step == step
    && IsFirst(log, r.seqNum, instanceId, step, post) && log[r.seqNum].payload.data == r.data
  }

  lemma RecordsStable(log: Log, longer: Log, r: IntentRecord, instanceId: string, step: nat, post: bool)
    requires log <= longer && Records(log, r, |log|, instanceId, step, post)
    ensures Records(longer, r, |longer|, instanceId, step, post)
  {
    FirstStable(log, longer, r.seqNum, instanceId, step, post);
  }

  /** Any two replays of any two prefixes that know a step know the same entry for it. */
  lemma StepAgreement(log: Log, instanceId: string, i: nat, j: nat, step: nat)
    requires Lawful(log) && i <= |log| && j <= |log|
    ensures At(log, instanceId, i).Ok? && At(log, instanceId, j).Ok?
    ensures var a, b := At(log, instanceId, i).value, At(log, instanceId, j).value;
            && (step in a.stepLogs && step in b.stepLogs ==> a.stepLogs[step] == b.stepLogs[step])
            && (step in a.postStepLogs && step in b.postStepLogs ==> a.postStepLogs[step] == b.postStepLogs[step])
            && (i <= j && step in a.stepLogs ==> step in b.stepLogs)
  {
    FirstAppendWins(log, instanceId, i, step);
    FirstAppendWins(log, instanceId, j, step);
  }

  lemma LawfulAppend(log: Log, slot: Slot)
    requires Lawful(log)
    requires slot.Entry? && slot.payload.Intent? ==> MayAppend(log, |log|, slot.payload)
    ensures Lawful(log + [slot])
  {
    var log' := log + [slot];
    forall i | 0 <= i < |log'| && log'[i].Entry? && log'[i].payload.Intent?
      ensures MayAppend(log', i, log'[i].payload)
    {
      MayAppendStable(log, log', i, log'[i].payload);
    }
  }

  lemma MayAppendStable(log: Log, longer: Log, n: nat, p: Payload)
    requires log <= longer && p.Intent? && MayAppend(log, n, p)
    ensures MayAppend(longer, n, p)
  {
    if !p.postStep {
      var k: nat :| k <= n && NextStepIs(log, k, p.instanceId, p.step);
      PrefixStable(log, longer, p.instanceId, k);
      assert NextStepIs(longer, k, p.instanceId, p.step);
    }
  }
}

/**
 Any number of executors, crashed and re-run at will, of any number of workflow instances that call one
 another. Handlers are deterministic functions of their step results. One common history per instance emerges.
 */
module BokiReplay {
  import opened Wrappers
  import opened LogModel
  import opened IntentProtocol

  datatype Action =
    | DoRead(table: string, key: string)
    | DoScan(table: string)
    | DoWrite(table: string, key: string)
    | DoInvoke(callee: string, input: string)
    | DoAsync(callee: string, input: string)
    | Return(value: string)

  datatype Outcome =
    | Got(read: Option<string>)
    | GotAll(scanned: seq<Option<string>>)
    | Written
    | Output(value: string)
    | Started(instance: string)

  type Handler = seq<Outcome> -> Action

  /** A function and its input. */
  datatype Work = Work(lambda: string, input: string)

  /**
   The deployed functions, and what each instance id is for. An id is a fresh uuid, drawn once for one call of one
   function with one input; that all who are invoked under it later get this function and input is proved.
   */
  datatype Program = Program(code: Work -> Handler, drawnFor: string -> Work) {
    function Of(instance: string): Handler {
      code(drawnFor(instance))
    }
  }

  datatype Status = Running | Finished(value: string) | Panicked

  datatype Caller = NoCaller | CalledBy(instance: string, step: nat)

  /** `seen` is the log prefix this executor's IntentFsm has replayed; its StepNumber is |hist|. */
  datatype Executor = Executor(
    instance: string,
    work: Work,
    caller: Caller,
    hist: seq<Outcome>,
    seen: nat,
    status: Status)

  /** `canon` is a history variable: the longest history any executor of an instance has reached. */
  datatype State = State(log: Log, execs: map<nat, Executor>, canon: map<string, seq<Outcome>>) {
    ghost function Canon(instance: string): seq<Outcome> {
      if instance in canon then canon[instance] else []
    }
  }

  const INIT := State([], map[], map[])

  /** The data an executor proposes for an action (what is read is arbitrary, and so is the id drawn for a call). */
  predicate Fits(program: Program, a: Action, d: StepData) {
    match a
    case DoRead(t, k) => d.ReadResult? && d.table == t && d.key == k
    case DoScan(t) => d.ScanResult? && d.table == t
    case DoWrite(t, k) => d == PreWrite(t, k)
    case DoInvoke(c, i) => d.PreInvoke? && d.callee == c && program.drawnFor(d.calleeInstance) == Work(c, i)
    case DoAsync(c, i) => d.PreInvoke? && d.callee == c && program.drawnFor(d.calleeInstance) == Work(c, i)
    case Return(_) => false
  }

  /** The CheckLogDataField calls on an agreed entry; the invokes check the type but not the callee. */
  predicate Checks(a: Action, d: StepData) {
    match a
    case DoRead(t, k) => d.ReadResult? && d.table == t && d.key == k
    case DoScan(t) => d.ScanResult? && d.table == t
    case DoWrite(t, k) => d == PreWrite(t, k)
    case DoInvoke(_, _) => d.PreInvoke?
    case DoAsync(_, _) => d.PreInvoke?
    case Return(_) => false
  }

  /** The checks on a step's result entry. */
  predicate ChecksResult(a: Action, d: StepData) {
    match a
    case DoWrite(t, k) => d == PostWrite(t, k)
    case DoInvoke(_, _) => d.InvokeResult?
    case DoAsync(_, _) => d.InvokeResult?
    case _ => true
  }

  datatype Step =
    | Other(slot: Slot)
    | Spawn(pid: nat, instance: string, caller: Caller)
    | Invoke(pid: nat, parent: nat)
    | CatchUp(pid: nat, seen: nat)
    | Propose(pid: nat, tag: bv64, data: StepData)
    | PostWriteLog(pid: nat, tag: bv64)
    | Advance(pid: nat)
    | TakeReturn(pid: nat, child: nat)
    | PostReturn(pid: nat, tag: bv64)
    | Finish(pid: nat)

  ghost predicate Knows(s: State, e: Executor) {
    e.seen <= |s.log| && At(s.log, e.instance, e.seen).Ok? && |e.hist| in At(s.log, e.instance, e.seen).value.stepLogs
  }

  ghost function Entry0(s: State, e: Executor): IntentRecord
    requires Knows(s, e)
  {
    At(s.log, e.instance, e.seen).value.stepLogs[|e.hist|]
  }

  ghost function Result0(s: State, e: Executor): Option<IntentRecord>
    requires Knows(s, e)
  {
    var posts := At(s.log, e.instance, e.seen).value.postStepLogs;
    if |e.hist| in posts then Some(posts[|e.hist|]) else None
  }

  ghost predicate IsCall(log: Log, caller: Caller, instance: string) {
    caller.CalledBy? ==> exists j: nat :: CallEntry(log, j, caller, instance)
  }

  ghost predicate CallEntry(log: Log, j: nat, caller: Caller, instance: string) {
    && caller.CalledBy? && IsFirst(log, j, caller.instance, caller.step, false)
    && log[j].payload.data.PreInvoke? && log[j].payload.data.calleeInstance == instance
  }

  ghost predicate Active(s: State, pid: nat) {
    pid in s.execs && s.execs[pid].status.Running?
  }

  ghost function Next(program: Program, e: Executor): Action {
    program.code(e.work)(e.hist)
  }

  ghost predicate Enabled(program: Program, s: State, step: Step) {
    match step
    case Other(slot) => slot.Entry? ==> !slot.payload.Intent?
    case Spawn(pid, instance, caller) => pid !in s.execs && IsCall(s.log, caller, instance)
    case Invoke(pid, parent) =>
      && pid !in s.execs && Active(s, parent)
      && var e := s.execs[parent];
      && (Next(program, e).DoInvoke? || Next(program, e).DoAsync?) && Knows(s, e) && Entry0(s, e).data.PreInvoke?
    case CatchUp(pid, seen) => Active(s, pid) && s.execs[pid].seen <= seen <= |s.log|
    case Propose(pid, _, data) =>
      Active(s, pid) && !Knows(s, s.execs[pid]) && Fits(program, Next(program, s.execs[pid]), data)
    case PostWriteLog(pid, _) =>
      && Active(s, pid)
      && var e := s.execs[pid];
      Next(program, e).DoWrite? && Knows(s, e) && Checks(Next(program, e), Entry0(s, e).data)
    case Advance(pid) =>
      && Active(s, pid)
      && var e := s.execs[pid];
      !Next(program, e).Return? && Knows(s, e) && (Next(program, e).DoInvoke? ==> Result0(s, e).Some?)
    case TakeReturn(pid, child) =>
      && Active(s, pid)
      && var e := s.execs[pid];
      && Next(program, e).DoInvoke? && Knows(s, e)
      && child in s.execs && s.execs[child].status.Finished?
      && Entry0(s, e).data.PreInvoke? && s.execs[child].instance == Entry0(s, e).data.calleeInstance
    case PostReturn(pid, _) => Active(s, pid) && Next(program, s.execs[pid]).Return? && s.execs[pid].caller.CalledBy?
    case Finish(pid) => Active(s, pid) && Next(program, s.execs[pid]).Return?
  }

  /** What the executor gets out of an agreed step. */
  ghost function OutcomeOf(a: Action, d: StepData, output: string): Outcome
    requires Checks(a, d)
  {
    match a
    case DoRead(_, _) => Got(d.read)
    case DoScan(_) => GotAll(d.scanned)
    case DoWrite(_, _) => Written
    case DoInvoke(_, _) => Output(output)
    case DoAsync(_, _) => Started(d.calleeInstance)
  }

  ghost function Reach(s: State, pid: nat, o: Outcome): State
    requires pid in s.execs
  {
    var e := s.execs[pid];
    var hist := e.hist + [o];
    s.(execs := s.execs[pid := e.(hist := hist)],
       canon := if |s.Canon(e.instance)| < |hist| then s.canon[e.instance := hist] else s.canon)
  }

  ghost function Do(program: Program, s: State, step: Step): State
    requires Enabled(program, s, step)
  {
    match step
    case Other(slot) => s.(log := s.log + [slot])
    case Spawn(pid, instance, caller) =>
      s.(execs := s.execs[pid := Executor(instance, program.drawnFor(instance), caller, [], 0, Running)])
    case Invoke(pid, parent) =>
      var e := s.execs[parent];
      var a, caller := Next(program, e), CalledBy(e.instance, |e.hist|);
      var callee := Executor(Entry0(s, e).data.calleeInstance, Work(a.callee, a.input), caller, [], 0, Running);
      s.(execs := s.execs[pid := callee])
    case CatchUp(pid, seen) => s.(execs := s.execs[pid := s.execs[pid].(seen := seen)])
    case Propose(pid, tag, data) =>
      var e := s.execs[pid];
      s.(log := s.log + [Entry(tag, Intent(e.instance, |e.hist|, false, data))])
    case PostWriteLog(pid, tag) =>
      var e := s.execs[pid];
      var a := Next(program, e);
      s.(log := s.log + [Entry(tag, Intent(e.instance, |e.hist|, true, PostWrite(a.table, a.key)))])
    case Advance(pid) =>
      var e := s.execs[pid];
      var a, d, r := Next(program, e), Entry0(s, e).data, Result0(s, e);
      if !Checks(a, d) || (r.Some? && !ChecksResult(a, r.value.data))
      then s.(execs := s.execs[pid := e.(status := Panicked)])
      else Reach(s, pid, OutcomeOf(a, d, if a.DoInvoke? then r.value.data.output else ""))
    case TakeReturn(pid, child) => Reach(s, pid, Output(s.execs[child].status.value))
    case PostReturn(pid, tag) =>
      var e := s.execs[pid];
      var result := InvokeResult(Next(program, e).value);
      s.(log := s.log + [Entry(tag, Intent(e.caller.instance, e.caller.step, true, result))])
    case Finish(pid) =>
      var e := s.execs[pid];
      s.(execs := s.execs[pid := e.(status := Finished(Next(program, e).value))])
  }

  /** Every run: any schedule, where steps that are not enabled have no effect. */
  ghost function Run(program: Program, steps: seq<Step>): State {
    if steps == [] then INIT
    else
      var s := Run(program, steps[..|steps| - 1]);
      var step := steps[|steps| - 1];
      if Enabled(program, s, step) then Do(program, s, step) else s
  }

  // ---- the invariant ----

  /** The instance's common history ends in a Return of v; it is then complete. */
  ghost predicate Returns(program: Program, s: State, instance: string, v: string) {
    program.Of(instance)(s.Canon(instance)) == Return(v)
  }

  /** Step t of the common history is what entry j and the handler make of it. */
  ghost predicate Settled(program: Program, s: State, instance: string, t: nat, j: nat)
    requires t < |s.Canon(instance)|
  {
    && IsFirst(s.log, j, instance, t, false)
    && var c := s.Canon(instance);
       var a, d := program.Of(instance)(c[..t]), DataAt(s, j);
       && Checks(a, d) && !a.Return?
       && if a.DoInvoke? then c[t].Output? && Returns(program, s, d.calleeInstance, c[t].value)
          else c[t] == OutcomeOf(a, d, "")
  }

  ghost function DataAt(s: State, j: nat): StepData
    requires j < |s.log| && s.log[j].Entry? && s.log[j].payload.Intent?
  {
    s.log[j].payload.data
  }

  ghost predicate CanonSettled(program: Program, s: State) {
    forall instance, t: nat :: StepSettled(program, s, instance, t)
  }

  ghost predicate StepSettled(program: Program, s: State, instance: string, t: nat) {
    t < |s.Canon(instance)| ==> exists j: nat :: Settled(program, s, instance, t, j)
  }

  ghost predicate ProposalOk(program: Program, s: State, i: nat)
    requires i < |s.log| && s.log[i].Entry? && s.log[i].payload.Intent?
  {
    var p := s.log[i].payload;
    var c := s.Canon(p.instanceId);
    p.step <= |c| && Fits(program, program.Of(p.instanceId)(c[..p.step]), p.data)
  }

  ghost predicate ResultOk(program: Program, s: State, i: nat, j: nat)
    requires i < |s.log| && s.log[i].Entry? && s.log[i].payload.Intent?
  {
    var p := s.log[i].payload;
    && IsFirst(s.log, j, p.instanceId, p.step, false)
    && match DataAt(s, j)
       case PreWrite(t, k) => p.data == PostWrite(t, k)
       case PreInvoke(_, callee) => p.data.InvokeResult? && Returns(program, s, callee, p.data.output)
       case _ => false
  }

  ghost predicate EntriesOk(program: Program, s: State) {
    forall i :: 0 <= i < |s.log| && s.log[i].Entry? && s.log[i].payload.Intent? ==>
      if s.log[i].payload.postStep then exists j: nat :: ResultOk(program, s, i, j) else ProposalOk(program, s, i)
  }

  ghost predicate ExecOk(program: Program, s: State, e: Executor) {
    && e.work == program.drawnFor(e.instance)
    && e.seen <= |s.log| && e.hist <= s.Canon(e.instance) && !e.status.Panicked?
    && At(s.log, e.instance, e.seen).Ok? && |e.hist| <= At(s.log, e.instance, e.seen).value.stepNumber
    && (e.status.Finished? ==> Next(program, e) == Return(e.status.value))
    && IsCall(s.log, e.caller, e.instance)
  }

  ghost predicate Inv(program: Program, s: State) {
    && Lawful(s.log) && CanonSettled(program, s) && EntriesOk(program, s)
    && forall pid :: pid in s.execs ==> ExecOk(program, s, s.execs[pid])
  }

  // ---- appending to the log ----

  lemma SettledStable(program: Program, s: State, s': State, instance: string, t: nat, j: nat)
    requires s.log <= s'.log && s.canon == s'.canon && t < |s.Canon(instance)| && Settled(program, s, instance, t, j)
    ensures Settled(program, s', instance, t, j)
  {
    FirstStable(s.log, s'.log, j, instance, t, false);
  }

  lemma ResultStable(program: Program, s: State, s': State, i: nat, j: nat)
    requires s.log <= s'.log && s.canon == s'.canon
    requires i < |s.log| && s.log[i].Entry? && s.log[i].payload.Intent? && ResultOk(program, s, i, j)
    ensures ResultOk(program, s', i, j)
  {
    FirstStable(s.log, s'.log, j, s.log[i].payload.instanceId, s.log[i].payload.step, false);
  }

  lemma CallStable(log: Log, longer: Log, caller: Caller, instance: string)
    requires log <= longer && IsCall(log, caller, instance)
    ensures IsCall(longer, caller, instance)
  {
    if caller.CalledBy? {
      var j: nat :| CallEntry(log, j, caller, instance);
      FirstStable(log, longer, j, caller.instance, caller.step, false);
      assert CallEntry(longer, j, caller, instance);
    }
  }

  lemma ExecStable(program: Program, s: State, s': State, e: Executor)
    requires s.log <= s'.log && s.canon == s'.canon && ExecOk(program, s, e)
    ensures ExecOk(program, s', e)
  {
    PrefixStable(s.log, s'.log, e.instance, e.seen);
    CallStable(s.log, s'.log, e.caller, e.instance);
  }

  ghost predicate NewEntryOk(program: Program, s: State, slot: Slot) {
    slot.Entry? && slot.payload.Intent? ==>
      && MayAppend(s.log, |s.log|, slot.payload)
      && var s' := s.(log := s.log + [slot]);
         if slot.payload.postStep then exists j: nat :: ResultOk(program, s', |s.log|, j)
           else ProposalOk(program, s', |s.log|)
  }

  lemma AppendKeeps(program: Program, s: State, slot: Slot)
    requires Inv(program, s) && NewEntryOk(program, s, slot)
    ensures Inv(program, s.(log := s.log + [slot]))
  {
    var s' := s.(log := s.log + [slot]);
    LawfulAppend(s.log, slot);
    AppendKeepsCanon(program, s, s');
    AppendKeepsEntries(program, s, s', slot);
    forall pid | pid in s'.execs ensures ExecOk(program, s', s'.execs[pid]) {
      ExecStable(program, s, s', s.execs[pid]);
    }
  }

  lemma AppendKeepsCanon(program: Program, s: State, s': State)
    requires s.log <= s'.log && s.canon == s'.canon && CanonSettled(program, s)
    ensures CanonSettled(program, s')
  {
    forall instance, t: nat ensures StepSettled(program, s', instance, t) {
      assert StepSettled(program, s, instance, t);
      if t < |s'.Canon(instance)| {
        var j: nat :| Settled(program, s, instance, t, j);
        SettledStable(program, s, s', instance, t, j);
      }
    }
  }

  lemma AppendKeepsEntries(program: Program, s: State, s': State, slot: Slot)
    requires EntriesOk(program, s) && NewEntryOk(program, s, slot) && s' == s.(log := s.log + [slot])
    ensures EntriesOk(program, s')
  {
    forall i | 0 <= i < |s'.log| && s'.log[i].Entry? && s'.log[i].payload.Intent?
      ensures if s'.log[i].payload.postStep then exists j: nat :: ResultOk(program, s', i, j)
              else ProposalOk(program, s', i)
    {
      if i < |s.log| {
        assert s'.log[i] == s.log[i];
        if s.log[i].payload.postStep {
          var j: nat :| ResultOk(program, s, i, j);
          ResultStable(program, s, s', i, j);
        } else {
          assert ProposalOk(program, s, i);
        }
      }
    }
  }

  // ---- extending a common history ----

  ghost predicate Grew(program: Program, s: State, s': State, instance: string, o: Outcome) {
    && s'.log == s.log && !program.Of(instance)(s.Canon(instance)).Return?
    && s'.canon == s.canon[instance := s.Canon(instance) + [o]]
  }

  lemma SettledGrows(program: Program, s: State, s': State, instance: string, o: Outcome, i: string, t: nat, j: nat)
    requires Grew(program, s, s', instance, o) && t < |s.Canon(i)| && Settled(program, s, i, t, j)
    ensures Settled(program, s', i, t, j)
  {
    assert s'.Canon(i)[..t] == s.Canon(i)[..t];
  }

  lemma GrowsKeepsCanon(program: Program, s: State, s': State, instance: string, o: Outcome, j: nat)
    requires Grew(program, s, s', instance, o) && CanonSettled(program, s)
    requires Settled(program, s', instance, |s.Canon(instance)|, j)
    ensures CanonSettled(program, s')
  {
    forall i, t: nat ensures StepSettled(program, s', i, t) {
      assert StepSettled(program, s, i, t);
      if t < |s.Canon(i)| {
        var k: nat :| Settled(program, s, i, t, k);
        SettledGrows(program, s, s', instance, o, i, t, k);
      }
    }
  }

  lemma GrowsKeepsEntries(program: Program, s: State, s': State, instance: string, o: Outcome)
    requires Grew(program, s, s', instance, o) && EntriesOk(program, s)
    ensures EntriesOk(program, s')
  {
    forall i | 0 <= i < |s'.log| && s'.log[i].Entry? && s'.log[i].payload.Intent?
      ensures if s'.log[i].payload.postStep then exists j: nat :: ResultOk(program, s', i, j)
              else ProposalOk(program, s', i)
    {
      var p := s.log[i].payload;
      if p.postStep {
        var j: nat :| ResultOk(program, s, i, j);
        assert ResultOk(program, s', i, j);
      } else {
        assert ProposalOk(program, s, i);
        assert s'.Canon(p.instanceId)[..p.step] == s.Canon(p.instanceId)[..p.step];
      }
    }
  }

  // ---- what an executor finds in the log ----

  /** The agreed entry passes every check: it was proposed by an executor with the same history. */
  lemma AgreedEntryPasses(program: Program, s: State, e: Executor)
    requires Lawful(s.log) && EntriesOk(program, s) && ExecOk(program, s, e) && Knows(s, e)
    ensures var r := Entry0(s, e);
            && IsFirst(s.log, r.seqNum, e.instance, |e.hist|, false) && DataAt(s, r.seqNum) == r.data
            && Fits(program, Next(program, e), r.data) && Checks(Next(program, e), r.data)
  {
    FirstAppendWins(s.log, e.instance, e.seen, |e.hist|);
    assert ProposalOk(program, s, Entry0(s, e).seqNum);
    assert s.Canon(e.instance)[..|e.hist|] == e.hist;
  }

  /** So does its result, and a logged output is the one the callee's common history returns. */
  lemma AgreedResultPasses(program: Program, s: State, e: Executor)
    requires Lawful(s.log) && EntriesOk(program, s) && ExecOk(program, s, e) && Knows(s, e) && Result0(s, e).Some?
    ensures ChecksResult(Next(program, e), Result0(s, e).value.data)
    ensures Next(program, e).DoInvoke? ==>
              && Entry0(s, e).data.PreInvoke? && Result0(s, e).value.data.InvokeResult?
              && Returns(program, s, Entry0(s, e).data.calleeInstance, Result0(s, e).value.data.output)
  {
    AgreedEntryPasses(program, s, e);
    FirstAppendWins(s.log, e.instance, e.seen, |e.hist|);
    var i, r := Result0(s, e).value.seqNum, Entry0(s, e);
    assert IsStep(s.log, i, e.instance, |e.hist|, true);
    var j: nat :| ResultOk(program, s, i, j);
    assert j == r.seqNum;
  }

  /** An executor that finished ran the whole common history. */
  lemma FinishedIsComplete(program: Program, s: State, e: Executor)
    requires CanonSettled(program, s) && ExecOk(program, s, e) && Next(program, e).Return?
    ensures e.hist == s.Canon(e.instance)
  {
    assert StepSettled(program, s, e.instance, |e.hist|);
    assert s.Canon(e.instance)[..|e.hist|] == e.hist;
  }

  ghost predicate Earned(program: Program, s: State, e: Executor, o: Outcome)
    requires Knows(s, e)
  {
    var a, d := Next(program, e), Entry0(s, e).data;
    && Checks(a, d) && !a.Return?
    && if a.DoInvoke? then o.Output? && Returns(program, s, d.calleeInstance, o.value) else o == OutcomeOf(a, d, "")
  }

  lemma ReachKeeps(program: Program, s: State, pid: nat, o: Outcome)
    requires Inv(program, s) && Active(s, pid) && Knows(s, s.execs[pid]) && Earned(program, s, s.execs[pid], o)
    ensures Inv(program, Reach(s, pid, o))
  {
    var e, s' := s.execs[pid], Reach(s, pid, o);
    var t, j := |e.hist|, Entry0(s, e).seqNum;
    AgreedEntryPasses(program, s, e);
    NoPanic(s.log, e.instance, e.seen);
    if t < |s.Canon(e.instance)| {
      HistoryRepeats(program, s, e, o);
      assert s'.canon == s.canon;
      AppendKeepsCanon(program, s, s');
      SameLogKeepsEntries(program, s, s');
      forall q | q in s'.execs ensures ExecOk(program, s', s'.execs[q]) {
        if q != pid { ExecStable(program, s, s', s.execs[q]); }
      }
    } else {
      assert s.Canon(e.instance) == e.hist;
      assert Grew(program, s, s', e.instance, o);
      assert s'.Canon(e.instance)[..t] == e.hist;
      assert Settled(program, s', e.instance, t, j);
      GrowsKeepsCanon(program, s, s', e.instance, o, j);
      GrowsKeepsEntries(program, s, s', e.instance, o);
      forall q | q in s'.execs ensures ExecOk(program, s', s'.execs[q]) { }
    }
  }

  lemma SameLogKeepsEntries(program: Program, s: State, s': State)
    requires s'.log == s.log && s'.canon == s.canon && EntriesOk(program, s)
    ensures EntriesOk(program, s')
  {
    forall i | 0 <= i < |s'.log| && s'.log[i].Entry? && s'.log[i].payload.Intent?
      ensures if s'.log[i].payload.postStep then exists j: nat :: ResultOk(program, s', i, j)
              else ProposalOk(program, s', i)
    {
      if s.log[i].payload.postStep {
        var j: nat :| ResultOk(program, s, i, j);
        assert ResultOk(program, s', i, j);
      } else {
        assert ProposalOk(program, s, i);
      }
    }
  }

  /** A step another executor already took yields the same outcome again. */
  lemma HistoryRepeats(program: Program, s: State, e: Executor, o: Outcome)
    requires Inv(program, s) && ExecOk(program, s, e) && Knows(s, e) && Earned(program, s, e, o)
    requires |e.hist| < |s.Canon(e.instance)|
    ensures e.hist + [o] <= s.Canon(e.instance)
  {
    var t := |e.hist|;
    AgreedEntryPasses(program, s, e);
    assert StepSettled(program, s, e.instance, t);
    var j: nat :| Settled(program, s, e.instance, t, j);
    assert j == Entry0(s, e).seqNum;
    assert s.Canon(e.instance)[..t] == e.hist;
    assert s.Canon(e.instance)[t] == o;
  }

  // ---- every step keeps the invariant ----

  lemma ProposeKeeps(program: Program, s: State, step: Step)
    requires Inv(program, s) && step.Propose? && Enabled(program, s, step)
    ensures Inv(program, Do(program, s, step))
  {
    var e := s.execs[step.pid];
    var slot := Entry(step.tag, Intent(e.instance, |e.hist|, false, step.data));
    NoPanic(s.log, e.instance, e.seen);
    assert NextStepIs(s.log, e.seen, e.instance, |e.hist|);
    var s' := s.(log := s.log + [slot]);
    assert s'.Canon(e.instance)[..|e.hist|] == e.hist;
    assert ProposalOk(program, s', |s.log|);
    AppendKeeps(program, s, slot);
  }

  lemma PostWriteKeeps(program: Program, s: State, step: Step)
    requires Inv(program, s) && step.PostWriteLog? && Enabled(program, s, step)
    ensures Inv(program, Do(program, s, step))
  {
    var e := s.execs[step.pid];
    var a := Next(program, e);
    var slot := Entry(step.tag, Intent(e.instance, |e.hist|, true, PostWrite(a.table, a.key)));
    AgreedEntryPasses(program, s, e);
    var s', j := s.(log := s.log + [slot]), Entry0(s, e).seqNum;
    FirstStable(s.log, s'.log, j, e.instance, |e.hist|, false);
    assert ResultOk(program, s', |s.log|, j);
    AppendKeeps(program, s, slot);
  }

  lemma PostReturnKeeps(program: Program, s: State, step: Step)
    requires Inv(program, s) && step.PostReturn? && Enabled(program, s, step)
    ensures Inv(program, Do(program, s, step))
  {
    var e := s.execs[step.pid];
    var slot := Entry(step.tag, Intent(e.caller.instance, e.caller.step, true, InvokeResult(Next(program, e).value)));
    var j: nat :| CallEntry(s.log, j, e.caller, e.instance);
    var s' := s.(log := s.log + [slot]);
    FirstStable(s.log, s'.log, j, e.caller.instance, e.caller.step, false);
    FinishedIsComplete(program, s, e);
    assert ResultOk(program, s', |s.log|, j);
    AppendKeeps(program, s, slot);
  }

  lemma AdvanceKeeps(program: Program, s: State, step: Step)
    requires Inv(program, s) && (step.Advance? || step.TakeReturn?) && Enabled(program, s, step)
    ensures Inv(program, Do(program, s, step))
  {
    var e := s.execs[step.pid];
    var a := Next(program, e);
    AgreedEntryPasses(program, s, e);
    if step.TakeReturn? {
      FinishedIsComplete(program, s, s.execs[step.child]);
      ReachKeeps(program, s, step.pid, Output(s.execs[step.child].status.value));
    } else {
      if Result0(s, e).Some? { AgreedResultPasses(program, s, e); }
      ReachKeeps(program, s, step.pid,
                 OutcomeOf(a, Entry0(s, e).data, if a.DoInvoke? then Result0(s, e).value.data.output else ""));
    }
  }

  /** Steps that change one executor and nothing else. */
  lemma ExecutorStepKeeps(program: Program, s: State, step: Step)
    requires Inv(program, s) && (step.Spawn? || step.CatchUp? || step.Finish?) && Enabled(program, s, step)
    ensures Inv(program, Do(program, s, step))
  {
    var s' := Do(program, s, step);
    AppendKeepsCanon(program, s, s');
    SameLogKeepsEntries(program, s, s');
    forall q | q in s'.execs ensures ExecOk(program, s', s'.execs[q]) {
      if q != step.pid {
        ExecStable(program, s, s', s.execs[q]);
      } else if step.CatchUp? {
        NoPanic(s.log, s.execs[q].instance, step.seen);
        StepMonotone(s.log, s.execs[q].instance, s.execs[q].seen, step.seen);
      }
    }
  }

  /** Whoever is invoked, and however often, gets the function and input that its id was drawn for. */
  lemma InvokeKeeps(program: Program, s: State, step: Step)
    requires Inv(program, s) && step.Invoke? && Enabled(program, s, step)
    ensures Inv(program, Do(program, s, step))
  {
    var s', e := Do(program, s, step), s.execs[step.parent];
    AgreedEntryPasses(program, s, e);
    assert CallEntry(s.log, Entry0(s, e).seqNum, CalledBy(e.instance, |e.hist|), Entry0(s, e).data.calleeInstance);
    AppendKeepsCanon(program, s, s');
    SameLogKeepsEntries(program, s, s');
    forall q | q in s'.execs ensures ExecOk(program, s', s'.execs[q]) {
      if q != step.pid { ExecStable(program, s, s', s.execs[q]); }
    }
  }

  lemma StepKeeps(program: Program, s: State, step: Step)
    requires Inv(program, s) && Enabled(program, s, step)
    ensures Inv(program, Do(program, s, step))
  {
    match step
    case Other(slot) => AppendKeeps(program, s, slot);
    case Propose(_, _, _) => ProposeKeeps(program, s, step);
    case PostWriteLog(_, _) => PostWriteKeeps(program, s, step);
    case PostReturn(_, _) => PostReturnKeeps(program, s, step);
    case Advance(_) => AdvanceKeeps(program, s, step);
    case TakeReturn(_, _) => AdvanceKeeps(program, s, step);
    case Spawn(_, _, _) => ExecutorStepKeeps(program, s, step);
    case Invoke(_, _) => InvokeKeeps(program, s, step);
    case CatchUp(_, _) => ExecutorStepKeeps(program, s, step);
    case Finish(_) => ExecutorStepKeeps(program, s, step);
  }

  lemma {:induction false} RunKeeps(program: Program, steps: seq<Step>)
    ensures Inv(program, Run(program, steps))
  {
    if steps != [] {
      var s, step := Run(program, steps[..|steps| - 1]), steps[|steps| - 1];
      RunKeeps(program, steps[..|steps| - 1]);
      if Enabled(program, s, step) { StepKeeps(program, s, step); }
    }
  }

  /**
   What an executor finds in the log for its step: the agreed entry is of the type, table and key that its handler asks
   for, and a result that it knows is of the fitting type, table and key.
   */
  ghost predicate ChecksPass(program: Program, s: State, e: Executor) {
    Knows(s, e) ==>
      && var d, r := Entry0(s, e).data, Result0(s, e);
      match program.code(e.work)(e.hist)
      case DoRead(table, key) => d.ReadResult? && d.table == table && d.key == key
      case DoScan(table) => d.ScanResult? && d.table == table
      case DoWrite(table, key) => d == PreWrite(table, key) && (r.Some? ==> r.value.data == PostWrite(table, key))
      case DoInvoke(_, _) => d.PreInvoke? && (r.Some? ==> r.value.data.InvokeResult?)
      case DoAsync(_, _) => d.PreInvoke? && (r.Some? ==> r.value.data.InvokeResult?)
      case Return(_) => false
  }

  /**
   In every reachable state each executor would pass each check that it can come to: on the agreed entry of its step, of
   whatever kind, and on the result if one is known. So none has panicked.
   */
  lemma NoCheckPanics(program: Program, steps: seq<Step>, pid: nat)
    requires pid in Run(program, steps).execs
    ensures ChecksPass(program, Run(program, steps), Run(program, steps).execs[pid])
    ensures !Run(program, steps).execs[pid].status.Panicked?
  {
    RunKeeps(program, steps);
    var s := Run(program, steps);
    var e := s.execs[pid];
    if Knows(s, e) {
      AgreedEntryPasses(program, s, e);
      if Result0(s, e).Some? { AgreedResultPasses(program, s, e); }
    }
  }

  /** On any log whatever, an executor that takes its step panics if and only if a check fails. */
  lemma PanicsIffCheckFails(program: Program, s: State, pid: nat)
    requires Enabled(program, s, Advance(pid))
    ensures Do(program, s, Advance(pid)).execs[pid].status.Panicked? <==> !ChecksPass(program, s, s.execs[pid])
  {
  }

  // ---- what a history says ----

  /** The first entry for this step of the instance (its first result when `post`) has this data. */
  ghost predicate First(log: Log, instance: string, t: nat, post: bool, d: StepData) {
    exists j: nat :: j < |log| && FirstIs(log, j, instance, t, post, d)
  }

  ghost predicate FirstIs(log: Log, j: nat, instance: string, t: nat, post: bool, d: StepData)
    requires j < |log|
  {
    IsFirst(log, j, instance, t, post) && log[j].Entry? && log[j].payload == Intent(instance, t, post, d)
  }

  ghost predicate Returned(s: State, callee: string, value: string) {
    exists pid :: pid in s.execs && s.execs[pid].instance == callee && s.execs[pid].status == Finished(value)
  }

  /** The output of a call: the logged result, or what a finished executor of the agreed callee returned. */
  ghost predicate OutputOf(program: Program, s: State, instance: string, t: nat, work: Work, value: string) {
    exists callee ::
      && First(s.log, instance, t, false, PreInvoke(work.lambda, callee)) && program.drawnFor(callee) == work
      && (First(s.log, instance, t, true, InvokeResult(value)) || Returned(s, callee, value))
  }

  /** Step t of the history is what the log says about it. */
  ghost predicate Tells(program: Program, s: State, e: Executor, t: nat)
    requires t < |e.hist|
  {
    var o := e.hist[t];
    match program.code(e.work)(e.hist[..t])
    case DoRead(table, key) => o.Got? && First(s.log, e.instance, t, false, ReadResult(table, key, o.read))
    case DoScan(table) => o.GotAll? && First(s.log, e.instance, t, false, ScanResult(table, o.scanned))
    case DoWrite(table, key) => o.Written? && First(s.log, e.instance, t, false, PreWrite(table, key))
    case DoInvoke(callee, input) => o.Output? && OutputOf(program, s, e.instance, t, Work(callee, input), o.value)
    case DoAsync(callee, input) =>
      && o.Started? && First(s.log, e.instance, t, false, PreInvoke(callee, o.instance))
      && program.drawnFor(o.instance) == Work(callee, input)
    case Return(_) => false
  }

  lemma FirstStays(log: Log, longer: Log, instance: string, t: nat, post: bool, d: StepData)
    requires log <= longer && First(log, instance, t, post, d)
    ensures First(longer, instance, t, post, d)
  {
    var j: nat :| j < |log| && FirstIs(log, j, instance, t, post, d);
    FirstStable(log, longer, j, instance, t, post);
    assert FirstIs(longer, j, instance, t, post, d);
  }

  /** The log grows, and who finished stays so. */
  ghost predicate Later(s: State, s': State) {
    && s.log <= s'.log
    && forall pid :: pid in s.execs && s.execs[pid].status.Finished? ==>
         pid in s'.execs && s'.execs[pid] == s.execs[pid]
  }

  lemma StepIsLater(program: Program, s: State, step: Step)
    requires Enabled(program, s, step)
    ensures Later(s, Do(program, s, step))
  {
  }

  lemma OutputStays(program: Program, s: State, s': State, instance: string, t: nat, work: Work, value: string)
    requires Later(s, s') && OutputOf(program, s, instance, t, work, value)
    ensures OutputOf(program, s', instance, t, work, value)
  {
    var callee :|
      && First(s.log, instance, t, false, PreInvoke(work.lambda, callee)) && program.drawnFor(callee) == work
      && (First(s.log, instance, t, true, InvokeResult(value)) || Returned(s, callee, value));
    FirstStays(s.log, s'.log, instance, t, false, PreInvoke(work.lambda, callee));
    if First(s.log, instance, t, true, InvokeResult(value)) {
      FirstStays(s.log, s'.log, instance, t, true, InvokeResult(value));
    }
  }

  lemma TellsStays(program: Program, s: State, s': State, e: Executor, e': Executor, t: nat)
    requires Later(s, s') && t < |e.hist| && Tells(program, s, e, t)
    requires e'.instance == e.instance && e'.work == e.work && e.hist <= e'.hist
    ensures Tells(program, s', e', t)
  {
    assert e'.hist[..t] == e.hist[..t] && e'.hist[t] == e.hist[t];
    var o := e.hist[t];
    match program.code(e.work)(e.hist[..t])
    case DoRead(table, key) => FirstStays(s.log, s'.log, e.instance, t, false, ReadResult(table, key, o.read));
    case DoScan(table) => FirstStays(s.log, s'.log, e.instance, t, false, ScanResult(table, o.scanned));
    case DoWrite(table, key) => FirstStays(s.log, s'.log, e.instance, t, false, PreWrite(table, key));
    case DoInvoke(callee, input) => OutputStays(program, s, s', e.instance, t, Work(callee, input), o.value);
    case DoAsync(callee, _) => FirstStays(s.log, s'.log, e.instance, t, false, PreInvoke(callee, o.instance));
  }

  /** The agreed entry, as an executor has replayed it, is the first in the log. */
  lemma EntryIsFirst(program: Program, s: State, e: Executor)
    requires Inv(program, s) && ExecOk(program, s, e) && Knows(s, e)
    ensures First(s.log, e.instance, |e.hist|, false, Entry0(s, e).data)
    ensures Fits(program, Next(program, e), Entry0(s, e).data)
  {
    AgreedEntryPasses(program, s, e);
    assert FirstIs(s.log, Entry0(s, e).seqNum, e.instance, |e.hist|, false, Entry0(s, e).data);
  }

  lemma ResultIsFirst(program: Program, s: State, e: Executor)
    requires Inv(program, s) && ExecOk(program, s, e) && Knows(s, e) && Result0(s, e).Some?
    ensures First(s.log, e.instance, |e.hist|, true, Result0(s, e).value.data)
  {
    FirstAppendWins(s.log, e.instance, e.seen, |e.hist|);
    assert FirstIs(s.log, Result0(s, e).value.seqNum, e.instance, |e.hist|, true, Result0(s, e).value.data);
  }

  /** An executor knows the entry, and the result, of its step exactly when it has replayed one. */
  lemma KnowsWhatItReplayed(program: Program, s: State, e: Executor)
    requires Inv(program, s) && ExecOk(program, s, e)
    ensures Knows(s, e) <==> exists i: nat :: i < e.seen && IsStep(s.log, i, e.instance, |e.hist|, false)
    ensures Knows(s, e) ==>
              (Result0(s, e).Some? <==> exists i: nat :: i < e.seen && IsStep(s.log, i, e.instance, |e.hist|, true))
  {
    FirstAppendWins(s.log, e.instance, e.seen, |e.hist|);
    if Knows(s, e) { AgreedEntryPasses(program, s, e); }
  }

  /**
   In every run: an executor that has replayed the entry of its call and a result takes that result, the first one in
   the log, without the callee being invoked again.
   */
  lemma LoggedResultIsTaken(program: Program, steps: seq<Step>, pid: nat, i: nat, j: nat, value: string)
    requires Active(Run(program, steps), pid)
    requires var s := Run(program, steps);
             var e := s.execs[pid];
             && program.code(e.work)(e.hist).DoInvoke?
             && i < e.seen && IsStep(s.log, i, e.instance, |e.hist|, false)
             && j < e.seen && j < |s.log| && FirstIs(s.log, j, e.instance, |e.hist|, true, InvokeResult(value))
    ensures var s := Run(program, steps);
            && Enabled(program, s, Advance(pid))
            && Do(program, s, Advance(pid)).execs[pid].hist == s.execs[pid].hist + [Output(value)]
  {
    RunKeeps(program, steps);
    var s := Run(program, steps);
    var e := s.execs[pid];
    KnowsWhatItReplayed(program, s, e);
    AgreedEntryPasses(program, s, e);
    AgreedResultPasses(program, s, e);
    FirstAppendWins(s.log, e.instance, e.seen, |e.hist|);
    assert Result0(s, e).value.seqNum == j;
  }

  /** What an executor gets out of its step is what the log says about it. */
  lemma AdvanceTells(program: Program, s: State, step: Step)
    requires Inv(program, s) && step.Advance? && Enabled(program, s, step)
    ensures var e, e' := s.execs[step.pid], Do(program, s, step).execs[step.pid];
            |e'.hist| == |e.hist| + 1 && Tells(program, s, e', |e.hist|)
  {
    var e := s.execs[step.pid];
    EntryIsFirst(program, s, e);
    if Result0(s, e).Some? {
      AgreedResultPasses(program, s, e);
      ResultIsFirst(program, s, e);
    }
    assert Do(program, s, step).execs[step.pid].hist[..|e.hist|] == e.hist;
    if Next(program, e).DoInvoke? {
      var a, d := Next(program, e), Entry0(s, e).data;
      assert First(s.log, e.instance, |e.hist|, false, PreInvoke(a.callee, d.calleeInstance));
      assert OutputOf(program, s, e.instance, |e.hist|, Work(a.callee, a.input), Result0(s, e).value.data.output);
    }
  }

  lemma TakeReturnTells(program: Program, s: State, step: Step)
    requires Inv(program, s) && step.TakeReturn? && Enabled(program, s, step)
    ensures var e, e' := s.execs[step.pid], Do(program, s, step).execs[step.pid];
            |e'.hist| == |e.hist| + 1 && Tells(program, s, e', |e.hist|)
  {
    var e := s.execs[step.pid];
    var a, d := Next(program, e), Entry0(s, e).data;
    EntryIsFirst(program, s, e);
    assert Do(program, s, step).execs[step.pid].hist[..|e.hist|] == e.hist;
    assert Returned(s, d.calleeInstance, s.execs[step.child].status.value);
    assert First(s.log, e.instance, |e.hist|, false, PreInvoke(a.callee, d.calleeInstance));
    assert OutputOf(program, s, e.instance, |e.hist|, Work(a.callee, a.input), s.execs[step.child].status.value);
  }

  /** A step starts an executor, lets one get further by one, or leaves its history alone. */
  lemma HistoryGrows(program: Program, s: State, step: Step, pid: nat)
    requires Enabled(program, s, step) && pid in Do(program, s, step).execs
    ensures var e' := Do(program, s, step).execs[pid];
            if pid in s.execs then
              var e := s.execs[pid];
              && e'.instance == e.instance && e'.work == e.work && e.hist <= e'.hist
              && (e'.hist == e.hist || ((step.Advance? || step.TakeReturn?) && step.pid == pid))
            else e'.hist == []
  {
  }

  lemma StepTells(program: Program, s: State, step: Step, pid: nat, t: nat)
    requires Inv(program, s) && Enabled(program, s, step)
    requires pid in Do(program, s, step).execs && t < |Do(program, s, step).execs[pid].hist|
    requires pid in s.execs && t < |s.execs[pid].hist| ==> Tells(program, s, s.execs[pid], t)
    ensures Tells(program, Do(program, s, step), Do(program, s, step).execs[pid], t)
  {
    var s' := Do(program, s, step);
    HistoryGrows(program, s, step, pid);
    StepIsLater(program, s, step);
    if t < |s.execs[pid].hist| {
      TellsStays(program, s, s', s.execs[pid], s'.execs[pid], t);
    } else {
      NewStepTells(program, s, step);
    }
  }

  lemma NewStepTells(program: Program, s: State, step: Step)
    requires Inv(program, s) && (step.Advance? || step.TakeReturn?) && Enabled(program, s, step)
    ensures var e, s' := s.execs[step.pid], Do(program, s, step);
            |s'.execs[step.pid].hist| == |e.hist| + 1 && Tells(program, s', s'.execs[step.pid], |e.hist|)
  {
    var s' := Do(program, s, step);
    if step.Advance? { AdvanceTells(program, s, step); } else { TakeReturnTells(program, s, step); }
    StepIsLater(program, s, step);
    TellsStays(program, s, s', s'.execs[step.pid], s'.execs[step.pid], |s.execs[step.pid].hist|);
  }

  /**
   In every run, every step of every executor's history is what the log has for it: the value of the agreed read or
   scan, the agreed instance of a callee, and for a call the logged result or what the agreed callee returned.
   */
  lemma {:induction false} HistoryTells(program: Program, steps: seq<Step>, pid: nat, t: nat)
    requires pid in Run(program, steps).execs && t < |Run(program, steps).execs[pid].hist|
    ensures Tells(program, Run(program, steps), Run(program, steps).execs[pid], t)
  {
    var s, step := Run(program, steps[..|steps| - 1]), steps[|steps| - 1];
    RunKeeps(program, steps[..|steps| - 1]);
    if pid in s.execs && t < |s.execs[pid].hist| { HistoryTells(program, steps[..|steps| - 1], pid, t); }
    if Enabled(program, s, step) { StepTells(program, s, step, pid, t); }
  }

  /** All executors of one instance run the same function on the same input. */
  lemma OneWork(program: Program, steps: seq<Step>, p: nat, q: nat)
    requires p in Run(program, steps).execs && q in Run(program, steps).execs
    requires Run(program, steps).execs[p].instance == Run(program, steps).execs[q].instance
    ensures Run(program, steps).execs[p].work == Run(program, steps).execs[q].work
  {
    RunKeeps(program, steps);
  }

  /** All executors of one instance walk the same history, and those that finish return the same value. */
  lemma OneHistory(program: Program, steps: seq<Step>, p: nat, q: nat)
    requires p in Run(program, steps).execs && q in Run(program, steps).execs
    requires Run(program, steps).execs[p].instance == Run(program, steps).execs[q].instance
    ensures var a, b := Run(program, steps).execs[p], Run(program, steps).execs[q];
            && (a.hist <= b.hist || b.hist <= a.hist)
            && (a.status.Finished? && b.status.Finished? ==> a.status == b.status && a.hist == b.hist)
            && (a.status.Finished? ==> b.hist <= a.hist)
  {
    var s := Run(program, steps);
    RunKeeps(program, steps);
    if s.execs[p].status.Finished? { FinishedIsComplete(program, s, s.execs[p]); }
    if s.execs[q].status.Finished? { FinishedIsComplete(program, s, s.execs[q]); }
  }
}

/**
 Crash recovery: from every reachable state, wherever executors crashed, one executor of an instance that goes on alone
 brings it to its end, if handlers take boundedly many steps and do not call one another in a circle.
 */
module BokiRecovery {
  import opened Wrappers
  import opened LogModel
  import opened IntentProtocol
  import opened BokiReplay

  /** Uuids never run out: for every function and input there is an id drawn for it. */
  ghost predicate Draws(program: Program) {
    forall w: Work :: HasId(program, w)
  }

  ghost predicate HasId(program: Program, w: Work) {
    exists id :: program.drawnFor(id) == w
  }

  /** A handler returns after so many steps, whatever they yield. */
  ghost predicate Bounded(program: Program, bound: Work -> nat) {
    forall w: Work, h: seq<Outcome> :: |h| >= bound(w) ==> program.code(w)(h).Return?
  }

  /** Synchronous calls go down. */
  ghost predicate Ranked(program: Program, rank: Work -> nat) {
    forall w: Work, h: seq<Outcome> :: CallGoesDown(program, rank, w, h)
  }

  ghost predicate CallGoesDown(program: Program, rank: Work -> nat, w: Work, h: seq<Outcome>) {
    var a := program.code(w)(h);
    a.DoInvoke? ==> rank(Work(a.callee, a.input)) < rank(w)
  }

  ghost predicate Terminates(program: Program, bound: Work -> nat, rank: Work -> nat) {
    Draws(program) && Bounded(program, bound) && Ranked(program, rank)
  }

  ghost function RunFrom(program: Program, s: State, steps: seq<Step>): State {
    if steps == [] then s
    else
      var t := RunFrom(program, s, steps[..|steps| - 1]);
      var step := steps[|steps| - 1];
      if Enabled(program, t, step) then Do(program, t, step) else t
  }

  lemma {:induction false} RunsOn(program: Program, steps: seq<Step>, more: seq<Step>)
    ensures Run(program, steps + more) == RunFrom(program, Run(program, steps), more)
  {
    if more == [] {
      assert steps + more == steps;
    } else {
      var before := more[..|more| - 1];
      RunsOn(program, steps, before);
      assert (steps + more)[..|steps + more| - 1] == steps + before;
    }
  }

  lemma {:induction false} FromConcat(program: Program, s: State, a: seq<Step>, b: seq<Step>)
    ensures RunFrom(program, s, a + b) == RunFrom(program, RunFrom(program, s, a), b)
  {
    if b == [] {
      assert a + b == a;
    } else {
      FromConcat(program, s, a, b[..|b| - 1]);
      assert (a + b)[..|a + b| - 1] == a + b[..|b| - 1];
    }
  }

  /** The steps lead there, keep the invariant, and leave all executors there were but pid alone. */
  ghost predicate LeadsTo(program: Program, s: State, steps: seq<Step>, s': State, pid: nat) {
    && RunFrom(program, s, steps) == s' && Inv(program, s') && s.log <= s'.log
    && pid in s.execs && pid in s'.execs && OthersSame(s, s', pid)
    && var e, e' := s.execs[pid], s'.execs[pid];
       e'.instance == e.instance && e'.work == e.work && e'.caller == e.caller
  }

  ghost predicate OthersSame(s: State, s': State, pid: nat) {
    forall q :: q in s.execs && q != pid ==> q in s'.execs && s'.execs[q] == s.execs[q]
  }

  lemma Goes(program: Program, s: State, step: Step, pid: nat)
    requires Inv(program, s) && Active(s, pid) && Enabled(program, s, step)
    requires By(step, pid) || (step.Invoke? && step.parent == pid)
    ensures LeadsTo(program, s, [step], Do(program, s, step), pid)
  {
    assert [step][..0] == [];
    StepKeeps(program, s, step);
  }

  predicate By(step: Step, pid: nat) {
    match step
    case CatchUp(p, _) => p == pid
    case Propose(p, _, _) => p == pid
    case PostWriteLog(p, _) => p == pid
    case PostReturn(p, _) => p == pid
    case Advance(p) => p == pid
    case TakeReturn(p, _) => p == pid
    case Finish(p) => p == pid
    case _ => false
  }

  lemma Then(program: Program, s: State, a: seq<Step>, t: State, b: seq<Step>, u: State, pid: nat)
    requires LeadsTo(program, s, a, t, pid) && LeadsTo(program, t, b, u, pid)
    ensures LeadsTo(program, s, a + b, u, pid)
  {
    FromConcat(program, s, a, b);
  }

  // ---- agreeing on the step ----

  /** The executor has replayed the whole log. */
  ghost predicate Current(s: State, pid: nat) {
    Active(s, pid) && s.execs[pid].seen == |s.log|
  }

  lemma CatchesUp(program: Program, s: State, pid: nat) returns (s': State)
    requires Inv(program, s) && Active(s, pid)
    ensures LeadsTo(program, s, [CatchUp(pid, |s.log|)], s', pid) && Current(s', pid)
    ensures s'.log == s.log && s'.execs[pid].hist == s.execs[pid].hist
  {
    assert ExecOk(program, s, s.execs[pid]);
    Goes(program, s, CatchUp(pid, |s.log|), pid);
    s' := Do(program, s, CatchUp(pid, |s.log|));
  }

  lemma SomeProposal(program: Program, a: Action) returns (d: StepData)
    requires Draws(program) && !a.Return?
    ensures Fits(program, a, d)
  {
    match a
    case DoRead(t, k) => d := ReadResult(t, k, None);
    case DoScan(t) => d := ScanResult(t, []);
    case DoWrite(t, k) => d := PreWrite(t, k);
    case DoInvoke(c, i) =>
      assert HasId(program, Work(c, i));
      var id :| program.drawnFor(id) == Work(c, i);
      d := PreInvoke(c, id);
    case DoAsync(c, i) =>
      assert HasId(program, Work(c, i));
      var id :| program.drawnFor(id) == Work(c, i);
      d := PreInvoke(c, id);
  }

  lemma KnowsOwnProposal(program: Program, s: State, pid: nat)
    requires Inv(program, s) && Current(s, pid) && s.log != []
    requires IsStep(s.log, |s.log| - 1, s.execs[pid].instance, |s.execs[pid].hist|, false)
    ensures Knows(s, s.execs[pid])
  {
    var e := s.execs[pid];
    FirstAppendWins(s.log, e.instance, |s.log|, |e.hist|);
  }

  /** Alone, an executor comes to know the entry of its step. */
  lemma Agrees(program: Program, s: State, pid: nat) returns (more: seq<Step>, s': State)
    requires Inv(program, s) && Active(s, pid) && Draws(program) && !Next(program, s.execs[pid]).Return?
    ensures LeadsTo(program, s, more, s', pid) && Active(s', pid) && Knows(s', s'.execs[pid])
    ensures s'.execs[pid].hist == s.execs[pid].hist
  {
    var s1 := CatchesUp(program, s, pid);
    more, s' := [CatchUp(pid, |s.log|)], s1;
    if !Knows(s1, s1.execs[pid]) {
      var rest;
      rest, s' := ProposesAndSees(program, s1, pid);
      Then(program, s, more, s1, rest, s', pid);
      more := more + rest;
    }
  }

  lemma ProposesAndSees(program: Program, s: State, pid: nat) returns (more: seq<Step>, s': State)
    requires Inv(program, s) && Active(s, pid) && Draws(program) && !Next(program, s.execs[pid]).Return?
    requires !Knows(s, s.execs[pid])
    ensures LeadsTo(program, s, more, s', pid) && Active(s', pid) && Knows(s', s'.execs[pid])
    ensures s'.execs[pid].hist == s.execs[pid].hist
  {
    var d := SomeProposal(program, Next(program, s.execs[pid]));
    var s1 := Proposed(program, s, pid, d);
    s' := CatchesUp(program, s1, pid);
    KnowsOwnProposal(program, s', pid);
    Then(program, s, [Propose(pid, 0, d)], s1, [CatchUp(pid, |s1.log|)], s', pid);
    more := [Propose(pid, 0, d)] + [CatchUp(pid, |s1.log|)];
  }

  lemma Proposed(program: Program, s: State, pid: nat, d: StepData) returns (s': State)
    requires Inv(program, s) && Active(s, pid) && !Knows(s, s.execs[pid])
    requires Fits(program, Next(program, s.execs[pid]), d)
    ensures LeadsTo(program, s, [Propose(pid, 0, d)], s', pid) && s'.execs == s.execs && |s'.log| == |s.log| + 1
    ensures IsStep(s'.log, |s.log|, s.execs[pid].instance, |s.execs[pid].hist|, false)
  {
    Goes(program, s, Propose(pid, 0, d), pid);
    s' := Do(program, s, Propose(pid, 0, d));
  }

  // ---- taking the step ----

  /** One step further. */
  ghost predicate Further(s: State, s': State, pid: nat) {
    && pid in s.execs && Active(s', pid)
    && s.execs[pid].hist <= s'.execs[pid].hist && |s'.execs[pid].hist| == |s.execs[pid].hist| + 1
  }

  lemma Advances(program: Program, s: State, pid: nat) returns (s': State)
    requires Inv(program, s) && Enabled(program, s, BokiReplay.Advance(pid))
    ensures LeadsTo(program, s, [BokiReplay.Advance(pid)], s', pid) && Further(s, s', pid)
    ensures s' == Do(program, s, BokiReplay.Advance(pid))
  {
    var step := BokiReplay.Advance(pid);
    Goes(program, s, step, pid);
    AdvanceTells(program, s, step);
    s' := Do(program, s, step);
    assert ExecOk(program, s', s'.execs[pid]);
  }

  /** Some pid is unused. */
  lemma FreshPid(execs: map<nat, Executor>) returns (child: nat)
    ensures child !in execs
  {
    child := if execs == map[] then 0 else Max(execs.Keys) + 1;
  }

  ghost function Max(pids: set<nat>): (m: nat)
    requires pids != {}
    ensures m in pids && forall p :: p in pids ==> p <= m
  {
    var p :| p in pids;
    if pids == {p} then p
    else
      var m := Max(pids - {p});
      assert pids == (pids - {p}) + {p};
      if p < m then m else p
  }

  /** What an executor knows of its step it knows in a longer log. */
  lemma StillKnows(s: State, s': State, e: Executor)
    requires Knows(s, e) && s.log <= s'.log
    ensures Knows(s', e) && Entry0(s', e) == Entry0(s, e)
  {
    PrefixStable(s.log, s'.log, e.instance, e.seen);
  }

  /** A synchronous call whose result is not known: invoke the callee, let it run to its end, take what it returned. */
  lemma Calls(program: Program, bound: Work -> nat, rank: Work -> nat, s: State, pid: nat)
    returns (more: seq<Step>, s': State)
    requires Inv(program, s) && Active(s, pid) && Terminates(program, bound, rank)
    requires Next(program, s.execs[pid]).DoInvoke? && Knows(s, s.execs[pid])
    ensures LeadsTo(program, s, more, s', pid) && Further(s, s', pid)
    ensures PostedAt(program, s'.log, s'.execs[pid], |s.execs[pid].hist|)
    decreases rank(s.execs[pid].work), 0, 1
  {
    var child, s1 := Invokes(program, rank, s, pid);
    var run, s2 := RunsToEnd(program, bound, rank, s1, child);
    ChildsRun(program, s, s1, run, s2, pid, child);
    StillKnows(s, s2, s.execs[pid]);
    s' := TakesReturn(program, s2, pid, child);
    Then(program, s, [Invoke(child, pid)] + run, s2, [TakeReturn(pid, child)], s', pid);
    more := [Invoke(child, pid)] + run + [TakeReturn(pid, child)];
    assert s'.execs[pid].hist[..|s.execs[pid].hist|] == s.execs[pid].hist;
  }

  /** The agreed instance of the callee gets an executor, whose work ranks lower. */
  lemma Invokes(program: Program, rank: Work -> nat, s: State, pid: nat) returns (child: nat, s1: State)
    requires Inv(program, s) && Active(s, pid) && Ranked(program, rank)
    requires Next(program, s.execs[pid]).DoInvoke? && Knows(s, s.execs[pid])
    ensures child !in s.execs && LeadsTo(program, s, [Invoke(child, pid)], s1, pid) && s1.log == s.log
    ensures s1.execs.Keys == s.execs.Keys + {child} && OthersSame(s, s1, child) && Active(s1, child)
    ensures Entry0(s, s.execs[pid]).data.PreInvoke?
    ensures s1.execs[child].instance == Entry0(s, s.execs[pid]).data.calleeInstance
    ensures s1.execs[child].caller == CalledBy(s.execs[pid].instance, |s.execs[pid].hist|)
    ensures rank(s1.execs[child].work) < rank(s.execs[pid].work)
  {
    var e := s.execs[pid];
    EntryIsFirst(program, s, e);
    assert CallGoesDown(program, rank, e.work, e.hist);
    child := FreshPid(s.execs);
    Goes(program, s, Invoke(child, pid), pid);
    s1 := Do(program, s, Invoke(child, pid));
  }

  lemma TakesReturn(program: Program, s: State, pid: nat, child: nat) returns (s': State)
    requires Inv(program, s) && Active(s, pid) && Enabled(program, s, TakeReturn(pid, child))
    ensures LeadsTo(program, s, [TakeReturn(pid, child)], s', pid) && Further(s, s', pid) && s'.log == s.log
    ensures s'.execs[pid].hist == s.execs[pid].hist + [Output(s.execs[child].status.value)]
  {
    Goes(program, s, TakeReturn(pid, child), pid);
    s' := Do(program, s, TakeReturn(pid, child));
  }

  /** Seen from its caller, the child's run changes the log and the child only. */
  lemma ChildsRun(program: Program, s: State, s1: State, run: seq<Step>, s2: State, pid: nat, child: nat)
    requires pid in s.execs && child !in s.execs && LeadsTo(program, s, [Invoke(child, pid)], s1, pid)
    requires s1.execs.Keys == s.execs.Keys + {child} && OthersSame(s, s1, child) && LeadsTo(program, s1, run, s2, child)
    ensures LeadsTo(program, s, [Invoke(child, pid)] + run, s2, pid) && s2.execs[pid] == s.execs[pid]
  {
    FromConcat(program, s, [Invoke(child, pid)], run);
  }

  lemma StepsOn(program: Program, bound: Work -> nat, rank: Work -> nat, s: State, pid: nat)
    returns (more: seq<Step>, s': State)
    requires Inv(program, s) && Active(s, pid) && Terminates(program, bound, rank)
    requires !Next(program, s.execs[pid]).Return?
    ensures LeadsTo(program, s, more, s', pid) && Further(s, s', pid)
    ensures PostedAt(program, s'.log, s'.execs[pid], |s.execs[pid].hist|)
    decreases rank(s.execs[pid].work), 0, 2
  {
    var first, s1 := Agrees(program, s, pid);
    var e := s1.execs[pid];
    var rest;
    if Next(program, e).DoInvoke? && Result0(s1, e).None? {
      rest, s' := Calls(program, bound, rank, s1, pid);
    } else if Next(program, e).DoWrite? {
      rest, s' := Writes(program, s1, pid);
    } else {
      s' := Advances(program, s1, pid);
      rest := [BokiReplay.Advance(pid)];
      TakenIsPosted(program, s1, s', pid);
    }
    Then(program, s, first, s1, rest, s', pid);
    more := first + rest;
  }

  // ---- results ----

  /** The result of the step is logged, if it is a write or a synchronous call; for the latter, it is what was got. */
  ghost predicate PostedAt(program: Program, log: Log, e: Executor, t: nat)
    requires t < |e.hist|
  {
    match program.code(e.work)(e.hist[..t])
    case DoWrite(table, key) => First(log, e.instance, t, true, PostWrite(table, key))
    case DoInvoke(_, _) => e.hist[t].Output? && First(log, e.instance, t, true, InvokeResult(e.hist[t].value))
    case _ => true
  }

  lemma PostedStays(program: Program, log: Log, longer: Log, e: Executor, e': Executor, t: nat)
    requires log <= longer && t < |e.hist| && e.hist <= e'.hist && PostedAt(program, log, e, t)
    requires e'.instance == e.instance && e'.work == e.work
    ensures PostedAt(program, longer, e', t)
  {
    assert e'.hist[..t] == e.hist[..t];
    match program.code(e.work)(e.hist[..t])
    case DoWrite(table, key) => FirstStays(log, longer, e.instance, t, true, PostWrite(table, key));
    case DoInvoke(_, _) => FirstStays(log, longer, e.instance, t, true, InvokeResult(e.hist[t].value));
    case _ =>
  }

  /** A step taken from the log: a call's result was logged. */
  lemma TakenIsPosted(program: Program, s: State, s': State, pid: nat)
    requires Inv(program, s) && Enabled(program, s, BokiReplay.Advance(pid)) && Further(s, s', pid)
    requires s' == Do(program, s, BokiReplay.Advance(pid)) && !Next(program, s.execs[pid]).DoWrite?
    ensures PostedAt(program, s'.log, s'.execs[pid], |s.execs[pid].hist|)
  {
    var e := s.execs[pid];
    assert s'.execs[pid].hist[..|e.hist|] == e.hist;
    if Next(program, e).DoInvoke? {
      AgreedResultPasses(program, s, e);
      ResultIsFirst(program, s, e);
    }
  }

  /** The executor posts the result of its write and goes on. */
  lemma Writes(program: Program, s: State, pid: nat) returns (more: seq<Step>, s': State)
    requires Inv(program, s) && Active(s, pid) && Knows(s, s.execs[pid]) && Next(program, s.execs[pid]).DoWrite?
    ensures LeadsTo(program, s, more, s', pid) && Further(s, s', pid)
    ensures PostedAt(program, s'.log, s'.execs[pid], |s.execs[pid].hist|)
  {
    var s1 := PostsWrite(program, s, pid);
    StillKnows(s, s1, s.execs[pid]);
    s' := Advances(program, s1, pid);
    Then(program, s, [PostWriteLog(pid, 0)], s1, [BokiReplay.Advance(pid)], s', pid);
    more := [PostWriteLog(pid, 0)] + [BokiReplay.Advance(pid)];
    WriteIsPosted(program, s.execs[pid], s1.log, s'.log, s'.execs[pid]);
  }

  lemma WriteIsPosted(program: Program, e: Executor, log: Log, longer: Log, e': Executor)
    requires Next(program, e).DoWrite? && log <= longer && e.hist <= e'.hist && |e.hist| < |e'.hist|
    requires e'.instance == e.instance && e'.work == e.work
    requires var a := Next(program, e); First(log, e.instance, |e.hist|, true, PostWrite(a.table, a.key))
    ensures PostedAt(program, longer, e', |e.hist|)
  {
    var a := Next(program, e);
    FirstStays(log, longer, e.instance, |e.hist|, true, PostWrite(a.table, a.key));
    assert e'.hist[..|e.hist|] == e.hist;
  }

  lemma PostsWrite(program: Program, s: State, pid: nat) returns (s1: State)
    requires Inv(program, s) && Active(s, pid) && Knows(s, s.execs[pid]) && Next(program, s.execs[pid]).DoWrite?
    ensures LeadsTo(program, s, [PostWriteLog(pid, 0)], s1, pid) && s1.execs == s.execs
    ensures var e := s.execs[pid];
            var a := Next(program, e);
            First(s1.log, e.instance, |e.hist|, true, PostWrite(a.table, a.key))
  {
    AgreedEntryPasses(program, s, s.execs[pid]);
    Goes(program, s, PostWriteLog(pid, 0), pid);
    s1 := Do(program, s, PostWriteLog(pid, 0));
    PostedWrite(program, s, s1, pid);
  }

  lemma PostedWrite(program: Program, s: State, s1: State, pid: nat)
    requires Inv(program, s) && Enabled(program, s, PostWriteLog(pid, 0))
    requires s1 == Do(program, s, PostWriteLog(pid, 0)) && Inv(program, s1)
    ensures var e := s.execs[pid];
            var a := Next(program, e);
            First(s1.log, e.instance, |e.hist|, true, PostWrite(a.table, a.key))
  {
    var e := s.execs[pid];
    var a := Next(program, e);
    AgreedEntryPasses(program, s, e);
    FirstStable(s.log, s1.log, Entry0(s, e).seqNum, e.instance, |e.hist|, false);
    var j := SomeFirst(s1.log, |s.log|, e.instance, |e.hist|, true);
    var i: nat :| ResultOk(program, s1, j, i);
    assert FirstIs(s1.log, j, e.instance, |e.hist|, true, PostWrite(a.table, a.key));
  }

  /** What a called executor returned is the logged result of the call. */
  ghost predicate ResultLogged(log: Log, e: Executor) {
    e.status.Finished? && e.caller.CalledBy? ==>
      First(log, e.caller.instance, e.caller.step, true, InvokeResult(e.status.value))
  }

  lemma PostedReturn(program: Program, s: State, s1: State, pid: nat)
    requires Inv(program, s) && Enabled(program, s, PostReturn(pid, 0))
    requires s1 == Do(program, s, PostReturn(pid, 0)) && Inv(program, s1)
    ensures var e := s.execs[pid];
            First(s1.log, e.caller.instance, e.caller.step, true, InvokeResult(Next(program, e).value))
  {
    var e := s.execs[pid];
    var c := e.caller;
    var k: nat :| CallEntry(s.log, k, c, e.instance);
    FirstStable(s.log, s1.log, k, c.instance, c.step, false);
    var j := SomeFirst(s1.log, |s.log|, c.instance, c.step, true);
    var i: nat :| ResultOk(program, s1, j, i);
    assert i == k;
    FinishedIsComplete(program, s1, e);
    assert FirstIs(s1.log, j, c.instance, c.step, true, InvokeResult(Next(program, e).value));
  }

  /** The executor posts its return value for its caller, if it has one, and finishes. */
  lemma Ends(program: Program, s: State, pid: nat) returns (more: seq<Step>, s': State)
    requires Inv(program, s) && Active(s, pid) && Next(program, s.execs[pid]).Return?
    ensures LeadsTo(program, s, more, s', pid) && s'.execs[pid].status.Finished?
    ensures ResultLogged(s'.log, s'.execs[pid]) && s'.execs[pid].hist == s.execs[pid].hist
  {
    if s.execs[pid].caller.CalledBy? {
      var post := PostReturn(pid, 0);
      Goes(program, s, post, pid);
      var s1 := Do(program, s, post);
      PostedReturn(program, s, s1, pid);
      Goes(program, s1, Finish(pid), pid);
      s' := Do(program, s1, Finish(pid));
      Then(program, s, [post], s1, [Finish(pid)], s', pid);
      more := [post] + [Finish(pid)];
    } else {
      Goes(program, s, Finish(pid), pid);
      more, s' := [Finish(pid)], Do(program, s, Finish(pid));
    }
  }

  // ---- to the end ----

  /** Every step that the executor took since then is posted. */
  ghost predicate PostedFrom(program: Program, s: State, s': State, pid: nat) {
    && pid in s.execs && pid in s'.execs && s.execs[pid].hist <= s'.execs[pid].hist
    && forall t: nat :: |s.execs[pid].hist| <= t < |s'.execs[pid].hist| ==> PostedAt(program, s'.log, s'.execs[pid], t)
  }

  lemma PostedTogether(program: Program, s: State, s1: State, s': State, pid: nat)
    requires Further(s, s1, pid) && PostedAt(program, s1.log, s1.execs[pid], |s.execs[pid].hist|)
    requires PostedFrom(program, s1, s', pid) && s1.log <= s'.log
    requires s'.execs[pid].instance == s1.execs[pid].instance && s'.execs[pid].work == s1.execs[pid].work
    ensures PostedFrom(program, s, s', pid)
  {
    PostedStays(program, s1.log, s'.log, s1.execs[pid], s'.execs[pid], |s.execs[pid].hist|);
  }

  function Left(bound: Work -> nat, e: Executor): nat {
    if |e.hist| < bound(e.work) then bound(e.work) - |e.hist| else 0
  }

  lemma LessLeft(program: Program, bound: Work -> nat, s: State, s1: State, pid: nat)
    requires Bounded(program, bound) && Further(s, s1, pid) && s1.execs[pid].work == s.execs[pid].work
    requires !Next(program, s.execs[pid]).Return?
    ensures Left(bound, s1.execs[pid]) < Left(bound, s.execs[pid])
  {
  }

  lemma RunsToEnd(program: Program, bound: Work -> nat, rank: Work -> nat, s: State, pid: nat)
    returns (more: seq<Step>, s': State)
    requires Inv(program, s) && Active(s, pid) && Terminates(program, bound, rank)
    ensures LeadsTo(program, s, more, s', pid) && s'.execs[pid].status.Finished?
    ensures ResultLogged(s'.log, s'.execs[pid]) && PostedFrom(program, s, s', pid)
    decreases rank(s.execs[pid].work), 1, Left(bound, s.execs[pid])
  {
    if Next(program, s.execs[pid]).Return? {
      more, s' := Ends(program, s, pid);
    } else {
      var first, s1 := StepsOn(program, bound, rank, s, pid);
      LessLeft(program, bound, s, s1, pid);
      var rest;
      rest, s' := RunsToEnd(program, bound, rank, s1, pid);
      Then(program, s, first, s1, rest, s', pid);
      PostedTogether(program, s, s1, s', pid);
      more := first + rest;
    }
  }

  /**
   From every reachable state: an executor that is left alone finishes, with executors that it starts itself for its
   callees, whatever the others did before and wherever they stopped; the results of the writes and calls that
   it made, and its own if it was called, are logged.
   */
  lemma FinishesAlone(program: Program, bound: Work -> nat, rank: Work -> nat, steps: seq<Step>, pid: nat)
    returns (more: seq<Step>)
    requires Terminates(program, bound, rank) && Active(Run(program, steps), pid)
    ensures var s, s' := Run(program, steps), Run(program, steps + more);
            && pid in s'.execs && s'.execs[pid].status.Finished? && s'.execs[pid].instance == s.execs[pid].instance
            && s.log <= s'.log && OthersSame(s, s', pid)
            && ResultLogged(s'.log, s'.execs[pid]) && PostedFrom(program, s, s', pid)
  {
    RunKeeps(program, steps);
    var s';
    more, s' := RunsToEnd(program, bound, rank, Run(program, steps), pid);
    RunsOn(program, steps, more);
  }

  /**
   So whatever crashed is recovered: a new executor of the instance finishes, with the value that any other one of its
   executors that finished, or will, returns.
   */
  lemma Recovers(program: Program, bound: Work -> nat, rank: Work -> nat, steps: seq<Step>, instance: string)
    returns (more: seq<Step>, pid: nat)
    requires Terminates(program, bound, rank)
    ensures var s, s' := Run(program, steps), Run(program, steps + more);
            && pid !in s.execs && pid in s'.execs && s'.execs[pid].instance == instance
            && s'.execs[pid].status.Finished? && OthersSame(s, s', pid)
            && forall q :: q in s.execs && s.execs[q].instance == instance && s.execs[q].status.Finished? ==>
                 s.execs[q].status == s'.execs[pid].status
  {
    var s := Run(program, steps);
    pid := FreshPid(s.execs);
    var spawn := Spawn(pid, instance, NoCaller);
    Spawns(program, steps, pid, instance);
    var rest := FinishesAlone(program, bound, rank, steps + [spawn], pid);
    more := [spawn] + rest;
    assert steps + more == steps + [spawn] + rest;
    forall q | q in s.execs && s.execs[q].instance == instance && s.execs[q].status.Finished?
      ensures s.execs[q].status == Run(program, steps + more).execs[pid].status
    {
      OneHistory(program, steps + more, pid, q);
    }
  }

  lemma Spawns(program: Program, steps: seq<Step>, pid: nat, instance: string)
    requires pid !in Run(program, steps).execs
    ensures var s, s' := Run(program, steps), Run(program, steps + [Spawn(pid, instance, NoCaller)]);
            Active(s', pid) && s'.execs[pid].instance == instance && OthersSame(s, s', pid)
  {
    assert (steps + [Spawn(pid, instance, NoCaller)])[..|steps|] == steps;
  }
}

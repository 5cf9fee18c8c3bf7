/**
 Whole runs of the DAAL: any sequence of actions of writers and of the collector, each taking effect only if what its
 issuer has established still holds.
 */
module DaalRuns {
  import opened Wrappers
  import opened Daal

  ghost function Step(s: Store, a: Action): Store {
    if ChainOk(s) && Enabled(s, a) then Do(s, a) else s
  }

  ghost function Run(n: nat, actions: seq<Action>): Store {
    if actions == [] then Empty(n)
    else Step(Run(n, actions[..|actions| - 1]), actions[|actions| - 1])
  }

  lemma {:induction false} RunKeeps(n: nat, actions: seq<Action>)
    requires n > 0
    ensures Inv(Run(n, actions)) && Run(n, actions).n == n
  {
    if actions != [] {
      var s, a := Run(n, actions[..|actions| - 1]), actions[|actions| - 1];
      RunKeeps(n, actions[..|actions| - 1]);
      if Enabled(s, a) { ActionKeeps(s, a); }
    }
  }

  // ---- the chain is one register ----

  /** The entry an action logs, if any. */
  ghost function Entry(a: Action): seq<Past> {
    match a
    case LogWrite(_, cid, update) => [Past(cid, Plain, update)]
    case LogCondWrite(_, cid, update, _) => [Past(cid, Flag(true), update)]
    case LogFailure(_, cid) => [Past(cid, Flag(false), v => v)]
    case _ => []
  }

  /** What one atomic register would have seen: the logging actions that took effect, in the order of time. */
  ghost function Journal(n: nat, actions: seq<Action>): seq<Past> {
    if actions == [] then []
    else
      var before, a := actions[..|actions| - 1], actions[|actions| - 1];
      var s := Run(n, before);
      Journal(n, before) + if ChainOk(s) && Enabled(s, a) then Entry(a) else []
  }

  ghost function All(s: Store): seq<Past>
    requires ChainOk(s)
  {
    Hist(s, |s.chain|)
  }

  /** V of the row without NEXTROW, or nothing when the key has no row. */
  ghost function Register(s: Store): Option<string>
    requires ChainOk(s)
  {
    if s.chain == [] then None else s.At(|s.chain| - 1).v
  }

  lemma RegisterIsFold(s: Store)
    requires Inv(s)
    ensures Register(s) == Fold(None, All(s))
  {
    if s.chain != [] { assert ValueOk(s, |s.chain| - 1); }
  }

  /** A row that takes an entry is the last one, so what the update acts on is the register. */
  lemma LogsAtTheEnd(s: Store, id: RowId, cid: Cid) returns (i: nat)
    requires Inv(s) && CanLog(s, id, cid) && Passed(s, id, cid)
    ensures i == |s.chain| - 1 && s.chain[i] == id && s.rows[id].v == Register(s)
  {
    i :| PassedTo(s, i, id, cid);
    OpenRowIsLast(s, i);
  }

  lemma LogAppends(s: Store, id: RowId, cid: Cid, out: Outcome, update: Update)
    requires Inv(s) && CanLog(s, id, cid) && Passed(s, id, cid) && ChainOk(Logged(s, id, cid, out, update))
    ensures All(Logged(s, id, cid, out, update)) == All(s) + [Past(cid, out, update)]
  {
    var i := LogsAtTheEnd(s, id, cid);
    EntryAtTheEnd(s, i, cid, out, update);
  }

  lemma EntryAtTheEnd(s: Store, i: nat, cid: Cid, out: Outcome, update: Update)
    requires ChainOk(s) && i == |s.chain| - 1 && ChainOk(Logged(s, s.chain[i], cid, out, update))
    ensures All(Logged(s, s.chain[i], cid, out, update)) == All(s) + [Past(cid, out, update)]
  {
    var s', p := Logged(s, s.chain[i], cid, out, update), Past(cid, out, update);
    HistKept(s, s', i);
    assert All(s') == Hist(s', i) + (s.At(i).past + [p]) == All(s) + [p];
  }

  lemma OthersLogNothing(s: Store, a: Action)
    requires Inv(s) && Enabled(s, a) && Entry(a) == [] && ChainOk(Do(s, a))
    ensures All(Do(s, a)) == All(s)
  {
    var s', m := Do(s, a), |s.chain|;
    forall k: nat | k < m ensures s'.At(k).past == s.At(k).past { }
    HistKept(s, s', m);
    assert |s'.chain| > m ==> Hist(s', m + 1) == Hist(s', m) + [];
  }

  /** An action changes the journal of the chain by exactly the entry it logs. */
  lemma ActionLogs(s: Store, a: Action)
    requires Inv(s) && Enabled(s, a)
    ensures Inv(Do(s, a)) && All(Do(s, a)) == All(s) + Entry(a)
  {
    ActionKeeps(s, a);
    match a
    case LogWrite(id, cid, update) => LogAppends(s, id, cid, Plain, update);
    case LogCondWrite(id, cid, update, _) => LogAppends(s, id, cid, Flag(true), update);
    case LogFailure(id, cid) => LogAppends(s, id, cid, Flag(false), v => v);
    case _ => OthersLogNothing(s, a);
  }

  /**
   Linearization: reading the rows in chain order gives the logged operations in the order of time, and the last row's
   V is what a single register holds after them.
   */
  lemma {:induction false} OneRegister(n: nat, actions: seq<Action>)
    requires n > 0
    ensures Inv(Run(n, actions)) && All(Run(n, actions)) == Journal(n, actions)
    ensures Register(Run(n, actions)) == Fold(None, Journal(n, actions))
  {
    RunKeeps(n, actions);
    if actions != [] {
      var s, a := Run(n, actions[..|actions| - 1]), actions[|actions| - 1];
      OneRegister(n, actions[..|actions| - 1]);
      if Enabled(s, a) { ActionLogs(s, a); }
    }
    RegisterIsFold(Run(n, actions));
  }

  /** A conditional write takes effect only when its condition holds of the register. */
  lemma ConditionHeldOfRegister(s: Store, id: RowId, cid: Cid, update: Update, cond: Option<string> -> bool)
    requires Inv(s) && Enabled(s, LogCondWrite(id, cid, update, cond))
    ensures cond(Register(s)) && Register(Do(s, LogCondWrite(id, cid, update, cond))) == update(Register(s))
  {
    var i := LogsAtTheEnd(s, id, cid);
    assert ChainOk(Logged(s, id, cid, Flag(true), update));
  }

  // ---- exactly once ----

  ghost predicate InJournal(j: seq<Past>, x: nat, cid: Cid) {
    x < |j| && j[x].cid == cid
  }

  ghost predicate Once(j: seq<Past>) {
    forall x: nat, y: nat, cid :: InJournal(j, x, cid) && InJournal(j, y, cid) ==> x == y
  }

  lemma {:induction false} Located(s: Store, k: nat, x: nat) returns (i: nat, a: nat)
    requires ChainOk(s) && k <= |s.chain| && x < |Hist(s, k)|
    ensures i < k && LoggedAt(s, i, a) && Hist(s, k)[x] == s.At(i).past[a] && x == |Hist(s, i)| + a
  {
    if x < |Hist(s, k - 1)| {
      i, a := Located(s, k - 1, x);
    } else {
      i, a := k - 1, x - |Hist(s, k - 1)|;
    }
  }

  lemma {:induction false} Positioned(s: Store, k: nat, i: nat, a: nat)
    requires ChainOk(s) && i < k <= |s.chain| && LoggedAt(s, i, a)
    ensures |Hist(s, i)| + a < |Hist(s, k)| && Hist(s, k)[|Hist(s, i)| + a] == s.At(i).past[a]
  {
    if i < k - 1 { Positioned(s, k - 1, i, a); }
  }

  lemma UniqueMeansOnce(s: Store)
    requires Inv(s)
    ensures Once(All(s))
  {
    var j := All(s);
    forall x: nat, y: nat, cid | InJournal(j, x, cid) && InJournal(j, y, cid) ensures x == y {
      var i, a := Located(s, |s.chain|, x);
      var i', a' := Located(s, |s.chain|, y);
      assert Distinct(s, i, a, i', a');
    }
  }

  /**
   No operation id is ever logged, let alone applied, twice, however many executors run it and whatever is collected.
   */
  lemma LoggedAtMostOnce(n: nat, actions: seq<Action>)
    requires n > 0
    ensures Once(Journal(n, actions))
  {
    OneRegister(n, actions);
    UniqueMeansOnce(Run(n, actions));
  }

  /** What was logged stays logged, at the same place in the journal. */
  lemma {:induction false} JournalGrows(n: nat, actions: seq<Action>, k: nat)
    requires k <= |actions|
    ensures |Journal(n, actions[..k])| <= |Journal(n, actions)|
    ensures Journal(n, actions)[..|Journal(n, actions[..k])|] == Journal(n, actions[..k])
  {
    if k < |actions| {
      JournalGrows(n, actions[..|actions| - 1], k);
      assert actions[..|actions| - 1][..k] == actions[..k];
    } else {
      assert actions[..k] == actions;
    }
  }

  /** All who learn the outcome of one id, at whatever times of the run, learn the same. */
  lemma OutcomesAgree(n: nat, actions: seq<Action>, k: nat, x: nat, y: nat, cid: Cid)
    requires n > 0 && k <= |actions|
    requires InJournal(Journal(n, actions[..k]), x, cid) && InJournal(Journal(n, actions), y, cid)
    ensures Journal(n, actions[..k])[x].out == Journal(n, actions)[y].out
  {
    JournalGrows(n, actions, k);
    LoggedAtMostOnce(n, actions);
    assert Journal(n, actions)[..|Journal(n, actions[..k])|][x] == Journal(n, actions)[x];
    assert InJournal(Journal(n, actions), x, cid);
  }

  // ---- the shape of the chain ----

  /** The place in the chain that NEXTROW of row i names. */
  ghost function NextIndex(s: Store, i: nat): (j: nat)
    requires Inv(s) && i < |s.chain| && s.At(i).next.Some?
    ensures LeadsTo(s, i, j)
  {
    assert RowOk(s, i);
    var j: nat :| LeadsTo(s, i, j);
    j
  }

  /** The rows met from row i on by following NEXTROW. */
  ghost function Follow(s: Store, i: nat): seq<RowId>
    requires Inv(s) && i < |s.chain|
    decreases |s.chain| - i
  {
    if s.At(i).next.None? then [s.chain[i]] else [s.chain[i]] + Follow(s, NextIndex(s, i))
  }

  /** The rows of the chain from i on that are still linked. */
  ghost function Live(s: Store, i: nat): seq<RowId>
    requires i <= |s.chain|
    decreases |s.chain| - i
  {
    if i == |s.chain| then []
    else (if s.chain[i] in s.gone then [] else [s.chain[i]]) + Live(s, i + 1)
  }

  lemma {:induction false} LiveSkips(s: Store, i: nat, j: nat)
    requires i <= j <= |s.chain| && forall k :: i <= k < j ==> s.chain[k] in s.gone
    ensures Live(s, i) == Live(s, j)
    decreases j - i
  {
    if i < j { LiveSkips(s, i + 1, j); }
  }

  /** From a linked row, NEXTROW visits exactly the linked rows after it, in chain order, and ends at the last row. */
  lemma {:induction false} FollowIsLive(s: Store, i: nat)
    requires Inv(s) && i < |s.chain| && s.chain[i] !in s.gone
    ensures Follow(s, i) == Live(s, i)
    decreases |s.chain| - i
  {
    NoNextMeansLast(s, i);
    if s.At(i).next.Some? {
      var j := NextIndex(s, i);
      LiveFrom(s, i, j);
      FollowIsLive(s, j);
    }
  }

  lemma LiveFrom(s: Store, i: nat, j: nat)
    requires Hop(s.chain, s.gone, i, j) && s.chain[i] !in s.gone
    ensures Live(s, i) == [s.chain[i]] + Live(s, j) && s.chain[j] !in s.gone
  {
    LiveSkips(s, i + 1, j);
  }

  lemma NoNextMeansLast(s: Store, i: nat)
    requires ChainOk(s) && RowsOk(s) && i < |s.chain|
    ensures s.At(i).next.None? <==> i == |s.chain| - 1
  {
    assert RowOk(s, i);
  }

  /** The shape every reader and writer relies on, in every state of every run. */
  lemma ChainShape(n: nat, actions: seq<Action>)
    requires n > 0
    ensures var s := Run(n, actions);
      && Inv(s)
      && (s.chain != [] ==> s.chain[0] == HEAD && Follow(s, 0) == Live(s, 0))
      && (forall i: nat :: i < |s.chain| ==> (s.At(i).next.None? <==> i == |s.chain| - 1))
      && (forall i: nat :: i < |s.chain| - 1 ==> s.At(i).logSize == n)
      && (forall id :: id in s.rows && id !in s.chain ==> s.rows[id].logs == map[] && s.rows[id].next.None?)
  {
    RunKeeps(n, actions);
    var s := Run(n, actions);
    if s.chain != [] { FollowIsLive(s, 0); }
    forall i: nat | i < |s.chain| ensures s.At(i).next.None? <==> i == |s.chain| - 1 { NoNextMeansLast(s, i); }
    forall i: nat | i < |s.chain| - 1 ensures s.At(i).logSize == n { assert RowOk(s, i); }
  }

  ghost predicate NoUnlink(actions: seq<Action>) {
    forall k :: 0 <= k < |actions| ==> !actions[k].Relink?
  }

  lemma {:induction false} NothingGone(n: nat, actions: seq<Action>)
    requires NoUnlink(actions)
    ensures Run(n, actions).gone == []
  {
    if actions != [] { NothingGone(n, actions[..|actions| - 1]); }
  }

  /** Without unlinking, each row leads to the next one of the chain. */
  lemma ChainWithoutCollector(n: nat, actions: seq<Action>, i: nat)
    requires n > 0 && NoUnlink(actions) && i + 1 < |Run(n, actions).chain|
    ensures var s := Run(n, actions); Inv(s) && s.At(i).next == Some(s.chain[i + 1])
  {
    RunKeeps(n, actions);
    NothingGone(n, actions);
    NextWithoutGone(Run(n, actions), i);
  }

  lemma NextWithoutGone(s: Store, i: nat)
    requires ChainOk(s) && RowsOk(s) && s.gone == [] && i + 1 < |s.chain|
    ensures s.At(i).next == Some(s.chain[i + 1])
  {
    assert RowOk(s, i);
    var j: nat :| LeadsTo(s, i, j);
    assert s.chain[i + 1] !in s.gone;
    assert j == i + 1;
  }

  // ---- what the collector may count on ----

  function Failures(past: seq<Past>): nat {
    if past == [] then 0
    else Failures(past[..|past| - 1]) + if past[|past| - 1].Applied() then 0 else 1
  }

  lemma {:induction false} SuccessesAndFailures(past: seq<Past>)
    ensures Successes(past) + Failures(past) == |past|
  {
    if past != [] { SuccessesAndFailures(past[..|past| - 1]); }
  }

  lemma RowCounts(s: Store, i: nat)
    requires ChainOk(s) && RowsOk(s) && i < |s.chain|
    ensures var r := s.At(i); r.gcSize + |r.logs| == r.logSize + Failures(r.past) && r.logSize == Successes(r.past)
  {
    assert RowOk(s, i);
    SuccessesAndFailures(s.At(i).past);
  }

  /** Pruned and live entries make up LOGSIZE and the failed conditional writes, which LOGSIZE does not count. */
  lemma Counting(n: nat, actions: seq<Action>, i: nat)
    requires n > 0 && i < |Run(n, actions).chain| && ChainOk(Run(n, actions))
    ensures var r := Run(n, actions).At(i); r.gcSize + |r.logs| == r.logSize + Failures(r.past)
  {
    RunKeeps(n, actions);
    RowCounts(Run(n, actions), i);
  }

  /** The test GCSIZE = N finds the rows without live entries exactly as long as no conditional write failed there. */
  lemma FullyPrunedIffNoFailure(n: nat, actions: seq<Action>, i: nat)
    requires n > 0 && i + 1 < |Run(n, actions).chain| && ChainOk(Run(n, actions)) && Run(n, actions).At(i).gcSize == n
    ensures Run(n, actions).At(i).logs == map[] <==> Failures(Run(n, actions).At(i).past) == 0
  {
    RunKeeps(n, actions);
    var s := Run(n, actions);
    RowCounts(s, i);
    assert RowOk(s, i);
  }

  ghost predicate NoFailures(actions: seq<Action>) {
    forall k :: 0 <= k < |actions| ==> !actions[k].LogFailure?
  }

  lemma {:induction false} JournalHasNoFailures(n: nat, actions: seq<Action>)
    requires NoFailures(actions)
    ensures forall x :: 0 <= x < |Journal(n, actions)| ==> Journal(n, actions)[x].Applied()
  {
    if actions != [] { JournalHasNoFailures(n, actions[..|actions| - 1]); }
  }

  lemma {:induction false} AllApplied(past: seq<Past>)
    requires forall x :: 0 <= x < |past| ==> past[x].Applied()
    ensures Failures(past) == 0
  {
    if past != [] { AllApplied(past[..|past| - 1]); }
  }

  lemma NothingFailed(s: Store, i: nat)
    requires ChainOk(s) && i < |s.chain| && forall x :: 0 <= x < |All(s)| ==> All(s)[x].Applied()
    ensures Failures(s.At(i).past) == 0
  {
    forall a | 0 <= a < |s.At(i).past| ensures s.At(i).past[a].Applied() {
      Positioned(s, |s.chain|, i, a);
      assert All(s)[|Hist(s, i)| + a].Applied();
    }
    AllApplied(s.At(i).past);
  }

  /** On keys without failed conditional writes, GCSIZE and live entries add up to LOGSIZE in every reachable state. */
  lemma CountingWithoutFailures(n: nat, actions: seq<Action>, i: nat)
    requires n > 0 && NoFailures(actions) && i < |Run(n, actions).chain| && ChainOk(Run(n, actions))
    ensures var r := Run(n, actions).At(i); r.gcSize + |r.logs| == r.logSize && |r.past| == r.logSize
  {
    Counting(n, actions, i);
    OneRegister(n, actions);
    JournalHasNoFailures(n, actions);
    NothingFailed(Run(n, actions), i);
    RowCounts(Run(n, actions), i);
    SuccessesAndFailures(Run(n, actions).At(i).past);
  }

  /** There the collector's own test, NEXTROW present and GCSIZE = N, is all that unlinking a row needs. */
  lemma CollectorTestSuffices(n: nat, actions: seq<Action>, i: nat, j: nat, k: nat)
    requires n > 0 && NoFailures(actions) && ChainOk(Run(n, actions))
    requires var s := Run(n, actions); i < |s.chain| && j < |s.chain| && LeadsTo(s, i, j) && LeadsTo(s, j, k)
    requires var s := Run(n, actions); s.chain[i] !in s.gone && s.At(j).gcSize == n
    ensures Enabled(Run(n, actions), Relink(i, j, k)) && Run(n, actions).At(j).logs == map[]
  {
    CountingWithoutFailures(n, actions, j);
    RunKeeps(n, actions);
    var s := Run(n, actions);
    FullRowAt(s, j, k);
  }

  lemma FullRowAt(s: Store, j: nat, k: nat)
    requires ChainOk(s) && RowsOk(s) && j < |s.chain| && LeadsTo(s, j, k)
    ensures s.At(j).logSize == s.n
  {
    assert RowOk(s, j);
  }

  lemma GoneHoldsNothing(s: Store, i: nat)
    requires Inv(s) && i < |s.chain| && s.chain[i] in s.gone
    ensures s.At(i).logs == map[] && forall a :: 0 <= a < |s.At(i).past| ==> s.At(i).past[a].cid.instance in s.finished
  {
    assert RowOk(s, i);
  }

  /** In every reachable state an unlinked row holds no live entry, and all it ever logged is of finished instances. */
  lemma UnlinkedHoldsNothing(n: nat, actions: seq<Action>, i: nat)
    requires n > 0 && ChainOk(Run(n, actions)) && i < |Run(n, actions).chain|
    requires Run(n, actions).chain[i] in Run(n, actions).gone
    ensures Run(n, actions).At(i).logs == map[]
    ensures forall a :: 0 <= a < |Run(n, actions).At(i).past| ==>
      Run(n, actions).At(i).past[a].cid.instance in Run(n, actions).finished
  {
    RunKeeps(n, actions);
    GoneHoldsNothing(Run(n, actions), i);
  }

  /** What the store still holds of a logged operation. */
  ghost predicate FoundAt(s: Store, i: nat, p: Past)
    requires ChainOk(s)
  {
    i < |s.chain| && s.chain[i] !in s.gone && p.cid in s.At(i).logs && s.At(i).logs[p.cid] == p.out
  }

  lemma FoundWhileUnfinished(s: Store, i: nat, a: nat)
    requires Inv(s) && LoggedAt(s, i, a) && CidAt(s, i, a).instance !in s.finished
    ensures FoundAt(s, i, s.At(i).past[a])
  {
    LiveEntryIsThatOne(s, i, a);
    if s.chain[i] in s.gone {
      GoneHoldsNothing(s, i);
    }
  }

  /** An unfinished instance finds each operation it ever logged, with its outcome, in a row that is still linked. */
  lemma UnfinishedStaysFindable(n: nat, actions: seq<Action>, x: nat) returns (i: nat)
    requires n > 0 && x < |Journal(n, actions)| && Journal(n, actions)[x].cid.instance !in Run(n, actions).finished
    ensures ChainOk(Run(n, actions)) && FoundAt(Run(n, actions), i, Journal(n, actions)[x])
  {
    OneRegister(n, actions);
    var s := Run(n, actions);
    var a: nat;
    i, a := Located(s, |s.chain|, x);
    FoundWhileUnfinished(s, i, a);
  }

  lemma LiveEntryIsThatOne(s: Store, i: nat, a: nat)
    requires Inv(s) && LoggedAt(s, i, a) && CidAt(s, i, a).instance !in s.finished
    ensures CidAt(s, i, a) in s.At(i).logs && s.At(i).logs[CidAt(s, i, a)] == s.At(i).past[a].out
  {
    var c, r := CidAt(s, i, a), s.At(i);
    assert RowOk(s, i);
    var k: nat :| Entered(r.past, k, c, r.logs[c]);
    assert Distinct(s, i, k, i, a);
  }
}

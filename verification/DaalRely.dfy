/**
 What an executor of one instance may expect of everybody else between two of its database calls, and what of its own
 knowledge therefore stays true.
 */
module DaalRely {
  import opened Wrappers
  import opened Daal

  /**
   One operation in progress: its instance, the number of rows that had been unlinked when it began, and the rows it
   created and has not linked. A collector in progress additionally keeps other collectors away.
   */
  datatype Me = Me(instance: string, since: nat, temps: set<RowId>, collecting: bool)

  /** Unlinked before the operation began. */
  ghost predicate GoneEarly(gone: seq<RowId>, since: nat, id: RowId) {
    exists p: nat :: p < since && GoneAt(gone, id, p)
  }

  /** The collector deletes a row only when every operation begun before it was unlinked is over. */
  ghost predicate DeletedEarly(s: Store, since: nat) {
    since <= |s.gone| && forall id :: id in s.deleted ==> GoneEarly(s.gone, since, id)
  }

  /** An id that was logged and pruned is not logged again. */
  ghost predicate NoReturn(r: Row, r': Row) {
    forall c, k: nat :: c in r'.logs && c !in r.logs && k < |r.past| ==> r.past[k].cid != c
  }

  /** How a chain row may change: its history grows, but not once the row is full, and a set NEXTROW stays set. */
  ghost predicate RowGrows(r: Row, r': Row, n: nat, collecting: bool) {
    && r.past <= r'.past
    && (r.logSize >= n ==> r'.past == r.past && r'.v == r.v)
    && (r.next.Some? ==> r'.next.Some?)
    && r.gcSize <= r'.gcSize
    && NoReturn(r, r')
    && (collecting ==>
          && r'.gcSize == r.gcSize && (r.next.Some? ==> r'.next == r.next)
          && r'.ts == r.ts && r.logs.Keys <= r'.logs.Keys)
  }

  ghost predicate RowsGrow(s: Store, s': Store, collecting: bool)
    requires ChainOk(s) && ChainOk(s')
  {
    && s.chain <= s'.chain
    && forall i: nat :: i < |s.chain| ==> RowGrew(s, s', i, collecting)
  }

  ghost predicate RowGrew(s: Store, s': Store, i: nat, collecting: bool)
    requires ChainOk(s) && ChainOk(s') && i < |s.chain| && i < |s'.chain|
  {
    RowGrows(s.At(i), s'.At(i), s.n, collecting)
  }

  ghost predicate TempsKept(s: Store, s': Store, temps: set<RowId>) {
    forall id :: id in temps && id in s.rows && id !in s.chain ==>
      id in s'.rows && id !in s'.chain && s'.rows[id] == s.rows[id]
  }

  ghost predicate Rely(s: Store, s': Store, me: Me) {
    && Inv(s) && Inv(s') && s'.n == s.n
    && RowsGrow(s, s', me.collecting)
    && s.gone <= s'.gone
    && (me.collecting ==> s'.gone == s.gone && s'.deleted == s.deleted)
    && s.finished <= s'.finished
    && (me.instance in s'.finished ==> me.instance in s.finished)
    && (DeletedEarly(s, me.since) ==> DeletedEarly(s', me.since))
    && TempsKept(s, s', me.temps)
  }

  lemma RelyReflexive(s: Store, me: Me)
    requires Inv(s)
    ensures Rely(s, s, me)
  {
  }

  lemma PrefixTransitive<T>(a: seq<T>, b: seq<T>, c: seq<T>)
    requires a <= b <= c
    ensures a <= c
  {
    assert forall i :: 0 <= i < |a| ==> a[i] == b[i] == c[i];
  }

  lemma RelyTransitive(s: Store, t: Store, u: Store, me: Me)
    requires Rely(s, t, me) && Rely(t, u, me)
    ensures Rely(s, u, me)
  {
    PrefixTransitive(s.chain, t.chain, u.chain);
    PrefixTransitive(s.gone, t.gone, u.gone);
    RowsGrowTransitive(s, t, u, me.collecting);
  }

  lemma RowsGrowTransitive(s: Store, t: Store, u: Store, collecting: bool)
    requires Inv(s) && Inv(t) && Inv(u) && s.n == t.n && s.chain <= t.chain <= u.chain
    requires RowsGrow(s, t, collecting) && RowsGrow(t, u, collecting) && s.chain <= u.chain
    ensures RowsGrow(s, u, collecting)
  {
    forall i: nat | i < |s.chain| ensures RowGrew(s, u, i, collecting) {
      assert RowGrew(s, t, i, collecting) && RowGrew(t, u, i, collecting);
      assert RowOk(s, i) && RowOk(t, i);
      RowGrowsTransitive(s.At(i), t.At(i), u.At(i), s.n, collecting);
    }
  }

  lemma RowGrowsTransitive(r: Row, r': Row, r'': Row, n: nat, collecting: bool)
    requires RowGrows(r, r', n, collecting) && RowGrows(r', r'', n, collecting)
    requires r.logSize == Successes(r.past) && r'.logSize == Successes(r'.past)
    ensures RowGrows(r, r'', n, collecting)
  {
    assert forall i :: 0 <= i < |r.past| ==> r.past[i] == r'.past[i] == r''.past[i];
  }

  // ---- everybody else keeps to it ----

  /** An action of another executor, or of the collector. */
  ghost predicate ByOther(s: Store, a: Action, me: Me) {
    match a
    case Finish(instance) => instance != me.instance
    case LinkRow(_, newId) => newId !in me.temps
    case DropRow(id) => id !in me.temps
    case Prune(_, _) => !me.collecting
    case Relink(_, _, _) => !me.collecting
    case Mark(_, _) => !me.collecting
    case Delete(id) => !me.collecting && GoneEarly(s.gone, me.since, id)
    case _ => true
  }

  /** Logging adds to the last row only, and only ids that it never logged. */
  lemma LoggingKeepsRow(s: Store, id: RowId, cid: Cid, out: Outcome, update: Update, i: nat, collecting: bool)
    requires Inv(s) && CanLog(s, id, cid) && cid.instance !in s.finished && i < |s.chain|
    ensures RowGrows(s.At(i), Logged(s, id, cid, out, update).At(i), s.n, collecting)
  {
    assert RowOk(s, i);
  }

  lemma OthersKeepRow(s: Store, a: Action, me: Me, i: nat)
    requires Inv(s) && Enabled(s, a) && ByOther(s, a, me) && ChainOk(Do(s, a)) && i < |s.chain|
    ensures i < |Do(s, a).chain| && Do(s, a).chain[i] == s.chain[i]
    ensures RowGrows(s.At(i), Do(s, a).At(i), s.n, me.collecting)
  {
    match a
    case LogWrite(id, cid, update) => LoggingKeepsRow(s, id, cid, Plain, update, i, me.collecting);
    case LogCondWrite(id, cid, update, _) => LoggingKeepsRow(s, id, cid, Flag(true), update, i, me.collecting);
    case LogFailure(id, cid) => LoggingKeepsRow(s, id, cid, Flag(false), v => v, i, me.collecting);
    case _ =>
  }

  lemma OthersKeepTemps(s: Store, a: Action, me: Me)
    requires Inv(s) && Enabled(s, a) && ByOther(s, a, me) && ChainOk(Do(s, a))
    ensures TempsKept(s, Do(s, a), me.temps)
  {
  }

  lemma OthersDeleteEarly(s: Store, a: Action, me: Me)
    requires ChainOk(s) && Enabled(s, a) && ByOther(s, a, me) && DeletedEarly(s, me.since)
    ensures DeletedEarly(Do(s, a), me.since)
  {
    var s' := Do(s, a);
    assert s.gone <= s'.gone;
    forall id | id in s'.deleted ensures GoneEarly(s'.gone, me.since, id) {
      var p: nat :| p < me.since && GoneAt(s.gone, id, p);
      assert GoneAt(s'.gone, id, p);
    }
  }

  /** Each action of the others, and hence any number of them, respects what the operation relies on. */
  lemma OthersObey(s: Store, a: Action, me: Me)
    requires Inv(s) && Enabled(s, a) && ByOther(s, a, me)
    ensures Rely(s, Do(s, a), me)
  {
    ActionKeeps(s, a);
    var s' := Do(s, a);
    forall i: nat | i < |s.chain|
      ensures i < |s'.chain| && s'.chain[i] == s.chain[i] && RowGrew(s, s', i, me.collecting)
    {
      OthersKeepRow(s, a, me, i);
    }
    if DeletedEarly(s, me.since) { OthersDeleteEarly(s, a, me); }
    OthersKeepTemps(s, a, me);
  }

  // ---- what an operation learns and may keep ----

  lemma StaysFull(s: Store, t: Store, i: nat, me: Me)
    requires Rely(s, t, me) && i < |s.chain| && s.At(i).logSize >= s.n
    ensures t.At(i).logSize == s.At(i).logSize && t.At(i).past == s.At(i).past
  {
    assert RowGrew(s, t, i, me.collecting);
    assert RowOk(s, i) && RowOk(t, i);
  }

  /** Not unlinked before the operation began, hence not deleted while it lasts. */
  ghost predicate Safe(s: Store, since: nat, i: nat) {
    i < |s.chain| && !GoneEarly(s.gone, since, s.chain[i])
  }

  lemma GoneEarlyFixed(gone: seq<RowId>, gone': seq<RowId>, since: nat, id: RowId)
    requires gone <= gone' && since <= |gone|
    ensures GoneEarly(gone', since, id) == GoneEarly(gone, since, id)
  {
    if GoneEarly(gone, since, id) {
      var p: nat :| p < since && GoneAt(gone, id, p);
      assert GoneAt(gone', id, p);
    }
    if GoneEarly(gone', since, id) {
      var p: nat :| p < since && GoneAt(gone', id, p);
      assert GoneAt(gone, id, p);
    }
  }

  lemma SafeStays(s: Store, s': Store, me: Me, i: nat)
    requires Rely(s, s', me) && me.since <= |s.gone| && Safe(s, me.since, i)
    ensures Safe(s', me.since, i) && s'.chain[i] == s.chain[i]
  {
    GoneEarlyFixed(s.gone, s'.gone, me.since, s.chain[i]);
  }

  /** None of the rows from i up to j ever logged this id. */
  ghost predicate Clear(s: Store, i: nat, j: nat, cid: Cid)
    requires ChainOk(s)
  {
    forall k: nat, a: nat :: i <= k < j && LoggedAt(s, k, a) ==> CidAt(s, k, a) != cid
  }

  /** Rows that have a successor are full, so nothing is added to them. */
  lemma InteriorFrozen(s: Store, s': Store, me: Me, k: nat)
    requires Rely(s, s', me) && k + 1 < |s.chain|
    ensures s'.At(k).past == s.At(k).past
  {
    assert RowOk(s, k) && RowGrew(s, s', k, me.collecting);
  }

  lemma ClearStays(s: Store, s': Store, me: Me, i: nat, j: nat, cid: Cid)
    requires Rely(s, s', me) && j < |s.chain| && Clear(s, i, j, cid)
    ensures Clear(s', i, j, cid)
  {
    forall k: nat, a: nat | i <= k < j && LoggedAt(s', k, a) ensures CidAt(s', k, a) != cid {
      InteriorFrozen(s, s', me, k);
      assert LoggedAt(s, k, a);
    }
  }

  /** Where an executor looks next: a safe row, with its id in no row before. */
  ghost predicate Reached(s: Store, since: nat, i: nat, id: RowId, cid: Cid)
    requires ChainOk(s)
  {
    Safe(s, since, i) && s.chain[i] == id && Clear(s, 0, i, cid)
  }

  lemma ReachedStays(s: Store, s': Store, me: Me, i: nat, id: RowId, cid: Cid)
    requires Rely(s, s', me) && me.since <= |s.gone| && Reached(s, me.since, i, id, cid)
    ensures Reached(s', me.since, i, id, cid)
  {
    SafeStays(s, s', me, i);
    ClearStays(s, s', me, 0, i, cid);
  }

  lemma ReachedIsPassed(s: Store, since: nat, i: nat, id: RowId, cid: Cid)
    requires ChainOk(s) && Reached(s, since, i, id, cid)
    ensures Passed(s, id, cid)
  {
    assert PassedTo(s, i, id, cid);
  }

  /** Row i logged this operation. */
  ghost predicate Holds(s: Store, i: nat, p: Past)
    requires ChainOk(s)
  {
    i < |s.chain| && exists a: nat :: LoggedAt(s, i, a) && s.At(i).past[a] == p
  }

  lemma HoldsStays(s: Store, s': Store, me: Me, i: nat, p: Past)
    requires Rely(s, s', me) && Holds(s, i, p)
    ensures Holds(s', i, p)
  {
    var a: nat :| LoggedAt(s, i, a) && s.At(i).past[a] == p;
    assert RowGrew(s, s', i, me.collecting);
    assert LoggedAt(s', i, a) && s'.At(i).past[a] == p;
  }

  lemma LiveIsHeld(s: Store, i: nat, cid: Cid) returns (p: Past)
    requires ChainOk(s) && RowsOk(s) && i < |s.chain| && cid in s.At(i).logs
    ensures Holds(s, i, p) && p.cid == cid && p.out == s.At(i).logs[cid]
  {
    assert RowOk(s, i);
    var k: nat :| Entered(s.At(i).past, k, cid, s.At(i).logs[cid]);
    p := s.At(i).past[k];
    assert LoggedAt(s, i, k);
  }

  /** An id of an unfinished instance that is in LOGS stays there. */
  lemma LiveStays(s: Store, s': Store, me: Me, i: nat, cid: Cid)
    requires Rely(s, s', me) && i < |s.chain| && cid in s.At(i).logs && cid.instance !in s'.finished
    ensures cid in s'.At(i).logs
  {
    var p := LiveIsHeld(s, i, cid);
    HoldsStays(s, s', me, i, p);
    assert RowOk(s', i);
  }

  lemma NotLiveIsClear(s: Store, i: nat, cid: Cid)
    requires ChainOk(s) && RowsOk(s) && i < |s.chain| && cid !in s.At(i).logs && cid.instance !in s.finished
    ensures Clear(s, i, i + 1, cid)
  {
    assert RowOk(s, i);
  }

  /** Rows that NEXTROW skips belong to finished instances only. */
  lemma SkippedIsClear(s: Store, i: nat, j: nat, cid: Cid)
    requires Inv(s) && i < |s.chain| && LeadsTo(s, i, j) && cid.instance !in s.finished
    ensures Clear(s, i + 1, j, cid)
  {
    forall k: nat, a: nat | i + 1 <= k < j && LoggedAt(s, k, a) ensures CidAt(s, k, a) != cid {
      assert s.chain[k] in s.gone;
      GoneIsFinished(s, k, a);
    }
  }

  lemma GoneIsFinished(s: Store, k: nat, a: nat)
    requires Inv(s) && LoggedAt(s, k, a) && s.chain[k] in s.gone
    ensures CidAt(s, k, a).instance in s.finished
  {
    assert RowOk(s, k);
    assert |s.At(k).logs| == 0;
  }

  /** From a safe row NEXTROW leads to a safe row. */
  lemma NextIsSafe(s: Store, since: nat, i: nat, j: nat)
    requires ChainOk(s) && i < |s.chain| && LeadsTo(s, i, j) && Safe(s, since, i) && since <= |s.gone|
    ensures Safe(s, since, j)
  {
    if GoneEarly(s.gone, since, s.chain[j]) {
      var q: nat :| q < since && GoneAt(s.gone, s.chain[j], q);
      var p: nat :| p < |s.gone| && s.gone[p] == s.chain[i];
      assert GoneAt(s.gone, s.chain[i], p);
      assert GoneEarly(s.gone, since, s.chain[i]);
    }
  }

  /** One step along NEXTROW from a row that does not have the id. */
  lemma NextReached(s: Store, since: nat, i: nat, cid: Cid) returns (j: nat)
    requires Inv(s) && since <= |s.gone| && i < |s.chain| && s.At(i).next.Some? && cid.instance !in s.finished
    requires Clear(s, i, i + 1, cid)
    ensures i < j < |s.chain| && s.At(i).next == Some(s.chain[j]) && Clear(s, i, j, cid)
    ensures Safe(s, since, i) ==> Safe(s, since, j)
  {
    assert RowOk(s, i);
    j :| LeadsTo(s, i, j);
    SkippedIsClear(s, i, j, cid);
    if Safe(s, since, i) { NextIsSafe(s, since, i, j); }
  }

  // ---- how long an operation can take ----

  lemma InteriorTookEntry(s: Store, k: nat)
    requires Inv(s) && k + 1 < |s.chain|
    ensures |s.At(k).past| > 0
  {
    assert RowOk(s, k);
  }

  lemma {:induction false} LongChainLongHistory(s: Store, k: nat)
    requires Inv(s) && k < |s.chain|
    ensures k <= |Hist(s, k)|
  {
    if k > 0 {
      LongChainLongHistory(s, k - 1);
      InteriorTookEntry(s, k - 1);
      assert Hist(s, k) == Hist(s, k - 1) + s.At(k - 1).past;
    }
  }

  lemma {:induction false} HistMonotone(s: Store, k: nat, m: nat)
    requires ChainOk(s) && k <= m <= |s.chain|
    ensures |Hist(s, k)| <= |Hist(s, m)|
    decreases m - k
  {
    if k < m { HistMonotone(s, k, m - 1); }
  }

  /** Each row but the last took at least one entry. */
  lemma IndexBounded(s: Store, i: nat)
    requires Inv(s) && i < |s.chain|
    ensures i <= |Hist(s, |s.chain|)|
  {
    LongChainLongHistory(s, i);
    HistMonotone(s, i, |s.chain|);
  }
}

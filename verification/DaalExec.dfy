/**
 Beldi's reads and writes of one key, statement by statement, between arbitrary actions of everybody else.
 */
module DaalExec {
  import opened Wrappers
  import opened Daal
  import opened DaalRuns
  import opened DaalRely

  /** The write a handler issues under one id; re-executions issue the same. */
  datatype Call = Write(update: Update) | CondWrite(update: Update, cond: Option<string> -> bool)

  /** After this journal the entry is one that the call may make; a condition speaks of the register. */
  ghost predicate Fits(before: seq<Past>, p: Past, call: Call) {
    match call
    case Write(update) => p.out == Plain && p.update == update
    case CondWrite(update, cond) =>
      || (p.out == Flag(true) && p.update == update && cond(Fold(None, before)))
      || (p.out == Flag(false) && WasFalse(before, cond))
  }

  /** The condition did not hold of the register at some moment: after the first k operations. */
  ghost predicate WasFalse(journal: seq<Past>, cond: Option<string> -> bool) {
    exists k: nat :: FalseAfter(journal, k, cond)
  }

  ghost predicate FalseAfter(journal: seq<Past>, k: nat, cond: Option<string> -> bool) {
    k <= |journal| && !cond(Fold(None, journal[..k]))
  }

  lemma StillWasFalse(journal: seq<Past>, longer: seq<Past>, cond: Option<string> -> bool)
    requires journal <= longer && WasFalse(journal, cond)
    ensures WasFalse(longer, cond)
  {
    var k: nat :| FalseAfter(journal, k, cond);
    assert longer[..k] == journal[..k];
    assert FalseAfter(longer, k, cond);
  }

  ghost predicate FitsAt(journal: seq<Past>, x: nat, call: Call) {
    x < |journal| && Fits(journal[..x], journal[x], call)
  }

  ghost predicate AllFit(journal: seq<Past>, calls: Cid -> Call) {
    forall x: nat :: x < |journal| ==> FitsAt(journal, x, calls(journal[x].cid))
  }

  lemma FitsAppend(journal: seq<Past>, p: Past, calls: Cid -> Call)
    requires AllFit(journal, calls) && Fits(journal, p, calls(p.cid))
    ensures AllFit(journal + [p], calls)
  {
    var longer := journal + [p];
    forall x: nat | x < |longer| ensures FitsAt(longer, x, calls(longer[x].cid)) {
      if x < |journal| {
        assert FitsAt(journal, x, calls(journal[x].cid)) && longer[..x] == journal[..x];
      } else {
        assert longer[..x] == journal;
      }
    }
  }

  /** This operation is in the journal of the chain, once, and no other has its id. */
  ghost predicate Done(s: Store, p: Past)
    requires ChainOk(s)
  {
    exists x: nat :: x < |All(s)| && All(s)[x] == p && forall y: nat :: InJournal(All(s), y, p.cid) ==> y == x
  }

  lemma HeldIsDone(s: Store, i: nat, p: Past)
    requires Inv(s) && Holds(s, i, p)
    ensures Done(s, p)
  {
    var a: nat :| LoggedAt(s, i, a) && s.At(i).past[a] == p;
    Positioned(s, |s.chain|, i, a);
    var x := |Hist(s, i)| + a;
    UniqueMeansOnce(s);
    assert InJournal(All(s), x, p.cid);
  }

  /** What the query returned of one row: the row, the outcome under the id if any, and NEXTROW. */
  datatype Item = Item(row: RowId, found: Option<Outcome>, next: Option<RowId>)

  /** Logged somewhere with this outcome. */
  ghost predicate Outcomed(s: Store, cid: Cid, out: Outcome)
    requires ChainOk(s)
  {
    exists i: nat, p: Past :: Holds(s, i, p) && p.cid == cid && p.out == out
  }

  /** What an item still tells: where its NEXTROW leads, and that the rows passed on the way do not have the id. */
  ghost predicate Edge(s: Store, since: nat, row: RowId, next: RowId, cid: Option<Cid>, i: nat, j: nat)
    requires ChainOk(s)
  {
    && i < j < |s.chain| && s.chain[i] == row && s.chain[j] == next
    && (Safe(s, since, i) ==> Safe(s, since, j))
    && (cid.Some? ==> Clear(s, i, j, cid.value))
  }

  ghost predicate ItemOk(s: Store, since: nat, item: Item, cid: Option<Cid>)
    requires ChainOk(s)
  {
    && s.chain != []
    && (item.found.Some? ==> cid.Some? && Outcomed(s, cid.value, item.found.value))
    && (item.found.None? && item.next.Some? ==>
          exists i: nat, j: nat :: Edge(s, since, item.row, item.next.value, cid, i, j))
  }

  lemma OutcomedStays(s: Store, s': Store, me: Me, cid: Cid, out: Outcome)
    requires Rely(s, s', me) && Outcomed(s, cid, out)
    ensures Outcomed(s', cid, out)
  {
    var i: nat, p: Past :| Holds(s, i, p) && p.cid == cid && p.out == out;
    HoldsStays(s, s', me, i, p);
  }

  lemma EdgeStays(s: Store, s': Store, me: Me, row: RowId, next: RowId, cid: Option<Cid>, i: nat, j: nat)
    requires Rely(s, s', me) && me.since <= |s.gone| && Edge(s, me.since, row, next, cid, i, j)
    ensures Edge(s', me.since, row, next, cid, i, j)
  {
    GoneEarlyFixed(s.gone, s'.gone, me.since, row);
    GoneEarlyFixed(s.gone, s'.gone, me.since, next);
    if cid.Some? { ClearStays(s, s', me, i, j, cid.value); }
  }

  lemma ItemStays(s: Store, s': Store, me: Me, item: Item, cid: Option<Cid>)
    requires Rely(s, s', me) && me.since <= |s.gone| && ItemOk(s, me.since, item, cid)
    ensures ItemOk(s', me.since, item, cid)
  {
    if item.found.Some? { OutcomedStays(s, s', me, cid.value, item.found.value); }
    if item.found.None? && item.next.Some? {
      var i: nat, j: nat :| Edge(s, me.since, item.row, item.next.value, cid, i, j);
      EdgeStays(s, s', me, item.row, item.next.value, cid, i, j);
    }
  }

  /** The item of a row as it is now. */
  lemma FreshItem(s: Store, since: nat, id: RowId, cid: Option<Cid>, item: Item)
    requires Inv(s) && since <= |s.gone| && id in s.rows && (cid.Some? ==> cid.value.instance !in s.finished)
    requires item.row == id && item.next == s.rows[id].next
    requires item.found ==
               if cid.Some? && cid.value in s.rows[id].logs then Some(s.rows[id].logs[cid.value]) else None
    ensures ItemOk(s, since, item, cid)
  {
    if id in s.chain {
      var i: nat :| i < |s.chain| && s.chain[i] == id;
      if item.found.Some? {
        var p := LiveIsHeld(s, i, cid.value);
      } else if item.next.Some? {
        FreshEdge(s, since, i, cid);
      }
    }
  }

  lemma FreshEdge(s: Store, since: nat, i: nat, cid: Option<Cid>)
    requires Inv(s) && since <= |s.gone| && i < |s.chain| && s.At(i).next.Some?
    requires cid.Some? ==> cid.value.instance !in s.finished && cid.value !in s.At(i).logs
    ensures exists j: nat :: Edge(s, since, s.chain[i], s.At(i).next.value, cid, i, j)
  {
    if cid.Some? {
      NotLiveIsClear(s, i, cid.value);
      var j := NextReached(s, since, i, cid.value);
      assert Edge(s, since, s.chain[i], s.At(i).next.value, cid, i, j);
    } else {
      var j := NextIndex(s, i);
      if Safe(s, since, i) { NextIsSafe(s, since, i, j); }
      assert Edge(s, since, s.chain[i], s.At(i).next.value, cid, i, j);
    }
  }

  ghost predicate ItemsOk(s: Store, since: nat, items: seq<Item>, cid: Option<Cid>)
    requires ChainOk(s)
  {
    forall k :: 0 <= k < |items| ==> ItemOk(s, since, items[k], cid)
  }

  lemma ItemsStay(s: Store, s': Store, me: Me, items: seq<Item>, cid: Option<Cid>)
    requires Rely(s, s', me) && me.since <= |s.gone| && ItemsOk(s, me.since, items, cid)
    ensures ItemsOk(s', me.since, items, cid)
  {
    forall k | 0 <= k < |items| ensures ItemOk(s', me.since, items[k], cid) { ItemStays(s, s', me, items[k], cid); }
  }

  ghost predicate EdgeExists(s: Store, since: nat, row: RowId, next: RowId, cid: Option<Cid>)
    requires ChainOk(s)
  {
    exists i: nat, j: nat :: Edge(s, since, row, next, cid, i, j)
  }

  ghost predicate IdxOk(s: Store, since: nat, idx: map<RowId, RowId>, cid: Option<Cid>)
    requires ChainOk(s)
  {
    forall row :: row in idx ==> EdgeExists(s, since, row, idx[row], cid)
  }

  /** Where a walk along the collected pointers stands. */
  ghost predicate Walked(s: Store, since: nat, i: nat, id: RowId, cid: Option<Cid>)
    requires ChainOk(s)
  {
    Safe(s, since, i) && s.chain[i] == id && (cid.Some? ==> Clear(s, 0, i, cid.value))
  }

  lemma WalkOn(s: Store, since: nat, i: nat, idx: map<RowId, RowId>, id: RowId, cid: Option<Cid>) returns (j: nat)
    requires ChainOk(s) && IdxOk(s, since, idx, cid) && Walked(s, since, i, id, cid) && id in idx
    ensures i < j < |s.chain| && Walked(s, since, j, idx[id], cid)
  {
    assert EdgeExists(s, since, id, idx[id], cid);
    var i': nat, j': nat :| Edge(s, since, id, idx[id], cid, i', j');
    assert i' == i;
    j := j';
  }

  /** The id is in the journal, once, with this outcome, and the entry is one that the call makes there. */
  ghost predicate Ended(s: Store, cid: Cid, call: Call, out: Outcome)
    requires ChainOk(s)
  {
    exists x: nat :: EndedAt(All(s), x, cid, call, out)
  }

  ghost predicate EndedAt(journal: seq<Past>, x: nat, cid: Cid, call: Call, out: Outcome) {
    && InJournal(journal, x, cid) && journal[x].out == out && FitsAt(journal, x, call)
    && forall y: nat :: InJournal(journal, y, cid) ==> y == x
  }

  lemma OutcomedIsEnded(s: Store, cid: Cid, out: Outcome, calls: Cid -> Call)
    requires Inv(s) && AllFit(All(s), calls) && Outcomed(s, cid, out)
    ensures Ended(s, cid, calls(cid), out)
  {
    var i: nat, p: Past :| Holds(s, i, p) && p.cid == cid && p.out == out;
    HeldIsDone(s, i, p);
    var x: nat :| x < |All(s)| && All(s)[x] == p && forall y: nat :: InJournal(All(s), y, p.cid) ==> y == x;
    assert FitsAt(All(s), x, calls(cid));
    assert EndedAt(All(s), x, cid, calls(cid), out);
  }

  /** A write that ended took effect exactly once. */
  lemma WriteEnded(s: Store, cid: Cid, update: Update, out: Outcome)
    requires ChainOk(s) && Ended(s, cid, Write(update), out)
    ensures Done(s, Past(cid, Plain, update)) && out == Plain
  {
    var x: nat :| EndedAt(All(s), x, cid, Write(update), out);
    assert All(s)[x] == Past(cid, Plain, update);
  }

  /**
   A conditional write that ended took effect exactly once if the outcome is true, when its condition held of the
   register; otherwise it never took effect, and the condition did not hold of the register at some moment before.
   */
  lemma CondWriteEnded(s: Store, cid: Cid, update: Update, cond: Option<string> -> bool, out: Outcome)
    requires ChainOk(s) && Ended(s, cid, CondWrite(update, cond), out)
    ensures out == Flag(true) ==>
              exists x: nat :: TookEffectAt(All(s), x, Past(cid, Flag(true), update)) && cond(Fold(None, All(s)[..x]))
    ensures out != Flag(true) ==>
              exists x: nat :: NoEffectAt(All(s), x, cid) && WasFalse(All(s)[..x], cond)
  {
    var x: nat :| EndedAt(All(s), x, cid, CondWrite(update, cond), out);
    if out == Flag(true) {
      assert All(s)[x] == Past(cid, Flag(true), update);
      assert TookEffectAt(All(s), x, Past(cid, Flag(true), update));
    } else {
      assert NoEffectAt(All(s), x, cid);
    }
  }

  /** The x-th operation is this one, and no other has its id. */
  ghost predicate TookEffectAt(journal: seq<Past>, x: nat, p: Past) {
    x < |journal| && journal[x] == p && p.Applied() && forall y: nat :: InJournal(journal, y, p.cid) ==> y == x
  }

  /** The id was logged as the x-th operation without effect, and nowhere else. */
  ghost predicate NoEffectAt(journal: seq<Past>, x: nat, cid: Cid) {
    && InJournal(journal, x, cid) && !journal[x].Applied()
    && forall y: nat :: InJournal(journal, y, cid) ==> y == x
  }

  /** Whoever learns the outcome later learns the same one. */
  lemma OutcomeAgreed(s: Store, s': Store, me: Me, cid: Cid, call: Call, out: Outcome, out': Outcome)
    requires Rely(s, s', me) && Ended(s, cid, call, out) && Ended(s', cid, call, out')
    ensures out == out'
  {
    var x: nat :| EndedAt(All(s), x, cid, call, out);
    var x': nat :| EndedAt(All(s'), x', cid, call, out');
    DoneStays(s, s', me, All(s)[x]);
    var y: nat :| y < |All(s')| && All(s')[y] == All(s)[x];
    assert InJournal(All(s'), y, cid);
  }

  lemma DoneStays(s: Store, s': Store, me: Me, p: Past)
    requires Rely(s, s', me) && Done(s, p)
    ensures Done(s', p)
  {
    var x: nat :| x < |All(s)| && All(s)[x] == p;
    var i, a := Located(s, |s.chain|, x);
    assert Holds(s, i, p);
    HoldsStays(s, s', me, i, p);
    HeldIsDone(s', i, p);
  }

  function AsBool(out: Outcome): Result<bool> {
    match out
    case Flag(b) => Ok(b)
    case Plain => Panic("interface conversion: interface {} is nil, not bool")
  }

  /** Some id is always unused: one longer than all that are used. */
  lemma UnusedExists(used: set<RowId>)
    ensures exists id: RowId :: id !in used && id != HEAD
  {
    var id := Longer(used + {HEAD});
  }

  ghost function Longer(used: set<RowId>): (id: RowId)
    ensures forall u :: u in used ==> |u| < |id|
  {
    if used == {} then "x"
    else
      var u :| u in used;
      var rest := Longer(used - {u});
      assert forall w :: w in used ==> w == u || w in used - {u};
      u + rest + "x"
  }

  /** A full row without the id: the executor must go on to the next one. */
  ghost predicate Exhausted(s: Store, since: nat, i: nat, id: RowId, cid: Cid)
    requires ChainOk(s)
  {
    Reached(s, since, i, id, cid) && Clear(s, i, i + 1, cid) && s.At(i).logSize >= s.n
  }

  lemma ExhaustedStays(s: Store, s': Store, me: Me, i: nat, id: RowId, cid: Cid)
    requires Rely(s, s', me) && me.since <= |s.gone| && Exhausted(s, me.since, i, id, cid)
    ensures Exhausted(s', me.since, i, id, cid) && s'.rows[id].v == s.rows[id].v
  {
    ReachedStays(s, s', me, i, id, cid);
    assert RowGrew(s, s', i, me.collecting);
    StaysFull(s, s', i, me);
    assert forall a: nat :: LoggedAt(s', i, a) ==> LoggedAt(s, i, a) && CidAt(s', i, a) == CidAt(s, i, a);
  }

  /** A failed attempt to log at row i and a later look that does not show the id: the row is full. */
  lemma FoundFull(s: Store, s': Store, me: Me, i: nat, id: RowId, cid: Cid)
    requires Rely(s, s', me) && me.since <= |s.gone| && Reached(s, me.since, i, id, cid) && s.Present(id)
    requires !CanLog(s, id, cid) && cid.instance !in s'.finished && cid !in s'.rows[id].logs && id in s'.rows
    ensures Exhausted(s', me.since, i, id, cid)
  {
    ReachedStays(s, s', me, i, id, cid);
    if cid in s.At(i).logs { LiveStays(s, s', me, i, cid); }
    StaysFull(s, s', i, me);
    NotLiveIsClear(s', i, cid);
  }

  /** Past an exhausted row, NEXTROW leads to the next place to look. */
  lemma GoOn(s: Store, since: nat, i: nat, id: RowId, cid: Cid) returns (j: nat)
    requires Inv(s) && since <= |s.gone| && Exhausted(s, since, i, id, cid) && s.rows[id].next.Some?
    requires cid.instance !in s.finished
    ensures i < j && Reached(s, since, j, s.rows[id].next.value, cid)
  {
    j := NextReached(s, since, i, cid);
  }

  /** A row just linked after the exhausted one is the next place to look. */
  lemma GoToNew(s: Store, since: nat, i: nat, id: RowId, newId: RowId, cid: Cid)
    requires Inv(s) && Enabled(s, LinkRow(id, newId)) && Exhausted(s, since, i, id, cid)
    requires Inv(Do(s, LinkRow(id, newId)))
    ensures i < |s.chain| && Reached(Do(s, LinkRow(id, newId)), since, |s.chain|, newId, cid)
  {
    var s', m := Do(s, LinkRow(id, newId)), |s.chain|;
    OpenRowIsLast(s, i);
    assert newId !in s.gone;
    forall k: nat, a: nat | 0 <= k < m && LoggedAt(s', k, a) ensures CidAt(s', k, a) != cid {
      assert LoggedAt(s, k, a);
    }
  }

  ghost predicate ReadLogKept(log: map<Cid, Option<string>>, log': map<Cid, Option<string>>, instance: string) {
    forall c :: c in log && c.instance == instance ==> c in log' && log'[c] == log[c]
  }

  lemma LoggedNow(s: Store, id: RowId, i: nat, p: Past, me: Me, calls: Cid -> Call)
    requires Inv(s) && Reached(s, me.since, i, id, p.cid) && CanLog(s, id, p.cid) && p.cid.instance !in s.finished
    requires AllFit(All(s), calls) && Fits(All(s), p, calls(p.cid)) && DeletedEarly(s, me.since)
    ensures var s' := Logged(s, id, p.cid, p.out, p.update);
      Inv(s') && AllFit(All(s'), calls) && All(s') == All(s) + [p] && DeletedEarly(s', me.since)
    ensures Holds(Logged(s, id, p.cid, p.out, p.update), i, p)
  {
    ReachedIsPassed(s, me.since, i, id, p.cid);
    LogKeeps(s, id, p.cid, p.out, p.update);
    LogAppends(s, id, p.cid, p.out, p.update);
    FitsAppend(All(s), p, calls);
    var s' := Logged(s, id, p.cid, p.out, p.update);
    assert LoggedAt(s', i, |s.At(i).past|);
    assert s'.At(i).past[|s.At(i).past|] == p;
  }

  lemma LoggedObeys(s: Store, id: RowId, p: Past, me: Me)
    requires Inv(s) && CanLog(s, id, p.cid) && p.cid.instance !in s.finished && id in s.chain
    requires Inv(Logged(s, id, p.cid, p.out, p.update))
    ensures Rely(s, Logged(s, id, p.cid, p.out, p.update), me)
  {
    var s' := Logged(s, id, p.cid, p.out, p.update);
    forall i: nat | i < |s.chain| ensures RowGrew(s, s', i, me.collecting) {
      LoggingKeepsRow(s, id, p.cid, p.out, p.update, i, me.collecting);
    }
    assert TempsKept(s, s', me.temps);
  }

  function Anything(v: Option<string>): bool { true }

  lemma FalseNow(s: Store, cond: Option<string> -> bool)
    requires Inv(s) && !cond(Register(s))
    ensures WasFalse(All(s), cond)
  {
    RegisterIsFold(s);
    assert All(s)[..|All(s)|] == All(s);
    assert FalseAfter(All(s), |All(s)|, cond);
  }

  ghost predicate Sane(s: Store, me: Me, instance: string, bound: nat, calls: Cid -> Call) {
    && Inv(s) && me.instance == instance && instance !in s.finished && DeletedEarly(s, me.since)
    && |All(s)| <= bound && AllFit(All(s), calls)
  }

  /** What logging an operation achieves. */
  lemma LogEffect(s: Store, id: RowId, i: nat, p: Past, me: Me, bound: nat, calls: Cid -> Call)
    requires Sane(s, me, p.cid.instance, bound, calls) && Reached(s, me.since, i, id, p.cid) && CanLog(s, id, p.cid)
    requires Fits(All(s), p, calls(p.cid))
    ensures var s' := Logged(s, id, p.cid, p.out, p.update);
      && Sane(s', me, p.cid.instance, bound + 1, calls) && Rely(s, s', me) && Reached(s', me.since, i, id, p.cid)
      && Holds(s', i, p) && All(s') == All(s) + [p]
  {
    LoggedNow(s, id, i, p, me, calls);
    LoggedObeys(s, id, p, me);
    ReachedStays(s, Logged(s, id, p.cid, p.out, p.update), me, i, id, p.cid);
  }

  /** Where the executor stands, the row exists; if it takes an entry, it holds the register. */
  lemma StandsOn(s: Store, s': Store, me: Me, i: nat, id: RowId, cid: Cid)
    requires Rely(s, s', me) && DeletedEarly(s, me.since) && Reached(s, me.since, i, id, cid)
    ensures Reached(s', me.since, i, id, cid) && s'.Present(id)
    ensures (CanLog(s', id, cid) ==> s'.rows[id].v == Register(s'))
  {
    ReachedStays(s, s', me, i, id, cid);
    if s'.rows[id].logSize < s'.n { OpenRowIsLast(s', i); }
  }

  ghost function NoTemps(me: Me): Me { me.(temps := {}) }

  /** A new row with the V of row `id`, not linked yet and known to its creator only. */
  ghost predicate TempFor(s: Store, id: RowId, newId: RowId)
    requires ChainOk(s)
  {
    id in s.rows && newId in s.rows && newId !in s.chain && s.rows[newId].v == s.rows[id].v
  }

  lemma TempStays(s: Store, s': Store, me: Me, i: nat, id: RowId, newId: RowId, cid: Cid)
    requires Rely(s, s', me) && me.since <= |s.gone| && Exhausted(s, me.since, i, id, cid)
    requires TempFor(s, id, newId) && newId in me.temps
    ensures Exhausted(s', me.since, i, id, cid) && TempFor(s', id, newId)
  {
    ExhaustedStays(s, s', me, i, id, cid);
  }

  function Created(s: Store, newId: RowId, v: Option<string>): Store {
    s.(rows := s.rows[newId := NewRow(v)])
  }

  function Linked(s: Store, id: RowId, newId: RowId): Store
    requires id in s.rows
  {
    s.(rows := s.rows[id := s.rows[id].(next := Some(newId))], chain := s.chain + [newId])
  }

  function Dropped(s: Store, newId: RowId): Store {
    s.(rows := s.rows - {newId})
  }

  lemma CreateEffect(s: Store, id: RowId, newId: RowId, i: nat, cid: Cid, me: Me, bound: nat, calls: Cid -> Call)
    requires Sane(s, me, cid.instance, bound, calls) && Exhausted(s, me.since, i, id, cid) && newId !in s.rows
    requires newId != HEAD
    ensures var s' := Created(s, newId, s.rows[id].v);
      && Sane(s', me, cid.instance, bound, calls) && Rely(s, s', NoTemps(me)) && SameJournal(s, s')
      && TempFor(s', id, newId) && Exhausted(s', me.since, i, id, cid)
  {
    var a := CreateRow(newId, s.rows[id].v);
    OthersObey(s, a, NoTemps(me));
    OthersLogNothing(s, a);
    ExhaustedStays(s, Do(s, a), NoTemps(me), i, id, cid);
  }

  lemma LinkEffect(s: Store, id: RowId, newId: RowId, i: nat, cid: Cid, me: Me, bound: nat, calls: Cid -> Call)
    requires Sane(s, me, cid.instance, bound, calls) && Exhausted(s, me.since, i, id, cid) && TempFor(s, id, newId)
    requires s.rows[id].next.None?
    ensures var s' := Linked(s, id, newId);
      && Sane(s', me, cid.instance, bound, calls) && Rely(s, s', NoTemps(me)) && SameJournal(s, s')
      && i < |s.chain| && Reached(s', me.since, |s.chain|, newId, cid)
  {
    var a := LinkRow(id, newId);
    OthersObey(s, a, NoTemps(me));
    OthersLogNothing(s, a);
    GoToNew(s, me.since, i, id, newId, cid);
  }

  lemma DropEffect(s: Store, id: RowId, newId: RowId, i: nat, cid: Cid, me: Me, bound: nat, calls: Cid -> Call)
    requires Sane(s, me, cid.instance, bound, calls) && Exhausted(s, me.since, i, id, cid) && TempFor(s, id, newId)
    ensures var s' := Dropped(s, newId);
      && Sane(s', me, cid.instance, bound, calls) && Rely(s, s', NoTemps(me)) && SameJournal(s, s')
      && Exhausted(s', me.since, i, id, cid)
  {
    var a := DropRow(newId);
    OthersObey(s, a, NoTemps(me));
    OthersLogNothing(s, a);
    ExhaustedStays(s, Do(s, a), NoTemps(me), i, id, cid);
  }

  /** The journal is as before. */
  ghost predicate SameJournal(s: Store, s': Store) {
    ChainOk(s) && ChainOk(s') && All(s') == All(s)
  }

  ghost predicate Linking(s0: Store, s1: Store, s2: Store, newId: RowId, cid: Cid, me: Me, bound: nat,
                          calls: Cid -> Call) {
    && Sane(s2, me, cid.instance, bound, calls) && Rely(s0, s2, NoTemps(me)) && SameJournal(s1, s2)
    && Reached(s2, me.since, |s1.chain|, newId, cid)
  }

  ghost predicate Logging(s0: Store, s1: Store, s2: Store, id: RowId, i: nat, p: Past, me: Me, bound: nat,
                          calls: Cid -> Call) {
    && Sane(s2, me, p.cid.instance, bound + 1, calls) && Rely(s0, s2, me) && Reached(s2, me.since, i, id, p.cid)
    && Holds(s2, i, p) && ChainOk(s1) && All(s2) == All(s1) + [p]
  }

  ghost predicate Dropping(s0: Store, s1: Store, s2: Store, id: RowId, i: nat, cid: Cid, me: Me, bound: nat,
                           calls: Cid -> Call) {
    && Sane(s2, me, cid.instance, bound, calls) && Rely(s0, s2, NoTemps(me)) && SameJournal(s1, s2)
    && Exhausted(s2, me.since, i, id, cid)
  }

  ghost predicate Creating(s0: Store, s1: Store, s2: Store, id: RowId, newId: RowId, i: nat, cid: Cid, me: Me,
                           bound: nat, calls: Cid -> Call) {
    && Sane(s2, me.(temps := {newId}), cid.instance, bound, calls) && Rely(s0, s2, me) && SameJournal(s1, s2)
    && Exhausted(s2, me.since, i, id, cid) && TempFor(s2, id, newId)
  }

  /** From one database call to the next: what others did, then the own conditional update of NEXTROW. */
  lemma SwapStep(s0: Store, s1: Store, id: RowId, newId: RowId, i: nat, cid: Cid, me: Me, bound: nat,
                 calls: Cid -> Call)
    requires Sane(s1, me, cid.instance, bound, calls) && Rely(s0, s1, me) && me.temps == {newId}
    requires me.since <= |s0.gone| && Exhausted(s0, me.since, i, id, cid) && TempFor(s0, id, newId)
    ensures Exhausted(s1, me.since, i, id, cid) && TempFor(s1, id, newId) && Rely(s0, s1, NoTemps(me))
    ensures s1.rows[id].next.None? ==>
      i < |s1.chain| && Linking(s0, s1, Linked(s1, id, newId), newId, cid, me, bound, calls)
  {
    TempStays(s0, s1, me, i, id, newId, cid);
    if s1.rows[id].next.None? {
      LinkEffect(s1, id, newId, i, cid, me, bound, calls);
      RelyTransitive(s0, s1, Linked(s1, id, newId), NoTemps(me));
    }
  }

  lemma DropStep(s0: Store, s1: Store, id: RowId, newId: RowId, i: nat, cid: Cid, me: Me, bound: nat,
                 calls: Cid -> Call)
    requires Sane(s1, me, cid.instance, bound, calls) && Rely(s0, s1, me) && me.temps == {newId}
    requires me.since <= |s0.gone| && Exhausted(s0, me.since, i, id, cid) && TempFor(s0, id, newId)
    ensures Dropping(s0, s1, Dropped(s1, newId), id, i, cid, me, bound, calls)
  {
    TempStays(s0, s1, me, i, id, newId, cid);
    DropEffect(s1, id, newId, i, cid, me, bound, calls);
    RelyTransitive(s0, s1, Dropped(s1, newId), NoTemps(me));
  }

  lemma CreateStep(s0: Store, s1: Store, id: RowId, newId: RowId, i: nat, cid: Cid, me: Me, bound: nat,
                   calls: Cid -> Call)
    requires Sane(s1, me, cid.instance, bound, calls) && Rely(s0, s1, me) && me.temps == {}
    requires me.since <= |s0.gone| && Exhausted(s0, me.since, i, id, cid) && newId !in s1.rows && newId != HEAD
    ensures id in s1.rows && s1.rows[id].v == s0.rows[id].v
    ensures Creating(s0, s1, Created(s1, newId, s1.rows[id].v), id, newId, i, cid, me, bound, calls)
  {
    ExhaustedStays(s0, s1, me, i, id, cid);
    CreateEffect(s1, id, newId, i, cid, me, bound, calls);
    RelyTransitive(s0, s1, Created(s1, newId, s1.rows[id].v), me);
  }

  /** Why the executor may log this: it is what the call asks for, on whatever register the update then finds. */
  ghost predicate Justified(s: Store, id: RowId, p: Past, cond: Option<string> -> bool, call: Call)
    requires ChainOk(s)
  {
    match call
    case Write(update) => p.out == Plain && p.update == update
    case CondWrite(update, test) =>
      || (p.out == Flag(true) && p.update == update && cond == test)
      || (p.out == Flag(false) && (WasFalse(All(s), test) || !CanLog(s, id, p.cid)))
  }

  /** Where the id is in LOGS, or the row is full, it stays so. */
  lemma CannotLogStays(s: Store, s': Store, me: Me, i: nat, id: RowId, cid: Cid)
    requires Rely(s, s', me) && DeletedEarly(s, me.since) && Reached(s, me.since, i, id, cid)
    requires cid.instance !in s'.finished && !CanLog(s, id, cid)
    ensures !CanLog(s', id, cid)
  {
    StandsOn(s, s, me, i, id, cid);
    ReachedStays(s, s', me, i, id, cid);
    if cid in s.rows[id].logs { LiveStays(s, s', me, i, cid); } else { StaysFull(s, s', i, me); }
  }

  lemma JustifiedFits(s0: Store, s1: Store, id: RowId, i: nat, p: Past, cond: Option<string> -> bool, me: Me,
                      call: Call)
    requires Rely(s0, s1, me) && DeletedEarly(s0, me.since) && Reached(s0, me.since, i, id, p.cid)
    requires p.cid.instance !in s1.finished && Justified(s0, id, p, cond, call)
    requires CanLog(s1, id, p.cid) && cond(Register(s1))
    ensures Fits(All(s1), p, call)
  {
    RegisterIsFold(s1);
    JournalGrowsOnly(s0, s1, me);
    if call.CondWrite? && p.out == Flag(false) {
      if !CanLog(s0, id, p.cid) { CannotLogStays(s0, s1, me, i, id, p.cid); }
      StillWasFalse(All(s0), All(s1), call.cond);
    }
  }

  lemma LogStep(s0: Store, s1: Store, id: RowId, i: nat, p: Past, cond: Option<string> -> bool, me: Me, bound: nat,
                calls: Cid -> Call)
    requires Sane(s1, me, p.cid.instance, bound, calls) && Rely(s0, s1, me) && DeletedEarly(s0, me.since)
    requires Reached(s0, me.since, i, id, p.cid) && Justified(s0, id, p, cond, calls(p.cid))
    ensures Reached(s1, me.since, i, id, p.cid) && s1.Present(id)
    ensures CanLog(s1, id, p.cid) ==> s1.rows[id].v == Register(s1)
    ensures CanLog(s1, id, p.cid) && cond(Register(s1)) ==>
      Logging(s0, s1, Logged(s1, id, p.cid, p.out, p.update), id, i, p, me, bound, calls)
  {
    StandsOn(s0, s1, me, i, id, p.cid);
    if CanLog(s1, id, p.cid) && cond(Register(s1)) {
      JustifiedFits(s0, s1, id, i, p, cond, me, calls(p.cid));
      LogEffect(s1, id, i, p, me, bound, calls);
      RelyTransitive(s0, s1, Logged(s1, id, p.cid, p.out, p.update), me);
    }
  }

  /** The conditional update is an action of the machine, which was enabled. */
  ghost predicate IsAction(s: Store, s': Store, id: RowId, p: Past, cond: Option<string> -> bool) {
    && ChainOk(s)
    && match p.out
       case Plain => Enabled(s, LogWrite(id, p.cid, p.update)) && s' == Do(s, LogWrite(id, p.cid, p.update))
       case Flag(true) =>
         && Enabled(s, LogCondWrite(id, p.cid, p.update, cond)) && s' == Do(s, LogCondWrite(id, p.cid, p.update, cond))
       case Flag(false) => Enabled(s, LogFailure(id, p.cid)) && s' == Logged(s, id, p.cid, p.out, p.update)
  }

  /** What an update that takes effect makes of the store, others having worked meanwhile. */
  lemma TriedIsAction(s: Store, was: Store, id: RowId, i: nat, p: Past, cond: Option<string> -> bool, me: Me)
    requires Rely(s, was, me) && DeletedEarly(s, me.since) && Reached(s, me.since, i, id, p.cid)
    requires p.cid.instance == me.instance && me.instance !in s.finished
    requires CanLog(was, id, p.cid) && cond(Register(was))
    ensures IsAction(was, Logged(was, id, p.cid, p.out, p.update), id, p, cond)
  {
    StandsOn(s, was, me, i, id, p.cid);
    ReachedIsPassed(was, me.since, i, id, p.cid);
  }

  // ---- values read ----

  /** The register held this value at some moment: after the first k operations of the journal. */
  ghost predicate WasRegister(journal: seq<Past>, v: Option<string>) {
    exists k: nat :: HeldAfter(journal, k, v)
  }

  ghost predicate HeldAfter(journal: seq<Past>, k: nat, v: Option<string>) {
    k <= |journal| && v == Fold(None, journal[..k])
  }

  /** The read log of the key holds values of its register only. */
  ghost predicate ReadsOk(journal: seq<Past>, readLog: map<Cid, Option<string>>) {
    forall c :: c in readLog ==> WasRegister(journal, readLog[c])
  }

  lemma StillWasRegister(journal: seq<Past>, longer: seq<Past>, v: Option<string>)
    requires journal <= longer && WasRegister(journal, v)
    ensures WasRegister(longer, v)
  {
    var k: nat :| HeldAfter(journal, k, v);
    assert longer[..k] == journal[..k];
    assert HeldAfter(longer, k, v);
  }

  lemma ReadsStay(journal: seq<Past>, longer: seq<Past>, readLog: map<Cid, Option<string>>)
    requires journal <= longer && ReadsOk(journal, readLog)
    ensures ReadsOk(longer, readLog)
  {
    forall c | c in readLog ensures WasRegister(longer, readLog[c]) { StillWasRegister(journal, longer, readLog[c]); }
  }

  lemma RegisterIsNow(s: Store)
    requires Inv(s)
    ensures WasRegister(All(s), Register(s))
  {
    RegisterIsFold(s);
    assert All(s)[..|All(s)|] == All(s);
    assert HeldAfter(All(s), |All(s)|, Register(s));
  }

  lemma {:induction false} HistPrefix(s: Store, k: nat, m: nat)
    requires ChainOk(s) && k <= m <= |s.chain|
    ensures Hist(s, k) <= Hist(s, m)
    decreases m - k
  {
    if k < m { HistPrefix(s, k, m - 1); }
  }

  /** Others only add to the journal: rows with a successor are frozen, and the last one grows. */
  lemma JournalGrowsOnly(s: Store, s': Store, me: Me)
    requires Rely(s, s', me)
    ensures All(s) <= All(s')
  {
    if s.chain != [] {
      LastRowGrows(s, s', me);
      HistPrefix(s', |s.chain|, |s'.chain|);
      PrefixTransitive(All(s), Hist(s', |s.chain|), All(s'));
    }
  }

  lemma LastRowGrows(s: Store, s': Store, me: Me)
    requires Rely(s, s', me) && s.chain != []
    ensures |s.chain| <= |s'.chain| && All(s) <= Hist(s', |s.chain|)
  {
    var m := |s.chain| - 1;
    InteriorHistKept(s, s', me, m);
    assert RowGrew(s, s', m, me.collecting);
    LastPartGrows(Hist(s, m), s.At(m).past, s'.At(m).past);
  }

  lemma InteriorHistKept(s: Store, s': Store, me: Me, m: nat)
    requires Rely(s, s', me) && m + 1 == |s.chain|
    ensures m < |s'.chain| && Hist(s', m) == Hist(s, m)
  {
    forall k: nat | k < m ensures s'.At(k).past == s.At(k).past { InteriorFrozen(s, s', me, k); }
    HistKept(s, s', m);
  }

  lemma LastPartGrows(before: seq<Past>, last: seq<Past>, last': seq<Past>)
    requires last <= last'
    ensures before + last <= before + last'
  {
  }

  /** One executor of an instance at work on one key; `s` and `readLog` are shared with everybody else. */
  class Executor {
    const instance: string
    var s: Store
    var readLog: map<Cid, Option<string>>
    var stepNumber: nat
    ghost var me: Me
    ghost var bound: nat
    ghost var puts: set<Cid>
    ghost const calls: Cid -> Call

    /**
     An executor may come to the store at any time while its instance is unfinished. All executors together log at most
     `bound` operations, and `puts` are the reads whose value this one put into the read log.
     */
    constructor (instance: string, s: Store, readLog: map<Cid, Option<string>>, ghost bound: nat,
                 ghost calls: Cid -> Call)
      requires Inv(s) && instance !in s.finished && AllFit(All(s), calls) && ReadsOk(All(s), readLog)
      requires |All(s)| <= bound
      ensures Valid() && this.instance == instance && this.s == s && this.readLog == readLog && this.calls == calls
      ensures stepNumber == 0 && me.temps == {} && this.bound == bound && puts == {}
    {
      this.instance, this.s, this.readLog, stepNumber := instance, s, readLog, 0;
      this.calls, this.bound, puts, me := calls, bound, {}, Me(instance, |s.gone|, {}, false);
      new;
      DeletedBeforeNow(s);
    }

    ghost predicate Valid()
      reads this
    {
      Sane(s, me, instance, bound, calls) && ReadsOk(All(s), readLog)
    }

    /** The id of the current operation. */
    function Current(): Cid
      reads this
    {
      Cid(instance, stepNumber)
    }

    /** What everybody else may have done since the last database call. */
    method Interfere()
      requires Valid()
      modifies this`s, this`readLog
      ensures Valid() && Rely(old(s), s, me) && ReadLogKept(old(readLog), readLog, instance)
    {
      RelyReflexive(s, me);
    }

    method LibRead(id: RowId) returns (row: Option<Row>)
      requires Valid()
      modifies this`s, this`readLog
      ensures Valid() && Rely(old(s), s, me) && ReadLogKept(old(readLog), readLog, instance)
      ensures row == if s.Present(id) then Some(s.rows[id]) else None
    {
      Interfere();
      row := if id in s.rows && id !in s.deleted then Some(s.rows[id]) else None;
    }

    /**
     The conditional update that installs an operation and its log entry: id not in LOGS, LOGSIZE below N, and cond.
     */
    method TryLog(id: RowId, out: Outcome, update: Update, cond: Option<string> -> bool, ghost i: nat)
      returns (ok: bool, ghost was: Store)
      requires Valid() && Reached(s, me.since, i, id, Current())
      requires Justified(s, id, Past(Current(), out, update), cond, calls(Current()))
      modifies this`s, this`readLog, this`bound
      ensures ReadLogKept(old(readLog), readLog, instance)
      ensures Valid() && Rely(old(s), was, me) && Rely(old(s), s, me) && Reached(s, me.since, i, id, Current())
      ensures s.Present(id)
      ensures ok <==> CanLog(was, id, Current()) && cond(Register(was))
      ensures s == if ok then Logged(was, id, Current(), out, update) else was
      ensures bound == old(bound) + if ok then 1 else 0
      ensures ok ==> Holds(s, i, Past(Current(), out, update))
    {
      Interfere();
      was := s;
      LogStep(old(s), was, id, i, Past(Current(), out, update), cond, me, bound, calls);
      ok := CanLog(s, id, Current()) && cond(s.rows[id].v);
      if ok {
        ReadsStay(All(was), All(was) + [Past(Current(), out, update)], readLog);
        s := Logged(s, id, Current(), out, update);
        bound := bound + 1;
      }
    }

    /** The V of a full row, which is its V for good. */
    method ReadFullRow(id: RowId, ghost i: nat) returns (v: Option<string>)
      requires Valid() && Exhausted(s, me.since, i, id, Current())
      modifies this`s, this`readLog
      ensures ReadLogKept(old(readLog), readLog, instance)
      ensures Valid() && Rely(old(s), s, me) && Exhausted(s, me.since, i, id, Current()) && v == s.rows[id].v
    {
      var row := LibRead(id);
      ExhaustedStays(old(s), s, me, i, id, Current());
      v := row.value.v;
    }

    method NewId() returns (id: RowId)
      ensures id !in s.rows && id != HEAD
    {
      UnusedExists(s.rows.Keys);
      id :| id !in s.rows && id != HEAD;
    }

    /** A fresh row with that V. */
    method CreateTemp(id: RowId, v: Option<string>, ghost i: nat) returns (newId: RowId)
      requires Valid() && me.temps == {} && Exhausted(s, me.since, i, id, Current()) && v == s.rows[id].v
      modifies this`s, this`readLog, this`me
      ensures ReadLogKept(old(readLog), readLog, instance)
      ensures Valid() && me == old(me).(temps := {newId}) && Rely(old(s), s, old(me))
      ensures Exhausted(s, me.since, i, id, Current()) && TempFor(s, id, newId)
    {
      Interfere();
      newId := NewId();
      ghost var was := s;
      CreateStep(old(s), was, id, newId, i, Current(), me, bound, calls);
      s := Created(s, newId, v);
      assert Creating(old(s), was, s, id, newId, i, Current(), me, bound, calls);
      me := me.(temps := {newId});
    }

    /** NEXTROW is set to the new row if it is not set yet. */
    method TrySwap(id: RowId, newId: RowId, ghost i: nat) returns (ok: bool, ghost j: nat)
      requires Valid() && me.temps == {newId} && Exhausted(s, me.since, i, id, Current()) && TempFor(s, id, newId)
      modifies this`s, this`readLog
      ensures ReadLogKept(old(readLog), readLog, instance)
      ensures Valid() && Rely(old(s), s, NoTemps(me))
      ensures ok ==> i < j && Reached(s, me.since, j, newId, Current())
      ensures !ok ==> Exhausted(s, me.since, i, id, Current()) && TempFor(s, id, newId) && s.rows[id].next.Some?
    {
      Interfere();
      ghost var was := s;
      SwapStep(old(s), was, id, newId, i, Current(), me, bound, calls);
      ok := s.rows[id].next.None?;
      j := |was.chain|;
      if ok {
        s := Linked(s, id, newId);
        assert Linking(old(s), was, s, newId, Current(), me, bound, calls);
      }
    }

    method DropTemp(id: RowId, newId: RowId, ghost i: nat)
      requires Valid() && me.temps == {newId} && Exhausted(s, me.since, i, id, Current()) && TempFor(s, id, newId)
      modifies this`s, this`readLog, this`me
      ensures ReadLogKept(old(readLog), readLog, instance)
      ensures Valid() && me == NoTemps(old(me)) && Rely(old(s), s, me) && Exhausted(s, me.since, i, id, Current())
    {
      Interfere();
      ghost var was := s;
      DropStep(old(s), was, id, newId, i, Current(), me, bound, calls);
      s := Dropped(s, newId);
      assert Dropping(old(s), was, s, id, i, Current(), me, bound, calls);
      me := NoTemps(me);
    }

    /** Returns the successor of a full row, linking one if there is none; the panic is never reached. */
    method InsertOrGetNewRow(id: RowId, ghost i: nat) returns (r: Result<RowId>, ghost j: nat)
      requires Valid() && me.temps == {} && Exhausted(s, me.since, i, id, Current())
      modifies this`s, this`readLog, this`me
      ensures ReadLogKept(old(readLog), readLog, instance)
      ensures Valid() && me == old(me) && Rely(old(s), s, me)
      ensures r.Ok? && i < j && Reached(s, me.since, j, r.value, Current())
    {
      var v := ReadFullRow(id, i);
      ghost var s1 := s;
      var newId := CreateTemp(id, v, i);
      ghost var s2 := s;
      RelyTransitive(old(s), s1, s2, old(me));
      r, j := LinkOrTake(id, newId, i);
      RelyTransitive(old(s), s2, s, me);
    }

    ghost method ForgetTemps()
      requires Valid()
      modifies this`me
      ensures Valid() && me == NoTemps(old(me))
    {
      me := NoTemps(me);
    }

    method LinkOrTake(id: RowId, newId: RowId, ghost i: nat) returns (r: Result<RowId>, ghost j: nat)
      requires Valid() && me.temps == {newId} && Exhausted(s, me.since, i, id, Current()) && TempFor(s, id, newId)
      modifies this`s, this`readLog, this`me
      ensures ReadLogKept(old(readLog), readLog, instance)
      ensures Valid() && me == NoTemps(old(me)) && Rely(old(s), s, me)
      ensures r.Ok? && i < j && Reached(s, me.since, j, r.value, Current())
    {
      var swapped: bool;
      swapped, j := TrySwap(id, newId, i);
      ghost var s1 := s;
      if swapped {
        ForgetTemps();
        r := Ok(newId);
      } else {
        r, j := TakeTheirs(id, newId, i);
        RelyTransitive(old(s), s1, s, me);
      }
    }

    /** Another writer linked a row first: drop the own one and follow theirs. */
    method TakeTheirs(id: RowId, newId: RowId, ghost i: nat) returns (r: Result<RowId>, ghost j: nat)
      requires Valid() && me.temps == {newId} && Exhausted(s, me.since, i, id, Current()) && TempFor(s, id, newId)
      requires s.rows[id].next.Some?
      modifies this`s, this`readLog, this`me
      ensures ReadLogKept(old(readLog), readLog, instance)
      ensures Valid() && me == NoTemps(old(me)) && Rely(old(s), s, me)
      ensures r.Ok? && i < j && Reached(s, me.since, j, r.value, Current())
    {
      DropTemp(id, newId, i);
      ghost var s1 := s;
      NextStaysSet(old(s), s1, me, i);
      var row := LibRead(id);
      NextStaysSet(s1, s, me, i);
      ExhaustedStays(s1, s, me, i, id, Current());
      r := if row.value.next.Some? then Ok(row.value.next.value) else Panic("never reach here");
      j := GoOn(s, me.since, i, id, Current());
      RelyTransitive(old(s), s1, s, me);
    }
  
    // ---- writes ----

    /** After a failed attempt: the outcome if the row has the id by now, otherwise its NEXTROW. */
    method LookAgain(id: RowId, ghost i: nat) returns (found: Option<Outcome>, next: Option<RowId>)
      requires Valid() && Reached(s, me.since, i, id, Current()) && s.Present(id) && !CanLog(s, id, Current())
      modifies this`s, this`readLog
      ensures ReadLogKept(old(readLog), readLog, instance)
      ensures Valid() && Rely(old(s), s, me)
      ensures found.Some? ==> Outcomed(s, Current(), found.value)
      ensures found.None? ==> Exhausted(s, me.since, i, id, Current()) && id in s.rows && next == s.rows[id].next
    {
      var row := LibRead(id);
      StandsOn(old(s), s, me, i, id, Current());
      next := row.value.next;
      if Current() in row.value.logs {
        found := Some(row.value.logs[Current()]);
        ghost var p := LiveIsHeld(s, i, Current());
      } else {
        found := None;
        FoundFull(old(s), s, me, i, id, Current());
      }
    }

    /** The outcome if the row has the id by now, otherwise the next place to look. */
    method FindOrGoOn(id: RowId, ghost i: nat) returns (found: Option<Outcome>, next: RowId, ghost j: nat)
      requires Valid() && me.temps == {} && Reached(s, me.since, i, id, Current()) && s.Present(id)
      requires !CanLog(s, id, Current())
      modifies this`s, this`readLog, this`me
      ensures ReadLogKept(old(readLog), readLog, instance)
      ensures Valid() && me == old(me) && Rely(old(s), s, me)
      ensures found.Some? ==> Outcomed(s, Current(), found.value)
      ensures found.None? ==> i < j && Reached(s, me.since, j, next, Current())
    {
      var nextRow;
      found, nextRow := LookAgain(id, i);
      next, j := id, i;
      if found.Some? { return; }
      ghost var s1 := s;
      next, j := SuccessorOf(id, nextRow, i);
      RelyTransitive(old(s), s1, s, me);
    }

    method SuccessorOf(id: RowId, nextRow: Option<RowId>, ghost i: nat) returns (next: RowId, ghost j: nat)
      requires Valid() && me.temps == {} && Exhausted(s, me.since, i, id, Current()) && nextRow == s.rows[id].next
      modifies this`s, this`readLog, this`me
      ensures ReadLogKept(old(readLog), readLog, instance)
      ensures Valid() && me == old(me) && Rely(old(s), s, me)
      ensures i < j && Reached(s, me.since, j, next, Current())
    {
      if nextRow.Some? {
        next := nextRow.value;
        j := GoOn(s, me.since, i, id, Current());
        RelyReflexive(s, me);
      } else {
        var r: Result<RowId>;
        r, j := InsertOrGetNewRow(id, i);
        next := r.value;
      }
    }

    /** One attempt to log at this row: the outcome the id has from now on, or the next place to look. */
    method LogOrGoOn(id: RowId, out: Outcome, update: Update, ghost i: nat)
      returns (found: Option<Outcome>, next: RowId, ghost j: nat)
      requires Valid() && me.temps == {} && Reached(s, me.since, i, id, Current())
      requires Justified(s, id, Past(Current(), out, update), Anything, calls(Current()))
      modifies this`s, this`readLog, this`me, this`bound
      ensures ReadLogKept(old(readLog), readLog, instance)
      ensures Valid() && me == old(me) && Rely(old(s), s, me)
      ensures found.Some? ==> Outcomed(s, Current(), found.value)
      ensures found.None? ==> i < j && Reached(s, me.since, j, next, Current()) && bound == old(bound)
    {
      ghost var was;
      var ok: bool;
      ok, was := TryLog(id, out, update, Anything, i);
      if ok {
        found, next, j := Some(out), id, i;
        return;
      }
      found, next, j := FindOrGoOn(id, i);
      RelyTransitive(old(s), was, s, me);
    }

    /** Logs the write in the first row from this one on that has room, unless a row has it already. */
    method EOSWriteWithRow(update: Update, id: RowId, ghost i: nat)
      requires Valid() && me.temps == {} && Reached(s, me.since, i, id, Current()) && calls(Current()) == Write(update)
      modifies this`s, this`readLog, this`stepNumber, this`me, this`bound
      ensures ReadLogKept(old(readLog), readLog, instance)
      ensures Valid() && me == old(me) && stepNumber == old(stepNumber) + 1 && Rely(old(s), s, me)
      ensures Ended(s, old(Current()), Write(update), Plain)
      decreases bound - i
    {
      IndexBounded(s, i);
      var found, next;
      ghost var j;
      found, next, j := LogOrGoOn(id, Plain, update, i);
      if found.Some? {
        OutcomedIsEnded(s, Current(), found.value, calls);
        WriteEnded(s, Current(), update, found.value);
        stepNumber := stepNumber + 1;
      } else {
        ghost var s1 := s;
        EOSWriteWithRow(update, next, j);
        RelyTransitive(old(s), s1, s, me);
      }
    }

    /** A logged outcome becomes the result; it is never the NULL of an unconditional write. */
    method ConcludeCond(out: Outcome, update: Update, cond: Option<string> -> bool) returns (r: Result<bool>)
      requires Valid() && Outcomed(s, Current(), out) && calls(Current()) == CondWrite(update, cond)
      modifies this`stepNumber
      ensures Valid() && stepNumber == old(stepNumber) + 1
      ensures r.Ok? && out == Flag(r.value) && Ended(s, old(Current()), CondWrite(update, cond), Flag(r.value))
    {
      OutcomedIsEnded(s, Current(), out, calls);
      stepNumber := stepNumber + 1;
      r := AsBool(out);
    }

    /** The same for a conditional write: success and failure are logged by two separate conditional updates. */
    method EOSCondWriteWithRow(update: Update, cond: Option<string> -> bool, id: RowId,
                               ghost i: nat) returns (r: Result<bool>)
      requires Valid() && me.temps == {} && Reached(s, me.since, i, id, Current())
      requires calls(Current()) == CondWrite(update, cond)
      modifies this`s, this`readLog, this`stepNumber, this`me, this`bound
      ensures ReadLogKept(old(readLog), readLog, instance)
      ensures Valid() && me == old(me) && stepNumber == old(stepNumber) + 1 && Rely(old(s), s, me)
      ensures r.Ok? && Ended(s, old(Current()), CondWrite(update, cond), Flag(r.value))
      decreases bound - i, 1
    {
      IndexBounded(s, i);
      ghost var was;
      var ok: bool;
      ok, was := TryLog(id, Flag(true), update, cond, i);
      if ok {
        r := ConcludeCond(Flag(true), update, cond);
        return;
      }
      if CanLog(s, id, Current()) { FalseNow(s, cond); }
      r := LogFailureOrGoOn(update, cond, id, i);
      RelyTransitive(old(s), was, s, me);
    }

    /** The condition did not hold, or the row could not take the entry; only the former leads to a logged failure. */
    method LogFailureOrGoOn(update: Update, cond: Option<string> -> bool, id: RowId,
                            ghost i: nat) returns (r: Result<bool>)
      requires Valid() && me.temps == {} && Reached(s, me.since, i, id, Current())
      requires calls(Current()) == CondWrite(update, cond)
      requires WasFalse(All(s), cond) || !CanLog(s, id, Current())
      modifies this`s, this`readLog, this`stepNumber, this`me, this`bound
      ensures ReadLogKept(old(readLog), readLog, instance)
      ensures Valid() && me == old(me) && stepNumber == old(stepNumber) + 1 && Rely(old(s), s, me)
      ensures r.Ok? && Ended(s, old(Current()), CondWrite(update, cond), Flag(r.value))
      decreases bound - i, 0
    {
      IndexBounded(s, i);
      var found, next;
      ghost var j;
      found, next, j := LogOrGoOn(id, Flag(false), v => v, i);
      if found.Some? {
        r := ConcludeCond(found.value, update, cond);
        return;
      }
      ghost var s1 := s;
      r := EOSCondWriteWithRow(update, cond, next, j);
      RelyTransitive(old(s), s1, s, me);
    }

    /** The rows a query happens to return, in the order in which it reads them: any rows, at any moments. */
    method ChooseRows() returns (rows: seq<RowId>)
    {
      rows := [];
    }

    /** One row of a query, as it is when the service comes to it; a row that does not exist then is left out. */
    method ReadItem(id: RowId, cid: Option<Cid>) returns (items: seq<Item>)
      requires Valid() && (cid.Some? ==> cid.value.instance == instance)
      modifies this`s, this`readLog
      ensures Valid() && Rely(old(s), s, me) && ReadLogKept(old(readLog), readLog, instance)
      ensures ItemsOk(s, me.since, items, cid) && |items| <= 1
      ensures s.Present(id) ==> |items| == 1
    {
      var row := LibRead(id);
      if row.None? { return []; }
      var found := if cid.Some? && cid.value in row.value.logs then Some(row.value.logs[cid.value]) else None;
      items := [Item(id, found, row.value.next)];
      FreshItem(s, me.since, id, cid, items[0]);
    }

    /** A query of all rows of the key, which is not one atomic action. */
    method Query(cid: Option<Cid>) returns (items: seq<Item>)
      requires Valid() && (cid.Some? ==> cid.value.instance == instance)
      modifies this`s, this`readLog
      ensures Valid() && Rely(old(s), s, me) && ReadLogKept(old(readLog), readLog, instance)
      ensures ItemsOk(s, me.since, items, cid)
    {
      var rows := ChooseRows();
      items := [];
      RelyReflexive(s, me);
      for k := 0 to |rows|
        invariant Valid() && Rely(old(s), s, me) && ItemsOk(s, me.since, items, cid)
        invariant ReadLogKept(old(readLog), readLog, instance)
      {
        ghost var s1 := s;
        var more := ReadItem(rows[k], cid);
        ItemsStay(s1, s, me, items, cid);
        RelyTransitive(old(s), s1, s, me);
        items := items + more;
      }
    }

    /** The first logged outcome among the items, and the pointers of those before it. */
    method IndexItems(items: seq<Item>, cid: Option<Cid>) returns (found: Option<Outcome>, idx: map<RowId, RowId>)
      requires Valid() && ItemsOk(s, me.since, items, cid)
      ensures found.Some? ==> cid.Some? && Outcomed(s, cid.value, found.value)
      ensures IdxOk(s, me.since, idx, cid)
    {
      idx := map[];
      for k := 0 to |items|
        invariant IdxOk(s, me.since, idx, cid)
      {
        var item := items[k];
        assert ItemOk(s, me.since, item, cid);
        if item.found.Some? { return item.found, idx; }
        if item.next.Some? {
          assert EdgeExists(s, me.since, item.row, item.next.value, cid);
          idx := idx[item.row := item.next.value];
        }
      }
      found := None;
    }

    /** The walk from HEAD along the collected pointers; it ends, and on a row of the chain. */
    method Walk(idx: map<RowId, RowId>, cid: Option<Cid>) returns (cur: RowId, ghost i: nat)
      requires Valid() && s.chain != [] && IdxOk(s, me.since, idx, cid)
      ensures cur !in idx && Walked(s, me.since, i, cur, cid)
    {
      cur, i := HEAD, 0;
      while cur in idx
        invariant Walked(s, me.since, i, cur, cid)
        decreases |s.chain| - i
      {
        i := WalkOn(s, me.since, i, idx, cur, cid);
        cur := idx[cur];
      }
    }

    /** Either the logged outcome, or where to start; no row means that the key has none yet. */
    method QuickCheckReturnLast() returns (found: Option<Outcome>, last: Option<RowId>, ghost i: nat)
      requires Valid()
      modifies this`s, this`readLog
      ensures ReadLogKept(old(readLog), readLog, instance)
      ensures Valid() && Rely(old(s), s, me)
      ensures found.Some? ==> Outcomed(s, Current(), found.value)
      ensures found.None? && last.Some? ==> Reached(s, me.since, i, last.value, Current())
    {
      i, last := 0, None;
      var items := Query(Some(Current()));
      if |items| == 0 { return None, None, 0; }
      assert ItemOk(s, me.since, items[0], Some(Current()));
      var idx;
      found, idx := IndexItems(items, Some(Current()));
      if found.None? {
        var cur;
        cur, i := Walk(idx, Some(Current()));
        last := Some(cur);
      }
    }

    /** The first row of the key, unless it is there already. */
    method InsertHead() returns (ghost i: nat)
      requires Valid()
      modifies this`s, this`readLog
      ensures ReadLogKept(old(readLog), readLog, instance)
      ensures Valid() && Rely(old(s), s, me) && Reached(s, me.since, i, HEAD, Current())
    {
      Interfere();
      ghost var s1 := s;
      if HEAD !in s.rows {
        InsertHeadEffect(s1, me, instance, bound, calls);
        s := s.(rows := s.rows[HEAD := NewRow(None)], chain := [HEAD]);
        RelyTransitive(old(s), s1, s, me);
      }
      i := 0;
    }

    /**
     The operation begins: from here on, only rows unlinked before may be deleted (a collector waits that long).
     */
    ghost method Begin()
      requires Valid()
      modifies this`me
      ensures Valid() && me == old(me).(since := |s.gone|)
    {
      me := me.(since := |s.gone|);
    }

    /** Where a write begins: the outcome if some row has it, otherwise a row to start from, made if there is none. */
    method Locate() returns (found: Option<Outcome>, id: RowId, ghost i: nat)
      requires Valid()
      modifies this`s, this`readLog
      ensures ReadLogKept(old(readLog), readLog, instance)
      ensures Valid() && Rely(old(s), s, me)
      ensures found.Some? ==> Outcomed(s, Current(), found.value)
      ensures found.None? ==> Reached(s, me.since, i, id, Current())
    {
      var last;
      found, last, i := QuickCheckReturnLast();
      id := if last.Some? then last.value else HEAD;
      if found.Some? || last.Some? { return; }
      ghost var s1 := s;
      i := InsertHead();
      RelyTransitive(old(s), s1, s, me);
    }

    /**
     However many executors run this call, crash in it or run it again: once one returns, it took effect exactly
     once.
     */
    method EOSWrite(update: Update)
      requires Valid() && me.temps == {} && calls(Current()) == Write(update)
      modifies this`s, this`readLog, this`stepNumber, this`me, this`bound
      ensures ReadLogKept(old(readLog), readLog, instance)
      ensures Valid() && me == old(me).(since := |old(s).gone|) && stepNumber == old(stepNumber) + 1
      ensures Rely(old(s), s, me)
      ensures Ended(s, old(Current()), Write(update), Plain)
    {
      Begin();
      var found, id;
      ghost var i;
      found, id, i := Locate();
      ghost var s1 := s;
      if found.Some? {
        OutcomedIsEnded(s1, Current(), found.value, calls);
        WriteEnded(s1, Current(), update, found.value);
        stepNumber := stepNumber + 1;
        return;
      }
      EOSWriteWithRow(update, id, i);
      RelyTransitive(old(s), s1, s, me);
    }

    /**
     Likewise for a conditional write; all executors return the same boolean, and the update took effect, once, exactly
     when it is true.
     */
    method EOSCondWrite(update: Update, cond: Option<string> -> bool) returns (r: Result<bool>)
      requires Valid() && me.temps == {} && calls(Current()) == CondWrite(update, cond)
      modifies this`s, this`readLog, this`stepNumber, this`me, this`bound
      ensures ReadLogKept(old(readLog), readLog, instance)
      ensures Valid() && me == old(me).(since := |old(s).gone|) && stepNumber == old(stepNumber) + 1
      ensures Rely(old(s), s, me)
      ensures r.Ok? && Ended(s, old(Current()), CondWrite(update, cond), Flag(r.value))
    {
      Begin();
      var found, id;
      ghost var i;
      found, id, i := Locate();
      ghost var s1 := s;
      if found.Some? {
        r := ConcludeCond(found.value, update, cond);
        return;
      }
      r := EOSCondWriteWithRow(update, cond, id, i);
      RelyTransitive(old(s), s1, s, me);
    }

    // ---- reads ----

    /** The last row by the collected pointers, or none if the query returned nothing. */
    method LastRow() returns (last: Option<RowId>, ghost i: nat)
      requires Valid()
      modifies this`s, this`readLog
      ensures Valid() && Rely(old(s), s, me) && ReadLogKept(old(readLog), readLog, instance)
      ensures last.Some? ==> Walked(s, me.since, i, last.value, None)
    {
      var items := Query(None);
      if |items| == 0 { return None, 0; }
      assert ItemOk(s, me.since, items[0], None);
      var found, idx;
      found, idx := IndexItems(items, None);
      var cur;
      cur, i := Walk(idx, None);
      last := Some(cur);
    }

    /** The read log takes the first value put under an id; the others get that one. */
    method LogRead(v: Option<string>) returns (r: Option<string>)
      requires Valid() && WasRegister(All(s), v)
      modifies this`s, this`readLog, this`puts
      ensures Valid() && Rely(old(s), s, me) && ReadLogKept(old(readLog), readLog, instance)
      ensures Current() in readLog && r == readLog[Current()]
      ensures puts == old(puts) || puts == old(puts) + {Current()}
      ensures Put(old(puts), puts, Current()) ==> r == v && Current() !in old(readLog)
    {
      Interfere();
      JournalGrowsOnly(old(s), s, me);
      StillWasRegister(All(old(s)), All(s), v);
      if Current() !in readLog {
        readLog := readLog[Current() := v];
        puts := puts + {Current()};
      }
      r := readLog[Current()];
    }

    /** One look at a row of a read: its V if it is the last, otherwise the next row. */
    method ReadRow(id: RowId, ghost i: nat) returns (v: Option<string>, next: Option<RowId>, ghost j: nat)
      requires Valid() && CanRead(s, me.since, i, id)
      modifies this`s, this`readLog
      ensures Valid() && Rely(old(s), s, me) && ReadLogKept(old(readLog), readLog, instance)
      ensures next.None? ==> v == Register(s)
      ensures next.Some? ==> i < j && Walked(s, me.since, j, next.value, None)
    {
      var row := LibRead(id);
      CanReadStays(old(s), s, me, i, id);
      LookedAt(s, me.since, i, id);
      v := if row.Some? then row.value.v else None;
      next := if row.Some? then row.value.next else None;
      j := i;
      if next.Some? { j := ReadOn(s, me.since, i, id); }
    }

    /**
     Follows NEXTROW to its end. Whoever logged the value, the register held it at some moment; the execution that
     put it there returns the register's value at its last look.
     */
    method EOSReadWithRow(id: RowId, ghost i: nat) returns (r: Option<string>, ghost at: Store)
      requires Valid() && CanRead(s, me.since, i, id)
      modifies this`s, this`readLog, this`stepNumber, this`puts
      ensures Valid() && Rely(old(s), at, me) && Rely(at, s, me) && ReadLogKept(old(readLog), readLog, instance)
      ensures stepNumber == old(stepNumber) + 1
      ensures old(Current()) in readLog && r == readLog[old(Current())] && WasRegister(All(s), r)
      ensures puts == old(puts) || puts == old(puts) + {old(Current())}
      ensures Put(old(puts), puts, old(Current())) ==> r == Register(at) && old(Current()) !in old(readLog)
      decreases bound + 1 - i
    {
      ReadBounded(s, me.since, i, id);
      var v, next;
      ghost var j;
      v, next, j := ReadRow(id, i);
      ghost var s1 := s;
      if next.Some? {
        r, at := EOSReadWithRow(next.value, j);
        RelyTransitive(old(s), s1, at, me);
        return;
      }
      at := s;
      RegisterIsNow(s);
      r := LogRead(v);
      stepNumber := stepNumber + 1;
    }

    /** A read: all executors of one id return what the first of them logged. */
    method EOSRead() returns (r: Option<string>, ghost at: Store)
      requires Valid()
      modifies this`s, this`readLog, this`stepNumber, this`me, this`puts
      ensures Valid() && me == old(me).(since := |old(s).gone|) && stepNumber == old(stepNumber) + 1
      ensures Rely(old(s), at, me) && Rely(at, s, me) && ReadLogKept(old(readLog), readLog, instance)
      ensures old(Current()) in readLog && r == readLog[old(Current())] && WasRegister(All(s), r)
      ensures puts == old(puts) || puts == old(puts) + {old(Current())}
      ensures Put(old(puts), puts, old(Current())) ==> r == Register(at) && old(Current()) !in old(readLog)
    {
      Begin();
      var last;
      ghost var i;
      last, i := LastRow();
      ghost var s1 := s;
      var start := if last.None? then HEAD else last.value;
      if last.None? {
        i := 0;
      }
      r, at := EOSReadWithRow(start, i);
      RelyTransitive(old(s), s1, at, me);
    }
  }

  /** This execution put the value under this id. */
  ghost predicate Put(before: set<Cid>, after: set<Cid>, cid: Cid) {
    cid in after && cid !in before
  }

  /** Where a read stands: on a safe row, or on HEAD before there are any rows. */
  ghost predicate CanRead(s: Store, since: nat, i: nat, id: RowId)
    requires ChainOk(s)
  {
    if s.chain == [] then id == HEAD && i == 0 else Walked(s, since, i, id, None)
  }

  lemma CanReadStays(s: Store, s': Store, me: Me, i: nat, id: RowId)
    requires Rely(s, s', me) && me.since <= |s.gone| && CanRead(s, me.since, i, id)
    ensures CanRead(s', me.since, i, id)
  {
    if s.chain != [] { SafeStays(s, s', me, i); }
  }

  lemma ReadBounded(s: Store, since: nat, i: nat, id: RowId)
    requires Inv(s) && CanRead(s, since, i, id)
    ensures i <= |All(s)|
  {
    if s.chain != [] { IndexBounded(s, i); }
  }

  /** A row that may be read exists; without NEXTROW it holds the register. */
  lemma LookedAt(s: Store, since: nat, i: nat, id: RowId)
    requires Inv(s) && DeletedEarly(s, since) && CanRead(s, since, i, id)
    ensures if s.chain == [] then !s.Present(id) && Register(s) == None
            else
              && s.Present(id) && i < |s.chain| && s.At(i) == s.rows[id]
              && (s.rows[id].next.None? ==> s.rows[id].v == Register(s))
  {
    if s.chain != [] {
      NoNextMeansLast(s, i);
    }
  }

  lemma ReadOn(s: Store, since: nat, i: nat, id: RowId) returns (j: nat)
    requires Inv(s) && since <= |s.gone| && CanRead(s, since, i, id) && id in s.rows && s.rows[id].next.Some?
    ensures i < j && s.chain != [] && Walked(s, since, j, s.rows[id].next.value, None)
  {
    j := NextIndex(s, i);
    NextIsSafe(s, since, i, j);
  }

  lemma InsertHeadEffect(s: Store, me: Me, instance: string, bound: nat, calls: Cid -> Call)
    requires Sane(s, me, instance, bound, calls) && HEAD !in s.rows
    ensures var s' := s.(rows := s.rows[HEAD := NewRow(None)], chain := [HEAD]);
      Sane(s', me, instance, bound, calls) && Rely(s, s', me) && s'.chain != [] && SameJournal(s, s')
  {
    OthersObey(s, InsertHead, me);
    OthersLogNothing(s, InsertHead);
  }

  lemma DeletedBeforeNow(s: Store)
    requires Inv(s)
    ensures DeletedEarly(s, |s.gone|)
  {
    forall id | id in s.deleted ensures GoneEarly(s.gone, |s.gone|, id) {
      assert id in s.gone;
      var p: nat :| p < |s.gone| && s.gone[p] == id;
      assert GoneAt(s.gone, id, p);
    }
  }


  lemma NextStaysSet(s: Store, s': Store, me: Me, i: nat)
    requires Rely(s, s', me) && i < |s.chain| && s.At(i).next.Some?
    ensures s'.At(i).next.Some?
  {
    assert RowGrew(s, s', i, me.collecting);
  }
}

/**
 How a write escapes its lock. Two commit steps of a transaction write under one lock, be it for two records or twice
 for one: the first step lets the lock go, another transaction takes it, and the second step writes. The run is given
 for every plan with two such steps, wherever in the log the records are.
 */
module BokiEscape {
  import opened Wrappers
  import opened LogModel
  import opened VersionedRows
  import opened LockProtocol
  import opened BokiTxn

  /** Every write of the history was made by the holder of its row's lock. */
  ghost predicate WritesUnderLock(s: State) {
    forall i: nat :: i < |s.trace| && s.trace[i].effect.WriteOp? ==> UnderLock(s, i)
  }

  datatype Write = Write(lambda: string, row: RowKey, value: string)

  /** Records r1 and r2 (perhaps the same) of `txn`, committed by the steps a and b; `other` locks in between. */
  datatype Escape = Escape(txn: string, other: string, r1: nat, first: Write, r2: nat, second: Write, a: StepId,
                           b: StepId)

  ghost predicate Possible(plan: Plan, w: Escape) {
    && w.txn != "" && w.other != "" && w.txn != w.other
    && 0 < w.r1 <= w.r2 && (w.r1 == w.r2 ==> w.first == w.second)
    && LockOf(w.first.row) == LockOf(w.second.row)
    && w.a in plan(w.r1) && w.b in plan(w.r2) && w.a != w.b
  }

  /** Gaps, the lock, the records and gaps between them, the first commit, the unlock, a lock, the second commit. */
  function SlotAt(w: Escape, i: nat): Slot {
    var id := LockOf(w.first.row);
    if i + 1 == w.r1 then Entry(0, LockOp(id, 0, false, w.txn))
    else if i == w.r1 then Recorded(w.txn, w.first)
    else if i == w.r2 then Recorded(w.txn, w.second)
    else if i < w.r2 then Gap
    else if i == w.r2 + 1 then Proposed(w.a, w.first.row)
    else if i == w.r2 + 2 then Entry(0, LockOp(id, 1, true, w.txn))
    else if i == w.r2 + 3 then Entry(0, LockOp(id, 2, false, w.other))
    else Proposed(w.b, w.second.row)
  }

  function Recorded(txn: string, x: Write): Slot {
    Entry(0, TxnWrite(x.lambda, txn, x.row.table, x.row.key, x.value))
  }

  function Proposed(at: StepId, row: RowKey): Slot {
    Entry(0, Intent(at.instance, at.step, false, PreWrite(row.table, row.key)))
  }

  function Prefix(w: Escape, m: nat): (log: Log)
    ensures |log| == m && forall i :: 0 <= i < m ==> log[i] == SlotAt(w, i)
  {
    seq(m, i requires 0 <= i => SlotAt(w, i))
  }

  lemma PrefixGrows(w: Escape, m: nat)
    ensures Prefix(w, m + 1) == Prefix(w, m) + [SlotAt(w, m)]
  {
  }

  function LockAfter(w: Escape, k: nat): LockState
    requires w.r1 > 0
  {
    if k < w.r1 then LockState(0, None)
    else if k <= w.r2 + 2 then LockState(1, Some(LockRecord(w.r1 - 1, false, w.txn)))
    else if k == w.r2 + 3 then LockState(2, Some(LockRecord(w.r2 + 2, true, w.txn)))
    else LockState(3, Some(LockRecord(w.r2 + 3, false, w.other)))
  }

  lemma {:induction false} Replay(w: Escape, m: nat, k: nat)
    requires 0 < w.r1 <= w.r2 && k <= m <= w.r2 + 5
    ensures At(Prefix(w, m), LockOf(w.first.row), k) == Ok(LockAfter(w, k))
  {
    if k > 0 {
      Replay(w, m, k - 1);
      assert Prefix(w, m)[k - 1] == SlotAt(w, k - 1);
    }
  }

  lemma FirstAgreed(plan: Plan, w: Escape)
    requires Possible(plan, w)
    ensures IsPre(plan, Prefix(w, w.r2 + 2), w.r1, w.r2 + 1)
  {
  }

  lemma SecondAgreed(plan: Plan, w: Escape)
    requires Possible(plan, w)
    ensures IsPre(plan, Prefix(w, w.r2 + 5), w.r2, w.r2 + 4)
  {
  }

  /** How many slots lie between the two records, the second one included. */
  function Between(w: Escape): nat
    requires w.r1 <= w.r2
  {
    w.r2 - w.r1
  }

  function RecordStep(w: Escape, x: Write): Step {
    Record(w.txn, x.lambda, x.row, x.value, w.r1, 0)
  }

  function TheStep(w: Escape, i: nat): Step
    requires w.r1 <= w.r2
  {
    if i == 0 then Begin(w.txn)
    else if i == 1 then Begin(w.other)
    else if i == 2 then TryLock(w.txn, w.first.row, 0, 0)
    else if i == 3 then RecordStep(w, w.first)
    else if i < 3 + Between(w) then Other(Gap)
    else if i == 3 + Between(w) then RecordStep(w, w.second)
    else LateStep(w, i - Between(w))
  }

  function LateStep(w: Escape, i: nat): Step {
    match i
    case 4 => End(w.txn, true)
    case 5 => Propose(w.r1, w.a, 0)
    case 6 => Attempted(w.r1, w.r2 + 1)
    case 7 => Release(w.r1, w.r1, 0)
    case 8 => TryLock(w.other, w.first.row, w.r2 + 3, 0)
    case 9 => Propose(w.r2, w.b, 0)
    case _ => Attempted(w.r2, w.r2 + 4)
  }

  function Steps(w: Escape, m: nat): (steps: seq<Step>)
    requires w.r1 <= w.r2
    ensures |steps| == m
  {
    if m == 0 then [] else Steps(w, m - 1) + [TheStep(w, m - 1)]
  }

  function Length(w: Escape): nat
    requires w.r1 <= w.r2
  {
    11 + Between(w)
  }

  /** The length of the log after so many steps. */
  function Logged(w: Escape, m: nat): nat
    requires 0 < w.r1 <= w.r2
  {
    var d := Between(w);
    if m <= 2 then w.r1 - 1
    else if m <= 4 + d then w.r1 + m - 3
    else if m == 5 + d then w.r2 + 1
    else if m <= 7 + d then w.r2 + 2
    else if m <= 10 + d then w.r2 + m - 5 - d
    else w.r2 + 5
  }

  function FirstOp(w: Escape): Op {
    Op(w.txn, w.first.row, w.r2 + 2, WriteOp(w.r1, w.r2 + 1), Some(w.first.value))
  }

  function SecondOp(w: Escape): Op {
    Op(w.txn, w.second.row, w.r2 + 5, WriteOp(w.r2, w.r2 + 4), Some(w.second.value))
  }

  function PhasesAfter(w: Escape, m: nat): map<string, Phase>
    requires w.r1 <= w.r2
  {
    if m == 0 then map[]
    else if m == 1 then map[w.txn := Executing]
    else map[w.txn := if m <= 4 + Between(w) then Executing else Ending(w.r2 + 1, true), w.other := Executing]
  }

  /** The state after so many steps. */
  ghost function After(w: Escape, m: nat): State
    requires 0 < w.r1 <= w.r2
  {
    var log, phases := Prefix(w, Logged(w, m)), PhasesAfter(w, m);
    var once: map<RowKey, Item> := map[w.first.row := Item(Some(w.r2 + 1), Some(w.first.value))];
    if m <= 6 + Between(w) then State(log, map[], phases, {}, [])
    else if m <= 10 + Between(w) then State(log, once, phases, {w.r1}, [FirstOp(w)])
    else
      var twice := once[w.second.row := Item(Some(w.r2 + 4), Some(w.second.value))];
      State(log, twice, phases, {w.r1, w.r2}, [FirstOp(w), SecondOp(w)])
  }

  ghost predicate Moves(plan: Plan, w: Escape, m: nat)
    requires 0 < w.r1 <= w.r2
  {
    Enabled(plan, After(w, m), TheStep(w, m)) && Do(plan, After(w, m), TheStep(w, m)) == After(w, m + 1)
  }

  /** Both begin, and `txn` takes the lock. */
  lemma Locks(plan: Plan, w: Escape, m: nat)
    requires Possible(plan, w) && m < 3
    ensures Moves(plan, w, m)
  {
    Replay(w, w.r1 - 1, 0);
    PrefixGrows(w, w.r1 - 1);
  }

  /** It records its writes. */
  lemma Records(plan: Plan, w: Escape, m: nat)
    requires Possible(plan, w) && 3 <= m <= 3 + Between(w)
    ensures Moves(plan, w, m)
  {
    Replay(w, Logged(w, m), w.r1);
    PrefixGrows(w, Logged(w, m));
  }

  /** It begins to commit. */
  lemma Ends(plan: Plan, w: Escape, m: nat)
    requires Possible(plan, w) && 4 + Between(w) <= m <= 5 + Between(w)
    ensures Moves(plan, w, m)
  {
    PrefixGrows(w, w.r2 + 1);
    assert Prefix(w, w.r2 + 1)[w.r1] == SlotAt(w, w.r1) == Recorded(w.txn, w.first);
  }

  /** The first step commits. */
  lemma ServesFirst(plan: Plan, w: Escape, m: nat)
    requires Possible(plan, w) && m == 6 + Between(w)
    ensures Moves(plan, w, m)
  {
    FirstAgreed(plan, w);
    assert Prefix(w, w.r2 + 2)[w.r1] == SlotAt(w, w.r1) == Recorded(w.txn, w.first);
  }

  /** The lock is released. */
  lemma LetsGo(plan: Plan, w: Escape, m: nat)
    requires Possible(plan, w) && m == 7 + Between(w)
    ensures Moves(plan, w, m)
  {
    Replay(w, w.r2 + 2, w.r1);
    PrefixGrows(w, w.r2 + 2);
    assert Prefix(w, w.r2 + 2)[w.r1] == SlotAt(w, w.r1) == Recorded(w.txn, w.first);
  }

  /** The other transaction takes it. */
  lemma OtherTakes(plan: Plan, w: Escape, m: nat)
    requires Possible(plan, w) && m == 8 + Between(w)
    ensures Moves(plan, w, m)
  {
    Replay(w, w.r2 + 3, w.r2 + 3);
    PrefixGrows(w, w.r2 + 3);
  }

  /** The second step commits. */
  lemma ProposesSecond(plan: Plan, w: Escape, m: nat)
    requires Possible(plan, w) && m == 9 + Between(w)
    ensures Moves(plan, w, m)
  {
    PrefixGrows(w, w.r2 + 4);
    assert Prefix(w, w.r2 + 4)[w.r2] == SlotAt(w, w.r2) == Recorded(w.txn, w.second);
  }

  lemma ServesSecond(plan: Plan, w: Escape, m: nat)
    requires Possible(plan, w) && m == 10 + Between(w)
    ensures Moves(plan, w, m)
  {
    SecondAgreed(plan, w);
    assert Prefix(w, w.r2 + 5)[w.r2] == SlotAt(w, w.r2) == Recorded(w.txn, w.second);
  }

  lemma Advance(plan: Plan, w: Escape, m: nat)
    requires Possible(plan, w) && m < Length(w)
    ensures Moves(plan, w, m)
  {
    var d := Between(w);
    if m < 3 { Locks(plan, w, m); }
    else if m <= 3 + d { Records(plan, w, m); }
    else if m <= 5 + d { Ends(plan, w, m); }
    else if m == 6 + d { ServesFirst(plan, w, m); }
    else if m == 7 + d { LetsGo(plan, w, m); }
    else if m == 8 + d { OtherTakes(plan, w, m); }
    else if m == 9 + d { ProposesSecond(plan, w, m); }
    else { ServesSecond(plan, w, m); }
  }

  lemma RunOneMore(plan: Plan, n0: nat, steps: seq<Step>, step: Step, s: State, s': State)
    requires Run(plan, map[], n0, steps) == s && Enabled(plan, s, step) && Do(plan, s, step) == s'
    ensures Run(plan, map[], n0, steps + [step]) == s'
  {
    assert (steps + [step])[..|steps|] == steps;
  }

  ghost predicate RunsTo(plan: Plan, w: Escape, steps: seq<Step>, m: nat)
    requires 0 < w.r1 <= w.r2
  {
    Run(plan, map[], w.r1 - 1, steps) == After(w, m)
  }

  lemma Starts(plan: Plan, w: Escape)
    requires Possible(plan, w)
    ensures RunsTo(plan, w, [], 0)
  {
    assert seq(w.r1 - 1, _ => Gap) == Prefix(w, w.r1 - 1);
  }

  lemma Continues(plan: Plan, w: Escape, steps: seq<Step>, m: nat)
    requires Possible(plan, w) && RunsTo(plan, w, steps, m) && Moves(plan, w, m)
    ensures RunsTo(plan, w, steps + [TheStep(w, m)], m + 1)
  {
    RunOneMore(plan, w.r1 - 1, steps, TheStep(w, m), After(w, m), After(w, m + 1));
  }

  lemma {:induction false} RunIs(plan: Plan, w: Escape, m: nat)
    requires Possible(plan, w) && m <= Length(w)
    ensures RunsTo(plan, w, Steps(w, m), m)
  {
    if m == 0 {
      Starts(plan, w);
    } else {
      RunIs(plan, w, m - 1);
      Advance(plan, w, m - 1);
      Continues(plan, w, Steps(w, m - 1), m - 1);
    }
  }

  /** The whole run: the second write is made while the other transaction holds the lock. */
  ghost predicate Escapes(s: State, w: Escape) {
    && |s.trace| == 2 && s.trace == [FirstOp(w), SecondOp(w)]
    && Holds(s.log, LockOf(w.second.row), w.txn, s.trace[0].at)
    && Holds(s.log, LockOf(w.second.row), w.other, s.trace[1].at) && !UnderLock(s, 1)
  }

  lemma LockMoves(w: Escape)
    requires 0 < w.r1 <= w.r2 && w.txn != w.other && LockOf(w.first.row) == LockOf(w.second.row)
    ensures Holds(Prefix(w, w.r2 + 5), LockOf(w.second.row), w.txn, w.r2 + 2)
    ensures Holds(Prefix(w, w.r2 + 5), LockOf(w.second.row), w.other, w.r2 + 5)
    ensures !Holds(Prefix(w, w.r2 + 5), LockOf(w.second.row), w.txn, w.r2 + 5)
  {
    Replay(w, w.r2 + 5, w.r2 + 2);
    Replay(w, w.r2 + 5, w.r2 + 5);
  }

  lemma SecondWriteEscapes(plan: Plan, w: Escape)
    requires Possible(plan, w)
    ensures StartsBelow(map[], w.r1 - 1)
    ensures var s := Run(plan, map[], w.r1 - 1, Steps(w, Length(w)));
            s.log == Prefix(w, w.r2 + 5) && Escapes(s, w)
  {
    RunIs(plan, w, Length(w));
    LockMoves(w);
  }

  lemma ItsRecords(w: Escape, m: nat, r: nat)
    requires 0 < w.r1 <= w.r2 && IsRecord(Prefix(w, m), r)
    ensures r == w.r1 || r == w.r2
    ensures RecordTxn(Prefix(w, m), r) == w.txn
    ensures r == w.r1 ==> RecordRow(Prefix(w, m), r) == w.first.row
    ensures r != w.r1 ==> RecordRow(Prefix(w, m), r) == w.second.row
  {
    assert Prefix(w, m)[r] == SlotAt(w, r);
  }

  /** Up to the second record, there is one record. */
  lemma OneRecord(w: Escape, m: nat)
    requires 0 < w.r1 <= w.r2 && (w.r1 == w.r2 || m <= w.r2)
    ensures OneRecordPerLock(Prefix(w, m))
  {
    forall r: nat | IsRecord(Prefix(w, m), r) ensures r == w.r1 { ItsRecords(w, m, r); }
  }
}

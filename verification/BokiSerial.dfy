/**
 Serializability: every run of the transaction machine reads and writes exactly what executing its
 transactions one after another, in the order of their lock points, would read and write.
 */
module BokiSerial {
  import opened Wrappers
  import opened LogModel
  import opened VersionedRows
  import opened LockProtocol
  import opened BokiTxn

  // ---- lock points ----

  /** Slot i is a lock operation of t that the lock's replay accepted. */
  ghost predicate Acquires(log: Log, i: nat, t: string) {
    && i < |log| && log[i].Entry? && log[i].payload.LockOp? && !log[i].payload.unlockOp && log[i].payload.holder == t
    && At(log, log[i].payload.lockId, i) != At(log, log[i].payload.lockId, i + 1)
  }

  /** One more than the position of the transaction's last acquisition among the first n slots; 0 if none. */
  ghost function LockPoint(log: Log, t: string, n: nat): (p: nat)
    requires n <= |log|
    ensures p <= n && (p > 0 ==> Acquires(log, p - 1, t))
    ensures forall i: nat :: p <= i < n ==> !Acquires(log, i, t)
  {
    if n == 0 then 0 else if Acquires(log, n - 1, t) then n else LockPoint(log, t, n - 1)
  }

  /** When the holder changes, the old one unlocked and then the new one locked, in between. */
  lemma {:induction false} HandOver(log: Log, lockId: string, t1: string, p1: nat, t2: string,
                                    p2: nat) returns (u: nat, a: nat)
    requires Lawful(log) && t1 != "" && t2 != "" && t1 != t2 && p1 <= p2 <= |log|
    requires Holds(log, lockId, t1, p1) && Holds(log, lockId, t2, p2)
    ensures p1 <= u < a < p2 && Unlocks(log[u], lockId, t1) && Acquires(log, a, t2)
    decreases p2
  {
    NoPanic(log, lockId, p2);
    NoPanic(log, lockId, p2 - 1);
    if Holds(log, lockId, t2, p2 - 1) {
      u, a := HandOver(log, lockId, t1, p1, t2, p2 - 1);
    } else {
      a := p2 - 1;
      assert Holds(log, lockId, "", a);
      u := FirstRelease(log, lockId, t1, p1, a);
    }
  }

  lemma {:induction false} FirstRelease(log: Log, lockId: string, t: string, p: nat, n: nat) returns (u: nat)
    requires Lawful(log) && t != "" && p <= n <= |log| && Holds(log, lockId, t, p) && !Holds(log, lockId, t, n)
    ensures p <= u < n && Unlocks(log[u], lockId, t)
  {
    if forall j :: p <= j < n ==> !Unlocks(log[j], lockId, t) {
      StillHolds(log, lockId, t, p, n);
    }
    u :| p <= u < n && Unlocks(log[u], lockId, t);
  }

  /** A holder has acquired the lock at some point before. */
  lemma {:induction false} HolderAcquired(log: Log, lockId: string, t: string, n: nat)
    requires Lawful(log) && t != "" && n <= |log| && Holds(log, lockId, t, n)
    ensures LockPoint(log, t, |log|) > 0
  {
    NoPanic(log, lockId, n - 1);
    if Holds(log, lockId, t, n - 1) {
      HolderAcquired(log, lockId, t, n - 1);
    } else {
      NoPanic(log, lockId, n);
      assert Acquires(log, n - 1, t);
    }
  }

  /** Two accesses of one row by different transactions happen in the order of the lock points. */
  lemma AccessesFollowLockPoints(plan: Plan, s: State, i: nat, j: nat)
    requires LocksOk(s) && TraceOk(plan, s) && i < j < |s.trace|
    requires s.trace[i].row == s.trace[j].row && s.trace[i].txn != s.trace[j].txn
    ensures LockPoint(s.log, s.trace[i].txn, |s.log|) < LockPoint(s.log, s.trace[j].txn, |s.log|)
  {
    var o1, o2 := s.trace[i], s.trace[j];
    assert OpOk(plan, s, i) && OpOk(plan, s, j);
    var u, a := HandOver(s.log, LockOf(o1.row), o1.txn, o1.at, o2.txn, o2.at);
    assert LockOpOk(s, u);
    var p := LockPoint(s.log, o1.txn, |s.log|);
    if p > 0 { assert LockOpOk(s, p - 1); }
  }

  // ---- the serial order ----

  /** The transactions whose lock point is among the first n slots, by lock point. */
  ghost function ByLockPoint(log: Log, n: nat): seq<string>
    requires n <= |log|
  {
    if n == 0 then []
    else if IsLockPoint(log, n) then ByLockPoint(log, n - 1) + [log[n - 1].payload.holder]
    else ByLockPoint(log, n - 1)
  }

  ghost predicate IsLockPoint(log: Log, n: nat)
    requires 0 < n <= |log|
  {
    && log[n - 1].Entry? && log[n - 1].payload.LockOp?
    && LockPoint(log, log[n - 1].payload.holder, |log|) == n
  }

  ghost predicate SortedBy(order: seq<string>, rank: string -> nat) {
    forall i, j :: 0 <= i < j < |order| ==> rank(order[i]) < rank(order[j])
  }

  ghost function RankIn(log: Log): string -> nat {
    t => LockPoint(log, t, |log|)
  }

  lemma {:induction false} ByLockPointIsSorted(log: Log, n: nat)
    requires n <= |log|
    ensures SortedBy(ByLockPoint(log, n), RankIn(log))
    ensures forall t :: t in ByLockPoint(log, n) <==> 0 < LockPoint(log, t, |log|) <= n
  {
    if n > 0 {
      ByLockPointIsSorted(log, n - 1);
      var before := ByLockPoint(log, n - 1);
      forall t | LockPoint(log, t, |log|) == n ensures IsLockPoint(log, n) && log[n - 1].payload.holder == t { }
    }
  }

  /** The accesses of one transaction, and those of one row, in order. */
  function Of(ops: seq<Op>, t: string): seq<Op> {
    if ops == [] then []
    else
      var before, last := ops[..|ops| - 1], ops[|ops| - 1];
      if last.txn == t then Of(before, t) + [last] else Of(before, t)
  }

  function On(ops: seq<Op>, row: RowKey): seq<Op> {
    if ops == [] then []
    else
      var before, last := ops[..|ops| - 1], ops[|ops| - 1];
      if last.row == row then On(before, row) + [last] else On(before, row)
  }

  /** The transactions one after another, each with its own accesses in their original order. */
  function Serial(ops: seq<Op>, order: seq<string>): seq<Op> {
    if order == [] then [] else Of(ops, order[0]) + Serial(ops, order[1..])
  }

  // ---- executing accesses ----

  function ValueAfter(start: Option<string>, ops: seq<Op>, row: RowKey): Option<string> {
    if ops == [] then start
    else if Wrote(ops[|ops| - 1], row) then ops[|ops| - 1].v
    else ValueAfter(start, ops[..|ops| - 1], row)
  }

  /** Executed in this order from these rows, every access reads or writes the value it recorded. */
  ghost predicate ReadsAreRight(rows: map<RowKey, Item>, ops: seq<Op>) {
    forall i :: 0 <= i < |ops| && ops[i].effect.ReadOp? ==>
      ops[i].v == ValueAfter(Initial(rows, ops[i].row).v, ops[..i], ops[i].row)
  }

  // ---- projections ----

  lemma {:induction false} OfConcat(a: seq<Op>, b: seq<Op>, t: string)
    ensures Of(a + b, t) == Of(a, t) + Of(b, t)
  {
    if b == [] {
      assert a + b == a;
    } else {
      OfConcat(a, b[..|b| - 1], t);
      assert (a + b)[..|a + b| - 1] == a + b[..|b| - 1];
    }
  }

  lemma {:induction false} OnConcat(a: seq<Op>, b: seq<Op>, row: RowKey)
    ensures On(a + b, row) == On(a, row) + On(b, row)
  {
    if b == [] {
      assert a + b == a;
    } else {
      OnConcat(a, b[..|b| - 1], row);
      assert (a + b)[..|a + b| - 1] == a + b[..|b| - 1];
    }
  }

  lemma {:induction false} OnOf(ops: seq<Op>, t: string, row: RowKey)
    ensures On(Of(ops, t), row) == Of(On(ops, row), t)
  {
    if ops != [] {
      var before, last := ops[..|ops| - 1], ops[|ops| - 1];
      OnOf(before, t, row);
      if last.txn == t { OnConcat(Of(before, t), [last], row); }
      if last.row == row { OfConcat(On(before, row), [last], t); }
    }
  }

  lemma {:induction false} OnSerial(ops: seq<Op>, order: seq<string>, row: RowKey)
    ensures On(Serial(ops, order), row) == Serial(On(ops, row), order)
  {
    if order != [] {
      OnSerial(ops, order[1..], row);
      OnOf(ops, order[0], row);
      OnConcat(Of(ops, order[0]), Serial(ops, order[1..]), row);
    }
  }

  lemma {:induction false} OfNone(ops: seq<Op>, t: string)
    requires forall o :: o in ops ==> o.txn != t
    ensures Of(ops, t) == []
  {
    if ops != [] { OfNone(ops[..|ops| - 1], t); }
  }

  lemma {:induction false} OfAll(ops: seq<Op>, t: string)
    requires forall o :: o in ops ==> o.txn == t
    ensures Of(ops, t) == ops
  {
    if ops != [] { OfAll(ops[..|ops| - 1], t); }
  }

  lemma {:induction false} OfKeeps(ops: seq<Op>, t: string)
    ensures forall o :: o in Of(ops, t) ==> o in ops && o.txn == t
  {
    if ops != [] { OfKeeps(ops[..|ops| - 1], t); }
  }

  lemma {:induction false} OnKeeps(ops: seq<Op>, row: RowKey)
    ensures forall o :: o in On(ops, row) ==> o in ops && o.row == row
  {
    if ops != [] { OnKeeps(ops[..|ops| - 1], row); }
  }

  // ---- a row's accesses are already in serial order ----

  /** Accesses by different transactions come in rank order. */
  ghost predicate Ranked(ops: seq<Op>, rank: string -> nat) {
    forall i, j :: 0 <= i < j < |ops| && ops[i].txn != ops[j].txn ==> rank(ops[i].txn) < rank(ops[j].txn)
  }

  lemma {:induction false} OnRanked(ops: seq<Op>, row: RowKey, rank: string -> nat)
    requires forall i, j :: 0 <= i < j < |ops| && ops[i].row == ops[j].row && ops[i].txn != ops[j].txn ==>
               rank(ops[i].txn) < rank(ops[j].txn)
    ensures Ranked(On(ops, row), rank)
  {
    if ops != [] {
      var before, last := ops[..|ops| - 1], ops[|ops| - 1];
      OnRanked(before, row, rank);
      OnKeeps(before, row);
      if last.row == row {
        forall o | o in On(before, row) && o.txn != last.txn ensures rank(o.txn) < rank(last.txn) {
          var i :| 0 <= i < |before| && before[i] == o;
          assert ops[i] == o;
        }
      }
    }
  }

  /** Where the accesses of the lowest-ranked transaction end. */
  lemma SplitFirst(ops: seq<Op>, t: string, rank: string -> nat) returns (n: nat)
    requires Ranked(ops, rank) && forall o :: o in ops ==> o.txn == t || rank(t) < rank(o.txn)
    ensures n <= |ops| && (forall o :: o in ops[..n] ==> o.txn == t) && (forall o :: o in ops[n..] ==> o.txn != t)
  {
    n := 0;
    while n < |ops| && ops[n].txn == t
      invariant n <= |ops| && forall o :: o in ops[..n] ==> o.txn == t
    {
      n := n + 1;
    }
  }

  lemma {:induction false} SerialSkips(a: seq<Op>, b: seq<Op>, order: seq<string>)
    requires forall o :: o in a ==> o.txn !in order
    ensures Serial(a + b, order) == Serial(b, order)
  {
    if order != [] {
      assert order[0] in order && forall t :: t in order[1..] ==> t in order;
      SerialSkips(a, b, order[1..]);
      OfConcat(a, b, order[0]);
      OfNone(a, order[0]);
      assert [] + Of(b, order[0]) == Of(b, order[0]);
    }
  }

  lemma {:induction false} SerialOfRanked(ops: seq<Op>, order: seq<string>, rank: string -> nat)
    requires Ranked(ops, rank) && SortedBy(order, rank) && forall o :: o in ops ==> o.txn in order
    ensures Serial(ops, order) == ops
  {
    assert ops != [] ==> ops[0] in ops;
    if order != [] {
      var t := order[0];
      FirstIsLowest(ops, order, rank);
      var n := SplitFirst(ops, t, rank);
      SerialOfRanked(ops[n..], order[1..], rank);
      SerialOfSplit(ops[..n], ops[n..], order);
      assert ops == ops[..n] + ops[n..];
    }
  }

  lemma FirstIsLowest(ops: seq<Op>, order: seq<string>, rank: string -> nat)
    requires SortedBy(order, rank) && order != [] && forall o :: o in ops ==> o.txn in order
    ensures forall o :: o in ops ==> o.txn == order[0] || rank(order[0]) < rank(o.txn)
  {
    forall o | o in ops && o.txn != order[0] ensures rank(order[0]) < rank(o.txn) {
      var i :| 0 <= i < |order| && order[i] == o.txn;
    }
  }

  lemma SerialOfSplit(a: seq<Op>, b: seq<Op>, order: seq<string>)
    requires order != [] && order[0] !in order[1..]
    requires (forall o :: o in a ==> o.txn == order[0]) && (forall o :: o in b ==> o.txn != order[0])
    ensures Serial(a + b, order) == a + Serial(b, order[1..])
  {
    var t, rest := order[0], order[1..];
    OfSplit(a, b, t);
    SerialSkips(a, b, rest);
    SerialUnfolds(a + b, order);
  }

  lemma OfSplit(a: seq<Op>, b: seq<Op>, t: string)
    requires (forall o :: o in a ==> o.txn == t) && forall o :: o in b ==> o.txn != t
    ensures Of(a + b, t) == a
  {
    OfConcat(a, b, t);
    OfAll(a, t);
    OfNone(b, t);
  }

  lemma SerialUnfolds(ops: seq<Op>, order: seq<string>)
    requires order != []
    ensures Serial(ops, order) == Of(ops, order[0]) + Serial(ops, order[1..])
  {
  }

  // ---- reads and final values depend on each row's accesses alone ----

  lemma {:induction false} ValueOn(start: Option<string>, ops: seq<Op>, row: RowKey)
    ensures ValueAfter(start, ops, row) == ValueAfter(start, On(ops, row), row)
  {
    if ops != [] { ValueOn(start, ops[..|ops| - 1], row); }
  }

  ghost predicate RowReadsRight(start: Option<string>, ops: seq<Op>, row: RowKey) {
    forall m :: 0 <= m < |ops| && ops[m].effect.ReadOp? ==> ops[m].v == ValueAfter(start, ops[..m], row)
  }

  lemma {:induction false} RightOnRow(rows: map<RowKey, Item>, ops: seq<Op>, row: RowKey)
    requires ReadsAreRight(rows, ops)
    ensures RowReadsRight(Initial(rows, row).v, On(ops, row), row)
  {
    if ops != [] {
      var before, last := ops[..|ops| - 1], ops[|ops| - 1];
      assert forall i :: 0 <= i <= |before| ==> before[..i] == ops[..i];
      RightOnRow(rows, before, row);
      if last.row == row {
        ValueOn(Initial(rows, row).v, before, row);
        ExtendRight(Initial(rows, row).v, On(before, row), last, row);
      }
    }
  }

  lemma ExtendRight(start: Option<string>, ops: seq<Op>, last: Op, row: RowKey)
    requires RowReadsRight(start, ops, row) && (last.effect.ReadOp? ==> last.v == ValueAfter(start, ops, row))
    ensures RowReadsRight(start, ops + [last], row)
  {
    assert forall m :: 0 <= m <= |ops| ==> (ops + [last])[..m] == ops[..m];
  }

  lemma {:induction false} RightFromRows(rows: map<RowKey, Item>, ops: seq<Op>)
    requires forall row :: RowReadsRight(Initial(rows, row).v, On(ops, row), row)
    ensures ReadsAreRight(rows, ops)
  {
    if ops != [] {
      var before, last := ops[..|ops| - 1], ops[|ops| - 1];
      forall row ensures RowReadsRight(Initial(rows, row).v, On(before, row), row) { DropLast(rows, ops, row); }
      RightFromRows(rows, before);
      DropLast(rows, ops, last.row);
      LastIsRight(rows, before, last);
      assert ops == before + [last];
    }
  }

  lemma DropLast(rows: map<RowKey, Item>, ops: seq<Op>, row: RowKey)
    requires ops != [] && RowReadsRight(Initial(rows, row).v, On(ops, row), row)
    ensures var before, last := ops[..|ops| - 1], ops[|ops| - 1];
            && RowReadsRight(Initial(rows, row).v, On(before, row), row)
            && (last.row == row && last.effect.ReadOp? ==> last.v == ValueAfter(Initial(rows, row).v, before, row))
  {
    var before, last := ops[..|ops| - 1], ops[|ops| - 1];
    if last.row == row { ShrinkRight(Initial(rows, row).v, On(before, row), last, row); }
    ValueOn(Initial(rows, row).v, before, row);
  }

  lemma ShrinkRight(start: Option<string>, ops: seq<Op>, last: Op, row: RowKey)
    requires RowReadsRight(start, ops + [last], row)
    ensures RowReadsRight(start, ops, row) && (last.effect.ReadOp? ==> last.v == ValueAfter(start, ops, row))
  {
    var all := ops + [last];
    assert all[..|ops|] == ops;
    assert all[|ops|] == last;
    forall m | 0 <= m < |ops| && ops[m].effect.ReadOp? ensures ops[m].v == ValueAfter(start, ops[..m], row) {
      assert all[m] == ops[m] && all[..m] == ops[..m];
    }
  }

  lemma LastIsRight(rows: map<RowKey, Item>, before: seq<Op>, last: Op)
    requires ReadsAreRight(rows, before)
    requires last.effect.ReadOp? ==> last.v == ValueAfter(Initial(rows, last.row).v, before, last.row)
    ensures ReadsAreRight(rows, before + [last])
  {
    var all := before + [last];
    forall i | 0 <= i < |all| && all[i].effect.ReadOp?
      ensures all[i].v == ValueAfter(Initial(rows, all[i].row).v, all[..i], all[i].row)
    {
      assert all[..i] == before[..i];
    }
  }

  // ---- the history as it happened ----

  lemma {:induction false} LastWriteValue(start: Item, ops: seq<Op>, row: RowKey)
    ensures LastWrite(start, ops, row).v == ValueAfter(start.v, ops, row)
  {
    if ops != [] { LastWriteValue(start, ops[..|ops| - 1], row); }
  }

  lemma {:induction false} HistoryIsRight(plan: Plan, rows: map<RowKey, Item>, n0: nat, steps: seq<Step>)
    requires Injective(plan) && OneStepPerRecord(plan)
    requires StartsBelow(rows, n0) && OneRecordPerLock(Run(plan, rows, n0, steps).log)
    ensures ReadsAreRight(rows, Run(plan, rows, n0, steps).trace)
  {
    if steps != [] {
      var s, step := Run(plan, rows, n0, steps[..|steps| - 1]), steps[|steps| - 1];
      if Enabled(plan, s, step) {
        var s' := Do(plan, s, step);
        FewerRecords(s.log, s'.log);
        HistoryIsRight(plan, rows, n0, steps[..|steps| - 1]);
        RunKeeps(plan, rows, n0, steps[..|steps| - 1]);
        if s'.trace != s.trace {
          var o := s'.trace[|s.trace|];
          LastWriteValue(Initial(rows, o.row), s.trace, o.row);
          LastIsRight(rows, s.trace, o);
        }
      } else {
        HistoryIsRight(plan, rows, n0, steps[..|steps| - 1]);
      }
    }
  }

  // ---- the theorem ----

  lemma RowIsSerial(plan: Plan, s: State, row: RowKey)
    requires LocksOk(s) && TraceOk(plan, s)
    ensures On(Serial(s.trace, ByLockPoint(s.log, |s.log|)), row) == On(s.trace, row)
  {
    var order, rank := ByLockPoint(s.log, |s.log|), RankIn(s.log);
    forall i, j | 0 <= i < j < |s.trace| && s.trace[i].row == s.trace[j].row && s.trace[i].txn != s.trace[j].txn
      ensures rank(s.trace[i].txn) < rank(s.trace[j].txn)
    {
      AccessesFollowLockPoints(plan, s, i, j);
    }
    OnRanked(s.trace, row, rank);
    OnKeeps(s.trace, row);
    ByLockPointIsSorted(s.log, |s.log|);
    forall o | o in s.trace ensures o.txn in order {
      var i :| 0 <= i < |s.trace| && s.trace[i] == o;
      assert OpOk(plan, s, i);
      HolderAcquired(s.log, LockOf(o.row), o.txn, o.at);
    }
    SerialOfRanked(On(s.trace, row), order, rank);
    OnSerial(s.trace, order, row);
  }

  /**
   For every run and every interleaving, the serial execution in lock-point order makes every
   transaction read exactly what it read and leaves every row with exactly the value it has.
   */
  lemma Serializable(plan: Plan, rows: map<RowKey, Item>, n0: nat, steps: seq<Step>)
    requires Injective(plan) && OneStepPerRecord(plan)
    requires StartsBelow(rows, n0) && OneRecordPerLock(Run(plan, rows, n0, steps).log)
    ensures var s := Run(plan, rows, n0, steps);
            var serial := Serial(s.trace, ByLockPoint(s.log, |s.log|));
            && ReadsAreRight(rows, serial)
            && (forall row :: s.Row(row).v == ValueAfter(Initial(rows, row).v, serial, row))
  {
    var s := Run(plan, rows, n0, steps);
    var serial := Serial(s.trace, ByLockPoint(s.log, |s.log|));
    RunKeeps(plan, rows, n0, steps);
    HistoryIsRight(plan, rows, n0, steps);
    forall row ensures RowReadsRight(Initial(rows, row).v, On(serial, row), row) {
      RowIsSerial(plan, s, row);
      RightOnRow(rows, s.trace, row);
    }
    RightFromRows(rows, serial);
    forall row ensures s.Row(row).v == ValueAfter(Initial(rows, row).v, serial, row) {
      RowIsSerial(plan, s, row);
      ValueOn(Initial(rows, row).v, s.trace, row);
      ValueOn(Initial(rows, row).v, serial, row);
      LastWriteValue(Initial(rows, row), s.trace, row);
    }
  }

  /** The serial execution contains each transaction's accesses, all of them, in their own order. */
  lemma {:induction false} SerialKeepsEachTransaction(plan: Plan, rows: map<RowKey, Item>, n0: nat, steps: seq<Step>,
                                                      t: string)
    requires Injective(plan) && OneStepPerRecord(plan)
    requires StartsBelow(rows, n0) && OneRecordPerLock(Run(plan, rows, n0, steps).log)
    ensures var s := Run(plan, rows, n0, steps);
            Of(Serial(s.trace, ByLockPoint(s.log, |s.log|)), t) == Of(s.trace, t)
  {
    var s := Run(plan, rows, n0, steps);
    RunKeeps(plan, rows, n0, steps);
    var order := ByLockPoint(s.log, |s.log|);
    ByLockPointIsSorted(s.log, |s.log|);
    OfSerial(s.trace, order, t, RankIn(s.log));
    if t !in order {
      forall o | o in s.trace ensures o.txn != t {
        var i :| 0 <= i < |s.trace| && s.trace[i] == o;
        assert OpOk(plan, s, i);
        HolderAcquired(s.log, LockOf(o.row), o.txn, o.at);
      }
      OfNone(s.trace, t);
    }
  }

  lemma {:induction false} OfSerial(ops: seq<Op>, order: seq<string>, t: string, rank: string -> nat)
    requires SortedBy(order, rank)
    ensures Of(Serial(ops, order), t) == if t in order then Of(ops, t) else []
  {
    if order != [] {
      OfSerial(ops, order[1..], t, rank);
      OfConcat(Of(ops, order[0]), Serial(ops, order[1..]), t);
      OfKeeps(ops, order[0]);
      if t == order[0] {
        OfAll(Of(ops, t), t);
        assert t !in order[1..];
      } else {
        OfNone(Of(ops, order[0]), t);
      }
    }
  }
}

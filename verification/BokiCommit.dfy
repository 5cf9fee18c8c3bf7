/**
 The recursive commit and abort over the functions a transaction recorded: TPLCommit, TPLAbort and the
 SyncInvoke calls between them, as one executor runs them without interference.
 */
module BokiCommit {
  import opened VersionedRows
  import opened LockProtocol

  /** One function's records of the transaction, as getAllTxnLogs returns them. */
  datatype TxnLog = WriteLog(row: RowKey, value: string) | CallLog(callee: string)

  type Records = map<string, seq<TxnLog>>

  function LogsOf(records: Records, lambda: string): seq<TxnLog> {
    if lambda in records then records[lambda] else []
  }

  ghost predicate Calls(records: Records, lambda: string, callee: string) {
    CallLog(callee) in LogsOf(records, lambda)
  }

  /** A chain of recorded calls. */
  ghost predicate Path(records: Records, path: seq<string>) {
    |path| > 0 && forall i :: 0 <= i < |path| - 1 ==> Calls(records, path[i], path[i + 1])
  }

  ghost predicate Connects(records: Records, a: string, b: string, path: seq<string>) {
    Path(records, path) && path[0] == a && path[|path| - 1] == b
  }

  /** b is transitively recorded from a; every function reaches itself. */
  ghost predicate Reaches(records: Records, a: string, b: string) {
    exists path :: Connects(records, a, b, path)
  }

  ghost predicate Acyclic(records: Records) {
    forall l, c :: Calls(records, l, c) ==> !Reaches(records, c, l)
  }

  ghost predicate Ranks(records: Records, rank: string -> nat) {
    forall l, c :: Calls(records, l, c) ==> rank(c) < rank(l)
  }

  // ---- acyclic recorded calls are exactly those with a termination measure ----

  ghost function Below(records: Records, l: string): set<string> {
    set c | c in Callees(records) && ReachesBelow(records, l, c)
  }

  ghost predicate ReachesBelow(records: Records, l: string, c: string) {
    exists d :: Calls(records, l, d) && Reaches(records, d, c)
  }

  function Callees(records: Records): set<string> {
    set l, i | l in records && 0 <= i < |records[l]| && records[l][i].CallLog? :: records[l][i].callee
  }

  lemma ReachesTransitive(records: Records, a: string, b: string, c: string)
    requires Reaches(records, a, b) && Reaches(records, b, c)
    ensures Reaches(records, a, c)
  {
    var p :| Connects(records, a, b, p);
    var q :| Connects(records, b, c, q);
    assert Connects(records, a, c, p + q[1..]);
  }

  lemma ReachesStep(records: Records, a: string, b: string)
    ensures Reaches(records, a, a)
    ensures Calls(records, a, b) ==> Reaches(records, a, b)
  {
    assert Connects(records, a, a, [a]);
    if Calls(records, a, b) { assert Connects(records, a, b, [a, b]); }
  }

  /** Along a path, ranks only go down. */
  lemma {:induction false} RankAlongPath(records: Records, rank: string -> nat, path: seq<string>)
    requires Ranks(records, rank) && Path(records, path)
    ensures rank(path[|path| - 1]) <= rank(path[0])
  {
    if |path| > 1 {
      RankAlongPath(records, rank, path[1..]);
      assert Calls(records, path[0], path[1]);
    }
  }

  /** The recursion has a measure exactly when no function is recorded below itself. */
  lemma AcyclicIffRanked(records: Records)
    ensures Acyclic(records) <==> exists rank :: Ranks(records, rank)
  {
    if Acyclic(records) {
      var rank := l => |Below(records, l)|;
      forall l, c | Calls(records, l, c) ensures rank(c) < rank(l) { BelowShrinks(records, l, c); }
      assert Ranks(records, rank);
    }
    if rank :| Ranks(records, rank) {
      forall l, c | Calls(records, l, c) ensures !Reaches(records, c, l) {
        if path :| Connects(records, c, l, path) {
          RankAlongPath(records, rank, path);
        }
      }
    }
  }

  lemma BelowShrinks(records: Records, l: string, c: string)
    requires Acyclic(records) && Calls(records, l, c)
    ensures |Below(records, c)| < |Below(records, l)|
  {
    ReachesStep(records, c, c);
    assert c in Callees(records) by {
      var i :| 0 <= i < |records[l]| && records[l][i] == CallLog(c);
    }
    forall x | x in Below(records, c) ensures x in Below(records, l) {
      var d :| Calls(records, c, d) && Reaches(records, d, x);
      ReachesStep(records, c, d);
      ReachesTransitive(records, c, d, x);
    }
    assert ReachesBelow(records, l, c) && !ReachesBelow(records, c, c);
    assert c in Below(records, l) && c !in Below(records, c) && Below(records, c) <= Below(records, l);
    SmallerSet(Below(records, c), Below(records, l));
  }

  lemma SmallerSet(a: set<string>, b: set<string>)
    requires a < b
    ensures |a| < |b|
  {
    var x :| x in b && x !in a;
    assert a <= b - {x};
    SubsetSize(a, b - {x});
  }

  lemma {:induction false} SubsetSize(a: set<string>, b: set<string>)
    requires a <= b
    ensures |a| <= |b|
  {
    if x :| x in a {
      SubsetSize(a - {x}, b - {x});
    }
  }

  // ---- the order of visits ----

  /** The functions visited, in order: a function, then each of its recorded callees, recursively. */
  ghost function Visits(records: Records, rank: string -> nat, lambda: string): seq<string>
    requires Ranks(records, rank)
    decreases rank(lambda), |LogsOf(records, lambda)| + 1
  {
    [lambda] + VisitsFrom(records, rank, lambda, 0)
  }

  ghost function VisitsFrom(records: Records, rank: string -> nat, lambda: string, i: nat): seq<string>
    requires Ranks(records, rank) && i <= |LogsOf(records, lambda)|
    decreases rank(lambda), |LogsOf(records, lambda)| - i
  {
    var logs := LogsOf(records, lambda);
    if i == |logs| then []
    else if logs[i].CallLog? then
      assert Calls(records, lambda, logs[i].callee);
      Visits(records, rank, logs[i].callee) + VisitsFrom(records, rank, lambda, i + 1)
    else VisitsFrom(records, rank, lambda, i + 1)
  }

  /** The recursion reaches exactly the functions transitively recorded. */
  lemma {:induction false} VisitsAreReachable(records: Records, rank: string -> nat, lambda: string, x: string)
    requires Ranks(records, rank)
    ensures x in Visits(records, rank, lambda) <==> Reaches(records, lambda, x)
    decreases rank(lambda), |LogsOf(records, lambda)| + 1
  {
    ReachesStep(records, lambda, lambda);
    VisitsFromAreReachable(records, rank, lambda, 0, x);
    if x != lambda && Reaches(records, lambda, x) {
      var path :| Connects(records, lambda, x, path);
      assert Calls(records, path[0], path[1]);
      assert Connects(records, path[1], x, path[1..]);
      assert CallsFrom(records, lambda, 0, path[1]);
    }
    if x in VisitsFrom(records, rank, lambda, 0) {
      var c :| CallsFrom(records, lambda, 0, c) && Reaches(records, c, x);
      ReachesStep(records, lambda, c);
      ReachesTransitive(records, lambda, c, x);
    }
  }

  ghost predicate CallsFrom(records: Records, lambda: string, i: nat, c: string)
    requires i <= |LogsOf(records, lambda)|
  {
    CallLog(c) in LogsOf(records, lambda)[i..]
  }

  lemma {:induction false} VisitsFromAreReachable(records: Records, rank: string -> nat, lambda: string, i: nat,
                                                  x: string)
    requires Ranks(records, rank) && i <= |LogsOf(records, lambda)|
    ensures x in VisitsFrom(records, rank, lambda, i) <==>
              exists c :: CallsFrom(records, lambda, i, c) && Reaches(records, c, x)
    decreases rank(lambda), |LogsOf(records, lambda)| - i
  {
    var logs := LogsOf(records, lambda);
    if i < |logs| {
      assert logs[i..] == [logs[i]] + logs[i + 1..];
      VisitsFromAreReachable(records, rank, lambda, i + 1, x);
      if logs[i].CallLog? {
        assert Calls(records, lambda, logs[i].callee);
        VisitsAreReachable(records, rank, logs[i].callee, x);
        assert CallsFrom(records, lambda, i, logs[i].callee);
      }
    }
  }

  // ---- the effect of the visits ----

  /** Database rows and lock holders. */
  datatype Store = Store(rows: map<RowKey, string>, locks: map<string, string>)

  /** One record: a write is served (when committing) and its lock freed, if the transaction holds it. */
  function EndRecord(s: Store, log: TxnLog, txn: string, commits: bool): Store {
    if log.CallLog? then s
    else
      var id := LockOf(log.row);
      Store(if commits then s.rows[log.row := log.value] else s.rows,
            if id in s.locks && s.locks[id] == txn then s.locks - {id} else s.locks)
  }

  function EndRecords(s: Store, logs: seq<TxnLog>, txn: string, commits: bool): Store {
    if logs == [] then s
    else EndRecord(EndRecords(s, logs[..|logs| - 1], txn, commits), logs[|logs| - 1], txn, commits)
  }

  /** All records of the visited functions, in visit order. */
  function AllLogs(records: Records, visits: seq<string>): seq<TxnLog> {
    if visits == [] then [] else AllLogs(records, visits[..|visits| - 1]) + LogsOf(records, visits[|visits| - 1])
  }

  lemma {:induction false} EndConcat(s: Store, a: seq<TxnLog>, b: seq<TxnLog>, txn: string, commits: bool)
    ensures EndRecords(s, a + b, txn, commits) == EndRecords(EndRecords(s, a, txn, commits), b, txn, commits)
  {
    if b == [] {
      assert a + b == a;
    } else {
      EndConcat(s, a, b[..|b| - 1], txn, commits);
      assert (a + b)[..|a + b| - 1] == a + b[..|b| - 1];
    }
  }

  lemma {:induction false} AllLogsConcat(records: Records, a: seq<string>, b: seq<string>)
    ensures AllLogs(records, a + b) == AllLogs(records, a) + AllLogs(records, b)
  {
    if b == [] {
      assert a + b == a;
    } else {
      var before, last := b[..|b| - 1], LogsOf(records, b[|b| - 1]);
      AllLogsConcat(records, a, before);
      assert (a + b)[..|a + b| - 1] == a + before;
      assert (AllLogs(records, a) + AllLogs(records, before)) + last ==
             AllLogs(records, a) + (AllLogs(records, before) + last);
    }
  }

  /** `now` is what ending the functions `done`, in order, makes of `start`. */
  ghost predicate Ended(records: Records, start: Store, done: seq<string>, txn: string, commits: bool, now: Store) {
    now == EndRecords(start, AllLogs(records, done), txn, commits)
  }

  lemma EndedConcat(records: Records, s0: Store, a: seq<string>, s1: Store, b: seq<string>, s2: Store, txn: string,
                    commits: bool)
    requires Ended(records, s0, a, txn, commits, s1) && Ended(records, s1, b, txn, commits, s2)
    ensures Ended(records, s0, a + b, txn, commits, s2)
  {
    AllLogsConcat(records, a, b);
    EndConcat(s0, AllLogs(records, a), AllLogs(records, b), txn, commits);
  }

  /** Database and lock table as the commit or abort of one transaction changes them. */
  class Ending {
    const records: Records
    var rows: map<RowKey, string>
    var locks: map<string, string>
    ghost var visited: seq<string>

    constructor (records: Records, rows: map<RowKey, string>, locks: map<string, string>)
      ensures this.records == records && Value() == Store(rows, locks) && visited == []
    {
      this.records, this.rows, this.locks, this.visited := records, rows, locks, [];
    }

    function Value(): Store
      reads this
    {
      Store(rows, locks)
    }

    method Unlock(lockId: string, txn: string)
      modifies this`locks
      ensures locks == if lockId in old(locks) && old(locks)[lockId] == txn then old(locks) - {lockId} else old(locks)
    {
      if lockId in locks && locks[lockId] == txn { locks := locks - {lockId}; }
    }

    /** The first loop: write (when committing) and unlock every write record, in log order. */
    method EndOwn(lambda: string, txn: string, commits: bool)
      modifies this
      ensures Value() == EndRecords(old(Value()), LogsOf(records, lambda), txn, commits)
      ensures visited == old(visited) + [lambda]
    {
      var logs := LogsOf(records, lambda);
      for i := 0 to |logs|
        invariant Value() == EndRecords(old(Value()), logs[..i], txn, commits)
        invariant visited == old(visited)
      {
        assert logs[..i + 1][..i] == logs[..i];
        if logs[i].CallLog? { continue; }
        if commits { rows := rows[logs[i].row := logs[i].value]; }
        Unlock(LockOf(logs[i].row), txn);
      }
      assert logs[..|logs|] == logs;
      visited := visited + [lambda];
    }

    /** TPLCommit or TPLAbort of one function, then of every function it recorded, in log order. */
    method EndTxn(lambda: string, txn: string, commits: bool, ghost rank: string -> nat)
      requires Ranks(records, rank)
      modifies this
      ensures visited == old(visited) + Visits(records, rank, lambda)
      ensures Ended(records, old(Value()), Visits(records, rank, lambda), txn, commits, Value())
      decreases rank(lambda), 2
    {
      EndOwn(lambda, txn, commits);
      OwnLogs(records, lambda);
      ghost var own := Value();
      EndCallees(lambda, txn, commits, rank);
      EndedConcat(records, old(Value()), [lambda], own, VisitsFrom(records, rank, lambda, 0), Value(), txn, commits);
    }

    /** The second loop: a SyncInvoke with the same instruction for every recorded callee, in log order. */
    method EndCallees(lambda: string, txn: string, commits: bool, ghost rank: string -> nat)
      requires Ranks(records, rank)
      modifies this
      ensures visited == old(visited) + VisitsFrom(records, rank, lambda, 0)
      ensures Ended(records, old(Value()), VisitsFrom(records, rank, lambda, 0), txn, commits, Value())
      decreases rank(lambda), 1
    {
      var logs := LogsOf(records, lambda);
      ghost var start, seen, done := Value(), visited, [];
      NoneEnded(records, start, txn, commits);
      for i := 0 to |logs|
        invariant VisitsFrom(records, rank, lambda, 0) == done + VisitsFrom(records, rank, lambda, i)
        invariant visited == seen + done && Ended(records, start, done, txn, commits, Value())
      {
        ghost var now, more := Value(), CalleeVisits(records, rank, lambda, i);
        EndCallee(lambda, i, txn, commits, rank);
        EndedConcat(records, start, done, now, more, Value(), txn, commits);
        VisitsGoOn(records, rank, lambda, i);
        Regroup(done, more, VisitsFrom(records, rank, lambda, i + 1));
        Regroup(seen, done, more);
        done := done + more;
      }
      Regroup(done, [], []);
    }

    /** One record of that loop. */
    method EndCallee(lambda: string, i: nat, txn: string, commits: bool, ghost rank: string -> nat)
      requires Ranks(records, rank) && i < |LogsOf(records, lambda)|
      modifies this
      ensures visited == old(visited) + CalleeVisits(records, rank, lambda, i)
      ensures Ended(records, old(Value()), CalleeVisits(records, rank, lambda, i), txn, commits, Value())
      decreases rank(lambda), 0
    {
      var log := LogsOf(records, lambda)[i];
      if log.CallLog? {
        assert Calls(records, lambda, log.callee);
        EndTxn(log.callee, txn, commits, rank);
      } else {
        NoneEnded(records, Value(), txn, commits);
      }
    }
  }

  /** The visits for the i-th record of a function: none unless it is a call. */
  ghost function CalleeVisits(records: Records, rank: string -> nat, lambda: string, i: nat): seq<string>
    requires Ranks(records, rank) && i < |LogsOf(records, lambda)|
  {
    var log := LogsOf(records, lambda)[i];
    if log.CallLog? then Visits(records, rank, log.callee) else []
  }

  lemma VisitsGoOn(records: Records, rank: string -> nat, lambda: string, i: nat)
    requires Ranks(records, rank) && i < |LogsOf(records, lambda)|
    ensures VisitsFrom(records, rank, lambda, i) ==
              CalleeVisits(records, rank, lambda, i) + VisitsFrom(records, rank, lambda, i + 1)
  {
    var log := LogsOf(records, lambda)[i];
    if log.CallLog? { assert Calls(records, lambda, log.callee); }
  }

  lemma NoneEnded(records: Records, s: Store, txn: string, commits: bool)
    ensures Ended(records, s, [], txn, commits, s)
  {
  }

  lemma OwnLogs(records: Records, lambda: string)
    ensures AllLogs(records, [lambda]) == LogsOf(records, lambda)
  {
    assert [lambda][..0] == [];
  }

  lemma Regroup(a: seq<string>, b: seq<string>, c: seq<string>)
    ensures a + (b + c) == (a + b) + c && a + [] == a
  {
  }

  // ---- what a reader wants to know about the effect ----

  lemma {:induction false} AllLogsAreRecords(records: Records, visits: seq<string>, w: TxnLog)
    ensures w in AllLogs(records, visits) <==> exists l :: l in visits && w in LogsOf(records, l)
  {
    if visits != [] {
      var before, last := visits[..|visits| - 1], visits[|visits| - 1];
      assert visits == before + [last];
      AllLogsAreRecords(records, before, w);
    }
  }

  ghost predicate Releases(logs: seq<TxnLog>, lockId: string) {
    exists i :: 0 <= i < |logs| && logs[i].WriteLog? && LockOf(logs[i].row) == lockId
  }

  lemma {:induction false} FreedExactly(s: Store, logs: seq<TxnLog>, txn: string, commits: bool, lockId: string)
    requires lockId in s.locks
    ensures var after := EndRecords(s, logs, txn, commits).locks;
            && (lockId in after ==> after[lockId] == s.locks[lockId])
            && (lockId !in after <==> s.locks[lockId] == txn && Releases(logs, lockId))
  {
    if logs != [] {
      var before, last := logs[..|logs| - 1], logs[|logs| - 1];
      FreedExactly(s, before, txn, commits, lockId);
      assert Releases(logs, lockId) <==> Releases(before, lockId) || (last.WriteLog? && LockOf(last.row) == lockId) by {
        if i :| 0 <= i < |before| && before[i].WriteLog? && LockOf(before[i].row) == lockId {
          assert logs[i] == before[i];
        }
      }
    }
  }

  /** The transaction wrote a key of this lock in some function it transitively recorded. */
  ghost predicate Wrote(records: Records, lambda: string, lockId: string) {
    exists l, w :: Reaches(records, lambda, l) && w in LogsOf(records, l) && w.WriteLog? && LockOf(w.row) == lockId
  }

  /**
   Ending a transaction at its root frees a lock exactly when the transaction holds it and some
   transitively recorded function has a write record for it; locks taken only to read stay held.
   */
  lemma EndingFreesExactlyWrittenLocks(records: Records, rank: string -> nat, lambda: string, txn: string,
                                       commits: bool,
                                       s: Store, lockId: string)
    requires Ranks(records, rank) && lockId in s.locks
    ensures var after := EndRecords(s, AllLogs(records, Visits(records, rank, lambda)), txn, commits);
            lockId !in after.locks <==> s.locks[lockId] == txn && Wrote(records, lambda, lockId)
  {
    var visits := Visits(records, rank, lambda);
    var logs := AllLogs(records, visits);
    FreedExactly(s, logs, txn, commits, lockId);
    if i :| 0 <= i < |logs| && logs[i].WriteLog? && LockOf(logs[i].row) == lockId {
      AllLogsAreRecords(records, visits, logs[i]);
      var l :| l in visits && logs[i] in LogsOf(records, l);
      VisitsAreReachable(records, rank, lambda, l);
    }
    if l, w :| Reaches(records, lambda, l) && w in LogsOf(records, l) && w.WriteLog? && LockOf(w.row) == lockId {
      VisitsAreReachable(records, rank, lambda, l);
      AllLogsAreRecords(records, visits, w);
    }
  }

  /** An abort writes no row. */
  lemma {:induction false} AbortWritesNothing(s: Store, logs: seq<TxnLog>, txn: string)
    ensures EndRecords(s, logs, txn, false).rows == s.rows
  {
    if logs != [] { AbortWritesNothing(s, logs[..|logs| - 1], txn); }
  }

  lemma EndRecordRow(s: Store, log: TxnLog, txn: string, row: RowKey)
    ensures WritesRow(log, row) ==> HasValue(EndRecord(s, log, txn, true), row, log.value)
    ensures !WritesRow(log, row) ==> SameValue(s, EndRecord(s, log, txn, true), row)
  {
  }

  ghost predicate HasValue(s: Store, row: RowKey, value: string) {
    row in s.rows && s.rows[row] == value
  }

  ghost predicate SameValue(s: Store, s': Store, row: RowKey) {
    (row in s'.rows <==> row in s.rows) && (row in s.rows ==> s'.rows[row] == s.rows[row])
  }

  ghost predicate NotWritten(logs: seq<TxnLog>, row: RowKey, from: int) {
    forall j :: 0 <= j && from < j < |logs| ==> !WritesRow(logs[j], row)
  }

  ghost predicate LastRecord(logs: seq<TxnLog>, row: RowKey, i: nat) {
    i < |logs| && WritesRow(logs[i], row) && NotWritten(logs, row, i)
  }

  /** Without the last record. */
  lemma NotWrittenBefore(logs: seq<TxnLog>, row: RowKey, from: int)
    requires logs != [] && NotWritten(logs, row, from) && from < |logs| - 1
    ensures NotWritten(logs[..|logs| - 1], row, from) && !WritesRow(logs[|logs| - 1], row)
  {
    var before := logs[..|logs| - 1];
    forall j | 0 <= j && from < j < |before| ensures !WritesRow(before[j], row) { assert before[j] == logs[j]; }
  }

  /** A commit leaves in a row the value of its last write record in visit order. */
  lemma {:induction false} CommitWritesLastRecords(s: Store, logs: seq<TxnLog>, txn: string, row: RowKey, i: nat)
    requires LastRecord(logs, row, i)
    ensures HasValue(EndRecords(s, logs, txn, true), row, logs[i].value)
  {
    var before, last := logs[..|logs| - 1], logs[|logs| - 1];
    EndRecordRow(EndRecords(s, before, txn, true), last, txn, row);
    if i < |logs| - 1 {
      NotWrittenBefore(logs, row, i);
      assert before[i] == logs[i];
      CommitWritesLastRecords(s, before, txn, row, i);
    }
  }

  /** And no other row changes. */
  lemma {:induction false} CommitLeavesOthers(s: Store, logs: seq<TxnLog>, txn: string, row: RowKey)
    requires NotWritten(logs, row, -1)
    ensures SameValue(s, EndRecords(s, logs, txn, true), row)
  {
    if logs != [] {
      var before, last := logs[..|logs| - 1], logs[|logs| - 1];
      NotWrittenBefore(logs, row, -1);
      CommitLeavesOthers(s, before, txn, row);
      EndRecordRow(EndRecords(s, before, txn, true), last, txn, row);
    }
  }

  predicate WritesRow(log: TxnLog, row: RowKey) {
    log.WriteLog? && log.row == row
  }

  /** A function that is called twice is recorded twice, and visited twice. */
  lemma RecordedTwiceEndsTwice(row: RowKey, rank: string -> nat)
    requires rank("callee") < rank("root")
    ensures var records := map["root" := [CallLog("callee"), CallLog("callee")], "callee" := [WriteLog(row, "v")]];
            Ranks(records, rank) && Visits(records, rank, "root") == ["root", "callee", "callee"]
  {
    var records := map["root" := [CallLog("callee"), CallLog("callee")], "callee" := [WriteLog(row, "v")]];
    assert LogsOf(records, "callee")[0] == WriteLog(row, "v");
    assert VisitsFrom(records, rank, "callee", 1) == [];
    assert VisitsFrom(records, rank, "callee", 0) == [];
    assert Visits(records, rank, "callee") == ["callee"];
    assert VisitsFrom(records, rank, "root", 2) == [];
    assert VisitsFrom(records, rank, "root", 1) == ["callee"];
    assert VisitsFrom(records, rank, "root", 0) == ["callee", "callee"];
  }
}

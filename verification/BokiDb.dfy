/** The step-logged database operations: CondWrite, Write, Read and Scan. */
module BokiDb {
  import opened Wrappers
  import opened LogModel
  import opened VersionedRows
  import opened BokiWorld
  import opened IntentProtocol
  import opened IntentFsms

  lemma FirstIsUnique(log: Log, i: int, j: int, instanceId: string, step: nat, post: bool)
    requires IsFirst(log, i, instanceId, step, post) && IsFirst(log, j, instanceId, step, post)
    ensures i == j
  {
  }

  /** The result entry of a PreWrite step is always its own PostWrite: the three result checks cannot panic. */
  lemma ResultFits(log: Log, attempts: map<RowKey, seq<Attempt>>, pre: IntentRecord, post: IntentRecord,
                   instanceId: string, step: nat)
    requires PostsFit(log, attempts)
    requires Records(log, pre, |log|, instanceId, step, false) && Records(log, post, |log|, instanceId, step, true)
    ensures pre.data.PreWrite? ==>
              && post.data == PostWrite(pre.data.table, pre.data.key)
              && Tried(attempts, RowKey(pre.data.table, pre.data.key), pre.seqNum)
    ensures pre.data.PreInvoke? ==> post.data.InvokeResult?
  {
    assert MayPost(log, post.seqNum, attempts, log[post.seqNum].payload);
    var i: nat :| i < post.seqNum && PostFits(log, i, attempts, log[post.seqNum].payload);
    FirstIsUnique(log, i, pre.seqNum, instanceId, step, false);
  }

  /** This call itself sent the update at most once, and no other update. */
  ghost predicate SentAtMost(before: seq<(RowKey, Attempt)>, after: seq<(RowKey, Attempt)>, row: RowKey, a: Attempt) {
    after == before || after == before + [(row, a)]
  }

  /** A replay that has the result of a step has the step. */
  lemma ResultMeansStep(env: Env, log: Log, attempts: map<RowKey, seq<Attempt>>, step: nat)
    requires env.Valid(log) && Lawful(log) && PostsFit(log, attempts) && step in env.fsm.postStepLogs
    ensures step in env.fsm.stepLogs
  {
    FirstAppendWins(log, env.instanceId, env.fsm.Position(), step);
    var i := env.fsm.postStepLogs[step].seqNum;
    assert MayPost(log, i, attempts, log[i].payload);
    var j: nat :| j < i && PostFits(log, j, attempts, log[i].payload);
    assert IsStep(log, j, env.instanceId, step, false);
  }

  /**
   `ok` is false exactly when a CheckLogDataField call panics, that is when the step was agreed to be
   something else. Otherwise, on return, the caller's own update was served at least once, under the agreed
   entry's sequence number, and its PostWrite is logged. An executor that knows the result sends nothing.
   */
  method CondWrite(env: Env, w: World, table: string, key: string,
                   update: Option<string> -> Option<string>, cond: Item -> bool)
    returns (ok: bool, ghost pre: IntentRecord)
    requires w.Valid() && env.Valid(w.log) && w.calls(env.instanceId, env.stepNumber) == Call(update, cond)
    modifies env, env.fsm, w
    ensures w.Valid() && w.Evolved() && env.Valid(w.log) && env.stepNumber == old(env.stepNumber) + 1
    ensures old(env.own) <= env.own
    ensures Records(w.log, pre, |w.log|, env.instanceId, old(env.stepNumber), false)
    ensures ok <==> pre.data == PreWrite(table, key)
    ensures ok ==> Served(w.attempts, RowKey(table, key), Attempt(pre.seqNum, update, cond))
    ensures ok ==> SentAtMost(old(w.updated), w.updated, RowKey(table, key), Attempt(pre.seqNum, update, cond))
    ensures !ok || old(env.stepNumber in env.fsm.postStepLogs) ==> w.updated == old(w.updated)
    ensures ok ==> exists i :: IsStep(w.log, i, env.instanceId, old(env.stepNumber), true)
  {
    var step := env.stepNumber;
    if step in env.fsm.postStepLogs { ResultMeansStep(env, w.log, w.attempts, step); }
    var isNew, r, mine := env.ProposeNextStep(w, PreWrite(table, key));
    pre := r;
    if !isNew {
      if r.data != PreWrite(table, key) { return false, pre; }
      var result := env.FetchStepResultLog(w, step, false);
      if result.Some? {
        ResultFits(w.log, w.attempts, r, result.value, env.instanceId, step);
        TriedIsServed(w.log, w.attempts, w.calls, RowKey(table, key), r.seqNum, env.instanceId, step);
        return true, pre;
      }
    }
    ServeAndPost(env, w, r, step, Attempt(r.seqNum, update, cond));
    ok := true;
  }

  /** The conditional UpdateItem, then the PostWrite entry, for an agreed PreWrite entry. */
  method ServeAndPost(env: Env, w: World, pre: IntentRecord, step: nat, a: Attempt)
    requires w.Valid() && env.Valid(w.log) && a == AttemptOf(pre.seqNum, w.calls(env.instanceId, step))
    requires Records(w.log, pre, |w.log|, env.instanceId, step, false) && pre.data.PreWrite?
    modifies env, env.fsm, w
    ensures w.Valid() && w.Evolved() && env.Valid(w.log) && env.stepNumber == old(env.stepNumber)
    ensures old(env.own) <= env.own
    ensures Records(w.log, pre, |w.log|, env.instanceId, step, false)
    ensures Served(w.attempts, RowKey(pre.data.table, pre.data.key), a)
    ensures w.updated == old(w.updated) + [(RowKey(pre.data.table, pre.data.key), a)]
    ensures exists i :: IsStep(w.log, i, env.instanceId, step, true)
  {
    ServeUpdate(env, w, pre, step, a);
    PostResult(env, w, pre, step);
  }

  method PostResult(env: Env, w: World, pre: IntentRecord, step: nat)
    requires w.Valid() && env.Valid(w.log)
    requires Records(w.log, pre, |w.log|, env.instanceId, step, false) && pre.data.PreWrite?
    requires Tried(w.attempts, RowKey(pre.data.table, pre.data.key), pre.seqNum)
    modifies env, w
    ensures w.Valid() && w.Evolved() && env.Valid(w.log) && env.stepNumber == old(env.stepNumber)
    ensures old(env.own) <= env.own && w.updated == old(w.updated)
    ensures Records(w.log, pre, |w.log|, env.instanceId, step, false)
    ensures exists i :: IsStep(w.log, i, env.instanceId, step, true)
  {
    var result := PostWrite(pre.data.table, pre.data.key);
    PostAllowed(w.log, w.attempts, pre, env.instanceId, step);
    env.LogStepResult(w, env.instanceId, step, result);
    Posted(old(w.log), w.log, pre, env.instanceId, step, result);
  }

  lemma Posted(log: Log, longer: Log, pre: IntentRecord, instanceId: string, step: nat, result: StepData)
    requires log <= longer && Records(log, pre, |log|, instanceId, step, false)
    requires longer != [] && longer[|longer| - 1].Entry?
    requires longer[|longer| - 1].payload == Intent(instanceId, step, true, result)
    ensures Records(longer, pre, |longer|, instanceId, step, false)
    ensures exists i :: IsStep(longer, i, instanceId, step, true)
  {
    RecordsStable(log, longer, pre, instanceId, step, false);
    assert IsStep(longer, |longer| - 1, instanceId, step, true);
  }

  lemma PostAllowed(log: Log, attempts: map<RowKey, seq<Attempt>>, pre: IntentRecord, instanceId: string, step: nat)
    requires Records(log, pre, |log|, instanceId, step, false) && pre.data.PreWrite?
    requires Tried(attempts, RowKey(pre.data.table, pre.data.key), pre.seqNum)
    ensures MayPost(log, |log|, attempts, Intent(instanceId, step, true, PostWrite(pre.data.table, pre.data.key)))
  {
    assert PostFits(log, pre.seqNum, attempts, Intent(instanceId, step, true, PostWrite(pre.data.table, pre.data.key)));
  }

  method ServeUpdate(env: Env, w: World, pre: IntentRecord, step: nat, a: Attempt)
    requires w.Valid() && env.Valid(w.log) && a == AttemptOf(pre.seqNum, w.calls(env.instanceId, step))
    requires Records(w.log, pre, |w.log|, env.instanceId, step, false) && pre.data.PreWrite?
    modifies w
    ensures w.Valid() && w.Evolved() && env.Valid(w.log)
    ensures Records(w.log, pre, |w.log|, env.instanceId, step, false)
    ensures Served(w.attempts, RowKey(pre.data.table, pre.data.key), a)
    ensures Tried(w.attempts, RowKey(pre.data.table, pre.data.key), pre.seqNum)
    ensures w.appended == old(w.appended) && w.updated == old(w.updated) + [(RowKey(pre.data.table, pre.data.key), a)]
  {
    w.Update(RowKey(pre.data.table, pre.data.key), a);
    env.ValidStable(old(w.log), w.log);
    RecordsStable(old(w.log), w.log, pre, env.instanceId, step, false);
  }

  /** An unconditional write: moreover the row's VERSION has reached the step's sequence number on return. */
  method Write(env: Env, w: World, table: string, key: string, update: Option<string> -> Option<string>)
    returns (ok: bool, ghost pre: IntentRecord)
    requires w.Valid() && env.Valid(w.log) && w.calls(env.instanceId, env.stepNumber) == Call(update, Always())
    modifies env, env.fsm, w
    ensures w.Valid() && w.Evolved() && env.Valid(w.log) && env.stepNumber == old(env.stepNumber) + 1
    ensures old(env.own) <= env.own
    ensures Records(w.log, pre, |w.log|, env.instanceId, old(env.stepNumber), false)
    ensures ok <==> pre.data == PreWrite(table, key)
    ensures ok ==> Served(w.attempts, RowKey(table, key), Attempt(pre.seqNum, update, Always()))
    ensures ok ==> SentAtMost(old(w.updated), w.updated, RowKey(table, key), Attempt(pre.seqNum, update, Always()))
    ensures !ok || old(env.stepNumber in env.fsm.postStepLogs) ==> w.updated == old(w.updated)
    ensures ok ==> exists i :: IsStep(w.log, i, env.instanceId, old(env.stepNumber), true)
    ensures ok ==> AtMost(Some(pre.seqNum), w.Row(RowKey(table, key)).version)
  {
    ok, pre := CondWrite(env, w, table, key, update, Always());
    if ok {
      ghost var row := RowKey(table, key);
      ghost var i :| 0 <= i < |w.Tries(row)| && w.Tries(row)[i] == Attempt(pre.seqNum, update, Always());
      assert Explained(w.initial, w.rows, w.attempts, row);
      AttemptedMeansVersionReached(w.Start(row), w.Tries(row), i);
    }
  }

  /**
   A step-logged read returns the value the log agreed on. The call whose own entry was agreed returns the row's
   value as it was at some moment during the call: `served` is the row's history up to that moment.
   */
  method Read(env: Env, w: World, table: string, key: string)
    returns (ok: bool, v: Option<string>, ghost logged: IntentRecord, ghost served: seq<Attempt>)
    requires w.Valid() && env.Valid(w.log)
    modifies env, env.fsm, w
    ensures w.Valid() && w.Evolved() && env.Valid(w.log) && env.stepNumber == old(env.stepNumber) + 1
    ensures Records(w.log, logged, |w.log|, env.instanceId, old(env.stepNumber), false)
    ensures ok <==> logged.data.ReadResult? && logged.data.table == table && logged.data.key == key
    ensures ok ==> v == logged.data.read
    ensures ProposedAtMost(old(w.appended), w.appended) && w.updated == old(w.updated) && old(env.own) <= env.own
    ensures Won(old(w.appended), w.appended, logged) ==> ok && |old(w.log)| <= logged.seqNum
    ensures Won(old(w.appended), w.appended, logged) ==>
              ReadWithin(w.initial, old(w.attempts), w.attempts, RowKey(table, key), served, v)
  {
    var step, row := env.stepNumber, RowKey(table, key);
    served := [];
    var known := env.KnownStep(w);
    var r: IntentRecord;
    if known.Some? {
      r := known.value;
      env.stepNumber := step + 1;
    } else {
      var item;
      item, served := ReadRow(env, w, row);
      ghost var mid := w.attempts;
      var isNew, entry, mine := env.ProposeNextStep(w, ReadResult(table, key, item));
      ReadWithinStays(w.initial, old(w.attempts), mid, w.attempts, row, served, item);
      r := entry;
    }
    logged := r;
    ok := r.data.ReadResult? && r.data.table == table && r.data.key == key;
    v := if ok then r.data.read else None;
  }

  /** At most one entry was appended by this call. */
  ghost predicate ProposedAtMost(before: seq<nat>, after: seq<nat>) {
    before <= after && |after| <= |before| + 1
  }

  /** The agreed entry is the one this call appended. */
  ghost predicate Won(before: seq<nat>, after: seq<nat>, logged: IntentRecord) {
    |before| < |after| && logged.seqNum in after[|before|..]
  }

  /** A step-logged scan: `keys` are the rows the database lists, each read at its own moment. */
  method Scan(env: Env, w: World, table: string, keys: seq<string>)
    returns (ok: bool, vs: seq<Option<string>>, ghost logged: IntentRecord, ghost served: seq<seq<Attempt>>)
    requires w.Valid() && env.Valid(w.log)
    modifies env, env.fsm, w
    ensures w.Valid() && w.Evolved() && env.Valid(w.log) && env.stepNumber == old(env.stepNumber) + 1
    ensures Records(w.log, logged, |w.log|, env.instanceId, old(env.stepNumber), false)
    ensures ok <==> logged.data.ScanResult? && logged.data.table == table
    ensures ok ==> vs == logged.data.scanned
    ensures ProposedAtMost(old(w.appended), w.appended) && w.updated == old(w.updated) && old(env.own) <= env.own
    ensures Won(old(w.appended), w.appended, logged) ==> ok && |vs| == |keys|
    ensures Won(old(w.appended), w.appended, logged) ==>
              ScannedWithin(w.initial, old(w.attempts), w.attempts, table, keys, served, vs)
  {
    var step := env.stepNumber;
    served := [];
    var known := env.KnownStep(w);
    var r: IntentRecord;
    if known.Some? {
      r := known.value;
      env.stepNumber := step + 1;
    } else {
      var items;
      items, served := LibScan(env, w, table, keys);
      ghost var mid := w.attempts;
      var isNew, entry, mine := env.ProposeNextStep(w, ScanResult(table, items));
      ScannedWithinStays(w.initial, old(w.attempts), mid, w.attempts, table, keys, served, items);
      r := entry;
    }
    logged := r;
    ok := r.data.ScanResult? && r.data.table == table;
    vs := if ok then r.data.scanned else [];
  }

  /** The value is the row's after the updates `served`: all that were served before the call, and no later ones. */
  ghost predicate ReadWithin(initial: map<RowKey, Item>, before: map<RowKey, seq<Attempt>>, after: map<RowKey,
                             seq<Attempt>>,
                             row: RowKey, served: seq<Attempt>, v: Option<string>) {
    TriesOf(before, row) <= served <= TriesOf(after, row) && v == Serve(ItemOf(initial, row), served).v
  }

  ghost predicate ScannedWithin(initial: map<RowKey, Item>, before: map<RowKey, seq<Attempt>>,
                                after: map<RowKey, seq<Attempt>>, table: string, keys: seq<string>,
                                served: seq<seq<Attempt>>, vs: seq<Option<string>>) {
    && |served| == |vs| <= |keys|
    && forall i :: 0 <= i < |vs| ==> ReadWithin(initial, before, after, RowKey(table, keys[i]), served[i], vs[i])
  }

  lemma ReadWithinStays(initial: map<RowKey, Item>, before: map<RowKey, seq<Attempt>>, after: map<RowKey, seq<Attempt>>,
                        later: map<RowKey, seq<Attempt>>, row: RowKey, served: seq<Attempt>, v: Option<string>)
    requires ReadWithin(initial, before, after, row, served, v) && Grows(after, later)
    ensures ReadWithin(initial, before, later, row, served, v)
  {
  }

  lemma ScannedWithinStays(initial: map<RowKey, Item>, before: map<RowKey, seq<Attempt>>,
                           after: map<RowKey, seq<Attempt>>, later: map<RowKey, seq<Attempt>>, table: string,
                           keys: seq<string>, served: seq<seq<Attempt>>, vs: seq<Option<string>>)
    requires ScannedWithin(initial, before, after, table, keys, served, vs) && Grows(after, later)
    ensures ScannedWithin(initial, before, later, table, keys, served, vs)
  {
    forall i | 0 <= i < |vs| ensures ReadWithin(initial, before, later, RowKey(table, keys[i]), served[i], vs[i]) {
      ReadWithinStays(initial, before, after, later, RowKey(table, keys[i]), served[i], vs[i]);
    }
  }

  method LibScan(env: Env, w: World, table: string, keys: seq<string>)
    returns (vs: seq<Option<string>>, ghost served: seq<seq<Attempt>>)
    requires w.Valid() && env.Valid(w.log)
    modifies w
    ensures w.Valid() && w.Evolved() && w.Idle() && env.Valid(w.log)
    ensures |vs| == |keys| && ScannedWithin(w.initial, old(w.attempts), w.attempts, table, keys, served, vs)
  {
    vs, served := [], [];
    for k := 0 to |keys|
      invariant w.Valid() && w.Evolved() && w.Idle() && env.Valid(w.log)
      invariant |vs| == k && ScannedWithin(w.initial, old(w.attempts), w.attempts, table, keys, served, vs)
    {
      ghost var before := w.attempts;
      var v, history := ReadRow(env, w, RowKey(table, keys[k]));
      ScannedWithinStays(w.initial, old(w.attempts), before, w.attempts, table, keys, served, vs);
      assert ReadWithin(w.initial, old(w.attempts), w.attempts, RowKey(table, keys[k]), history, v);
      vs, served := vs + [v], served + [history];
    }
  }

  method ReadRow(env: Env, w: World, row: RowKey) returns (v: Option<string>, ghost served: seq<Attempt>)
    requires w.Valid() && env.Valid(w.log)
    modifies w
    ensures w.Valid() && w.Evolved() && w.Idle() && env.Valid(w.log)
    ensures ReadWithin(w.initial, old(w.attempts), w.attempts, row, served, v) && served == TriesOf(w.attempts, row)
  {
    var item := w.GetItem(row);
    env.ValidStable(old(w.log), w.log);
    v, served := item.v, TriesOf(w.attempts, row);
    assert Explained(w.initial, w.rows, w.attempts, row);
  }
}

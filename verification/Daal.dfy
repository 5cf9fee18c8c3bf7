/**
 Beldi's linked DAAL for one key: rows with an update log, linked by NEXTROW, changed only by single-row
 conditional updates of any number of writers, and pruned, unlinked and deleted by a collector.
 */
module Daal {
  import opened Wrappers

  type RowId = string

  const HEAD: RowId := "HEAD"

  /** The id of one logged operation: instance and step number. */
  datatype Cid = Cid(instance: string, step: nat)

  type Update = Option<string> -> Option<string>

  /** What LOGS stores under an id: NULL for a write, a boolean for a conditional write. */
  datatype Outcome = Plain | Flag(held: bool)

  /** An operation as it was logged. */
  datatype Past = Past(cid: Cid, out: Outcome, update: Update) {
    predicate Applied() { out != Flag(false) }
  }

  /** The columns of a row; `past` is a history column that pruning never touches. */
  datatype Row = Row(
    v: Option<string>,
    logs: map<Cid, Outcome>,
    logSize: nat,
    gcSize: nat,
    next: Option<RowId>,
    ts: Option<int>,
    past: seq<Past>)

  /**
   `chain` lists every row ever linked, in order; `gone` those unlinked since, in the order of unlinking;
   `deleted` those removed from the table; `finished` the instances whose logs may be pruned.
   */
  datatype Store = Store(
    n: nat,
    rows: map<RowId, Row>,
    chain: seq<RowId>,
    gone: seq<RowId>,
    deleted: set<RowId>,
    finished: set<string>)
  {
    function At(i: nat): Row
      requires i < |chain| && chain[i] in rows
    {
      rows[chain[i]]
    }

    predicate Present(id: RowId) { id in rows && id !in deleted }

    predicate Full(id: RowId)
      requires id in rows
    {
      rows[id].logSize >= n
    }
  }

  function NewRow(v: Option<string>): Row {
    Row(v, map[], 0, 0, None, None, [])
  }

  function Empty(n: nat): Store {
    Store(n, map[], [], [], {}, {})
  }

  function Successes(past: seq<Past>): nat {
    if past == [] then 0
    else Successes(past[..|past| - 1]) + if past[|past| - 1].Applied() then 1 else 0
  }

  /** The register: the value after the logged updates that took effect. */
  function Fold(v: Option<string>, past: seq<Past>): Option<string> {
    if past == [] then v
    else
      var before, last := Fold(v, past[..|past| - 1]), past[|past| - 1];
      if last.Applied() then last.update(before) else before
  }

  /** All operations ever logged in the first k rows of the chain, in chain order. */
  function Hist(s: Store, k: nat): seq<Past>
    requires k <= |s.chain| && forall i :: 0 <= i < k ==> s.chain[i] in s.rows
  {
    if k == 0 then [] else Hist(s, k - 1) + s.At(k - 1).past
  }

  // ---- invariant ----

  ghost predicate ChainOk(s: Store) {
    && (forall i, j :: 0 <= i < j < |s.chain| ==> s.chain[i] != s.chain[j])
    && (forall i :: 0 <= i < |s.chain| ==> s.chain[i] in s.rows)
    && (s.chain != [] ==> s.chain[0] == HEAD)
    && (s.rows != map[] ==> s.chain != [])
  }

  /** Entry p of the order of unlinking is this row. */
  ghost predicate GoneAt(gone: seq<RowId>, id: RowId, p: nat) {
    p < |gone| && gone[p] == id
  }

  /** A pointer from row i to row j skips unlinked rows only, and never leads to a row unlinked before row i was. */
  ghost predicate Hop(chain: seq<RowId>, gone: seq<RowId>, i: nat, j: nat) {
    && i < j < |chain|
    && (forall k :: i < k < j ==> chain[k] in gone)
    && (chain[i] !in gone ==> chain[j] !in gone)
    && (forall p: nat, q: nat :: GoneAt(gone, chain[i], p) && GoneAt(gone, chain[j], q) ==> p < q)
  }

  /** NEXTROW of row i is row j. */
  ghost predicate LeadsTo(s: Store, i: nat, j: nat)
    requires ChainOk(s) && i < |s.chain|
  {
    Hop(s.chain, s.gone, i, j) && s.At(i).next == Some(s.chain[j])
  }

  /** Entry k of the row's history put this outcome under this id. */
  ghost predicate Entered(past: seq<Past>, k: nat, c: Cid, out: Outcome) {
    k < |past| && past[k].cid == c && past[k].out == out
  }

  ghost predicate Backed(past: seq<Past>, c: Cid, out: Outcome) {
    exists k: nat :: Entered(past, k, c, out)
  }

  /** Logged ids are live until pruned; pruning counts, and touches finished instances only. */
  ghost predicate LogsOk(r: Row, finished: set<string>) {
    && r.logSize == Successes(r.past)
    && |r.logs| + r.gcSize == |r.past|
    && (forall c :: c in r.logs ==> Backed(r.past, c, r.logs[c]))
    && (forall k :: 0 <= k < |r.past| ==> r.past[k].cid in r.logs || r.past[k].cid.instance in finished)
  }

  ghost predicate RowOk(s: Store, i: nat)
    requires ChainOk(s) && i < |s.chain|
  {
    var r := s.At(i);
    && LogsOk(r, s.finished)
    && if i == |s.chain| - 1 then r.next.None? && r.logSize <= s.n
       else r.logSize == s.n && exists j: nat :: LeadsTo(s, i, j)
  }

  ghost predicate RowsOk(s: Store)
    requires ChainOk(s)
  {
    forall i: nat :: i < |s.chain| ==> RowOk(s, i)
  }

  /** Unlinked rows are interior, logged no failed conditional write, and have every entry pruned. */
  ghost predicate GoneOk(s: Store)
    requires ChainOk(s)
  {
    && (forall p, q :: 0 <= p < q < |s.gone| ==> s.gone[p] != s.gone[q])
    && (forall i: nat :: i < |s.chain| && s.chain[i] in s.gone ==>
          0 < i < |s.chain| - 1 && s.At(i).gcSize == s.n && |s.At(i).past| == s.n)
    && (forall id :: id in s.gone ==> id in s.chain)
    && (forall id :: id in s.deleted ==> id in s.gone)
  }

  ghost predicate TempsOk(s: Store) {
    forall id :: id in s.rows && id !in s.chain ==> s.rows[id] == NewRow(s.rows[id].v)
  }

  /** Every row's V is the register after all operations logged up to and including that row. */
  ghost predicate ValuesOk(s: Store)
    requires ChainOk(s)
  {
    forall i: nat :: i < |s.chain| ==> ValueOk(s, i)
  }

  ghost predicate ValueOk(s: Store, i: nat)
    requires ChainOk(s) && i < |s.chain|
  {
    s.At(i).v == Fold(None, Hist(s, i + 1))
  }

  /** No id is logged twice, in one row or in two. */
  ghost predicate UniqueOk(s: Store)
    requires ChainOk(s)
  {
    forall i: nat, a: nat, j: nat, b: nat :: Distinct(s, i, a, j, b)
  }

  ghost predicate Distinct(s: Store, i: nat, a: nat, j: nat, b: nat)
    requires ChainOk(s)
  {
    LoggedAt(s, i, a) && LoggedAt(s, j, b) && CidAt(s, i, a) == CidAt(s, j, b) ==> i == j && a == b
  }

  ghost predicate LoggedAt(s: Store, i: nat, a: nat)
    requires ChainOk(s)
  {
    i < |s.chain| && a < |s.At(i).past|
  }

  ghost function CidAt(s: Store, i: nat, a: nat): Cid
    requires ChainOk(s) && LoggedAt(s, i, a)
  {
    s.At(i).past[a].cid
  }

  ghost predicate Inv(s: Store) {
    && s.n > 0 && ChainOk(s) && RowsOk(s) && GoneOk(s) && TempsOk(s) && ValuesOk(s) && UniqueOk(s)
  }

  // ---- actions ----

  /** The writer has found, or will never need to look for, its id in no row before this one. */
  ghost predicate Passed(s: Store, id: RowId, cid: Cid)
    requires ChainOk(s)
  {
    exists i: nat :: PassedTo(s, i, id, cid)
  }

  ghost predicate PassedTo(s: Store, i: nat, id: RowId, cid: Cid)
    requires ChainOk(s)
  {
    i < |s.chain| && s.chain[i] == id && forall k: nat, a: nat :: k < i && LoggedAt(s, k, a) ==> CidAt(s, k, a) != cid
  }

  datatype Action =
    | InsertHead
    | LogWrite(id: RowId, cid: Cid, update: Update)
    | LogCondWrite(id: RowId, cid: Cid, update: Update, cond: Option<string> -> bool)
    | LogFailure(id: RowId, cid: Cid)
    | CreateRow(id: RowId, v: Option<string>)
    | LinkRow(id: RowId, newId: RowId)
    | DropRow(id: RowId)
    | Finish(instance: string)
    | Prune(id: RowId, cids: set<Cid>)
    | Relink(i: nat, j: nat, k: nat)
    | Mark(id: RowId, now: int)
    | Delete(id: RowId)

  /** The condition of the logging updates: id not in LOGS and LOGSIZE below N. */
  predicate CanLog(s: Store, id: RowId, cid: Cid) {
    s.Present(id) && cid !in s.rows[id].logs && s.rows[id].logSize < s.n
  }

  /** What the code that issues an action has established, besides the condition the database checks. */
  ghost predicate Enabled(s: Store, a: Action)
    requires ChainOk(s)
  {
    match a
    case InsertHead => HEAD !in s.rows
    case LogWrite(id, cid, _) => CanLog(s, id, cid) && Passed(s, id, cid) && cid.instance !in s.finished
    case LogCondWrite(id, cid, _, cond) =>
      CanLog(s, id, cid) && Passed(s, id, cid) && cid.instance !in s.finished && cond(s.rows[id].v)
    case LogFailure(id, cid) => CanLog(s, id, cid) && Passed(s, id, cid) && cid.instance !in s.finished
    case CreateRow(id, v) => id !in s.rows && s.chain != [] && id != HEAD
    case LinkRow(id, newId) =>
      && id in s.chain && s.Full(id) && s.rows[id].next.None?
      && newId in s.rows && newId !in s.chain && s.rows[newId].v == s.rows[id].v
    case DropRow(id) => id in s.rows && id !in s.chain
    case Finish(_) => true
    case Prune(id, cids) =>
      id in s.chain && cids <= s.rows[id].logs.Keys && forall c :: c in cids ==> c.instance in s.finished
    case Relink(i, j, k) =>
      && i < |s.chain| && s.chain[i] !in s.gone && LeadsTo(s, i, j) && LeadsTo(s, j, k)
      && s.At(j).gcSize == s.n && |s.At(j).past| == s.n
    case Mark(id, now) => id in s.gone && id in s.rows
    case Delete(id) => id in s.gone && id !in s.deleted
  }

  function WithLog(r: Row, cid: Cid, out: Outcome, update: Update): Row {
    var p := Past(cid, out, update);
    if p.Applied() then r.(v := update(r.v), logs := r.logs[cid := out], logSize := r.logSize + 1, past := r.past + [p])
    else r.(logs := r.logs[cid := out], past := r.past + [p])
  }

  function Logged(s: Store, id: RowId, cid: Cid, out: Outcome, update: Update): Store
    requires id in s.rows
  {
    s.(rows := s.rows[id := WithLog(s.rows[id], cid, out, update)])
  }

  ghost function Do(s: Store, a: Action): Store
    requires ChainOk(s) && Enabled(s, a)
  {
    match a
    case InsertHead => s.(rows := s.rows[HEAD := NewRow(None)], chain := [HEAD])
    case LogWrite(id, cid, update) => Logged(s, id, cid, Plain, update)
    case LogCondWrite(id, cid, update, _) => Logged(s, id, cid, Flag(true), update)
    case LogFailure(id, cid) => Logged(s, id, cid, Flag(false), v => v)
    case CreateRow(id, v) => s.(rows := s.rows[id := NewRow(v)])
    case LinkRow(id, newId) => s.(rows := s.rows[id := s.rows[id].(next := Some(newId))], chain := s.chain + [newId])
    case DropRow(id) => s.(rows := s.rows - {id})
    case Finish(instance) => s.(finished := s.finished + {instance})
    case Prune(id, cids) =>
      var r := s.rows[id];
      s.(rows := s.rows[id := r.(logs := r.logs - cids, gcSize := r.gcSize + |cids|)])
    case Relink(i, j, k) =>
      s.(rows := s.rows[s.chain[i] := s.At(i).(next := Some(s.chain[k]))], gone := s.gone + [s.chain[j]])
    case Mark(id, now) => s.(rows := s.rows[id := s.rows[id].(ts := Some(now))])
    case Delete(id) => s.(deleted := s.deleted + {id})
  }

  // ---- what an action leaves alone ----

  /** Row i and all that its NEXTROW depends on are as before. */
  lemma RowKept(s: Store, s': Store, i: nat)
    requires ChainOk(s) && ChainOk(s') && i < |s.chain| && RowOk(s, i)
    requires s'.n == s.n && s'.chain == s.chain && s'.gone == s.gone && s.finished <= s'.finished && s'.At(i) == s.At(i)
    ensures RowOk(s', i)
  {
    if i < |s.chain| - 1 {
      var j: nat :| LeadsTo(s, i, j);
      assert LeadsTo(s', i, j);
    }
  }

  lemma {:induction false} HistKept(s: Store, s': Store, k: nat)
    requires ChainOk(s) && ChainOk(s') && k <= |s.chain| && k <= |s'.chain|
    requires forall i: nat :: i < k ==> s'.At(i).past == s.At(i).past
    ensures Hist(s', k) == Hist(s, k)
  {
    if k > 0 { HistKept(s, s', k - 1); }
  }

  ghost predicate SameContent(s: Store, s': Store)
    requires ChainOk(s) && ChainOk(s')
  {
    s'.chain == s.chain && forall i: nat :: i < |s.chain| ==> s'.At(i).past == s.At(i).past && s'.At(i).v == s.At(i).v
  }

  lemma ContentKept(s: Store, s': Store)
    requires ChainOk(s) && ChainOk(s') && SameContent(s, s') && ValuesOk(s) && UniqueOk(s)
    ensures ValuesOk(s') && UniqueOk(s')
  {
    forall i: nat | i < |s'.chain| ensures ValueOk(s', i) {
      assert ValueOk(s, i);
      HistKept(s, s', i + 1);
    }
    forall i: nat, a: nat, j: nat, b: nat ensures Distinct(s', i, a, j, b) {
      assert Distinct(s, i, a, j, b);
    }
  }

  /** A row that still takes entries is the last one. */
  lemma OpenRowIsLast(s: Store, i: nat)
    requires ChainOk(s) && RowsOk(s) && i < |s.chain| && (s.At(i).logSize < s.n || s.At(i).next.None?)
    ensures i == |s.chain| - 1
  {
    assert RowOk(s, i);
  }

  // ---- logging ----

  lemma WithLogOk(r: Row, finished: set<string>, cid: Cid, out: Outcome, update: Update)
    requires LogsOk(r, finished) && cid !in r.logs
    ensures LogsOk(WithLog(r, cid, out, update), finished)
  {
    var r' := WithLog(r, cid, out, update);
    assert r'.past[..|r.past|] == r.past;
    assert Entered(r'.past, |r.past|, cid, out);
    forall c | c in r'.logs ensures Backed(r'.past, c, r'.logs[c]) {
      if c != cid { BackedAfter(r.past, Past(cid, out, update), c, r.logs[c]); }
    }
  }

  lemma BackedAfter(past: seq<Past>, p: Past, c: Cid, out: Outcome)
    requires Backed(past, c, out)
    ensures Backed(past + [p], c, out)
  {
    var k: nat :| Entered(past, k, c, out);
    assert Entered(past + [p], k, c, out);
  }

  lemma LogKeeps(s: Store, id: RowId, cid: Cid, out: Outcome, update: Update)
    requires Inv(s) && CanLog(s, id, cid) && Passed(s, id, cid) && cid.instance !in s.finished
    ensures Inv(Logged(s, id, cid, out, update))
  {
    var s' := Logged(s, id, cid, out, update);
    var i: nat :| PassedTo(s, i, id, cid);
    OpenRowIsLast(s, i);
    assert RowOk(s, i) && ChainOk(s') && s.chain[i] !in s.gone;
    forall k: nat | k < |s'.chain| ensures RowOk(s', k) {
      if k != i { RowKept(s, s', k); } else { LoggedRowOk(s, i, cid, out, update); }
    }
    LogKeepsValues(s, i, cid, out, update);
    LogKeepsUnique(s, i, cid, out, update);
  }

  lemma LoggedRowOk(s: Store, i: nat, cid: Cid, out: Outcome, update: Update)
    requires ChainOk(s) && i == |s.chain| - 1 && RowOk(s, i) && CanLog(s, s.chain[i], cid)
    requires ChainOk(Logged(s, s.chain[i], cid, out, update))
    ensures RowOk(Logged(s, s.chain[i], cid, out, update), i)
  {
    WithLogOk(s.At(i), s.finished, cid, out, update);
  }

  lemma LogKeepsValues(s: Store, i: nat, cid: Cid, out: Outcome, update: Update)
    requires ChainOk(s) && ValuesOk(s) && i == |s.chain| - 1
    ensures ChainOk(Logged(s, s.chain[i], cid, out, update)) && ValuesOk(Logged(s, s.chain[i], cid, out, update))
  {
    var s' := Logged(s, s.chain[i], cid, out, update);
    assert ChainOk(s');
    forall k: nat | k < |s'.chain| ensures ValueOk(s', k) {
      assert ValueOk(s, k);
      if k < i { HistKept(s, s', k + 1); } else { LastValue(s, s', i, cid, out, update); }
    }
  }

  lemma LastValue(s: Store, s': Store, i: nat, cid: Cid, out: Outcome, update: Update)
    requires ChainOk(s) && i < |s.chain| && s.At(i).v == Fold(None, Hist(s, i + 1))
    requires ChainOk(s') && s' == Logged(s, s.chain[i], cid, out, update)
    ensures s'.At(i).v == Fold(None, Hist(s', i + 1))
  {
    HistKept(s, s', i);
    var p := Past(cid, out, update);
    assert Hist(s', i + 1) == Hist(s', i) + (s.At(i).past + [p]) == Hist(s, i + 1) + [p];
  }

  lemma LogKeepsUnique(s: Store, i: nat, cid: Cid, out: Outcome, update: Update)
    requires ChainOk(s) && UniqueOk(s) && i == |s.chain| - 1 && PassedTo(s, i, s.chain[i], cid)
    requires LogsOk(s.At(i), s.finished) && cid !in s.At(i).logs && cid.instance !in s.finished
    ensures ChainOk(Logged(s, s.chain[i], cid, out, update)) && UniqueOk(Logged(s, s.chain[i], cid, out, update))
  {
    var s' := Logged(s, s.chain[i], cid, out, update);
    forall k: nat, a: nat, l: nat, b: nat ensures Distinct(s', k, a, l, b) {
      assert Distinct(s, k, a, l, b);
      OldEntry(s, i, cid, out, update, k, a);
      OldEntry(s, i, cid, out, update, l, b);
    }
  }

  /** Every entry but the new one was there before, under another id. */
  lemma OldEntry(s: Store, i: nat, cid: Cid, out: Outcome, update: Update, k: nat, a: nat)
    requires ChainOk(s) && i == |s.chain| - 1 && PassedTo(s, i, s.chain[i], cid)
    requires LogsOk(s.At(i), s.finished) && cid !in s.At(i).logs && cid.instance !in s.finished
    requires ChainOk(Logged(s, s.chain[i], cid, out, update))
    ensures var s' := Logged(s, s.chain[i], cid, out, update);
      LoggedAt(s', k, a) ==>
        if k == i && a == |s.At(i).past| then CidAt(s', k, a) == cid
        else LoggedAt(s, k, a) && CidAt(s', k, a) == CidAt(s, k, a) && CidAt(s, k, a) != cid
  {
    if k == i && a < |s.At(i).past| {
      assert s.At(i).past[a].cid in s.At(i).logs || s.At(i).past[a].cid.instance in s.finished;
    }
  }

  // ---- rows come and go ----

  lemma CreateKeeps(s: Store, id: RowId, v: Option<string>)
    requires Inv(s) && Enabled(s, CreateRow(id, v))
    ensures Inv(Do(s, CreateRow(id, v)))
  {
    var s' := Do(s, CreateRow(id, v));
    forall k: nat | k < |s'.chain| ensures RowOk(s', k) { RowKept(s, s', k); }
    ContentKept(s, s');
  }

  lemma DropKeeps(s: Store, id: RowId)
    requires Inv(s) && Enabled(s, DropRow(id))
    ensures Inv(Do(s, DropRow(id)))
  {
    var s' := Do(s, DropRow(id));
    forall k: nat | k < |s'.chain| ensures RowOk(s', k) { RowKept(s, s', k); }
    ContentKept(s, s');
  }

  lemma InsertHeadKeeps(s: Store)
    requires Inv(s) && Enabled(s, InsertHead)
    ensures Inv(Do(s, InsertHead))
  {
    var s' := Do(s, InsertHead);
    assert s.chain == [] && s.rows == map[];
    assert RowOk(s', 0);
    assert Hist(s', 1) == Hist(s', 0) + [];
  }

  lemma LinkKeeps(s: Store, id: RowId, newId: RowId)
    requires Inv(s) && Enabled(s, LinkRow(id, newId))
    ensures Inv(Do(s, LinkRow(id, newId)))
  {
    var s' := Do(s, LinkRow(id, newId));
    var m := |s.chain|;
    var i: nat :| i < m && s.chain[i] == id;
    OpenRowIsLast(s, i);
    assert ChainOk(s') by { assert forall k :: 0 <= k < m ==> s'.chain[k] == s.chain[k]; }
    forall k: nat | k < |s'.chain| ensures RowOk(s', k) {
      if k < m { LinkKeepsRow(s, id, newId, k); }
    }
    LinkKeepsContent(s, id, newId);
  }

  lemma LinkKeepsRow(s: Store, id: RowId, newId: RowId, k: nat)
    requires Inv(s) && Enabled(s, LinkRow(id, newId)) && k < |s.chain| && s.chain[|s.chain| - 1] == id
    requires ChainOk(Do(s, LinkRow(id, newId)))
    ensures RowOk(Do(s, LinkRow(id, newId)), k)
  {
    var s', m := Do(s, LinkRow(id, newId)), |s.chain|;
    assert RowOk(s, k);
    if k < m - 1 {
      var j: nat :| LeadsTo(s, k, j);
      HopAfterLink(s.chain, newId, s.gone, k, j);
      assert LeadsTo(s', k, j);
    } else {
      HopToNew(s, newId);
      assert LeadsTo(s', k, m);
    }
  }

  lemma HopAfterLink(chain: seq<RowId>, id: RowId, gone: seq<RowId>, i: nat, j: nat)
    requires Hop(chain, gone, i, j)
    ensures Hop(chain + [id], gone, i, j)
  {
    assert forall k :: 0 <= k < |chain| ==> (chain + [id])[k] == chain[k];
  }

  lemma HopToNew(s: Store, newId: RowId)
    requires ChainOk(s) && GoneOk(s) && newId !in s.chain && s.chain != []
    ensures Hop(s.chain + [newId], s.gone, |s.chain| - 1, |s.chain|)
  {
    assert newId !in s.gone;
  }

  lemma LinkKeepsContent(s: Store, id: RowId, newId: RowId)
    requires Inv(s) && Enabled(s, LinkRow(id, newId)) && s.chain[|s.chain| - 1] == id
    requires ChainOk(Do(s, LinkRow(id, newId)))
    ensures var s' := Do(s, LinkRow(id, newId)); ValuesOk(s') && UniqueOk(s')
  {
    var s', m := Do(s, LinkRow(id, newId)), |s.chain|;
    forall k: nat | k < |s'.chain| ensures ValueOk(s', k) {
      assert ValueOk(s, if k < m then k else m - 1);
      HistKept(s, s', if k < m then k + 1 else m);
      if k == m { assert Hist(s', m + 1) == Hist(s', m) + [] == Hist(s', m); }
    }
    LinkKeepsUnique(s, id, newId);
  }

  lemma LinkKeepsUnique(s: Store, id: RowId, newId: RowId)
    requires Inv(s) && Enabled(s, LinkRow(id, newId)) && ChainOk(Do(s, LinkRow(id, newId)))
    ensures UniqueOk(Do(s, LinkRow(id, newId)))
  {
    var s' := Do(s, LinkRow(id, newId));
    forall k: nat, a: nat, l: nat, b: nat ensures Distinct(s', k, a, l, b) {
      assert Distinct(s, k, a, l, b);
      LinkAddsNoEntry(s, id, newId, k, a);
      LinkAddsNoEntry(s, id, newId, l, b);
    }
  }

  lemma LinkAddsNoEntry(s: Store, id: RowId, newId: RowId, k: nat, a: nat)
    requires Inv(s) && Enabled(s, LinkRow(id, newId)) && ChainOk(Do(s, LinkRow(id, newId)))
    ensures var s' := Do(s, LinkRow(id, newId));
      LoggedAt(s', k, a) ==> LoggedAt(s, k, a) && CidAt(s', k, a) == CidAt(s, k, a)
  {
  }

  // ---- the collector ----

  lemma PruneKeeps(s: Store, id: RowId, cids: set<Cid>)
    requires Inv(s) && Enabled(s, Prune(id, cids))
    ensures Inv(Do(s, Prune(id, cids)))
  {
    var s' := Do(s, Prune(id, cids));
    var i: nat :| i < |s.chain| && s.chain[i] == id;
    assert ChainOk(s');
    forall k: nat | k < |s'.chain| ensures RowOk(s', k) { PruneKeepsRow(s, s', i, cids, k); }
    GonePruned(s, i, cids);
    ContentKept(s, s');
  }

  lemma PruneKeepsRow(s: Store, s': Store, i: nat, cids: set<Cid>, k: nat)
    requires Inv(s) && i < |s.chain| && Enabled(s, Prune(s.chain[i], cids))
    requires ChainOk(s') && s' == Do(s, Prune(s.chain[i], cids)) && k < |s.chain|
    ensures RowOk(s', k)
  {
    assert RowOk(s, i) && RowOk(s, k);
    if k != i { RowKept(s, s', k); } else { PrunedRowOk(s, s', i, cids); }
  }

  lemma PrunedRowOk(s: Store, s': Store, i: nat, cids: set<Cid>)
    requires ChainOk(s) && i < |s.chain| && RowOk(s, i) && Enabled(s, Prune(s.chain[i], cids))
    requires ChainOk(s') && s' == Do(s, Prune(s.chain[i], cids))
    ensures RowOk(s', i)
  {
    PrunedOk(s.At(i), s.finished, cids);
    if i < |s.chain| - 1 {
      var j: nat :| LeadsTo(s, i, j);
      assert LeadsTo(s', i, j);
    }
  }

  lemma PrunedOk(r: Row, finished: set<string>, cids: set<Cid>)
    requires LogsOk(r, finished) && cids <= r.logs.Keys && forall c :: c in cids ==> c.instance in finished
    ensures LogsOk(r.(logs := r.logs - cids, gcSize := r.gcSize + |cids|), finished)
  {
    var logs' := r.logs - cids;
    assert r.logs.Keys == logs'.Keys + cids && logs'.Keys !! cids;
    assert |r.logs| == |r.logs.Keys| && |logs'| == |logs'.Keys|;
  }

  /** An unlinked row has nothing left to prune. */
  lemma GonePruned(s: Store, i: nat, cids: set<Cid>)
    requires Inv(s) && i < |s.chain| && Enabled(s, Prune(s.chain[i], cids)) && ChainOk(Do(s, Prune(s.chain[i], cids)))
    ensures GoneOk(Do(s, Prune(s.chain[i], cids)))
  {
    assert RowOk(s, i);
    if s.chain[i] in s.gone {
      assert |s.At(i).logs| == 0;
      assert s.At(i).logs == map[];
      assert cids == {};
    }
  }

  lemma RelinkKeeps(s: Store, i: nat, j: nat, k: nat)
    requires Inv(s) && Enabled(s, Relink(i, j, k))
    ensures Inv(Do(s, Relink(i, j, k)))
  {
    var s' := Do(s, Relink(i, j, k));
    assert ChainOk(s');
    forall x: nat | x < |s'.chain| ensures RowOk(s', x) { RelinkKeepsRow(s, i, j, k, x); }
    RelinkKeepsGone(s, i, j, k);
    ContentKept(s, s');
  }

  lemma RelinkKeepsGone(s: Store, i: nat, j: nat, k: nat)
    requires ChainOk(s) && GoneOk(s) && Enabled(s, Relink(i, j, k)) && ChainOk(Do(s, Relink(i, j, k)))
    ensures GoneOk(Do(s, Relink(i, j, k)))
  {
    var s' := Do(s, Relink(i, j, k));
    assert s.chain[j] !in s.gone;
    forall x: nat | x < |s'.chain| && s'.chain[x] in s'.gone
      ensures 0 < x < |s'.chain| - 1 && s'.At(x).gcSize == s.n && |s'.At(x).past| == s.n
    {
      assert x == j || s.chain[x] in s.gone;
    }
  }

  lemma RelinkKeepsRow(s: Store, i: nat, j: nat, k: nat, x: nat)
    requires Inv(s) && Enabled(s, Relink(i, j, k)) && x < |s.chain| && ChainOk(Do(s, Relink(i, j, k)))
    ensures RowOk(Do(s, Relink(i, j, k)), x)
  {
    var s' := Do(s, Relink(i, j, k));
    assert RowOk(s, x);
    if x == i {
      HopOver(s.chain, s.gone, i, j, k);
      assert LeadsTo(s', i, k);
    } else if x < |s.chain| - 1 {
      var y: nat :| LeadsTo(s, x, y);
      OneLiveWayIn(s, i, j, x, y);
      HopAfterUnlink(s.chain, s.gone, j, x, y);
      assert LeadsTo(s', x, y);
    }
  }

  lemma HopOver(chain: seq<RowId>, gone: seq<RowId>, i: nat, j: nat, k: nat)
    requires Hop(chain, gone, i, j) && Hop(chain, gone, j, k) && chain[i] !in gone
    requires forall x, y :: 0 <= x < y < |chain| ==> chain[x] != chain[y]
    ensures Hop(chain, gone + [chain[j]], i, k)
  {
  }

  lemma HopAfterUnlink(chain: seq<RowId>, gone: seq<RowId>, j: nat, x: nat, y: nat)
    requires Hop(chain, gone, x, y) && j < |chain| && chain[j] !in gone && (chain[x] in gone || y != j)
    requires forall x, y :: 0 <= x < y < |chain| ==> chain[x] != chain[y]
    ensures Hop(chain, gone + [chain[j]], x, y)
  {
    var gone' := gone + [chain[j]];
    forall p: nat, q: nat | GoneAt(gone', chain[x], p) && GoneAt(gone', chain[y], q) ensures p < q {
      if q < |gone| {
        assert GoneAt(gone, chain[y], q);
        if p < |gone| { assert GoneAt(gone, chain[x], p); }
      }
    }
  }

  /** Of two linked rows that lead to the same row, one would have to be skipped by the other. */
  lemma OneLiveWayIn(s: Store, i: nat, j: nat, x: nat, y: nat)
    requires ChainOk(s) && i < |s.chain| && x < |s.chain| && LeadsTo(s, i, j) && LeadsTo(s, x, y)
    requires s.chain[i] !in s.gone && x != i
    ensures s.chain[x] in s.gone || y != j
  {
  }

  /** Finishing an instance, marking and deleting touch no column that the invariant of a row reads. */
  lemma SmallStepKeeps(s: Store, a: Action)
    requires Inv(s) && Enabled(s, a) && (a.Finish? || a.Mark? || a.Delete?)
    ensures Inv(Do(s, a))
  {
    var s' := Do(s, a);
    assert ChainOk(s');
    forall k: nat | k < |s'.chain| ensures RowOk(s', k) { UntouchedRowOk(s, s', k); }
    ContentKept(s, s');
  }

  lemma UntouchedRowOk(s: Store, s': Store, k: nat)
    requires ChainOk(s) && ChainOk(s') && k < |s.chain| && RowOk(s, k)
    requires s'.n == s.n && s'.chain == s.chain && s'.gone == s.gone && s.finished <= s'.finished
    requires s'.At(k) == s.At(k).(ts := s'.At(k).ts)
    ensures RowOk(s', k)
  {
    if k < |s.chain| - 1 {
      var j: nat :| LeadsTo(s, k, j);
      assert LeadsTo(s', k, j);
    }
  }

  lemma ActionKeeps(s: Store, a: Action)
    requires Inv(s) && Enabled(s, a)
    ensures Inv(Do(s, a))
  {
    match a
    case InsertHead => InsertHeadKeeps(s);
    case LogWrite(id, cid, update) => LogKeeps(s, id, cid, Plain, update);
    case LogCondWrite(id, cid, update, _) => LogKeeps(s, id, cid, Flag(true), update);
    case LogFailure(id, cid) => LogKeeps(s, id, cid, Flag(false), v => v);
    case CreateRow(id, v) => CreateKeeps(s, id, v);
    case LinkRow(id, newId) => LinkKeeps(s, id, newId);
    case DropRow(id) => DropKeeps(s, id);
    case Prune(id, cids) => PruneKeeps(s, id, cids);
    case Relink(i, j, k) => RelinkKeeps(s, i, j, k);
    case Finish(_) => SmallStepKeeps(s, a);
    case Mark(_, _) => SmallStepKeeps(s, a);
    case Delete(_) => SmallStepKeeps(s, a);
  }
}

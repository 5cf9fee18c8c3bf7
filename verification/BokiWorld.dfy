/**
 What all executors share: the log and the database rows. Every method is one atomic action and
 first lets the other executors run; its contract says only what the protocol guarantees about them.
 */
module BokiWorld {
  import opened Wrappers
  import opened BokiTags
  import opened LogModel
  import opened VersionedRows
  import LockProtocol
  import IntentProtocol

  ghost predicate Tried(attempts: map<RowKey, seq<Attempt>>, row: RowKey, seqNum: nat) {
    row in attempts && exists i :: 0 <= i < |attempts[row]| && attempts[row][i].seqNum == seqNum
  }

  /** A step result may be logged only for a step of the fitting type, and PostWrite only after an attempt. */
  ghost predicate MayPost(log: Log, n: nat, attempts: map<RowKey, seq<Attempt>>, p: Payload)
    requires p.Intent?
  {
    exists i: nat :: i < n && PostFits(log, i, attempts, p)
  }

  ghost predicate PostFits(log: Log, i: nat, attempts: map<RowKey, seq<Attempt>>, p: Payload)
    requires p.Intent?
  {
    && IntentProtocol.IsFirst(log, i, p.instanceId, p.step, false)
    && var pre := log[i].payload.data;
       || (p.data.PostWrite? && pre == PreWrite(p.data.table, p.data.key) &&
           Tried(attempts, RowKey(p.data.table, p.data.key), i))
       || (p.data.InvokeResult? && pre.PreInvoke?)
  }

  ghost predicate PostsFit(log: Log, attempts: map<RowKey, seq<Attempt>>) {
    forall i :: 0 <= i < |log| && log[i].Entry? && log[i].payload.Intent? && log[i].payload.postStep ==>
      MayPost(log, i, attempts, log[i].payload)
  }

  ghost predicate Permitted(hash: Hash, log: Log, attempts: map<RowKey, seq<Attempt>>, slot: Slot) {
    slot.Entry? ==>
      && slot.tag == TagOf(hash, slot.payload)
      && (slot.payload.LockOp? ==> LockProtocol.MayAppend(log, |log|, slot.payload))
      && (slot.payload.Intent? ==> IntentProtocol.MayAppend(log, |log|, slot.payload))
      && (slot.payload.Intent? && slot.payload.postStep ==> MayPost(log, |log|, attempts, slot.payload))
  }

  ghost predicate Disciplined(hash: Hash, log: Log, attempts: map<RowKey, seq<Attempt>>) {
    WellTagged(hash, log) && LockProtocol.Lawful(log) && IntentProtocol.Lawful(log) && PostsFit(log, attempts)
  }

  ghost predicate Grows(before: map<RowKey, seq<Attempt>>, after: map<RowKey, seq<Attempt>>) {
    forall k :: k in before ==> k in after && before[k] <= after[k]
  }

  /** The update of an agreed PreWrite entry is the one its step calls for, whichever executor sends it. */
  ghost predicate AttemptFits(log: Log, row: RowKey, a: Attempt, calls: (string, nat) -> Call) {
    && a.seqNum < |log| && log[a.seqNum].Entry? && log[a.seqNum].payload.Intent?
    && var p := log[a.seqNum].payload;
    && IntentProtocol.IsFirst(log, a.seqNum, p.instanceId, p.step, false) && p.data == PreWrite(row.table, row.key)
    && a == AttemptOf(a.seqNum, calls(p.instanceId, p.step))
  }

  function AttemptOf(seqNum: nat, call: Call): Attempt {
    Attempt(seqNum, call.update, call.cond)
  }

  ghost predicate AttemptsFit(log: Log, attempts: map<RowKey, seq<Attempt>>, calls: (string, nat) -> Call) {
    forall row, i: nat :: row in attempts && i < |attempts[row]| ==> AttemptFits(log, row, attempts[row][i], calls)
  }

  /** The database has served this update of the row. */
  ghost predicate Served(attempts: map<RowKey, seq<Attempt>>, row: RowKey, a: Attempt) {
    row in attempts && a in attempts[row]
  }

  lemma AttemptFitsStable(log: Log, longer: Log, row: RowKey, a: Attempt, calls: (string, nat) -> Call)
    requires log <= longer && AttemptFits(log, row, a, calls)
    ensures AttemptFits(longer, row, a, calls)
  {
    var p := log[a.seqNum].payload;
    assert longer[a.seqNum] == log[a.seqNum];
    IntentProtocol.FirstStable(log, longer, a.seqNum, p.instanceId, p.step, false);
  }

  lemma AttemptsFitStable(log: Log, longer: Log, attempts: map<RowKey, seq<Attempt>>, calls: (string, nat) -> Call)
    requires log <= longer && AttemptsFit(log, attempts, calls)
    ensures AttemptsFit(longer, attempts, calls)
  {
    forall row, i: nat | row in attempts && i < |attempts[row]|
      ensures AttemptFits(longer, row, attempts[row][i], calls)
    {
      AttemptFitsStable(log, longer, row, attempts[row][i], calls);
    }
  }

  /** Whatever was tried under an agreed entry is what its step calls for. */
  lemma TriedIsServed(log: Log, attempts: map<RowKey, seq<Attempt>>, calls: (string, nat) -> Call, row: RowKey,
                      seqNum: nat,
                      instanceId: string, step: nat)
    requires AttemptsFit(log, attempts, calls) && Tried(attempts, row, seqNum)
    requires IntentProtocol.IsFirst(log, seqNum, instanceId, step, false)
    ensures Served(attempts, row, AttemptOf(seqNum, calls(instanceId, step)))
  {
    var i: nat :| i < |attempts[row]| && attempts[row][i].seqNum == seqNum;
    assert AttemptFits(log, row, attempts[row][i], calls);
  }

  lemma PermittedStable(hash: Hash, log: Log, longer: Log, before: map<RowKey, seq<Attempt>>,
                        after: map<RowKey, seq<Attempt>>, slot: Slot)
    requires log <= longer && Grows(before, after) && Permitted(hash, log, before, slot)
    ensures Permitted(hash, longer, after, slot)
  {
    if slot.Entry? && slot.payload.LockOp? { LockProtocol.MayAppendStable(log, longer, |log|, slot.payload); }
    if slot.Entry? && slot.payload.Intent? {
      IntentProtocol.MayAppendStable(log, longer, |log|, slot.payload);
      if slot.payload.postStep { MayPostStable(log, longer, |log|, before, after, slot.payload); }
    }
  }

  lemma MayPostStable(log: Log, longer: Log, n: nat, before: map<RowKey, seq<Attempt>>,
                      after: map<RowKey, seq<Attempt>>, p: Payload)
    requires log <= longer && n <= |log| && Grows(before, after) && p.Intent? && MayPost(log, n, before, p)
    ensures MayPost(longer, n, after, p)
  {
    var i: nat :| i < n && PostFits(log, i, before, p);
    IntentProtocol.FirstStable(log, longer, i, p.instanceId, p.step, false);
    assert PostFits(longer, i, after, p);
  }

  lemma DisciplinedAppend(hash: Hash, log: Log, attempts: map<RowKey, seq<Attempt>>, slot: Slot)
    requires Disciplined(hash, log, attempts) && Permitted(hash, log, attempts, slot)
    ensures Disciplined(hash, log + [slot], attempts)
  {
    LockProtocol.LawfulAppend(log, slot);
    IntentProtocol.LawfulAppend(log, slot);
    var log' := log + [slot];
    forall i | 0 <= i < |log'| && log'[i].Entry? && log'[i].payload.Intent? && log'[i].payload.postStep
      ensures MayPost(log', i, attempts, log'[i].payload)
    {
      MayPostStable(log, log', i, attempts, attempts, log'[i].payload);
    }
  }

  lemma PostsFitGrows(log: Log, before: map<RowKey, seq<Attempt>>, after: map<RowKey, seq<Attempt>>)
    requires PostsFit(log, before) && Grows(before, after)
    ensures PostsFit(log, after)
  {
    forall i | 0 <= i < |log| && log[i].Entry? && log[i].payload.Intent? && log[i].payload.postStep
      ensures MayPost(log, i, after, log[i].payload)
    {
      MayPostStable(log, log, i, before, after, log[i].payload);
    }
  }

  function ItemOf(rows: map<RowKey, Item>, row: RowKey): Item {
    if row in rows then rows[row] else ABSENT
  }

  ghost function TriesOf(attempts: map<RowKey, seq<Attempt>>, row: RowKey): seq<Attempt> {
    if row in attempts then attempts[row] else []
  }

  /** The row is what serving its attempts made of what it was at first. */
  ghost predicate Explained(initial: map<RowKey, Item>, rows: map<RowKey, Item>, attempts: map<RowKey, seq<Attempt>>,
                            row: RowKey) {
    ItemOf(rows, row) == Serve(ItemOf(initial, row), TriesOf(attempts, row))
  }

  ghost predicate AllExplained(initial: map<RowKey, Item>, rows: map<RowKey, Item>, attempts: map<RowKey,
                               seq<Attempt>>) {
    forall k :: Explained(initial, rows, attempts, k)
  }

  lemma UpdateExplainsAll(initial: map<RowKey, Item>, rows: map<RowKey, Item>, attempts: map<RowKey, seq<Attempt>>,
                          row: RowKey, a: Attempt)
    requires AllExplained(initial, rows, attempts)
    ensures AllExplained(initial, rows[row := UpdateItem(ItemOf(rows, row), a)], With(attempts, row, a))
  {
    var rows', attempts' := rows[row := UpdateItem(ItemOf(rows, row), a)], With(attempts, row, a);
    forall k ensures Explained(initial, rows', attempts', k) {
      assert Explained(initial, rows, attempts, row) && Explained(initial, rows, attempts, k);
      UpdateExplained(initial, rows, attempts, row, a, k);
    }
  }

  lemma UpdateExplained(initial: map<RowKey, Item>, rows: map<RowKey, Item>, attempts: map<RowKey, seq<Attempt>>,
                        row: RowKey, a: Attempt, k: RowKey)
    requires Explained(initial, rows, attempts, row) && Explained(initial, rows, attempts, k)
    ensures Explained(initial, rows[row := UpdateItem(ItemOf(rows, row), a)], With(attempts, row, a), k)
  {
    var tries := TriesOf(attempts, row) + [a];
    assert tries[..|tries| - 1] == TriesOf(attempts, row);
  }

  ghost function With(attempts: map<RowKey, seq<Attempt>>, row: RowKey, a: Attempt): map<RowKey, seq<Attempt>> {
    attempts[row := TriesOf(attempts, row) + [a]]
  }

  lemma WithKeeps(log: Log, attempts: map<RowKey, seq<Attempt>>, row: RowKey, a: Attempt, calls: (string, nat) -> Call)
    requires PostsFit(log, attempts) && AttemptsFit(log, attempts, calls) && AttemptFits(log, row, a, calls)
    ensures PostsFit(log, With(attempts, row, a)) && AttemptsFit(log, With(attempts, row, a), calls)
    ensures Grows(attempts, With(attempts, row, a)) && Served(With(attempts, row, a), row, a)
  {
    var after := With(attempts, row, a);
    PostsFitGrows(log, attempts, after);
    assert after[row][|after[row]| - 1] == a;
  }

  function Only(seqNum: Option<nat>): seq<nat> {
    if seqNum.Some? then [seqNum.value] else []
  }

  /**
   The shared state. `appended` and `updated` are what went through this object, in order, and not through another
   executor; `calls` is what every step's executors ask of the database.
   */
  class World {
    const hash: Hash
    var log: Log
    var rows: map<RowKey, Item>
    ghost const initial: map<RowKey, Item>
    ghost const calls: (string, nat) -> Call
    ghost var attempts: map<RowKey, seq<Attempt>>
    ghost var appended: seq<nat>
    ghost var updated: seq<(RowKey, Attempt)>

    constructor (hash: Hash, rows: map<RowKey, Item>, ghost calls: (string, nat) -> Call)
      ensures Valid() && this.hash == hash && log == [] && this.rows == rows && this.calls == calls
      ensures appended == [] && updated == []
    {
      this.hash := hash;
      this.log := [];
      this.rows, this.initial, this.attempts := rows, rows, map[];
      this.calls, this.appended, this.updated := calls, [], [];
    }

    ghost function Start(row: RowKey): Item {
      ItemOf(initial, row)
    }

    function Row(row: RowKey): Item
      reads this
    {
      ItemOf(rows, row)
    }

    ghost function Tries(row: RowKey): seq<Attempt>
      reads this
    {
      TriesOf(attempts, row)
    }

    ghost predicate Valid()
      reads this
    {
      && Disciplined(hash, log, attempts)
      && AttemptsFit(log, attempts, calls)
      && AllExplained(initial, rows, attempts)
    }

    /** What any number of steps of other executors may do. */
    twostate predicate Evolved()
      reads this
    {
      old(log) <= log && Grows(old(attempts), attempts)
    }

    /** Nothing went through this object. */
    twostate predicate Idle()
      reads this
    {
      appended == old(appended) && updated == old(updated)
    }

    /** Any number of steps of other executors. The body is one possible choice; callers rely on the contract alone. */
    method Interfere()
      requires Valid()
      modifies this
      ensures Valid() && Evolved() && Idle()
    {
    }

    method Append(slot: Slot) returns (seqNum: nat)
      requires Valid() && slot.Entry? && Permitted(hash, log, attempts, slot)
      modifies this
      ensures Valid() && Evolved()
      ensures |old(log)| <= seqNum == |log| - 1 && log[seqNum] == slot
      ensures appended == old(appended) + [seqNum] && updated == old(updated)
    {
      Interfere();
      PermittedStable(hash, old(log), log, old(attempts), attempts, slot);
      DisciplinedAppend(hash, log, attempts, slot);
      AttemptsFitStable(log, log + [slot], attempts, calls);
      seqNum := |log|;
      log := log + [slot];
      appended := appended + [seqNum];
    }

    /** The prefix a catch-up reads: any one, as long as it covers the caller's own appends. */
    method View(own: nat) returns (view: nat)
      requires Valid() && own <= |log|
      modifies this
      ensures Valid() && Evolved() && Idle()
      ensures own <= view <= |log|
    {
      Interfere();
      view :| own <= view <= |log|;
    }

    method GetItem(row: RowKey) returns (item: Item)
      requires Valid()
      modifies this
      ensures Valid() && Evolved() && Idle()
      ensures item == Row(row)
    {
      Interfere();
      item := Row(row);
    }

    method Update(row: RowKey, a: Attempt)
      requires Valid() && AttemptFits(log, row, a, calls)
      modifies this
      ensures Valid() && Evolved()
      ensures Served(attempts, row, a) && Tries(row)[|Tries(row)| - 1] == a
      ensures appended == old(appended) && updated == old(updated) + [(row, a)]
    {
      Interfere();
      AttemptFitsStable(old(log), log, row, a, calls);
      WithKeeps(log, attempts, row, a, calls);
      UpdateExplainsAll(initial, rows, attempts, row, a);
      rows, attempts, updated := rows[row := UpdateItem(Row(row), a)], With(attempts, row, a), updated + [(row, a)];
    }
  }
}

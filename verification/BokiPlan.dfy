/**
 Which workflow steps commit which write record. The commit calls each recorded callee under a new instance, so a
 function that it reaches twice commits its records twice; it reaches none twice exactly when no reached function is the
 callee of two recorded calls.
 */
module BokiPlan {
  import opened Wrappers
  import opened LogModel
  import opened VersionedRows
  import opened BokiCommit
  import opened BokiTxn
  import opened BokiEscape
  import opened BokiOneStep
  import BokiTwoPl
  import BokiTxnLimits

  // ---- functions reached twice ----

  ghost predicate NoRepeat(s: seq<string>) {
    forall i, j :: 0 <= i < j < |s| ==> s[i] != s[j]
  }

  ghost predicate Apart(a: seq<string>, b: seq<string>) {
    forall x :: x in a ==> x !in b
  }

  lemma NoRepeatConcat(a: seq<string>, b: seq<string>)
    ensures NoRepeat(a + b) <==> NoRepeat(a) && NoRepeat(b) && Apart(a, b)
  {
    var c := a + b;
    assert forall i :: 0 <= i < |a| ==> c[i] == a[i];
    assert forall i :: 0 <= i < |b| ==> c[|a| + i] == b[i];
    if NoRepeat(c) {
      forall i, j | 0 <= i < j < |b| ensures b[i] != b[j] { assert c[|a| + i] != c[|a| + j]; }
      forall x | x in a ensures x !in b {
        var i :| 0 <= i < |a| && a[i] == x;
        forall j | 0 <= j < |b| ensures b[j] != x { assert c[i] != c[|a| + j]; }
      }
    }
    if NoRepeat(a) && NoRepeat(b) && Apart(a, b) {
      forall i, j | 0 <= i < j < |c| ensures c[i] != c[j] {
        if i < |a| && |a| <= j { assert a[i] in a && b[j - |a|] in b; }
      }
    }
  }

  /** The i-th record of function l is a call of x. */
  ghost predicate CallAt(records: Records, l: string, i: nat, x: string) {
    i < |LogsOf(records, l)| && LogsOf(records, l)[i] == CallLog(x)
  }

  /** A recorded call of x that the commit from the root comes to. */
  ghost predicate Site(records: Records, root: string, l: string, i: nat, x: string) {
    Reaches(records, root, l) && CallAt(records, l, i, x)
  }

  ghost predicate SameSite(records: Records, root: string, l1: string, i1: nat, l2: string, i2: nat, x: string) {
    Site(records, root, l1, i1, x) && Site(records, root, l2, i2, x) ==> l1 == l2 && i1 == i2
  }

  /** No function is the callee of two recorded calls. */
  ghost predicate CalledOnce(records: Records, root: string) {
    forall l1, i1: nat, l2, i2: nat, x :: SameSite(records, root, l1, i1, l2, i2, x)
  }

  lemma CallsMeansCallAt(records: Records, l: string, x: string) returns (i: nat)
    requires Calls(records, l, x)
    ensures CallAt(records, l, i, x)
  {
    i :| i < |LogsOf(records, l)| && LogsOf(records, l)[i] == CallLog(x);
  }

  /** Reached other than from itself means called by someone reached. */
  lemma LastCall(records: Records, a: string, x: string) returns (l: string, i: nat)
    requires Reaches(records, a, x) && a != x
    ensures Reaches(records, a, l) && CallAt(records, l, i, x)
  {
    var path :| Connects(records, a, x, path);
    l := path[|path| - 2];
    assert Connects(records, a, l, path[..|path| - 1]);
    assert Calls(records, path[|path| - 2], path[|path| - 1]);
    i := CallsMeansCallAt(records, l, x);
  }

  lemma ReachesDown(records: Records, rank: string -> nat, a: string, b: string)
    requires Ranks(records, rank) && Reaches(records, a, b)
    ensures rank(b) <= rank(a)
  {
    var path :| Connects(records, a, b, path);
    RankAlongPath(records, rank, path);
  }

  /** With one recorded call for each function, two functions that reach the same one lie on one path. */
  lemma {:induction false} OnOnePath(records: Records, rank: string -> nat, root: string, a: string, b: string,
                                     x: string)
    requires Ranks(records, rank) && CalledOnce(records, root)
    requires Reaches(records, root, a) && Reaches(records, root, b)
    requires Reaches(records, a, x) && Reaches(records, b, x)
    ensures Reaches(records, a, b) || Reaches(records, b, a)
    decreases rank(a) - rank(x)
  {
    ReachesDown(records, rank, a, x);
    if a != x && b != x {
      var l, i := LastCall(records, a, x);
      var l2, i2 := LastCall(records, b, x);
      ReachesTransitive(records, root, a, l);
      ReachesTransitive(records, root, b, l2);
      assert SameSite(records, root, l, i, l2, i2, x);
      assert Calls(records, l, x);
      ReachesDown(records, rank, a, l);
      OnOnePath(records, rank, root, a, b, l);
    }
  }

  // ---- concatenations without repetition ----

  function Flat(parts: seq<seq<string>>, i: nat): seq<string>
    requires i <= |parts|
    decreases |parts| - i
  {
    if i == |parts| then [] else parts[i] + Flat(parts, i + 1)
  }

  ghost predicate InPart(parts: seq<seq<string>>, k: nat, x: string) {
    k < |parts| && x in parts[k]
  }

  lemma {:induction false} InFlat(parts: seq<seq<string>>, i: nat, x: string)
    requires i <= |parts|
    ensures x in Flat(parts, i) <==> exists k: nat :: i <= k && InPart(parts, k, x)
    decreases |parts| - i
  {
    if i < |parts| {
      InFlat(parts, i + 1, x);
      assert x in parts[i] <==> InPart(parts, i, x);
    }
  }

  /** No part from i on repeats anything, and no two have anything in common. */
  ghost predicate Separate(parts: seq<seq<string>>, i: nat) {
    && (forall k: nat :: i <= k < |parts| ==> NoRepeat(parts[k]))
    && (forall k: nat, m: nat :: i <= k < m < |parts| ==> Apart(parts[k], parts[m]))
  }

  lemma ApartFromRest(parts: seq<seq<string>>, i: nat)
    requires i < |parts|
    ensures Apart(parts[i], Flat(parts, i + 1)) <==> forall m: nat :: i < m < |parts| ==> Apart(parts[i], parts[m])
  {
    if Apart(parts[i], Flat(parts, i + 1)) {
      forall m: nat, x | i < m < |parts| && x in parts[i] ensures x !in parts[m] {
        InFlat(parts, i + 1, x);
        assert !InPart(parts, m, x);
      }
    }
    if forall m: nat :: i < m < |parts| ==> Apart(parts[i], parts[m]) {
      forall x | x in parts[i] ensures x !in Flat(parts, i + 1) { InFlat(parts, i + 1, x); }
    }
  }

  lemma {:induction false} NoRepeatFlat(parts: seq<seq<string>>, i: nat)
    requires i <= |parts|
    ensures NoRepeat(Flat(parts, i)) <==> Separate(parts, i)
    decreases |parts| - i
  {
    if i < |parts| {
      NoRepeatFlat(parts, i + 1);
      NoRepeatConcat(parts[i], Flat(parts, i + 1));
      ApartFromRest(parts, i);
    }
  }

  lemma SamePart(parts: seq<seq<string>>, k1: nat, k2: nat, x: string)
    requires Separate(parts, 0) && InPart(parts, k1, x) && InPart(parts, k2, x)
    ensures k1 == k2 && NoRepeat(parts[k1])
  {
    assert k1 < k2 ==> Apart(parts[k1], parts[k2]);
    assert k2 < k1 ==> Apart(parts[k2], parts[k1]);
  }

  // ---- the visits below a function ----

  ghost function Blocks(records: Records, rank: string -> nat, l: string): (parts: seq<seq<string>>)
    requires Ranks(records, rank)
    ensures |parts| == |LogsOf(records, l)|
    ensures forall i: nat :: i < |parts| ==> parts[i] == CalleeVisits(records, rank, l, i)
  {
    seq(|LogsOf(records, l)|, i requires 0 <= i < |LogsOf(records, l)| => CalleeVisits(records, rank, l, i))
  }

  lemma {:induction false} VisitsFromFlat(records: Records, rank: string -> nat, l: string, i: nat)
    requires Ranks(records, rank) && i <= |LogsOf(records, l)|
    ensures VisitsFrom(records, rank, l, i) == Flat(Blocks(records, rank, l), i)
    decreases |LogsOf(records, l)| - i
  {
    if i < |LogsOf(records, l)| {
      VisitsFromFlat(records, rank, l, i + 1);
      VisitsGoOn(records, rank, l, i);
    }
  }

  lemma InCalleeVisits(records: Records, rank: string -> nat, l: string, i: nat, x: string)
    requires Ranks(records, rank) && i < |LogsOf(records, l)|
    ensures x in CalleeVisits(records, rank, l, i) <==>
              LogsOf(records, l)[i].CallLog? && Reaches(records, LogsOf(records, l)[i].callee, x)
  {
    if LogsOf(records, l)[i].CallLog? { VisitsAreReachable(records, rank, LogsOf(records, l)[i].callee, x); }
  }

  /** A function is not visited below itself, so only its calls can repeat. */
  lemma NoRepeatVisits(records: Records, rank: string -> nat, l: string)
    requires Ranks(records, rank)
    ensures NoRepeat(Visits(records, rank, l)) <==> Separate(Blocks(records, rank, l), 0)
  {
    VisitsFromFlat(records, rank, l, 0);
    NoRepeatFlat(Blocks(records, rank, l), 0);
    NoRepeatConcat([l], VisitsFrom(records, rank, l, 0));
    VisitsFromAreReachable(records, rank, l, 0, l);
    if c :| CallsFrom(records, l, 0, c) && Reaches(records, c, l) {
      assert Calls(records, l, c);
      ReachesDown(records, rank, c, l);
    }
  }

  // ---- the exact condition ----

  /** Below a function that is reached, nothing is visited twice. */
  lemma {:induction false} OnceMeansNoRepeat(records: Records, rank: string -> nat, root: string, l: string)
    requires Ranks(records, rank) && CalledOnce(records, root) && Reaches(records, root, l)
    ensures NoRepeat(Visits(records, rank, l))
    decreases rank(l)
  {
    NoRepeatVisits(records, rank, l);
    var parts := Blocks(records, rank, l);
    forall k: nat | k < |parts| ensures NoRepeat(parts[k]) {
      if LogsOf(records, l)[k].CallLog? {
        var c := LogsOf(records, l)[k].callee;
        assert Calls(records, l, c);
        ReachesStep(records, l, c);
        ReachesTransitive(records, root, l, c);
        OnceMeansNoRepeat(records, rank, root, c);
      }
    }
    forall k: nat, m: nat | k < m < |parts| ensures Apart(parts[k], parts[m]) {
      OnceMeansApart(records, rank, root, l, k, m);
    }
  }

  lemma OnceMeansApart(records: Records, rank: string -> nat, root: string, l: string, k: nat, m: nat)
    requires Ranks(records, rank) && CalledOnce(records, root) && Reaches(records, root, l)
    requires k < m < |LogsOf(records, l)|
    ensures Apart(CalleeVisits(records, rank, l, k), CalleeVisits(records, rank, l, m))
  {
    forall x | x in CalleeVisits(records, rank, l, k) ensures x !in CalleeVisits(records, rank, l, m) {
      InCalleeVisits(records, rank, l, k, x);
      InCalleeVisits(records, rank, l, m, x);
      if x in CalleeVisits(records, rank, l, m) {
        var c, d := LogsOf(records, l)[k].callee, LogsOf(records, l)[m].callee;
        assert SameSite(records, root, l, k, l, m, c);
        Siblings(records, root, l, k, c);
        Siblings(records, root, l, m, d);
        NotBelowSibling(records, rank, root, l, m, c, d);
        NotBelowSibling(records, rank, root, l, k, d, c);
        OnOnePath(records, rank, root, c, d, x);
      }
    }
  }

  lemma Siblings(records: Records, root: string, l: string, k: nat, c: string)
    requires Reaches(records, root, l) && CallAt(records, l, k, c)
    ensures Reaches(records, root, c)
  {
    assert Calls(records, l, c);
    ReachesStep(records, l, c);
    ReachesTransitive(records, root, l, c);
  }

  /** No callee of l reaches another one: the latter's only recorded call is in l itself. */
  lemma NotBelowSibling(records: Records, rank: string -> nat, root: string, l: string, m: nat, c: string, d: string)
    requires Ranks(records, rank) && CalledOnce(records, root) && Reaches(records, root, l)
    requires Calls(records, l, c) && CallAt(records, l, m, d) && c != d
    ensures !Reaches(records, c, d)
  {
    if Reaches(records, c, d) {
      var l2, i2 := LastCall(records, c, d);
      ReachesStep(records, l, c);
      ReachesTransitive(records, root, l, c);
      ReachesTransitive(records, root, c, l2);
      assert SameSite(records, root, l, m, l2, i2, d);
      ReachesDown(records, rank, c, l2);
    }
  }

  /** If nothing is visited twice below l, its recorded calls are of different functions. */
  lemma {:induction false} NoRepeatMeansOnce(records: Records, rank: string -> nat, l: string,
                                             l1: string, i1: nat, l2: string, i2: nat, x: string)
    requires Ranks(records, rank) && NoRepeat(Visits(records, rank, l))
    requires Site(records, l, l1, i1, x) && Site(records, l, l2, i2, x)
    ensures l1 == l2 && i1 == i2
    decreases rank(l)
  {
    NoRepeatVisits(records, rank, l);
    var k1 := BlockOfSite(records, rank, l, l1, i1, x);
    var k2 := BlockOfSite(records, rank, l, l2, i2, x);
    SamePart(Blocks(records, rank, l), k1, k2, x);
    var c := LogsOf(records, l)[k1].callee;
    assert Calls(records, l, c);
    if l1 == l || l2 == l {
      OwnSite(records, rank, l, k1, l1, i1, x);
      OwnSite(records, rank, l, k1, l2, i2, x);
    } else {
      NoRepeatMeansOnce(records, rank, c, l1, i1, l2, i2, x);
    }
  }

  /** The call of l under which a site lies. */
  lemma BlockOfSite(records: Records, rank: string -> nat, l: string, l1: string, i1: nat, x: string) returns (k: nat)
    requires Ranks(records, rank) && Site(records, l, l1, i1, x)
    ensures k < |LogsOf(records, l)| && LogsOf(records, l)[k].CallLog? && x in CalleeVisits(records, rank, l, k)
    ensures if l1 == l then k == i1 else Site(records, LogsOf(records, l)[k].callee, l1, i1, x)
  {
    if l1 == l {
      k := i1;
      ReachesStep(records, x, x);
    } else {
      var path :| Connects(records, l, l1, path);
      assert Calls(records, path[0], path[1]);
      assert Connects(records, path[1], l1, path[1..]);
      k := CallsMeansCallAt(records, l, path[1]);
      assert Calls(records, l1, x);
      ReachesStep(records, l1, x);
      ReachesTransitive(records, path[1], l1, x);
    }
    InCalleeVisits(records, rank, l, k, x);
  }

  /** A call in l itself is not also below the callee. */
  lemma OwnSite(records: Records, rank: string -> nat, l: string, k: nat, l1: string, i1: nat, x: string)
    requires Ranks(records, rank) && k < |LogsOf(records, l)| && LogsOf(records, l)[k].CallLog?
    requires l1 != l ==> Site(records, LogsOf(records, l)[k].callee, l1, i1, x)
    ensures l1 != l ==> LogsOf(records, l)[k].callee != x
  {
    if l1 != l {
      ReachesDown(records, rank, LogsOf(records, l)[k].callee, l1);
      assert Calls(records, l1, x);
    }
  }

  /** The commit visits no function twice if and only if it comes to no two recorded calls of one function. */
  lemma NoRepeatIffCalledOnce(records: Records, rank: string -> nat, root: string)
    requires Ranks(records, rank)
    ensures NoRepeat(Visits(records, rank, root)) <==> CalledOnce(records, root)
  {
    ReachesStep(records, root, root);
    if CalledOnce(records, root) { OnceMeansNoRepeat(records, rank, root, root); }
    if NoRepeat(Visits(records, rank, root)) {
      forall l1, i1: nat, l2, i2: nat, x ensures SameSite(records, root, l1, i1, l2, i2, x) {
        if Site(records, root, l1, i1, x) && Site(records, root, l2, i2, x) {
          NoRepeatMeansOnce(records, rank, root, l1, i1, l2, i2, x);
        }
      }
    }
  }

  /** Every function that it reaches, but the root, is called, and the root is called by none that it reaches. */
  lemma ReachedIsCalled(records: Records, rank: string -> nat, root: string, x: string)
    requires Ranks(records, rank) && Reaches(records, root, x)
    ensures x != root <==> exists l, i: nat :: Site(records, root, l, i, x)
  {
    if x != root {
      var l, i := LastCall(records, root, x);
      assert Site(records, root, l, i, x);
    } else if l, i: nat :| Site(records, root, l, i, root) {
      ReachesDown(records, rank, root, l);
      assert Calls(records, l, root);
    }
  }

  // ---- the plan of a commit ----

  /**
   How a transaction is committed: the functions in the order of visits, and for each visit its instance and the step at
   which that begins to end its records (0 for a callee, which is invoked for nothing else).
   */
  datatype Tree = Tree(visits: seq<string>, instance: nat -> string, start: nat -> nat)

  type Trees = string -> Tree

  function Lambda(log: Log, r: nat): string
    requires IsRecord(log, r)
  {
    log[r].payload.lambdaId
  }

  /** The place of a record among the write records of its function, as the loop of commit counts them. */
  function Place(log: Log, r: nat): nat
    requires IsRecord(log, r)
  {
    |BokiTwoPl.Writes(log, BokiTwoPl.TxnLogs(log, Lambda(log, r), RecordTxn(log, r), r))|
  }

  /** Each visit to the function of a record commits it, at its own step. */
  function CommitSteps(log: Log, trees: Trees, r: nat): set<StepId> {
    if !IsRecord(log, r) then {}
    else
      var tree := trees(RecordTxn(log, r));
      set v | 0 <= v < |tree.visits| && tree.visits[v] == Lambda(log, r) ::
        StepId(tree.instance(v), tree.start(v) + Place(log, r))
  }

  ghost function PlanOf(log: Log, trees: Trees): Plan {
    (r: nat) => CommitSteps(log, trees, r)
  }

  /** Every visit has an instance of its own. */
  ghost predicate OwnInstances(trees: Trees) {
    forall t1, v1: nat, t2, v2: nat :: OwnInstance(trees, t1, v1, t2, v2)
  }

  ghost predicate OwnInstance(trees: Trees, t1: string, v1: nat, t2: string, v2: nat) {
    v1 < |trees(t1).visits| && v2 < |trees(t2).visits| && trees(t1).instance(v1) == trees(t2).instance(v2) ==>
      t1 == t2 && v1 == v2
  }

  lemma {:induction false} MoreWrites(log: Log, l: string, t: string, a: nat, b: nat)
    requires a <= b <= |log|
    ensures BokiTwoPl.Writes(log, BokiTwoPl.TxnLogs(log, l, t, a)) <=
              BokiTwoPl.Writes(log, BokiTwoPl.TxnLogs(log, l, t, b))
    decreases b - a
  {
    if a < b { MoreWrites(log, l, t, a, b - 1); }
  }

  /** The loop comes to record r as its Place-th write. */
  lemma PlaceOf(log: Log, r: nat, n: nat)
    requires IsRecord(log, r) && r < n <= |log|
    ensures var ws := BokiTwoPl.Writes(log, BokiTwoPl.TxnLogs(log, Lambda(log, r), RecordTxn(log, r), n));
            Place(log, r) < |ws| && ws[Place(log, r)] == r
  {
    var l, t := Lambda(log, r), RecordTxn(log, r);
    var before := BokiTwoPl.TxnLogs(log, l, t, r);
    assert BokiTwoPl.TxnLogs(log, l, t, r + 1) == before + [r];
    assert (before + [r])[..|before|] == before;
    MoreWrites(log, l, t, r + 1, n);
  }

  lemma PlacesDiffer(log: Log, r1: nat, r2: nat)
    requires IsRecord(log, r1) && IsRecord(log, r2) && Place(log, r1) == Place(log, r2)
    requires Lambda(log, r1) == Lambda(log, r2) && RecordTxn(log, r1) == RecordTxn(log, r2)
    ensures r1 == r2
  {
    PlaceOf(log, r1, |log|);
    PlaceOf(log, r2, |log|);
  }

  /** A step commits one record. */
  lemma PlanIsInjective(log: Log, trees: Trees)
    requires OwnInstances(trees)
    ensures Injective(PlanOf(log, trees))
  {
    forall r1: nat, r2: nat, st: StepId | st in CommitSteps(log, trees, r1) && st in CommitSteps(log, trees, r2)
      ensures r1 == r2
    {
      var t1, t2 := RecordTxn(log, r1), RecordTxn(log, r2);
      var v1 := VisitOf(log, trees, r1, st);
      var v2 := VisitOf(log, trees, r2, st);
      assert OwnInstance(trees, t1, v1, t2, v2);
      PlacesDiffer(log, r1, r2);
    }
  }

  lemma VisitOf(log: Log, trees: Trees, r: nat, st: StepId) returns (v: nat)
    requires st in CommitSteps(log, trees, r)
    ensures IsRecord(log, r)
    ensures var tree := trees(RecordTxn(log, r));
            v < |tree.visits| && tree.visits[v] == Lambda(log, r)
            && st == StepId(tree.instance(v), tree.start(v) + Place(log, r))
  {
    var tree := trees(RecordTxn(log, r));
    v :| 0 <= v < |tree.visits| && tree.visits[v] == Lambda(log, r) &&
      st == StepId(tree.instance(v), tree.start(v) + Place(log, r));
  }

  ghost predicate VisitedOnce(visits: seq<string>, l: string) {
    forall i, j :: 0 <= i < |visits| && 0 <= j < |visits| && visits[i] == l && visits[j] == l ==> i == j
  }

  /** The functions that have a write record are visited once each. */
  ghost predicate WritersVisitedOnce(log: Log, trees: Trees) {
    forall r: nat :: r > 0 && IsRecord(log, r) ==> VisitedOnce(trees(RecordTxn(log, r)).visits, Lambda(log, r))
  }

  lemma OneStepIffVisitedOnce(log: Log, trees: Trees)
    requires OwnInstances(trees)
    ensures OneStepPerRecord(PlanOf(log, trees)) <==> WritersVisitedOnce(log, trees)
  {
    if WritersVisitedOnce(log, trees) {
      forall r: nat, a, b | r > 0 && a in CommitSteps(log, trees, r) && b in CommitSteps(log, trees, r) ensures a == b {
        var v := VisitOf(log, trees, r, a);
        var w := VisitOf(log, trees, r, b);
        assert VisitedOnce(trees(RecordTxn(log, r)).visits, Lambda(log, r));
      }
    } else {
      var r: nat :| r > 0 && IsRecord(log, r) && !VisitedOnce(trees(RecordTxn(log, r)).visits, Lambda(log, r));
      TwoVisitsTwoSteps(log, trees, r);
    }
  }

  lemma TwoVisitsTwoSteps(log: Log, trees: Trees, r: nat)
    requires OwnInstances(trees) && r > 0 && IsRecord(log, r)
    requires !VisitedOnce(trees(RecordTxn(log, r)).visits, Lambda(log, r))
    ensures !OneStepPerRecord(PlanOf(log, trees))
  {
    var t := RecordTxn(log, r);
    var tree, l := trees(t), Lambda(log, r);
    var i: nat, j: nat :|
      i < |tree.visits| && j < |tree.visits| && tree.visits[i] == l && tree.visits[j] == l && i != j;
    var a := StepId(tree.instance(i), tree.start(i) + Place(log, r));
    var b := StepId(tree.instance(j), tree.start(j) + Place(log, r));
    assert OwnInstance(trees, t, i, t, j);
    assert a in CommitSteps(log, trees, r) && b in CommitSteps(log, trees, r) && a != b;
    assert a in PlanOf(log, trees)(r) && b in PlanOf(log, trees)(r);
  }

  /**
   The exact condition on the commit: all its writes are made under their locks, in every run, if and only if it
   visits no function with a write record twice.
   */
  lemma UnderLockIffVisitedOnce(log: Log, trees: Trees)
    requires OwnInstances(trees)
    ensures AlwaysUnderLock(PlanOf(log, trees)) <==> WritersVisitedOnce(log, trees)
  {
    PlanIsInjective(log, trees);
    OneStepIffVisitedOnce(log, trees);
    UnderLockIffOneStep(PlanOf(log, trees));
  }

  // ---- runs committed by the plan of their own log ----

  /** The run whose commits follow the records that it ends with. */
  ghost predicate OwnRun(trees: Trees, rows: map<RowKey, Item>, n0: nat, steps: seq<Step>, log: Log) {
    Run(PlanOf(log, trees), rows, n0, steps).log == log
  }

  ghost predicate OwnWritesUnderLock(trees: Trees) {
    forall rows, n0, steps, log ::
      OwnRun(trees, rows, n0, steps, log) && StartsBelow(rows, n0) && OneRecordPerLock(log) ==>
        WritesUnderLock(Run(PlanOf(log, trees), rows, n0, steps))
  }

  ghost predicate NoRepeats(trees: Trees) {
    forall t :: t != "" ==> NoRepeat(trees(t).visits)
  }

  lemma NoRepeatsSuffices(trees: Trees, rows: map<RowKey, Item>, n0: nat, steps: seq<Step>, log: Log)
    requires OwnInstances(trees) && NoRepeats(trees) && OwnRun(trees, rows, n0, steps, log) && OneRecordPerLock(log)
    ensures WritesUnderLock(Run(PlanOf(log, trees), rows, n0, steps))
  {
    var plan := PlanOf(log, trees);
    PlanIsInjective(log, trees);
    RunKeepsBase(plan, rows, n0, steps);
    forall r: nat | r > 0 && IsRecord(log, r) ensures VisitedOnce(trees(RecordTxn(log, r)).visits, Lambda(log, r)) {
      BokiTxnLimits.RecordNotFirst(Run(plan, rows, n0, steps), r);
    }
    OneStepIffVisitedOnce(log, trees);
    OneStepSuffices(plan, rows, n0, steps);
  }

  /** The two commits of the first record by a function that its transaction visits twice. */
  function TwoVisits(trees: Trees, t: string, i: nat, j: nat, other: string, row: RowKey, value: string): Escape
    requires i < |trees(t).visits| && j < |trees(t).visits|
  {
    var tree := trees(t);
    Twice(1, StepId(tree.instance(i), tree.start(i)), StepId(tree.instance(j), tree.start(j)), t, other,
          Write(tree.visits[i], row, value))
  }

  lemma FirstPlace(w: Escape, m: nat)
    requires w.r1 == w.r2 == 1 && m > 1
    ensures IsRecord(Prefix(w, m), 1) && Place(Prefix(w, m), 1) == 0
    ensures Lambda(Prefix(w, m), 1) == w.first.lambda && RecordTxn(Prefix(w, m), 1) == w.txn
  {
    var log := Prefix(w, m);
    assert log[0] == SlotAt(w, 0) && log[1] == SlotAt(w, 1);
    assert BokiTwoPl.TxnLogs(log, w.first.lambda, w.txn, 1) == [];
  }

  lemma TwoVisitsEscape(trees: Trees, t: string, i: nat, j: nat, other: string, row: RowKey, value: string)
    requires OwnInstances(trees) && t != "" && other != "" && other != t
    requires i < j < |trees(t).visits| && trees(t).visits[i] == trees(t).visits[j]
    ensures var w := TwoVisits(trees, t, i, j, other, row, value);
            var log := Prefix(w, 6);
            && OwnRun(trees, map[], 0, Steps(w, Length(w)), log) && OneRecordPerLock(log)
            && Escapes(Run(PlanOf(log, trees), map[], 0, Steps(w, Length(w))), w)
  {
    var w := TwoVisits(trees, t, i, j, other, row, value);
    var log := Prefix(w, 6);
    FirstPlace(w, 6);
    assert OwnInstance(trees, t, i, t, j);
    assert w.a in CommitSteps(log, trees, 1) && w.b in CommitSteps(log, trees, 1);
    SecondWriteEscapes(PlanOf(log, trees), w);
    OneRecord(w, 6);
  }

  /**
   Committed by the plan of their own records, all runs write under their locks if and only if no transaction's commit
   visits a function twice.
   */
  lemma UnderLockIffNoRepeat(trees: Trees)
    requires OwnInstances(trees)
    ensures OwnWritesUnderLock(trees) <==> NoRepeats(trees)
  {
    if NoRepeats(trees) {
      forall rows, n0, steps, log | OwnRun(trees, rows, n0, steps, log) && OneRecordPerLock(log)
        ensures WritesUnderLock(Run(PlanOf(log, trees), rows, n0, steps))
      {
        NoRepeatsSuffices(trees, rows, n0, steps, log);
      }
    } else {
      var t :| t != "" && !NoRepeat(trees(t).visits);
      var i: nat, j: nat :| i < j < |trees(t).visits| && trees(t).visits[i] == trees(t).visits[j];
      RepeatRefutes(trees, t, i, j);
    }
  }

  lemma RepeatRefutes(trees: Trees, t: string, i: nat, j: nat)
    requires OwnInstances(trees) && t != ""
    requires i < j < |trees(t).visits| && trees(t).visits[i] == trees(t).visits[j]
    ensures !OwnWritesUnderLock(trees)
  {
    var other, row := if t == "a" then "b" else "a", RowKey("t", "k");
    TwoVisitsEscape(trees, t, i, j, other, row, "x");
    var w := TwoVisits(trees, t, i, j, other, row, "x");
    BokiTxnLimits.EscapedNotUnderLock(Run(PlanOf(Prefix(w, 6), trees), map[], 0, Steps(w, Length(w))), w);
  }

  /** The tree of a transaction is what the recursion over its records visits. */
  ghost predicate FromRecords(tree: Tree, records: Records, rank: string -> nat, root: string) {
    Ranks(records, rank) && tree.visits == Visits(records, rank, root)
  }

  /** Hence recording each callee once is enough. */
  lemma CalledOnceSuffices(log: Log, trees: Trees, records: string -> Records, rank: string -> string -> nat,
                           root: string -> string)
    requires OwnInstances(trees) && forall t :: FromRecords(trees(t), records(t), rank(t), root(t))
    requires forall t :: CalledOnce(records(t), root(t))
    ensures Injective(PlanOf(log, trees)) && OneStepPerRecord(PlanOf(log, trees)) && AlwaysUnderLock(PlanOf(log, trees))
  {
    forall r: nat | r > 0 && IsRecord(log, r)
      ensures VisitedOnce(trees(RecordTxn(log, r)).visits, Lambda(log, r))
    {
      var t := RecordTxn(log, r);
      assert FromRecords(trees(t), records(t), rank(t), root(t));
      NoRepeatIffCalledOnce(records(t), rank(t), root(t));
    }
    PlanIsInjective(log, trees);
    OneStepIffVisitedOnce(log, trees);
    UnderLockIffVisitedOnce(log, trees);
  }
}

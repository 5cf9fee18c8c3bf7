/**
 Beldi's collector on one key: it prunes the log entries of finished instances, unlinks rows whose entries are all
 pruned, marks them, and deletes rows marked long enough ago, while writers go on.
 */
module DaalGc {
  import opened Wrappers
  import opened Daal
  import opened DaalRuns
  import opened DaalRely
  import opened DaalIds

  // ---- marks ----

  /** TS of the p-th unlinked row. */
  ghost function MarkOf(s: Store, p: nat): Option<int>
    requires ChainOk(s) && GoneOk(s) && p < |s.gone|
  {
    GoneIsRow(s, p);
    s.rows[s.gone[p]].ts
  }

  lemma GoneIsRow(s: Store, p: nat)
    requires ChainOk(s) && GoneOk(s) && p < |s.gone|
    ensures s.gone[p] in s.rows && s.gone[p] in s.chain
  {
    assert s.gone[p] in s.gone;
  }

  ghost predicate InOrder(s: Store, p: nat, q: nat)
    requires ChainOk(s) && GoneOk(s) && p < q < |s.gone|
  {
    MarkOf(s, p).Some? && MarkOf(s, q).Some? ==> MarkOf(s, p).value <= MarkOf(s, q).value
  }

  /**
   Marks never decrease in the order of unlinking and lie in the past; only unlinked rows have one, though not all if a
   pass stopped between unlinking and marking; and a row is deleted only with a mark.
   */
  ghost predicate MarksOk(s: Store, clock: int)
    requires ChainOk(s) && GoneOk(s)
  {
    && (forall p: nat :: p < |s.gone| && MarkOf(s, p).Some? ==> MarkOf(s, p).value <= clock)
    && (forall p: nat, q: nat :: p < q < |s.gone| ==> InOrder(s, p, q))
    && (forall id :: id in s.rows && s.rows[id].ts.Some? ==> id in s.gone)
    && (forall id :: id in s.deleted ==> id in s.rows && s.rows[id].ts.Some?)
  }

  /** No pass ever stopped between unlinking and marking. */
  ghost predicate AllMarked(s: Store)
    requires ChainOk(s) && GoneOk(s)
  {
    forall p: nat :: p < |s.gone| ==> MarkOf(s, p).Some?
  }

  // ---- no dangling pointers ----

  /**
   From every surviving row of the chain, unlinked or not, NEXTROW leads to the last row and never to a deleted one.
   */
  ghost predicate NoDangling(s: Store) {
    Inv(s) && forall i: nat :: i < |s.chain| && s.chain[i] !in s.deleted ==> PathSurvives(s, i)
  }

  ghost predicate PathSurvives(s: Store, i: nat)
    requires Inv(s) && i < |s.chain|
  {
    var path := Follow(s, i);
    && (forall x :: 0 <= x < |path| ==> path[x] !in s.deleted)
    && |path| > 0 && path[|path| - 1] == s.chain[|s.chain| - 1]
  }

  ghost predicate NextSurvives(s: Store, i: nat)
    requires ChainOk(s) && i < |s.chain|
  {
    s.chain[i] !in s.deleted && s.At(i).next.Some? ==> s.At(i).next.value !in s.deleted
  }

  ghost predicate NextsSurvive(s: Store)
    requires ChainOk(s)
  {
    forall i: nat :: i < |s.chain| ==> NextSurvives(s, i)
  }

  lemma {:induction false} FollowAvoidsDeleted(s: Store, i: nat)
    requires Inv(s) && NextsSurvive(s) && i < |s.chain| && s.chain[i] !in s.deleted
    ensures PathSurvives(s, i)
    decreases |s.chain| - i
  {
    NoNextMeansLast(s, i);
    if s.At(i).next.Some? {
      assert NextSurvives(s, i);
      FollowAvoidsDeleted(s, NextIndex(s, i));
    }
  }

  lemma NoDanglingIffNextsSurvive(s: Store)
    requires Inv(s)
    ensures NoDangling(s) <==> NextsSurvive(s)
  {
    if NextsSurvive(s) {
      forall i: nat | i < |s.chain| && s.chain[i] !in s.deleted ensures PathSurvives(s, i) {
        FollowAvoidsDeleted(s, i);
      }
    }
    if NoDangling(s) {
      forall i: nat | i < |s.chain| ensures NextSurvives(s, i) {
        if s.chain[i] !in s.deleted && s.At(i).next.Some? {
          assert PathSurvives(s, i);
          assert Follow(s, i)[1] == Follow(s, NextIndex(s, i))[0] == s.At(i).next.value;
        }
      }
    }
  }

  /** The deleted rows are those unlinked first. */
  ghost predicate DeletedFirst(s: Store, d: nat) {
    forall p: nat :: p < |s.gone| ==> (s.gone[p] in s.deleted <==> p < d)
  }

  /** Then a row that survives leads to a row that survives: it was unlinked no earlier, if at all. */
  lemma DeletedFirstIsSafe(s: Store, d: nat)
    requires Inv(s) && DeletedFirst(s, d)
    ensures NoDangling(s)
  {
    forall i: nat | i < |s.chain| ensures NextSurvives(s, i) {
      if s.chain[i] !in s.deleted && s.At(i).next.Some? {
        var j := NextIndex(s, i);
        if s.chain[j] in s.gone {
          var q: nat :| q < |s.gone| && s.gone[q] == s.chain[j];
          var p: nat :| p < |s.gone| && s.gone[p] == s.chain[i];
          assert GoneAt(s.gone, s.chain[i], p) && GoneAt(s.gone, s.chain[j], q);
        }
      }
    }
    NoDanglingIffNextsSurvive(s);
  }

  // ---- what stays true while the collector works ----

  /** Every operation logged took effect: no conditional write failed on this key. */
  ghost predicate NoneFailed(journal: seq<Past>) {
    forall x :: 0 <= x < |journal| ==> journal[x].Applied()
  }

  /** All instances that logged are among the known ones. */
  ghost predicate LoggedBy(journal: seq<Past>, known: iset<string>) {
    forall x :: 0 <= x < |journal| ==> journal[x].cid.instance in known
  }

  ghost predicate Among(ids: set<string>, known: iset<string>) {
    forall x :: x in ids ==> x in known
  }

  ghost predicate Sane(s: Store, bound: nat, known: iset<string>) {
    Inv(s) && |All(s)| <= bound && NoneFailed(All(s)) && LoggedBy(All(s), known)
  }

  /** What any writer may rely on, between its calls, of everybody else. */
  ghost function Watching(): Me { Me("", 0, {}, false) }

  /** The collector's view of everybody else: one collector at a time. */
  ghost function Alone(): Me { Me("", 0, {}, true) }

  /** A pass of the collector so far: as any writer may expect, and in particular no row deleted or pruned. */
  ghost predicate During(s: Store, s': Store) {
    && Rely(s, s', Watching()) && s'.deleted == s.deleted
    && (forall i: nat :: i < |s.chain| ==> SameSize(s, s', i))
    && KeepsGone(s, s')
  }

  /** An unlinked row keeps its mark and its NEXTROW. */
  ghost predicate SameGone(s: Store, s': Store, p: nat)
    requires ChainOk(s) && GoneOk(s) && ChainOk(s') && GoneOk(s') && p < |s.gone| && p < |s'.gone|
  {
    && (MarkOf(s, p).Some? ==> MarkOf(s', p) == MarkOf(s, p))
    && NextOf(s', p) == NextOf(s, p)
  }

  /** NEXTROW of the p-th unlinked row. */
  ghost function NextOf(s: Store, p: nat): Option<RowId>
    requires ChainOk(s) && GoneOk(s) && p < |s.gone|
  {
    GoneIsRow(s, p);
    s.rows[s.gone[p]].next
  }

  ghost predicate KeepsGone(s: Store, s': Store) {
    && ChainOk(s) && GoneOk(s) && ChainOk(s') && GoneOk(s') && s.chain <= s'.chain && s.gone <= s'.gone
    && forall p: nat :: p < |s.gone| ==> SameGone(s, s', p)
  }

  lemma KeepsGoneTransitive(s: Store, t: Store, u: Store)
    requires KeepsGone(s, t) && KeepsGone(t, u)
    ensures KeepsGone(s, u)
  {
    PrefixTransitive(s.chain, t.chain, u.chain);
    PrefixTransitive(s.gone, t.gone, u.gone);
    forall p: nat | p < |s.gone| ensures SameGone(s, u, p) {
      assert SameGone(s, t, p) && SameGone(t, u, p);
    }
  }

  ghost predicate SameSize(s: Store, s': Store, i: nat)
    requires ChainOk(s) && ChainOk(s') && i < |s.chain| && i < |s'.chain|
  {
    s'.At(i).gcSize == s.At(i).gcSize
  }

  lemma DuringTransitive(s: Store, t: Store, u: Store)
    requires During(s, t) && During(t, u)
    ensures During(s, u)
  {
    RelyTransitive(s, t, u, Watching());
    forall i: nat | i < |s.chain| ensures SameSize(s, u, i) {
      assert SameSize(s, t, i) && SameSize(t, u, i);
    }
    KeepsGoneTransitive(s, t, u);
  }

  lemma AloneIsWatching(s: Store, s': Store, me: Me)
    requires Rely(s, s', me) && me == Alone()
    ensures Rely(s, s', Watching())
  {
    forall i: nat | i < |s.chain| ensures RowGrew(s, s', i, false) { assert RowGrew(s, s', i, true); }
  }

  lemma AloneKeepsMark(s: Store, s': Store, p: nat)
    requires Rely(s, s', Alone()) && p < |s.gone|
    ensures s'.gone == s.gone && MarkOf(s', p) == MarkOf(s, p) && NextOf(s', p) == NextOf(s, p)
  {
    GoneIsRow(s, p);
    var i: nat :| i < |s.chain| && s.chain[i] == s.gone[p];
    assert RowGrew(s, s', i, true);
    GoneIsInterior(s, i);
  }

  lemma GoneIsInterior(s: Store, i: nat)
    requires Inv(s) && i < |s.chain| && s.chain[i] in s.gone
    ensures s.At(i).next.Some?
  {
    NoNextMeansLast(s, i);
  }

  lemma RelyIsDuring(s: Store, s': Store, me: Me)
    requires Rely(s, s', me) && me == Alone()
    ensures During(s, s') && s'.gone == s.gone
  {
    AloneIsWatching(s, s', me);
    forall i: nat | i < |s.chain| ensures SameSize(s, s', i) { assert RowGrew(s, s', i, true); }
    forall p: nat | p < |s.gone| ensures SameGone(s, s', p) { AloneKeepsMark(s, s', p); }
  }

  /** Row i is linked and its NEXTROW names row j. */
  ghost predicate Links(s: Store, i: nat, j: nat)
    requires ChainOk(s)
  {
    i < |s.chain| && s.chain[i] !in s.gone && LeadsTo(s, i, j)
  }

  lemma HopGrows(chain: seq<RowId>, chain': seq<RowId>, gone: seq<RowId>, i: nat, j: nat)
    requires Hop(chain, gone, i, j) && chain <= chain'
    ensures Hop(chain', gone, i, j)
  {
    assert forall k :: 0 <= k < |chain| ==> chain'[k] == chain[k];
  }

  lemma LinksStays(s: Store, s': Store, me: Me, i: nat, j: nat)
    requires Rely(s, s', me) && me.collecting && Links(s, i, j)
    ensures Links(s', i, j)
  {
    assert RowGrew(s, s', i, true);
    HopGrows(s.chain, s'.chain, s.gone, i, j);
  }

  /** Nobody but the collector marks, so its marks stay as they are. */
  lemma OthersKeepMarks(s: Store, a: Action, me: Me, clock: int)
    requires Inv(s) && Enabled(s, a) && ByOther(s, a, me) && me.collecting && MarksOk(s, clock) && Inv(Do(s, a))
    ensures MarksOk(Do(s, a), clock)
  {
    var s' := Do(s, a);
    forall p: nat | p < |s.gone| ensures MarkOf(s', p) == MarkOf(s, p) { OthersKeepMark(s, a, me, p); }
    forall p: nat, q: nat | p < q < |s'.gone| ensures InOrder(s', p, q) { assert InOrder(s, p, q); }
    OthersMarkNothing(s, a, me);
  }

  lemma OthersKeepMark(s: Store, a: Action, me: Me, p: nat)
    requires Inv(s) && Enabled(s, a) && ByOther(s, a, me) && me.collecting && Inv(Do(s, a)) && p < |s.gone|
    ensures Do(s, a).gone == s.gone && MarkOf(Do(s, a), p) == MarkOf(s, p)
  {
    GoneIsRow(s, p);
  }

  lemma OthersMarkNothing(s: Store, a: Action, me: Me)
    requires Inv(s) && Enabled(s, a) && ByOther(s, a, me) && me.collecting
    requires forall id :: id in s.rows && s.rows[id].ts.Some? ==> id in s.gone
    ensures forall id :: id in Do(s, a).rows && Do(s, a).rows[id].ts.Some? ==> id in Do(s, a).gone
  {
  }

  // ---- unlinking ----

  /** The rows from a up to b that are linked, as far as g tells, and have GCSIZE = N. */
  ghost function Collect(s: Store, g: seq<RowId>, a: nat, b: nat): seq<RowId>
    requires ChainOk(s) && b <= |s.chain|
    decreases b - a
  {
    if a >= b then []
    else (if s.chain[a] !in g && s.At(a).gcSize == s.n then [s.chain[a]] else []) + Collect(s, g, a + 1, b)
  }

  lemma {:induction false} CollectSkips(s: Store, g: seq<RowId>, a: nat, k: nat, b: nat)
    requires ChainOk(s) && a <= k <= b <= |s.chain| && forall x :: a <= x < k ==> s.chain[x] in g
    ensures Collect(s, g, a, b) == Collect(s, g, k, b)
    decreases k - a
  {
    if a < k { CollectSkips(s, g, a + 1, k, b); }
  }

  lemma {:induction false} CollectWithout(s: Store, g: seq<RowId>, j: nat, a: nat, b: nat)
    requires ChainOk(s) && j < a && b <= |s.chain| && j < |s.chain|
    ensures Collect(s, g + [s.chain[j]], a, b) == Collect(s, g, a, b)
    decreases b - a
  {
    if a < b {
      CollectWithout(s, g, j, a + 1, b);
      assert s.chain[a] in g + [s.chain[j]] <==> s.chain[a] in g;
    }
  }

  /** Which rows those are. */
  lemma {:induction false} Collected(s: Store, g: seq<RowId>, a: nat, b: nat, x: nat)
    requires ChainOk(s) && b <= |s.chain| && x < |s.chain|
    ensures s.chain[x] in Collect(s, g, a, b) <==> a <= x < b && s.chain[x] !in g && s.At(x).gcSize == s.n
    decreases b - a
  {
    if a < b { Collected(s, g, a + 1, b, x); }
  }

  /** What unlinking row j, or leaving it, and then going on from k adds up to. */
  lemma CollectStep(s: Store, g: seq<RowId>, j: nat, k: nat, b: nat)
    requires ChainOk(s) && j < k <= b <= |s.chain| && s.chain[j] !in g && forall x :: j < x < k ==> s.chain[x] in g
    ensures s.At(j).gcSize == s.n ==> g + [s.chain[j]] + Collect(s, g + [s.chain[j]], k, b) == g + Collect(s, g, j, b)
    ensures s.At(j).gcSize != s.n ==> Collect(s, g, k, b) == Collect(s, g, j, b)
  {
    CollectSkips(s, g, j + 1, k, b);
    CollectWithout(s, g, j, k, b);
    assert g + [s.chain[j]] + Collect(s, g, k, b) == g + ([s.chain[j]] + Collect(s, g, k, b));
  }

  lemma FullyPruned(s: Store, bound: nat, known: iset<string>, i: nat, j: nat, k: nat)
    requires Sane(s, bound, known) && Links(s, i, j) && LeadsTo(s, j, k) && s.At(j).gcSize == s.n
    ensures Enabled(s, Relink(i, j, k))
  {
    NothingFailed(s, j);
    RowCounts(s, j);
    SuccessesAndFailures(s.At(j).past);
    assert RowOk(s, j);
  }

  lemma UnlinkStep(s: Store, bound: nat, known: iset<string>, clock: int, i: nat, j: nat, k: nat)
    requires Sane(s, bound, known) && MarksOk(s, clock)
    requires Links(s, i, j) && LeadsTo(s, j, k) && s.At(j).gcSize == s.n
    ensures Enabled(s, Relink(i, j, k))
    ensures var s' := Do(s, Relink(i, j, k));
      Sane(s', bound, known) && MarksOk(s', clock) && During(s, s') && MarkReady(s', s.chain[j], i, k)
  {
    var a := Relink(i, j, k);
    FullyPruned(s, bound, known, i, j, k);
    OthersObey(s, a, Watching());
    OthersLogNothing(s, a);
    UnlinkKeepsMarks(s, clock, i, j, k);
    HopOver(s.chain, s.gone, i, j, k);
  }

  lemma UnlinkKeepsMarks(s: Store, clock: int, i: nat, j: nat, k: nat)
    requires Inv(s) && MarksOk(s, clock) && Enabled(s, Relink(i, j, k)) && Inv(Do(s, Relink(i, j, k)))
    ensures MarksOk(Do(s, Relink(i, j, k)), clock)
    ensures forall p: nat :: p < |s.gone| ==> SameGone(s, Do(s, Relink(i, j, k)), p)
    ensures MarkOf(Do(s, Relink(i, j, k)), |s.gone|).None?
  {
    var s', m := Do(s, Relink(i, j, k)), |s.gone|;
    assert s.At(j).ts.None?;
    forall p: nat | p < m ensures MarkOf(s', p) == MarkOf(s, p) && NextOf(s', p) == NextOf(s, p) { GoneIsRow(s, p); }
    assert MarkOf(s', m) == None;
    forall p: nat, q: nat | p < q < |s'.gone| ensures InOrder(s', p, q) {
      if q < m { assert InOrder(s, p, q); }
    }
  }

  lemma MarkStep(s: Store, bound: nat, known: iset<string>, clock: int, now: int, id: RowId, i: nat, k: nat)
    requires Sane(s, bound, known) && |s.gone| > 0 && MarksOk(s, clock) && clock <= now
    requires s.gone[|s.gone| - 1] == id && Links(s, i, k) && MarkOf(s, |s.gone| - 1).None?
    ensures Enabled(s, Mark(id, now))
    ensures var s' := Do(s, Mark(id, now));
      Sane(s', bound, known) && MarksOk(s', now) && During(s, s') && Links(s', i, k)
  {
    var a := Mark(id, now);
    GoneIsRow(s, |s.gone| - 1);
    OthersObey(s, a, Watching());
    OthersLogNothing(s, a);
    MarkKeepsMarks(s, clock, now, id);
  }

  lemma MarkKeepsMarks(s: Store, clock: int, now: int, id: RowId)
    requires Inv(s) && |s.gone| > 0 && MarksOk(s, clock) && clock <= now && s.gone[|s.gone| - 1] == id
    requires MarkOf(s, |s.gone| - 1).None?
    requires Enabled(s, Mark(id, now)) && Inv(Do(s, Mark(id, now)))
    ensures MarksOk(Do(s, Mark(id, now)), now) && MarkOf(Do(s, Mark(id, now)), |s.gone| - 1) == Some(now)
    ensures forall p: nat :: p < |s.gone| ==> SameGone(s, Do(s, Mark(id, now)), p)
  {
    var s', m := Do(s, Mark(id, now)), |s.gone|;
    forall p: nat | p < m - 1 ensures MarkOf(s', p) == MarkOf(s, p) && NextOf(s', p) == NextOf(s, p) {
      GoneIsRow(s, p);
    }
    assert MarkOf(s', m - 1) == Some(now);
    forall p: nat, q: nat | p < q < m ensures InOrder(s', p, q) {
      assert InOrder(s, p, q);
    }
  }

  /** The row that NEXTROW names from row j on, kept while others work. */
  lemma LeadsToStays(s: Store, s': Store, me: Me, j: nat, k: nat)
    requires Rely(s, s', me) && me.collecting && j < |s.chain| && LeadsTo(s, j, k)
    ensures LeadsTo(s', j, k)
  {
    assert RowGrew(s, s', j, true);
    HopGrows(s.chain, s'.chain, s.gone, j, k);
  }

  function Relinked(s: Store, prev: RowId, next: RowId, cur: RowId): Store
    requires prev in s.rows
  {
    s.(rows := s.rows[prev := s.rows[prev].(next := Some(next))], gone := s.gone + [cur])
  }

  function WithMark(s: Store, id: RowId, now: int): Store
    requires id in s.rows
  {
    s.(rows := s.rows[id := s.rows[id].(ts := Some(now))])
  }

  ghost predicate UnlinkReady(s: Store, i: nat, j: nat, k: nat, prev: RowId, cur: RowId, next: RowId)
    requires ChainOk(s)
  {
    && Links(s, i, j) && LeadsTo(s, j, k) && s.At(j).gcSize == s.n
    && s.chain[i] == prev && s.chain[j] == cur && s.chain[k] == next
  }

  ghost predicate Unlinking(s0: Store, s2: Store, bound: nat, known: iset<string>, clock: int, i: nat, k: nat,
                            cur: RowId) {
    && Sane(s2, bound, known) && s2.gone == s0.gone + [cur] && MarksOk(s2, clock) && During(s0, s2)
    && MarkReady(s2, cur, i, k)
  }

  lemma ReadyStays(s0: Store, s1: Store, i: nat, j: nat, k: nat, prev: RowId, cur: RowId, next: RowId)
    requires Rely(s0, s1, Alone()) && UnlinkReady(s0, i, j, k, prev, cur, next)
    ensures UnlinkReady(s1, i, j, k, prev, cur, next) && During(s0, s1)
  {
    LinksStays(s0, s1, Alone(), i, j);
    LeadsToStays(s0, s1, Alone(), j, k);
    RelyIsDuring(s0, s1, Alone());
    assert SameSize(s0, s1, j);
  }

  lemma UnlinkAfter(s0: Store, s1: Store, bound: nat, known: iset<string>, clock: int,
                    i: nat, j: nat, k: nat, prev: RowId, cur: RowId, next: RowId)
    requires Rely(s0, s1, Alone()) && Sane(s1, bound, known) && MarksOk(s1, clock)
    requires UnlinkReady(s0, i, j, k, prev, cur, next)
    ensures prev in s1.rows && Unlinking(s0, Relinked(s1, prev, next, cur), bound, known, clock, i, k, cur)
  {
    ReadyStays(s0, s1, i, j, k, prev, cur, next);
    UnlinkStep(s1, bound, known, clock, i, j, k);
    DuringTransitive(s0, s1, Relinked(s1, prev, next, cur));
  }

  ghost predicate Marking(s0: Store, s2: Store, bound: nat, known: iset<string>, now: int, i: nat, k: nat) {
    && Sane(s2, bound, known) && s2.gone == s0.gone && MarksOk(s2, now) && During(s0, s2) && Links(s2, i, k)
    && |s2.gone| > 0 && MarkOf(s2, |s2.gone| - 1) == Some(now)
  }

  /** The last unlinked row is the one to be marked. */
  ghost predicate MarkReady(s: Store, id: RowId, i: nat, k: nat)
    requires ChainOk(s)
  {
    Links(s, i, k) && LastUnmarked(s, id)
  }

  ghost predicate LastUnmarked(s: Store, id: RowId)
    requires ChainOk(s)
  {
    GoneOk(s) && |s.gone| > 0 && s.gone[|s.gone| - 1] == id && MarkOf(s, |s.gone| - 1).None?
  }

  lemma LastUnmarkedStays(s0: Store, s1: Store, id: RowId)
    requires Rely(s0, s1, Alone()) && LastUnmarked(s0, id)
    ensures LastUnmarked(s1, id)
  {
    AloneKeepsMark(s0, s1, |s0.gone| - 1);
  }

  lemma MarkReadyStays(s0: Store, s1: Store, id: RowId, i: nat, k: nat)
    requires Rely(s0, s1, Alone()) && s1.gone == s0.gone && MarkReady(s0, id, i, k)
    ensures MarkReady(s1, id, i, k)
  {
    LinksStays(s0, s1, Alone(), i, k);
    LastUnmarkedStays(s0, s1, id);
  }

  lemma MarkNow(s: Store, bound: nat, known: iset<string>, clock: int, now: int, id: RowId, i: nat, k: nat)
    requires Sane(s, bound, known) && MarksOk(s, clock) && clock <= now && MarkReady(s, id, i, k)
    ensures id in s.rows && Marking(s, WithMark(s, id, now), bound, known, now, i, k)
  {
    MarkStep(s, bound, known, clock, now, id, i, k);
    assert WithMark(s, id, now) == Do(s, Mark(id, now));
  }

  lemma MarkingAfter(s0: Store, s1: Store, s2: Store, bound: nat, known: iset<string>, now: int, i: nat, k: nat)
    requires During(s0, s1) && s1.gone == s0.gone && Marking(s1, s2, bound, known, now, i, k)
    ensures Marking(s0, s2, bound, known, now, i, k)
  {
    DuringTransitive(s0, s1, s2);
  }

  /** A row cut out and then marked. */
  lemma CutAndMarked(s0: Store, s1: Store, s2: Store, bound: nat, known: iset<string>, clock: int, now: int,
                     i: nat, k: nat, cur: RowId)
    requires Unlinking(s0, s1, bound, known, clock, i, k, cur) && Marking(s1, s2, bound, known, now, i, k)
    ensures Sane(s2, bound, known) && MarksOk(s2, now)
    ensures During(s0, s2) && s2.gone == s0.gone + [cur] && Links(s2, i, k) && MarkedNow(s2, |s0.gone|, now)
  {
    DuringTransitive(s0, s1, s2);
  }

  /** A look at row j. */
  ghost predicate Looked(s: Store, i: nat, j: nat, next: Option<RowId>, gcSize: nat, k: nat)
    requires ChainOk(s)
  {
    && Links(s, i, j) && s.At(j).next == next && s.At(j).gcSize == gcSize
    && if next.Some? then LeadsTo(s, j, k) && s.chain[k] == next.value else j == |s.chain| - 1
  }

  lemma LookAt(s: Store, i: nat, j: nat) returns (k: nat)
    requires Inv(s) && Links(s, i, j)
    ensures s.Present(s.chain[j]) && s.chain[j] !in s.gone && Looked(s, i, j, s.At(j).next, s.At(j).gcSize, k)
  {
    NoNextMeansLast(s, j);
    k := j;
    if s.At(j).next.Some? { k := NextIndex(s, j); }
  }

  /** A walk from row j to row `stop` unlinked exactly the rows with GCSIZE = N on its way, in order. */
  ghost predicate Sweep(s: Store, s': Store, j: nat, stop: nat) {
    && During(s, s') && j <= stop && |s.chain| - 1 <= stop < |s'.chain|
    && s'.gone == s.gone + Collect(s', s.gone, j, stop)
  }

  /** The rows unlinked since then carry this mark. */
  ghost predicate MarkedNow(s: Store, g: nat, now: int) {
    ChainOk(s) && GoneOk(s) && forall p: nat :: g <= p < |s.gone| ==> MarkOf(s, p) == Some(now)
  }

  lemma MarkedNowStays(s: Store, s': Store, g: nat, now: int)
    requires During(s, s') && g <= |s.gone| && MarkedNow(s, g, now) && MarkedNow(s', |s.gone|, now)
    ensures MarkedNow(s', g, now)
  {
    forall p: nat | g <= p < |s'.gone| ensures MarkOf(s', p) == Some(now) {
      if p < |s.gone| { assert SameGone(s, s', p); }
    }
  }

  /** Rows between two that NEXTROW connects were unlinked before. */
  lemma BetweenGone(s: Store, s': Store, j: nat, k: nat)
    requires During(s, s') && j < |s.chain| && LeadsTo(s, j, k)
    ensures forall x :: j < x < k ==> s'.chain[x] in s.gone
  {
    assert forall x :: 0 <= x < |s.chain| ==> s'.chain[x] == s.chain[x];
  }

  lemma SweepGoesOn(s0: Store, s1: Store, s': Store, j: nat, stop: nat)
    requires During(s0, s1) && s1.gone == s0.gone && Sweep(s1, s', j, stop)
    ensures Sweep(s0, s', j, stop)
  {
    DuringTransitive(s0, s1, s');
  }

  lemma SweepSkips(s: Store, s': Store, j: nat, k: nat, stop: nat)
    requires ChainOk(s) && j < |s.chain| && LeadsTo(s, j, k) && s.chain[j] !in s.gone
    requires s.At(j).gcSize != s.n && Sweep(s, s', k, stop)
    ensures Sweep(s, s', j, stop)
  {
    BetweenGone(s, s', j, k);
    assert SameSize(s, s', j);
    CollectStep(s', s.gone, j, k, stop);
  }

  lemma SweepCuts(s: Store, s2: Store, s': Store, j: nat, k: nat, stop: nat)
    requires ChainOk(s) && j < |s.chain| && LeadsTo(s, j, k) && s.chain[j] !in s.gone
    requires s.At(j).gcSize == s.n && During(s, s2) && s2.gone == s.gone + [s.chain[j]] && Sweep(s2, s', k, stop)
    ensures Sweep(s, s', j, stop)
  {
    DuringTransitive(s, s2, s');
    BetweenGone(s, s', j, k);
    assert SameSize(s, s', j);
    CollectStep(s', s.gone, j, k, stop);
  }

  // ---- pruning ----

  function Pruned(s: Store, id: RowId, cids: set<Cid>): Store
    requires id in s.rows
  {
    var r := s.rows[id];
    s.(rows := s.rows[id := r.(logs := r.logs - cids, gcSize := r.gcSize + |cids|)])
  }

  /** Row i lost exactly these live entries and counted them; the rest of what the collector controls is as before. */
  ghost predicate Pruning(s: Store, s': Store, i: nat, cut: set<Cid>) {
    && Rely(s, s', Watching()) && i < |s.chain| && s'.gone == s.gone && s'.deleted == s.deleted && KeepsGone(s, s')
    && PrunedRow(s.At(i), s'.At(i), cut)
    && forall k: nat :: k < |s.chain| && k != i ==> LogsKept(s, s', k)
  }

  ghost predicate LogsKept(s: Store, s': Store, k: nat)
    requires ChainOk(s) && ChainOk(s') && k < |s.chain| && k < |s'.chain|
  {
    s.At(k).logs.Keys <= s'.At(k).logs.Keys
  }

  ghost predicate PrunedRow(r: Row, r': Row, cut: set<Cid>) {
    && r.past <= r'.past
    && r'.gcSize == r.gcSize + |cut|
    && cut <= r.logs.Keys && r.logs.Keys - cut <= r'.logs.Keys && cut !! r'.logs.Keys
    && NoReturn(r, r')
  }

  lemma RelyIsPruning(s: Store, s': Store, i: nat)
    requires Rely(s, s', Alone()) && i < |s.chain|
    ensures Pruning(s, s', i, {})
  {
    RelyIsDuring(s, s', Alone());
    assert RowGrew(s, s', i, true);
    forall k: nat | k < |s.chain| ensures LogsKept(s, s', k) { assert RowGrew(s, s', k, true); }
  }

  lemma PruningTransitive(s: Store, t: Store, u: Store, i: nat, c1: set<Cid>, c2: set<Cid>)
    requires Pruning(s, t, i, c1) && Pruning(t, u, i, c2) && c1 !! c2 && c2 <= s.At(i).logs.Keys
    ensures Pruning(s, u, i, c1 + c2)
  {
    RelyTransitive(s, t, u, Watching());
    KeepsGoneTransitive(s, t, u);
    assert RowOk(s, i) && RowOk(t, i);
    PrunedTwice(s.At(i), t.At(i), u.At(i), s.finished, c1, c2);
    forall k: nat | k < |s.chain| && k != i ensures LogsKept(s, u, k) { assert LogsKept(s, t, k) && LogsKept(t, u, k); }
  }

  lemma PrunedTwice(r: Row, r': Row, r'': Row, finished: set<string>, c1: set<Cid>, c2: set<Cid>)
    requires LogsOk(r, finished) && PrunedRow(r, r', c1) && PrunedRow(r', r'', c2) && c1 !! c2 && c2 <= r.logs.Keys
    ensures PrunedRow(r, r'', c1 + c2)
  {
    assert |c1 + c2| == |c1| + |c2|;
    PrefixTransitive(r.past, r'.past, r''.past);
    forall c | c in c1 ensures c !in r''.logs {
      assert c in r.logs;
      var k: nat :| Entered(r.past, k, c, r.logs[c]);
      assert r'.past[k] == r.past[k];
    }
  }

  lemma PruneStep(s: Store, bound: nat, known: iset<string>, clock: int, i: nat, cut: set<Cid>)
    requires Sane(s, bound, known) && MarksOk(s, clock) && i < |s.chain| && cut <= s.At(i).logs.Keys
    requires forall c :: c in cut ==> c.instance in s.finished
    ensures var s' := Pruned(s, s.chain[i], cut);
      Sane(s', bound, known) && MarksOk(s', clock) && Pruning(s, s', i, cut)
  {
    var a, s' := Prune(s.chain[i], cut), Pruned(s, s.chain[i], cut);
    assert s' == Do(s, a);
    OthersObey(s, a, Watching());
    OthersLogNothing(s, a);
    PruneKeepsMarks(s, clock, i, cut);
    PruneCutsRow(s, i, cut);
  }

  lemma PruneCutsRow(s: Store, i: nat, cut: set<Cid>)
    requires Inv(s) && i < |s.chain| && cut <= s.At(i).logs.Keys && Inv(Pruned(s, s.chain[i], cut))
    ensures PrunedRow(s.At(i), Pruned(s, s.chain[i], cut).At(i), cut)
    ensures forall k: nat :: k < |s.chain| && k != i ==> LogsKept(s, Pruned(s, s.chain[i], cut), k)
  {
  }

  lemma PruneKeepsMarks(s: Store, clock: int, i: nat, cut: set<Cid>)
    requires Inv(s) && MarksOk(s, clock) && i < |s.chain| && Inv(Pruned(s, s.chain[i], cut))
    ensures MarksOk(Pruned(s, s.chain[i], cut), clock) && KeepsGone(s, Pruned(s, s.chain[i], cut))
  {
    var s' := Pruned(s, s.chain[i], cut);
    forall p: nat | p < |s.gone| ensures MarkOf(s', p) == MarkOf(s, p) && NextOf(s', p) == NextOf(s, p) {
      GoneIsRow(s, p);
    }
    forall p: nat, q: nat | p < q < |s.gone| ensures InOrder(s', p, q) { assert InOrder(s, p, q); }
  }

  /** A batch of live entries of finished instances, as the collector carries it from one database call to the next. */
  ghost predicate Batch(s: Store, i: nat, cut: set<Cid>)
    requires ChainOk(s)
  {
    i < |s.chain| && cut <= s.At(i).logs.Keys && forall c :: c in cut ==> c.instance in s.finished
  }

  ghost predicate PruneDone(s0: Store, s2: Store, bound: nat, known: iset<string>, clock: int, i: nat, cut: set<Cid>) {
    Sane(s2, bound, known) && MarksOk(s2, clock) && Pruning(s0, s2, i, cut)
  }

  lemma PruneAfter(s0: Store, s1: Store, bound: nat, known: iset<string>, clock: int, i: nat, cut: set<Cid>)
    requires Rely(s0, s1, Alone()) && Sane(s1, bound, known) && MarksOk(s1, clock) && Batch(s0, i, cut)
    ensures s1.chain[i] == s0.chain[i] && cut <= s1.At(i).logs.Keys
    ensures PruneDone(s0, Pruned(s1, s0.chain[i], cut), bound, known, clock, i, cut)
  {
    RelyIsPruning(s0, s1, i);
    PruneStep(s1, bound, known, clock, i, cut);
    PruningTransitive(s0, s1, Pruned(s1, s0.chain[i], cut), i, {}, cut);
    assert {} + cut == cut;
  }

  /** Those of the entries that belong to one of the instances. */
  function Dead(keys: set<Cid>, ids: set<string>): set<Cid> {
    set c | c in keys && c.instance in ids
  }

  // ---- what pruning leaves ----

  /** Of the entries that a row had, those of other instances stay. */
  ghost predicate Spares(s: Store, s': Store, i: nat, ids: set<string>)
    requires ChainOk(s) && ChainOk(s') && i < |s.chain| && i < |s'.chain|
  {
    forall c :: c in s.At(i).logs && c.instance !in ids ==> c in s'.At(i).logs
  }

  ghost predicate Cleans(s: Store, s': Store, i: nat, ids: set<string>)
    requires ChainOk(s) && ChainOk(s') && i < |s.chain| && i < |s'.chain|
  {
    forall c :: c in s.At(i).logs && c.instance in ids ==> c !in s'.At(i).logs
  }

  /** Every row kept its entries of other instances, and those of `done` lost the rest. */
  ghost predicate Purging(s: Store, s': Store, ids: set<string>, done: set<RowId>) {
    && Rely(s, s', Watching())
    && forall k: nat :: k < |s.chain| ==> Spares(s, s', k, ids) && (s.chain[k] in done ==> Cleans(s, s', k, ids))
  }

  /** From every row exactly the entries of these instances went. */
  ghost predicate Purged(s: Store, s': Store, ids: set<string>) {
    && Rely(s, s', Watching())
    && forall k: nat :: k < |s.chain| ==> Spares(s, s', k, ids) && Cleans(s, s', k, ids)
  }

  lemma AloneIsPurging(s: Store, s': Store, ids: set<string>)
    requires Rely(s, s', Alone())
    ensures Purging(s, s', ids, {})
  {
    AloneIsWatching(s, s', Alone());
    forall k: nat | k < |s.chain| ensures Spares(s, s', k, ids) { assert RowGrew(s, s', k, true); }
  }

  /** What was cleaned away does not come back. */
  lemma CleansStays(s: Store, t: Store, u: Store, i: nat, ids: set<string>)
    requires Rely(s, t, Watching()) && Rely(t, u, Watching()) && i < |s.chain|
    requires Cleans(s, t, i, ids)
    ensures Cleans(s, u, i, ids)
  {
    assert RowOk(s, i) && RowGrew(s, t, i, false) && RowGrew(t, u, i, false);
    forall c | c in s.At(i).logs && c.instance in ids ensures c !in u.At(i).logs {
      var k: nat :| Entered(s.At(i).past, k, c, s.At(i).logs[c]);
      assert t.At(i).past[k] == s.At(i).past[k];
    }
  }

  lemma CleansLater(s: Store, t: Store, u: Store, i: nat, ids: set<string>)
    requires Rely(s, t, Watching()) && Rely(t, u, Watching()) && i < |s.chain|
    requires Cleans(t, u, i, ids)
    ensures Cleans(s, u, i, ids)
  {
    assert RowOk(s, i) && RowGrew(s, t, i, false) && RowGrew(t, u, i, false);
    forall c | c in s.At(i).logs && c.instance in ids ensures c !in u.At(i).logs {
      var k: nat :| Entered(s.At(i).past, k, c, s.At(i).logs[c]);
      assert t.At(i).past[k] == s.At(i).past[k];
    }
  }

  lemma PurgingRow(s: Store, t: Store, u: Store, ids: set<string>, d1: set<RowId>, d2: set<RowId>, k: nat)
    requires Purging(s, t, ids, d1) && Purging(t, u, ids, d2) && k < |s.chain|
    ensures k < |u.chain| && Spares(s, u, k, ids) && (s.chain[k] in d1 + d2 ==> Cleans(s, u, k, ids))
  {
    assert Spares(s, t, k, ids) && Spares(t, u, k, ids) && t.chain[k] == s.chain[k];
    if s.chain[k] in d1 { CleansStays(s, t, u, k, ids); }
    if s.chain[k] in d2 { CleansLater(s, t, u, k, ids); }
  }

  lemma PurgingTransitive(s: Store, t: Store, u: Store, ids: set<string>, d1: set<RowId>, d2: set<RowId>)
    requires Purging(s, t, ids, d1) && Purging(t, u, ids, d2)
    ensures Purging(s, u, ids, d1 + d2)
  {
    RelyTransitive(s, t, u, Watching());
    forall k: nat | k < |s.chain|
      ensures Spares(s, u, k, ids) && (s.chain[k] in d1 + d2 ==> Cleans(s, u, k, ids))
    {
      PurgingRow(s, t, u, ids, d1, d2, k);
    }
  }

  lemma PruningIsPurging(s: Store, s': Store, i: nat, ids: set<string>)
    requires i < |s.chain| && ChainOk(s) && Pruning(s, s', i, Dead(s.At(i).logs.Keys, ids))
    ensures Purging(s, s', ids, {s.chain[i]})
  {
    forall k: nat | k < |s.chain|
      ensures Spares(s, s', k, ids) && (s.chain[k] in {s.chain[i]} ==> Cleans(s, s', k, ids))
    {
      if k != i { assert LogsKept(s, s', k); }
    }
  }

  /** A row without entries has nothing to clean. */
  lemma EmptyIsPurged(s: Store, id: RowId, ids: set<string>)
    requires Inv(s) && (id in s.rows ==> s.rows[id].logs == map[])
    ensures Purging(s, s, ids, {id})
  {
    RelyReflexive(s, Watching());
  }

  lemma GoneIsEmpty(s: Store, i: nat)
    requires Inv(s) && i < |s.chain| && s.chain[i] in s.gone
    ensures s.At(i).logs == map[]
  {
    assert RowOk(s, i);
    assert |s.At(i).logs| == 0;
  }

  lemma NotPresentIsPurged(s: Store, id: RowId, ids: set<string>)
    requires Inv(s) && (s.Present(id) ==> s.rows[id].logs == map[])
    ensures Purging(s, s, ids, {id})
  {
    if id in s.deleted {
      var i: nat :| i < |s.chain| && s.chain[i] == id;
      GoneIsEmpty(s, i);
    }
    EmptyIsPurged(s, id, ids);
  }

  lemma NothingPurged(s: Store, ids: set<string>)
    requires Inv(s)
    ensures Purging(s, s, ids, {}) && OnlyPruned(s, s)
  {
    RelyReflexive(s, Watching());
  }

  /** Nothing was unlinked, marked or deleted. */
  ghost predicate OnlyPruned(s: Store, s': Store) {
    KeepsGone(s, s') && s'.gone == s.gone && s'.deleted == s.deleted
  }

  lemma OnlyPrunedTransitive(s: Store, t: Store, u: Store)
    requires OnlyPruned(s, t) && OnlyPruned(t, u)
    ensures OnlyPruned(s, u)
  {
    KeepsGoneTransitive(s, t, u);
  }

  lemma AloneOnlyPrunes(s: Store, s': Store)
    requires Rely(s, s', Alone())
    ensures OnlyPruned(s, s')
  {
    RelyIsDuring(s, s', Alone());
  }

  lemma ClearedOneMore(s0: Store, s1: Store, s: Store, ids: set<string>, rows: set<RowId>, todo: set<RowId>, id: RowId)
    requires id in todo && todo <= rows && Purging(s0, s1, ids, rows - todo) && OnlyPruned(s0, s1)
    requires Purging(s1, s, ids, {id}) && OnlyPruned(s1, s)
    ensures Purging(s0, s, ids, rows - (todo - {id})) && OnlyPruned(s0, s)
  {
    OnlyPrunedTransitive(s0, s1, s);
    PurgingTransitive(s0, s1, s, ids, rows - todo, {id});
    assert rows - (todo - {id}) == rows - todo + {id};
  }

  /** A scan that found every row that exists leads to all of them. */
  lemma AllPurged(s: Store, s': Store, ids: set<string>, done: set<RowId>)
    requires Purging(s, s', ids, done) && forall id :: s.Present(id) ==> id in done
    ensures Purged(s, s', ids)
  {
    forall k: nat | k < |s.chain| ensures Cleans(s, s', k, ids) {
      if s.chain[k] in s.deleted { GoneIsEmpty(s, k); }
    }
  }

  // ---- deleting ----

  lemma DeleteStep(s: Store, bound: nat, known: iset<string>, clock: int, id: RowId)
    requires Sane(s, bound, known) && MarksOk(s, clock) && id in s.gone && id !in s.deleted
    requires id in s.rows && s.rows[id].ts.Some?
    ensures var s' := s.(deleted := s.deleted + {id});
      Sane(s', bound, known) && MarksOk(s', clock) && SameMarks(s, s')
  {
    var s' := s.(deleted := s.deleted + {id});
    ActionKeeps(s, Delete(id));
    OthersLogNothing(s, Delete(id));
    forall p: nat | p < |s.gone| ensures MarkOf(s', p) == MarkOf(s, p) && NextOf(s', p) == NextOf(s, p) {
      GoneIsRow(s, p);
    }
    forall p: nat, q: nat | p < q < |s.gone| ensures InOrder(s', p, q) { assert InOrder(s, p, q); }
  }

  /** Nothing was unlinked or marked. */
  ghost predicate SameMarks(s: Store, s': Store) {
    && KeepsGone(s, s') && s'.gone == s.gone
    && forall p: nat :: p < |s.gone| ==> MarkOf(s', p) == MarkOf(s, p)
  }

  lemma SameMarksTransitive(s: Store, t: Store, u: Store)
    requires SameMarks(s, t) && SameMarks(t, u)
    ensures SameMarks(s, u)
  {
    KeepsGoneTransitive(s, t, u);
  }

  lemma AloneKeepsMarks(s: Store, s': Store)
    requires Rely(s, s', Alone())
    ensures SameMarks(s, s')
  {
    RelyIsDuring(s, s', Alone());
    forall p: nat | p < |s.gone| ensures MarkOf(s', p) == MarkOf(s, p) { AloneKeepsMark(s, s', p); }
  }

  /** The rows that a scan for marks before the threshold finds. */
  function Dangling(s: Store, threshold: int): set<RowId> {
    set id | id in s.rows && id !in s.deleted && s.rows[id].ts.Some? && s.rows[id].ts.value < threshold
  }

  /** What was deleted meanwhile is exactly what carried a mark before the threshold. */
  ghost predicate ExpiredDeleted(s: Store, s': Store, threshold: int) {
    && ChainOk(s) && GoneOk(s) && s'.gone == s.gone
    && forall p: nat :: p < |s.gone| ==> Expired(s, s', threshold, p)
  }

  ghost predicate HasExpired(s: Store, threshold: int, p: nat)
    requires ChainOk(s) && GoneOk(s) && p < |s.gone|
  {
    MarkOf(s, p).Some? && MarkOf(s, p).value < threshold
  }

  ghost predicate Expired(s: Store, s': Store, threshold: int, p: nat)
    requires ChainOk(s) && GoneOk(s) && p < |s.gone|
  {
    s.gone[p] in s'.deleted <==> s.gone[p] in s.deleted || HasExpired(s, threshold, p)
  }

  lemma ExpiredExactly(s0: Store, s1: Store, s': Store, threshold: int)
    requires SameMarks(s0, s1) && s1.deleted == s0.deleted
    requires s'.gone == s1.gone && s'.deleted == s1.deleted + Dangling(s1, threshold)
    ensures ExpiredDeleted(s0, s', threshold)
  {
    forall p: nat | p < |s0.gone| ensures Expired(s0, s', threshold, p) { GoneIsRow(s1, p); }
  }

  /**
   The p-th unlinked row was never marked, because a pass stopped there, and its NEXTROW names the q-th, whose mark is
   before the threshold.
   */
  ghost predicate Strands(s: Store, p: nat, q: nat, threshold: int)
    requires ChainOk(s) && GoneOk(s)
  {
    && p < |s.gone| && q < |s.gone| && MarkOf(s, p).None? && NextOf(s, p) == Some(s.gone[q])
    && HasExpired(s, threshold, q)
  }

  ghost predicate Stranded(s: Store, threshold: int)
    requires ChainOk(s) && GoneOk(s)
  {
    exists p: nat, q: nat :: Strands(s, p, q, threshold)
  }

  /** A row that no pass left unmarked leads, if it survives the deletions, to a row that does. */
  lemma UnstrandedSurvives(s: Store, s': Store, threshold: int, clock: int, i: nat)
    requires Inv(s) && Inv(s') && MarksOk(s, clock) && SameMarks(s, s') && ExpiredDeleted(s, s', threshold)
    requires NextsSurvive(s) && i < |s'.chain| && !Stranded(s, threshold)
    ensures NextSurvives(s', i)
  {
    if s'.chain[i] !in s'.deleted && s'.At(i).next.Some? {
      var j := NextIndex(s', i);
      if s'.chain[j] in s'.gone {
        var p, q := HopPlaces(s', i, j);
        var x := UnlinkedAt(s, p);
        SamePlace(s, s', x, i);
        assert SameGone(s, s', p) && Expired(s, s', threshold, p) && Expired(s, s', threshold, q);
        assert NextSurvives(s, i) && InOrder(s, p, q) && !Strands(s, p, q, threshold);
      }
    }
  }

  lemma HopPlaces(s: Store, i: nat, j: nat) returns (p: nat, q: nat)
    requires ChainOk(s) && i < |s.chain| && LeadsTo(s, i, j) && s.chain[j] in s.gone
    ensures p < q < |s.gone| && s.gone[p] == s.chain[i] && s.gone[q] == s.chain[j]
  {
    q :| q < |s.gone| && s.gone[q] == s.chain[j];
    p :| p < |s.gone| && s.gone[p] == s.chain[i];
    assert GoneAt(s.gone, s.chain[i], p) && GoneAt(s.gone, s.chain[j], q);
  }

  lemma UnlinkedAt(s: Store, p: nat) returns (x: nat)
    requires ChainOk(s) && GoneOk(s) && p < |s.gone|
    ensures x < |s.chain| && s.chain[x] == s.gone[p]
  {
    GoneIsRow(s, p);
    x :| x < |s.chain| && s.chain[x] == s.gone[p];
  }

  lemma SamePlace(s: Store, s': Store, x: nat, i: nat)
    requires ChainOk(s') && s.chain <= s'.chain && x < |s.chain| && i < |s'.chain| && s'.chain[i] == s.chain[x]
    ensures x == i
  {
    assert s'.chain[x] == s.chain[x];
  }

  lemma StrandedDangles(s: Store, s': Store, threshold: int, clock: int, p: nat, q: nat)
    requires Inv(s) && Inv(s') && MarksOk(s, clock) && SameMarks(s, s') && ExpiredDeleted(s, s', threshold)
    requires Strands(s, p, q, threshold)
    ensures !NextsSurvive(s')
  {
    var i := UnlinkedAt(s', p);
    assert SameGone(s, s', p) && Expired(s, s', threshold, p) && Expired(s, s', threshold, q);
    GoneIsRow(s, p);
    assert s.gone[p] !in s.deleted;
    assert !NextSurvives(s', i);
  }

  /**
   The exact condition: deleting the rows with old marks leaves nothing dangling if and only if no row that a
   stopped pass left unmarked has a NEXTROW with such a mark.
   */
  lemma DanglesIffStranded(s: Store, s': Store, threshold: int, clock: int)
    requires Inv(s) && Inv(s') && MarksOk(s, clock) && SameMarks(s, s') && ExpiredDeleted(s, s', threshold)
    requires NoDangling(s)
    ensures NoDangling(s') <==> !Stranded(s, threshold)
  {
    NoDanglingIffNextsSurvive(s);
    NoDanglingIffNextsSurvive(s');
    if Stranded(s, threshold) {
      var p: nat, q: nat :| Strands(s, p, q, threshold);
      StrandedDangles(s, s', threshold, clock, p, q);
    } else {
      forall i: nat | i < |s'.chain| ensures NextSurvives(s', i) {
        UnstrandedSurvives(s, s', threshold, clock, i);
      }
    }
  }

  /** If every unlinked row is marked, none is stranded. */
  lemma AllMarkedNotStranded(s: Store, threshold: int)
    requires Inv(s) && AllMarked(s)
    ensures !Stranded(s, threshold)
  {
  }

  /** And then what is deleted is always a first part of what was unlinked. */
  lemma FirstStaysFirst(s: Store, s': Store, threshold: int, clock: int, d: nat) returns (d': nat)
    requires Inv(s) && MarksOk(s, clock) && AllMarked(s) && ExpiredDeleted(s, s', threshold)
    requires DeletedFirst(s, d) && d <= |s.gone|
    ensures DeletedFirst(s', d') && d <= d' <= |s.gone|
  {
    d' := d;
    while d' < |s.gone| && HasExpired(s, threshold, d')
      invariant d <= d' <= |s.gone|
      invariant forall p: nat :: d <= p < d' ==> HasExpired(s, threshold, p)
    {
      d' := d' + 1;
    }
    forall p: nat | p < |s'.gone| ensures s'.gone[p] in s'.deleted <==> p < d' {
      assert Expired(s, s', threshold, p) && MarkOf(s, p).Some?;
      if d' < p { assert InOrder(s, d', p) && MarkOf(s, d').Some?; }
    }
  }

  /** Unlinking and pruning leave nothing dangling that did not dangle before. */
  lemma PassKeepsNoDangling(s: Store, s': Store)
    requires Inv(s) && Inv(s') && KeepsGone(s, s') && s'.deleted == s.deleted && NoDangling(s)
    ensures NoDangling(s')
  {
    NoDanglingIffNextsSurvive(s);
    NoDanglingIffNextsSurvive(s');
    forall i: nat | i < |s'.chain| ensures NextSurvives(s', i) {
      if s'.chain[i] !in s'.deleted && s'.At(i).next.Some? && s'.At(i).next.value in s.gone {
        var j := NextIndex(s', i);
        var p, q := HopPlaces(s', i, j);
        EarlierStill(s, s', p, q, s'.chain[j]);
        var x := UnlinkedAt(s, p);
        SamePlace(s, s', x, i);
        assert SameGone(s, s', p) && NextSurvives(s, i);
      }
    }
  }

  /** What was unlinked before a row of the old list is in the old list. */
  lemma EarlierStill(s: Store, s': Store, p: nat, q: nat, id: RowId)
    requires GoneOkShape(s'.gone) && s.gone <= s'.gone && p < q < |s'.gone| && s'.gone[q] == id && id in s.gone
    ensures q < |s.gone| && p < |s.gone| && s.gone[p] == s'.gone[p]
  {
    var x: nat :| x < |s.gone| && s.gone[x] == id;
    assert s'.gone[x] == id;
  }

  ghost predicate GoneOkShape(gone: seq<RowId>) {
    forall p, q :: 0 <= p < q < |gone| ==> gone[p] != gone[q]
  }

  /** One collector at work on one key, on which no instance logs whose entries pass for those of another. */
  class Collector {
    var s: Store
    ghost var bound: nat
    ghost var clock: int
    ghost const known: iset<string>

    /** A pass may begin on any store that earlier passes left, stopped ones included. */
    constructor (s: Store, ghost clock: int, ghost known: iset<string>, ghost bound: nat)
      requires Inv(s) && NoneFailed(All(s)) && LoggedBy(All(s), known) && MarksOk(s, clock) && |All(s)| <= bound
      requires NoneTakes(known)
      ensures Valid() && this.s == s && this.clock == clock && this.known == known && this.bound == bound
    {
      this.s, this.clock, this.known, this.bound := s, clock, known, bound;
    }

    ghost predicate Valid()
      reads this
    {
      Sane(s, bound, known) && MarksOk(s, clock) && NoneTakes(known)
    }

    /** What writers may have done since the last database call. */
    method Interfere()
      requires Valid()
      modifies this`s
      ensures Valid() && Rely(old(s), s, Alone()) && During(old(s), s) && s.gone == old(s.gone)
    {
      RelyReflexive(s, Alone());
      RelyIsDuring(s, s, Alone());
    }

    method LibRead(id: RowId) returns (row: Option<Row>)
      requires Valid()
      modifies this`s
      ensures Valid() && Rely(old(s), s, Alone()) && During(old(s), s) && s.gone == old(s.gone)
      ensures row == if s.Present(id) then Some(s.rows[id]) else None
    {
      Interfere();
      row := if id in s.rows && id !in s.deleted then Some(s.rows[id]) else None;
    }

    /** NEXTROW of the previous row skips the current one. */
    method Unlink(prev: RowId, cur: RowId, next: RowId, ghost i: nat, ghost j: nat, ghost k: nat)
      requires Valid() && UnlinkReady(s, i, j, k, prev, cur, next)
      modifies this`s
      ensures Unlinking(old(s), s, bound, known, clock, i, k, cur)
    {
      Interfere();
      UnlinkAfter(old(s), s, bound, known, clock, i, j, k, prev, cur, next);
      s := Relinked(s, prev, next, cur);
      assert Unlinking(old(s), s, bound, known, clock, i, k, cur);
    }

    /** The row just unlinked is marked. */
    method MarkRow(cur: RowId, now: int, ghost i: nat, ghost k: nat)
      requires Valid() && clock <= now && MarkReady(s, cur, i, k)
      modifies this`s
      ensures Marking(old(s), s, bound, known, now, i, k)
    {
      Interfere();
      ghost var s1 := s;
      MarkReadyStays(old(s), s1, cur, i, k);
      MarkNow(s1, bound, known, clock, now, cur, i, k);
      MarkingAfter(old(s), s1, WithMark(s1, cur, now), bound, known, now, i, k);
      s := WithMark(s, cur, now);
    }

    /** NEXTROW and GCSIZE of the current row. */
    method Look(cur: RowId, ghost i: nat, ghost j: nat) returns (next: Option<RowId>, gcSize: nat, ghost k: nat)
      requires Valid() && Links(s, i, j) && s.chain[j] == cur
      modifies this`s
      ensures Valid() && Rely(old(s), s, Alone()) && During(old(s), s) && s.gone == old(s.gone)
      ensures Looked(s, i, j, next, gcSize, k)
    {
      var row := LibRead(cur);
      LinksStays(old(s), s, Alone(), i, j);
      k := LookAt(s, i, j);
      next, gcSize := row.value.next, row.value.gcSize;
    }

    method MarkCut(cur: RowId, now: int, ghost i: nat, ghost k: nat)
      requires Valid() && clock <= now && MarkReady(s, cur, i, k)
      modifies this`s, this`clock
      ensures Valid() && clock == now && Marking(old(s), s, bound, known, now, i, k)
    {
      MarkRow(cur, now, i, k);
      clock := now;
    }

    method UnlinkAndMark(prev: RowId, cur: RowId, next: RowId, now: int, ghost i: nat, ghost j: nat, ghost k: nat)
      requires Valid() && clock <= now && UnlinkReady(s, i, j, k, prev, cur, next)
      modifies this`s, this`clock
      ensures Valid() && clock == now
      ensures During(old(s), s) && s.gone == old(s.gone) + [cur] && Links(s, i, k) && MarkedNow(s, |old(s).gone|, now)
    {
      Unlink(prev, cur, next, i, j, k);
      ghost var s1 := s;
      ghost var before := clock;
      MarkCut(cur, now, i, k);
      CutAndMarked(old(s), s1, s, bound, known, before, now, i, k, cur);
    }

    /**
     From the current row to the last one, unlinks and marks each row with GCSIZE = N; it ends, and what it leaves
     linked is the chain without exactly those rows. `stop` is the row that had no NEXTROW when the walk came to it.
     */
    method ClearRow(prev: RowId, cur: RowId, now: int, ghost i: nat, ghost j: nat) returns (ghost stop: nat)
      requires Valid() && clock <= now && Links(s, i, j) && s.chain[i] == prev && s.chain[j] == cur
      modifies this`s, this`clock
      ensures Valid() && clock <= now && Sweep(old(s), s, j, stop) && MarkedNow(s, |old(s).gone|, now)
      decreases bound - j, 1
    {
      IndexBounded(s, j);
      var next, gcSize;
      ghost var k;
      next, gcSize, k := Look(cur, i, j);
      ghost var s1 := s;
      if next.None? {
        stop := j;
        return;
      }
      stop := ClearFrom(prev, cur, next.value, gcSize, now, i, j, k);
      SweepGoesOn(old(s), s1, s, j, stop);
    }

    /** The row has a successor: either it goes, or the walk moves past it. */
    method ClearFrom(prev: RowId, cur: RowId, next: RowId, gcSize: nat, now: int, ghost i: nat, ghost j: nat,
                     ghost k: nat)
      returns (ghost stop: nat)
      requires Valid() && clock <= now
      requires Looked(s, i, j, Some(next), gcSize, k) && s.chain[i] == prev && s.chain[j] == cur
      modifies this`s, this`clock
      ensures Valid() && clock <= now && Sweep(old(s), s, j, stop) && MarkedNow(s, |old(s).gone|, now)
      decreases bound - j, 0
    {
      IndexBounded(s, j);
      if gcSize == s.n {
        UnlinkAndMark(prev, cur, next, now, i, j, k);
        ghost var s2 := s;
        stop := ClearRow(prev, next, now, i, k);
        SweepCuts(old(s), s2, s, j, k, stop);
        MarkedNowStays(s2, s, |old(s).gone|, now);
        return;
      }
      stop := ClearRow(cur, next, now, j, k);
      SweepSkips(old(s), s, j, k, stop);
    }

    /** Whether one of the finished instances owns the entry. */
    method MatchesAny(c: Cid, ids: set<string>) returns (b: bool)
      ensures b <==> exists id :: id in ids && Owns(id, c)
    {
      var todo := ids;
      while todo != {}
        invariant todo <= ids
        invariant forall id :: id in ids - todo ==> !Owns(id, c)
        decreases todo
      {
        var id :| id in todo;
        if Owns(id, c) { return true; }
        todo := todo - {id};
      }
      return false;
    }

    /** One update that removes a batch of entries and raises GCSIZE by their number. */
    method PruneBatch(id: RowId, cut: set<Cid>, ghost i: nat)
      requires Valid() && Batch(s, i, cut) && s.chain[i] == id
      modifies this`s
      ensures PruneDone(old(s), s, bound, known, clock, i, cut)
    {
      Interfere();
      PruneAfter(old(s), s, bound, known, clock, i, cut);
      s := Pruned(s, id, cut);
      assert PruneDone(old(s), s, bound, known, clock, i, cut);
    }

    /**
     Given live entries of a row, removes exactly those of the given finished instances, in batches, and raises
     GCSIZE by as many.
     */
    method ClearRowDAAL(id: RowId, keys: set<Cid>, ids: set<string>, ghost i: nat)
      requires Valid() && i < |s.chain| && s.chain[i] == id && keys <= s.At(i).logs.Keys
      requires ids <= s.finished && Among(ids, known)
      modifies this`s
      ensures Valid() && Pruning(old(s), s, i, Dead(keys, ids))
    {
      ghost var s0 := s;
      var batch;
      ghost var cut;
      batch, cut := ConsiderAll(id, keys, ids, i);
      batch, cut := Flush(id, batch, keys, keys, ids, i, s0, cut);
    }

    /** All entries in some order. */
    method ConsiderAll(id: RowId, keys: set<Cid>, ids: set<string>, ghost i: nat) returns (batch: set<Cid>,
                       ghost cut: set<Cid>)
      requires Valid() && Assigned(s, i, id, ids, known) && keys <= s.At(i).logs.Keys && ids <= s.finished
      modifies this`s
      ensures Valid() && |batch| < 250 && Progress(old(s), s, i, keys, keys, ids, batch, cut)
    {
      var todo := keys;
      ghost var seen: set<Cid> := {};
      ghost var s0 := s;
      batch, cut := {}, {};
      while todo != {}
        invariant Valid() && |batch| < 250 && Assigned(s0, i, id, ids, known)
        invariant Progress(s0, s, i, seen, keys, ids, batch, cut)
        invariant Split(keys, seen, todo)
        decreases todo
      {
        var c :| c in todo;
        SplitMoves(keys, seen, todo, c);
        batch, cut := Consider(id, c, batch, seen, keys, ids, i, s0, cut);
        todo, seen := todo - {c}, seen + {c};
      }
      assert seen + {} == seen;
    }

    /** One entry: if it is of a finished instance it joins the batch, which is written out when it is large. */
    method Consider(id: RowId, c: Cid, batch: set<Cid>, ghost seen: set<Cid>, ghost keys: set<Cid>, ids: set<string>,
                    ghost i: nat, ghost s0: Store, ghost cut: set<Cid>)
      returns (batch': set<Cid>, ghost cut': set<Cid>)
      requires Valid() && |batch| < 250 && Progress(s0, s, i, seen, keys, ids, batch, cut) && c in keys && c !in seen
      requires Assigned(s0, i, id, ids, known)
      modifies this`s
      ensures Valid() && |batch'| < 250 && Progress(s0, s, i, seen + {c}, keys, ids, batch', cut')
    {
      OwnerIs(s0, i, c, ids, known);
      var dead := MatchesAny(c, ids);
      ProgressTo(s0, s, i, seen, c, keys, ids, batch, cut);
      batch', cut' := if dead then batch + {c} else batch, cut;
      if |batch'| >= 250 {
        batch', cut' := Flush(id, batch', seen + {c}, keys, ids, i, s0, cut);
      }
    }

    /** Writes the batch out, if there is one. */
    method Flush(id: RowId, batch: set<Cid>, ghost seen: set<Cid>, ghost keys: set<Cid>, ids: set<string>, ghost i: nat,
                 ghost s0: Store, ghost cut: set<Cid>)
      returns (batch': set<Cid>, ghost cut': set<Cid>)
      requires Valid() && Progress(s0, s, i, seen, keys, ids, batch, cut) && s0.chain[i] == id
      modifies this`s
      ensures Valid() && batch' == {} && Progress(s0, s, i, seen, keys, ids, batch', cut')
    {
      batch', cut' := {}, cut + batch;
      if |batch| > 0 {
        ghost var s1 := s;
        PruneBatch(id, batch, i);
        PruningTransitive(s0, s1, s, i, cut, batch);
      } else {
        assert batch == {};
      }
    }

    /** A consistent scan: the rows that exist, in any order. */
    method LibScan() returns (rows: set<RowId>)
      requires Valid()
      modifies this`s
      ensures Valid() && Rely(old(s), s, Alone()) && During(old(s), s) && s.gone == old(s.gone)
      ensures forall id :: id in rows <==> s.Present(id)
    {
      Interfere();
      rows := set id | id in s.rows && id !in s.deleted;
    }

    /** Prunes all rows, each from its LOGS as the scan read it. */
    method ClearDAAL(ids: set<string>)
      requires Valid() && ids <= s.finished && Among(ids, known)
      modifies this`s
      ensures Valid() && Purged(old(s), s, ids) && OnlyPruned(old(s), s)
    {
      var rows := LibScan();
      ghost var s0 := s;
      AloneOnlyPrunes(old(s), s0);
      ClearRows(rows, ids);
      OnlyPrunedTransitive(old(s), s0, s);
      AllPurged(s0, s, ids, rows);
      PurgedSince(old(s), s0, s, ids);
    }

    /** These rows, in any order. */
    method ClearRows(rows: set<RowId>, ids: set<string>)
      requires Valid() && ids <= s.finished && Among(ids, known)
      modifies this`s
      ensures Valid() && Purging(old(s), s, ids, rows) && OnlyPruned(old(s), s)
    {
      var todo := rows;
      NothingPurged(s, ids);
      while todo != {}
        invariant Valid() && todo <= rows && Purging(old(s), s, ids, rows - todo) && OnlyPruned(old(s), s)
        decreases todo
      {
        var id :| id in todo;
        ghost var s1 := s;
        ClearOne(id, ids);
        ClearedOneMore(old(s), s1, s, ids, rows, todo, id);
        todo := todo - {id};
      }
      assert rows - todo == rows;
    }

    /** One row, as it was when the scan read it: its entries of the given instances go, and are counted. */
    method ClearOne(id: RowId, ids: set<string>)
      requires Valid() && ids <= s.finished && Among(ids, known)
      modifies this`s
      ensures Valid() && Purging(old(s), s, ids, {id}) && OnlyPruned(old(s), s)
    {
      var row := LibRead(id);
      ghost var was := s;
      AloneIsPurging(old(s), was, ids);
      AloneOnlyPrunes(old(s), was);
      if row.Some? && row.value.logs != map[] {
        ghost var i := EntriesAreInChain(s, id);
        ClearRowDAAL(id, row.value.logs.Keys, ids, i);
        OnlyPrunedTransitive(old(s), was, s);
        PruningIsPurging(was, s, i, ids);
      } else {
        NotPresentIsPurged(was, id, ids);
      }
      PurgingTransitive(old(s), was, s, ids, {}, {id});
      assert {} + {id} == {id};
    }

    /** Unlinks and marks, in one walk from HEAD, every row but HEAD and the last that has GCSIZE = N. */
    method MarkDangling(now: int) returns (ghost stop: nat)
      requires Valid() && clock <= now
      modifies this`s, this`clock
      ensures Valid() && clock <= now
      ensures Swept(old(s), s, stop) && MarkedNow(s, |old(s).gone|, now)
    {
      var row := LibRead(HEAD);
      ghost var s1 := s;
      stop := 0;
      if row.None? || row.value.next.None? {
        NothingToSweep(old(s), s);
        return;
      }
      ghost var j := HeadLinks(s);
      stop := ClearRow(HEAD, row.value.next.value, now, 0, j);
      SweptFromHead(old(s), s1, s, j, stop);
    }

    /** The rows with a mark before the threshold. */
    method ScanDangle(threshold: int) returns (items: set<RowId>)
      requires Valid()
      modifies this`s
      ensures Valid() && SameMarks(old(s), s) && s.deleted == old(s.deleted) && items == Dangling(s, threshold)
    {
      Interfere();
      AloneKeepsMarks(old(s), s);
      items := Dangling(s, threshold);
    }

    method LibDelete(id: RowId) returns (ghost was: Store)
      requires Valid() && Marked(s, id) && id !in s.deleted
      modifies this`s
      ensures Valid() && SameMarks(old(s), s) && s.deleted == old(s.deleted) + {id}
      ensures Rely(old(s), was, Alone()) && s == was.(deleted := was.deleted + {id})
    {
      Interfere();
      was := s;
      AloneKeepsMarks(old(s), was);
      MarkedStays(old(s), was, id);
      DeleteStep(s, bound, known, clock, id);
      s := s.(deleted := s.deleted + {id});
      SameMarksTransitive(old(s), was, s);
    }

    method DeleteOne(id: RowId)
      requires Valid() && Marked(s, id) && id !in s.deleted
      modifies this`s
      ensures Valid() && SameMarks(old(s), s) && s.deleted == old(s.deleted) + {id}
    {
      var _ := LibDelete(id);
    }

    /** Deletes the rows found, in any order. */
    method DeleteAll(items: set<RowId>)
      requires Valid() && forall id :: id in items ==> Marked(s, id) && id !in s.deleted
      modifies this`s
      ensures Valid() && SameMarks(old(s), s) && s.deleted == old(s.deleted) + items
    {
      var todo := items;
      ghost var done: set<RowId> := {};
      while todo != {}
        invariant Valid() && Deleting(old(s), s, items, done, todo)
        decreases todo
      {
        var id :| id in todo;
        ghost var s1 := s;
        DeletingReady(old(s), s1, items, done, todo, id);
        DeleteOne(id);
        DeletedOneMore(old(s), s1, s, items, done, todo, id);
        todo, done := todo - {id}, done + {id};
      }
      assert done == items;
    }

    /**
     Deletes exactly the rows marked before the threshold. Nothing dangles afterwards if and only if no row that a
     stopped pass left unmarked leads to one of them.
     */
    method ClearDangling(threshold: int)
      requires Valid()
      modifies this`s
      ensures Valid() && SameMarks(old(s), s) && ExpiredDeleted(old(s), s, threshold)
      ensures NoDangling(old(s)) ==> (NoDangling(s) <==> !Stranded(old(s), threshold))
    {
      var items := ScanDangle(threshold);
      ghost var s1 := s;
      DanglingAreMarked(s1, threshold);
      DeleteAll(items);
      SameMarksTransitive(old(s), s1, s);
      ExpiredExactly(old(s), s1, s, threshold);
      Consequence(old(s), s, threshold, clock);
    }

    /**
     A complete pass, on a store that earlier passes may have left half done. It prunes exactly the entries of the
     given instances, unlinks and marks exactly the rows that then have GCSIZE = N, and deletes exactly those marked
     before the threshold. If nothing dangled before, then nothing does afterwards if and only if no row left unmarked
     leads to one marked before the threshold.
     */
    method GC(ids: set<string>, now: int, threshold: int) returns (ghost s1: Store, ghost s2: Store, ghost stop: nat)
      requires Valid() && clock <= now && ids <= s.finished && Among(ids, known)
      modifies this`s, this`clock
      ensures Valid() && clock <= now && KeepsGone(old(s), s) && MarkedNow(s, |old(s).gone|, now)
      ensures Phases(old(s), s1, s2, s, ids, stop, threshold)
      ensures NoDangling(old(s)) ==> (NoDangling(s) <==> !Stranded(s, threshold))
      ensures AllMarked(old(s)) ==> AllMarked(s)
      ensures NoDangling(old(s)) && AllMarked(old(s)) ==> NoDangling(s)
    {
      ClearDAAL(ids);
      s1 := s;
      stop := MarkDangling(now);
      s2 := s;
      ClearDangling(threshold);
      PassEnds(old(s), s1, s2, s, now, threshold);
    }
  }

  /** The three phases of a pass: pruning up to s1, unlinking up to s2, deleting up to s3. */
  ghost predicate Phases(s0: Store, s1: Store, s2: Store, s3: Store, ids: set<string>, stop: nat, threshold: int) {
    && Inv(s0) && Inv(s1) && Inv(s2) && Inv(s3) && s1.gone == s0.gone && NoneFailed(All(s1))
    && Purged(s0, s1, ids) && Swept(s1, s2, stop) && SameMarks(s2, s3) && ExpiredDeleted(s2, s3, threshold)
  }

  lemma PurgedSince(s: Store, t: Store, u: Store, ids: set<string>)
    requires Rely(s, t, Alone()) && Purged(t, u, ids)
    ensures Purged(s, u, ids)
  {
    AloneIsPurging(s, t, ids);
    RelyTransitive(s, t, u, Watching());
    forall k: nat | k < |s.chain| ensures Spares(s, u, k, ids) && Cleans(s, u, k, ids) {
      assert Spares(s, t, k, ids) && Spares(t, u, k, ids) && Cleans(t, u, k, ids);
      CleansLater(s, t, u, k, ids);
    }
  }

  // ---- what a pass reclaims ----

  /** A full row has no entry that it did not have. */
  lemma FullRowNoNewEntry(s: Store, s': Store, i: nat, c: Cid)
    requires Rely(s, s', Watching()) && i + 1 < |s.chain| && c in s'.At(i).logs
    ensures c in s.At(i).logs
  {
    assert RowOk(s, i) && RowOk(s', i) && RowGrew(s, s', i, false);
    var k: nat :| Entered(s'.At(i).past, k, c, s'.At(i).logs[c]);
    assert s.At(i).past[k].cid == c;
  }

  /** A full row that held nothing but entries of the collected instances holds none afterwards. */
  lemma FullRowEmptied(s: Store, s': Store, i: nat, ids: set<string>)
    requires Purged(s, s', ids) && i + 1 < |s.chain| && forall c :: c in s.At(i).logs ==> c.instance in ids
    ensures s'.At(i).logs == map[]
  {
    assert Cleans(s, s', i, ids);
    forall c | c in s'.At(i).logs ensures c in s.At(i).logs { FullRowNoNewEntry(s, s', i, c); }
    assert s'.At(i).logs.Keys == {};
  }

  /**
   On a key without failed conditional writes, a pass unlinks every linked row but HEAD and the last whose live entries
   are all of instances that it collects.
   */
  lemma PassReclaims(s0: Store, s1: Store, s2: Store, s3: Store, ids: set<string>, stop: nat, threshold: int, x: nat)
    requires Phases(s0, s1, s2, s3, ids, stop, threshold)
    requires 0 < x < |s0.chain| - 1 && forall c :: c in s0.At(x).logs ==> c.instance in ids
    ensures s0.chain[x] in s3.gone
  {
    FullRowEmptied(s0, s1, x, ids);
    RowCounts(s1, x);
    NothingFailed(s1, x);
    assert RowOk(s1, x) && SameSize(s1, s2, x);
    SweptRows(s1, s2, stop, x);
  }

  lemma Consequence(s: Store, s': Store, threshold: int, clock: int)
    requires Inv(s) && Inv(s') && MarksOk(s, clock) && SameMarks(s, s') && ExpiredDeleted(s, s', threshold)
    ensures NoDangling(s) ==> (NoDangling(s') <==> !Stranded(s, threshold))
  {
    if NoDangling(s) { DanglesIffStranded(s, s', threshold, clock); }
  }

  /** The deletion of these rows, some of them still to do. */
  ghost predicate Deleting(s: Store, s': Store, items: set<RowId>, done: set<RowId>, todo: set<RowId>) {
    && SameMarks(s, s') && s'.deleted == s.deleted + done && done + todo == items && done !! todo
    && forall id :: id in items ==> Marked(s, id) && id !in s.deleted
  }

  lemma DeletingReady(s: Store, s': Store, items: set<RowId>, done: set<RowId>, todo: set<RowId>, id: RowId)
    requires Deleting(s, s', items, done, todo) && id in todo
    ensures Marked(s', id) && id !in s'.deleted
  {
    assert id in items;
    MarkedStays(s, s', id);
  }

  lemma DeletedOneMore(s: Store, s1: Store, s': Store, items: set<RowId>, done: set<RowId>, todo: set<RowId>, id: RowId)
    requires Deleting(s, s1, items, done, todo) && id in todo
    requires SameMarks(s1, s') && s'.deleted == s1.deleted + {id}
    ensures Deleting(s, s', items, done + {id}, todo - {id})
  {
    SameMarksTransitive(s, s1, s');
  }

  /** The row is unlinked and marked. */
  ghost predicate Marked(s: Store, id: RowId) {
    id in s.gone && id in s.rows && s.rows[id].ts.Some?
  }

  lemma MarkedStays(s: Store, s': Store, id: RowId)
    requires SameMarks(s, s') && Marked(s, id)
    ensures Marked(s', id)
  {
    var p: nat :| p < |s.gone| && s.gone[p] == id;
    GoneIsRow(s', p);
    assert MarkOf(s', p) == MarkOf(s, p);
  }

  lemma DanglingAreMarked(s: Store, threshold: int)
    requires forall id :: id in s.rows && s.rows[id].ts.Some? ==> id in s.gone
    ensures forall id :: id in Dangling(s, threshold) ==> Marked(s, id) && id !in s.deleted
  {
  }

  /** What the three phases of a pass add up to. */
  lemma PassEnds(s0: Store, s1: Store, s2: Store, s: Store, now: int, threshold: int)
    requires KeepsGone(s0, s1) && s1.gone == s0.gone && s1.deleted == s0.deleted
    requires Inv(s0) && Inv(s1) && Inv(s2) && Inv(s)
    requires During(s1, s2) && MarkedNow(s2, |s1.gone|, now) && SameMarks(s2, s)
    requires NoDangling(s2) ==> (NoDangling(s) <==> !Stranded(s2, threshold))
    ensures KeepsGone(s0, s) && MarkedNow(s, |s0.gone|, now)
    ensures NoDangling(s0) ==> (NoDangling(s) <==> !Stranded(s, threshold))
    ensures AllMarked(s0) ==> AllMarked(s)
    ensures NoDangling(s0) && AllMarked(s0) ==> NoDangling(s)
  {
    KeepsGoneTransitive(s0, s1, s2);
    KeepsGoneTransitive(s0, s2, s);
    if NoDangling(s0) { PassKeepsNoDangling(s0, s2); }
    StrandedStays(s2, s, threshold);
    if AllMarked(s0) {
      forall p: nat | p < |s.gone| ensures MarkOf(s, p).Some? {
        assert MarkOf(s, p) == MarkOf(s2, p);
        if p < |s0.gone| { assert SameGone(s0, s2, p) && MarkOf(s0, p).Some?; }
      }
      AllMarkedNotStranded(s, threshold);
    }
  }

  lemma StrandedStays(s: Store, s': Store, threshold: int)
    requires ChainOk(s) && GoneOk(s) && SameMarks(s, s')
    ensures Stranded(s', threshold) <==> Stranded(s, threshold)
  {
    forall p: nat, q: nat ensures Strands(s', p, q, threshold) <==> Strands(s, p, q, threshold) {
      if p < |s.gone| { assert SameGone(s, s', p); }
    }
  }

  lemma EntriesAreInChain(s: Store, id: RowId) returns (i: nat)
    requires Inv(s) && id in s.rows && s.rows[id].logs != map[]
    ensures i < |s.chain| && s.chain[i] == id
  {
    assert id in s.chain;
    i :| i < |s.chain| && s.chain[i] == id;
  }

  /** One walk from HEAD unlinked, in order, exactly the rows before `stop` with GCSIZE = N, HEAD excepted. */
  ghost predicate Swept(s: Store, s': Store, stop: nat) {
    && During(s, s') && |s.chain| - 1 <= stop <= |s'.chain| && (s'.chain != [] ==> stop < |s'.chain|)
    && s'.gone == s.gone + Collect(s', s.gone, 1, stop)
  }

  lemma HeadLinks(s: Store) returns (j: nat)
    requires Inv(s) && s.Present(HEAD) && s.rows[HEAD].next.Some?
    ensures s.chain != [] && Links(s, 0, j) && s.rows[HEAD].next == Some(s.chain[j]) && s.chain[0] == HEAD
  {
    j := NextIndex(s, 0);
  }

  lemma NothingToSweep(s: Store, s': Store)
    requires Inv(s) && Inv(s') && During(s, s') && s'.gone == s.gone && (!s'.Present(HEAD) || s'.rows[HEAD].next.None?)
    ensures Swept(s, s', 0)
  {
    if s'.chain != [] {
      assert HEAD !in s'.deleted;
      NoNextMeansLast(s', 0);
    }
  }

  lemma SweptFromHead(s0: Store, s1: Store, s': Store, j: nat, stop: nat)
    requires During(s0, s1) && s1.gone == s0.gone && Inv(s1) && s1.chain != [] && Links(s1, 0, j)
    requires Sweep(s1, s', j, stop)
    ensures Swept(s0, s', stop)
  {
    DuringTransitive(s0, s1, s');
    BetweenGone(s1, s', 0, j);
    CollectSkips(s', s0.gone, 1, j, stop);
  }

  /**
   The chain after the walk: a row before the last one seen is linked if and only if it was linked before and is
   HEAD or has unpruned entries; later rows are as linked as before.
   */
  lemma SweptRows(s: Store, s': Store, stop: nat, x: nat)
    requires Inv(s) && Inv(s') && Swept(s, s', stop) && x < |s'.chain|
    ensures s'.chain[x] !in s'.gone <==> s'.chain[x] !in s.gone && (x == 0 || x >= stop || s'.At(x).gcSize != s'.n)
  {
    Collected(s', s.gone, 1, stop, x);
  }

  /** What a pass over the entries has seen: removed `cut`, and holds `batch` to be removed. */
  ghost predicate Progress(s0: Store, s: Store, i: nat, seen: set<Cid>, keys: set<Cid>, ids: set<string>,
                           batch: set<Cid>, cut: set<Cid>) {
    && Pruning(s0, s, i, cut) && keys <= s0.At(i).logs.Keys && seen <= keys && ids <= s0.finished
    && cut !! batch && cut + batch == Dead(seen, ids)
  }

  /** The rows that such a walk leaves linked, in chain order. */
  ghost function Kept(s: Store, g: seq<RowId>, stop: nat, a: nat): seq<RowId>
    requires ChainOk(s) && a <= |s.chain|
    decreases |s.chain| - a
  {
    if a == |s.chain| then []
    else
      (if s.chain[a] !in g && (a == 0 || a >= stop || s.At(a).gcSize != s.n) then [s.chain[a]]
        else []) + Kept(s, g, stop, a + 1)
  }

  ghost predicate Fate(s: Store, g: seq<RowId>, stop: nat, x: nat)
    requires ChainOk(s) && x < |s.chain|
  {
    s.chain[x] !in s.gone <==> s.chain[x] !in g && (x == 0 || x >= stop || s.At(x).gcSize != s.n)
  }

  lemma {:induction false} LiveIsKept(s: Store, g: seq<RowId>, stop: nat, a: nat)
    requires ChainOk(s) && a <= |s.chain| && forall x: nat :: a <= x < |s.chain| ==> Fate(s, g, stop, x)
    ensures Live(s, a) == Kept(s, g, stop, a)
    decreases |s.chain| - a
  {
    if a < |s.chain| {
      LiveIsKept(s, g, stop, a + 1);
      assert Fate(s, g, stop, a);
    }
  }

  /** After the walk, NEXTROW visits from HEAD exactly the rows that were to be kept, in their old order. */
  lemma SweptChain(s: Store, s': Store, stop: nat)
    requires Inv(s) && Inv(s') && Swept(s, s', stop) && s'.chain != []
    ensures Follow(s', 0) == Kept(s', s.gone, stop, 0)
  {
    assert s'.chain[0] !in s'.gone;
    FollowIsLive(s', 0);
    forall x: nat | x < |s'.chain| ensures Fate(s', s.gone, stop, x) { SweptRows(s, s', stop, x); }
    LiveIsKept(s', s.gone, stop, 0);
  }

  /** The row to prune, and known instances none of whose entries pass for those of another. */
  ghost predicate Assigned(s: Store, i: nat, id: RowId, ids: set<string>, known: iset<string>) {
    Inv(s) && i < |s.chain| && s.chain[i] == id && LoggedBy(All(s), known) && Among(ids, known) && NoneTakes(known)
  }

  ghost predicate Split(keys: set<Cid>, seen: set<Cid>, todo: set<Cid>) {
    seen + todo == keys && seen !! todo
  }

  lemma SplitMoves(keys: set<Cid>, seen: set<Cid>, todo: set<Cid>, c: Cid)
    requires Split(keys, seen, todo) && c in todo
    ensures Split(keys, seen + {c}, todo - {c}) && c in keys && c !in seen
  {
  }

  lemma DeadMore(seen: set<Cid>, c: Cid, ids: set<string>)
    requires c !in seen
    ensures Dead(seen + {c}, ids) == Dead(seen, ids) + (if c.instance in ids then {c} else {}) && c !in Dead(seen, ids)
  {
  }

  lemma ProgressTo(s0: Store, s: Store, i: nat, seen: set<Cid>, c: Cid, keys: set<Cid>, ids: set<string>,
                   batch: set<Cid>, cut: set<Cid>)
    requires Progress(s0, s, i, seen, keys, ids, batch, cut) && c in keys && c !in seen
    ensures Progress(s0, s, i, seen + {c}, keys, ids, if c.instance in ids then batch + {c} else batch, cut)
  {
    DeadMore(seen, c, ids);
  }

  /** A live entry matches one of the ids exactly when its instance is one of them. */
  lemma OwnerIs(s: Store, i: nat, c: Cid, ids: set<string>, known: iset<string>)
    requires Inv(s) && i < |s.chain| && c in s.At(i).logs
    requires LoggedBy(All(s), known) && Among(ids, known) && NoneTakes(known)
    ensures (exists id :: id in ids && Owns(id, c)) <==> c.instance in ids
  {
    var p := LiveIsHeld(s, i, c);
    var a: nat :| LoggedAt(s, i, a) && s.At(i).past[a] == p;
    Positioned(s, |s.chain|, i, a);
    OwnsIffInstance(known);
    if c.instance in ids { assert Owns(c.instance, c); }
  }
}

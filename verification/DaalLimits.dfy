/**
 Why the collector's test needs keys without failed conditional writes: a run that reaches a row between HEAD and
 the last one with GCSIZE = N that still holds the outcome of an unfinished instance.
 */
module DaalLimits {
  import opened Wrappers
  import opened Daal
  import opened DaalRuns

  const W := Cid("w", 0)
  const U := Cid("u", 0)
  const F := Cid("f", 0)

  function Keep(): Update { v => v }

  /** N is 1; row "r" logs a failure of instance "u" and a write of instance "f", which finishes and is pruned. */
  function TheAction(i: nat): Action {
    match i
    case 0 => InsertHead
    case 1 => LogWrite(HEAD, W, Keep())
    case 2 => CreateRow("r", None)
    case 3 => LinkRow(HEAD, "r")
    case 4 => LogFailure("r", U)
    case 5 => LogWrite("r", F, Keep())
    case 6 => CreateRow("q", None)
    case 7 => LinkRow("r", "q")
    case 8 => Finish("f")
    case _ => Prune("r", {F})
  }

  function Actions(m: nat): (actions: seq<Action>)
    ensures |actions| == m
  {
    if m == 0 then [] else Actions(m - 1) + [TheAction(m - 1)]
  }

  function HeadAfter(m: nat): Row {
    if m == 1 then NewRow(None)
    else Row(None, map[W := Plain], 1, 0, if m <= 3 then None else Some("r"), None, [Past(W, Plain, Keep())])
  }

  function MiddleAfter(m: nat): Row {
    var failed, written := Past(U, Flag(false), v => v), Past(F, Plain, Keep());
    if m <= 4 then NewRow(None)
    else if m == 5 then Row(None, map[U := Flag(false)], 0, 0, None, None, [failed])
    else if m <= 9 then
      Row(None, map[U := Flag(false), F := Plain], 1, 0, if m <= 7 then None else Some("q"), None, [failed, written])
    else Row(None, map[U := Flag(false)], 1, 1, Some("q"), None, [failed, written])
  }

  /** The store after so many actions. */
  function After(m: nat): Store {
    var rows := if m == 0 then map[]
      else if m <= 2 then map[HEAD := HeadAfter(m)]
      else if m <= 6 then map[HEAD := HeadAfter(m), "r" := MiddleAfter(m)]
      else map[HEAD := HeadAfter(m), "r" := MiddleAfter(m), "q" := NewRow(None)];
    var chain := if m == 0 then [] else if m <= 3 then [HEAD] else if m <= 7 then [HEAD, "r"] else [HEAD, "r", "q"];
    Store(1, rows, chain, [], {}, if m <= 8 then {} else {"f"})
  }

  ghost predicate Moves(m: nat) {
    ChainOk(After(m)) && Enabled(After(m), TheAction(m)) && Do(After(m), TheAction(m)) == After(m + 1)
  }

  /** HEAD is made and filled. */
  lemma FillsFirstRow()
    ensures Moves(0) && Moves(1)
  {
    assert PassedTo(After(1), 0, HEAD, W);
    assert Do(After(1), TheAction(1)).rows[HEAD] == HeadAfter(2);
    assert Do(After(1), TheAction(1)).rows == After(2).rows;
  }

  /** The second row is made and linked. */
  lemma AddsMiddle()
    ensures Moves(2) && Moves(3)
  {
  }

  lemma LogsFailure()
    ensures Moves(4)
  {
    assert PassedTo(After(4), 1, "r", U);
    assert Do(After(4), TheAction(4)).rows["r"] == MiddleAfter(5);
    assert Do(After(4), TheAction(4)).rows == After(5).rows;
  }

  lemma LogsWrite()
    ensures Moves(5)
  {
    assert PassedTo(After(5), 1, "r", F);
    assert Do(After(5), TheAction(5)).rows["r"] == MiddleAfter(6);
    assert Do(After(5), TheAction(5)).rows == After(6).rows;
  }

  /** The last row is made and linked, and the instance finishes. */
  lemma AddsLast()
    ensures Moves(6) && Moves(7) && Moves(8)
  {
  }

  lemma Prunes()
    ensures Moves(9)
  {
    assert Do(After(9), TheAction(9)).rows["r"] == MiddleAfter(10);
    assert Do(After(9), TheAction(9)).rows == After(10).rows;
  }

  lemma Advance(m: nat)
    requires m < 10
    ensures Moves(m)
  {
    match m
    case 0 => FillsFirstRow();
    case 1 => FillsFirstRow();
    case 2 => AddsMiddle();
    case 3 => AddsMiddle();
    case 4 => LogsFailure();
    case 5 => LogsWrite();
    case 6 => AddsLast();
    case 7 => AddsLast();
    case 8 => AddsLast();
    case _ => Prunes();
  }

  lemma {:induction false} RunIs(m: nat)
    requires m <= 10
    ensures Run(1, Actions(m)) == After(m)
  {
    if m > 0 {
      RunIs(m - 1);
      Advance(m - 1);
      assert Actions(m)[..m - 1] == Actions(m - 1);
    }
  }

  /**
   The row passes the collector's test, yet its instance "u" is unfinished and its outcome would be lost with the
   row.
   */
  lemma PrunedRowStillHolds()
    ensures var s := Run(1, Actions(10));
      && ChainOk(s) && |s.chain| == 3 && s.At(1).next.Some? && s.At(1).gcSize == s.n
      && U in s.At(1).logs && U.instance !in s.finished
  {
    RunIs(10);
  }
}

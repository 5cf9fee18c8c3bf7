/**
 Why a collector's pass must be complete: a run in which a pass stops between unlinking a row and marking it, after
 which a surviving row leads to a deleted one.
 */
module DaalCrash {
  import opened Wrappers
  import opened Daal
  import opened DaalRuns

  const W := Cid("w", 0)
  const F0 := Cid("f", 0)
  const F1 := Cid("f", 1)

  function Keep(): Update { v => v }

  /** N is 1; row "a" is unlinked but not marked, then "b" is unlinked, marked and deleted. */
  function TheAction(i: nat): Action {
    match i
    case 0 => InsertHead
    case 1 => LogWrite(HEAD, W, Keep())
    case 2 => CreateRow("a", None)
    case 3 => LinkRow(HEAD, "a")
    case 4 => LogWrite("a", F0, Keep())
    case 5 => CreateRow("b", None)
    case 6 => LinkRow("a", "b")
    case 7 => LogWrite("b", F1, Keep())
    case 8 => CreateRow("c", None)
    case 9 => LinkRow("b", "c")
    case 10 => Finish("f")
    case 11 => Prune("a", {F0})
    case 12 => Prune("b", {F1})
    case 13 => Relink(0, 1, 2)
    case 14 => Relink(0, 2, 3)
    case 15 => Mark("b", 0)
    case _ => Delete("b")
  }

  function Actions(m: nat): (actions: seq<Action>)
    ensures |actions| == m
  {
    if m == 0 then [] else Actions(m - 1) + [TheAction(m - 1)]
  }

  /** A row with one write by `c`, and the actions by which it was written, got its NEXTROW and was pruned. */
  function RowAfter(m: nat, c: Cid, written: nat, linked: nat, next: Option<RowId>, pruned: nat): Row {
    if m <= written then NewRow(None)
    else Row(None, if m <= pruned then map[c := Plain] else map[], 1, if m <= pruned then 0 else 1,
             if m <= linked then None else next, None, [Past(c, Plain, Keep())])
  }

  function HeadAfter(m: nat): Row {
    RowAfter(m, W, 1, 3, Some(if m <= 13 then "a" else if m == 14 then "b" else "c"), 99)
  }

  function RowA(m: nat): Row { RowAfter(m, F0, 4, 6, Some("b"), 11) }

  function RowB(m: nat): Row {
    RowAfter(m, F1, 7, 9, Some("c"), 12).(ts := if m <= 15 then None else Some(0))
  }

  /** The store after so many actions. */
  function After(m: nat): Store {
    var rows := if m == 0 then map[]
      else if m <= 2 then map[HEAD := HeadAfter(m)]
      else if m <= 5 then map[HEAD := HeadAfter(m), "a" := RowA(m)]
      else if m <= 8 then map[HEAD := HeadAfter(m), "a" := RowA(m), "b" := RowB(m)]
      else map[HEAD := HeadAfter(m), "a" := RowA(m), "b" := RowB(m), "c" := NewRow(None)];
    var chain := if m == 0 then [] else if m <= 3 then [HEAD] else if m <= 6 then [HEAD, "a"]
      else if m <= 9 then [HEAD, "a", "b"] else [HEAD, "a", "b", "c"];
    var gone := if m <= 13 then [] else if m == 14 then ["a"] else ["a", "b"];
    Store(1, rows, chain, gone, if m <= 16 then {} else {"b"}, if m <= 10 then {} else {"f"})
  }

  ghost predicate Moves(m: nat) {
    ChainOk(After(m)) && Enabled(After(m), TheAction(m)) && Do(After(m), TheAction(m)) == After(m + 1)
  }

  /** HEAD is made and filled. */
  lemma FillsFirstRow()
    ensures Moves(0) && Moves(1)
  {
    assert PassedTo(After(1), 0, HEAD, W);
    assert Do(After(1), TheAction(1)).rows[HEAD] == HeadAfter(2);
    assert Do(After(1), TheAction(1)).rows == After(2).rows;
  }

  /** Row "a" is made and linked. */
  lemma AddsA()
    ensures Moves(2) && Moves(3)
  {
    assert Do(After(3), TheAction(3)).rows[HEAD] == HeadAfter(4);
    assert Do(After(3), TheAction(3)).rows == After(4).rows;
  }

  lemma WritesA()
    ensures Moves(4)
  {
    assert PassedTo(After(4), 1, "a", F0);
    assert Do(After(4), TheAction(4)).rows["a"] == RowA(5);
    assert Do(After(4), TheAction(4)).rows == After(5).rows;
  }

  /** Row "b" is made and linked. */
  lemma AddsB()
    ensures Moves(5) && Moves(6)
  {
    assert Do(After(6), TheAction(6)).rows["a"] == RowA(7);
    assert Do(After(6), TheAction(6)).rows == After(7).rows;
  }

  lemma WritesBIf()
    ensures ChainOk(After(7)) && Enabled(After(7), TheAction(7))
  {
    assert PassedTo(After(7), 2, "b", F1);
  }

  lemma WritesB()
    ensures Moves(7)
  {
    WritesBIf();
    assert Do(After(7), TheAction(7)).rows["b"] == RowB(8);
    assert Do(After(7), TheAction(7)).rows == After(8).rows;
  }

  lemma CreatesC()
    ensures Moves(8)
  {
  }

  lemma LinksC()
    ensures Moves(9)
  {
    assert Do(After(9), TheAction(9)).rows["b"] == RowB(10);
    assert Do(After(9), TheAction(9)).rows == After(10).rows;
  }

  lemma Finishes()
    ensures Moves(10)
  {
  }

  lemma PrunesAIf()
    ensures ChainOk(After(11)) && Enabled(After(11), TheAction(11))
  {
  }

  lemma PrunesA()
    ensures Moves(11)
  {
    PrunesAIf();
    assert Do(After(11), TheAction(11)).rows["a"] == RowA(12);
    assert Do(After(11), TheAction(11)).rows == After(12).rows;
  }

  lemma PrunesBIf()
    ensures ChainOk(After(12)) && Enabled(After(12), TheAction(12))
  {
  }

  lemma PrunesB()
    ensures Moves(12)
  {
    PrunesBIf();
    assert Do(After(12), TheAction(12)).rows["b"] == RowB(13);
    assert Do(After(12), TheAction(12)).rows == After(13).rows;
  }

  lemma UnlinksAIf()
    ensures ChainOk(After(13)) && Enabled(After(13), TheAction(13))
  {
    assert LeadsTo(After(13), 0, 1) && LeadsTo(After(13), 1, 2);
  }

  lemma UnlinksA()
    ensures Moves(13)
  {
    UnlinksAIf();
    assert Do(After(13), TheAction(13)).rows[HEAD] == HeadAfter(14);
    assert Do(After(13), TheAction(13)).rows == After(14).rows;
  }

  lemma HeadPastA()
    ensures ChainOk(After(14)) && LeadsTo(After(14), 0, 2)
  {
    assert After(14).chain[1] == "a" && After(14).gone[0] == "a";
  }

  lemma UnlinksBIf()
    ensures ChainOk(After(14)) && Enabled(After(14), TheAction(14))
  {
    HeadPastA();
    assert LeadsTo(After(14), 2, 3);
  }

  lemma UnlinksB()
    ensures Moves(14)
  {
    UnlinksBIf();
    assert Do(After(14), TheAction(14)).rows[HEAD] == HeadAfter(15);
    assert Do(After(14), TheAction(14)).rows == After(15).rows;
    assert ["a"] + ["b"] == ["a", "b"];
  }

  lemma MarksB()
    ensures Moves(15)
  {
    assert Do(After(15), TheAction(15)).rows["b"] == RowB(16);
    assert Do(After(15), TheAction(15)).rows == After(16).rows;
  }

  lemma DeletesB()
    ensures Moves(16)
  {
  }

  lemma Advance(m: nat)
    requires m < 17
    ensures Moves(m)
  {
    match m
    case 0 => FillsFirstRow();
    case 1 => FillsFirstRow();
    case 2 => AddsA();
    case 3 => AddsA();
    case 4 => WritesA();
    case 5 => AddsB();
    case 6 => AddsB();
    case 7 => WritesB();
    case 8 => CreatesC();
    case 9 => LinksC();
    case 10 => Finishes();
    case 11 => PrunesA();
    case 12 => PrunesB();
    case 13 => UnlinksA();
    case 14 => UnlinksB();
    case 15 => MarksB();
    case _ => DeletesB();
  }

  lemma {:induction false} RunIs(m: nat)
    requires m <= 17
    ensures Run(1, Actions(m)) == After(m)
  {
    if m > 0 {
      RunIs(m - 1);
      Advance(m - 1);
      assert Actions(m)[..m - 1] == Actions(m - 1);
    }
  }

  /** Row "a" was on the chain and survives, and its NEXTROW is gone. */
  lemma SurvivorLeadsNowhere()
    ensures var s := Run(1, Actions(17));
      && ChainOk(s) && |s.chain| == 4 && s.chain[1] !in s.deleted && s.At(1).ts.None?
      && s.At(1).next == Some(s.chain[2]) && s.chain[2] in s.deleted
  {
    RunIs(17);
  }
}

/** The result of a submitted exam: one row per question, and the totals the rows add up to. */
module ExamResults {
  import opened Sequences

  datatype Row = Row(moduleKey: string, blockId: string, correct: bool, unanswered: bool)
  datatype BlockScore = BlockScore(blockId: string, correct: nat, total: nat)
  datatype Result = Result(correct: nat, total: nat, blocks: seq<BlockScore>, modules: seq<Row>)

  // ---- what the totals are, counted afresh over the rows ----

  function CountIn(rows: seq<Row>, block: string): (n: nat)
    ensures n <= |rows|
  {
    if rows == [] then 0
    else CountIn(rows[..|rows| - 1], block) + (if rows[|rows| - 1].blockId == block then 1 else 0)
  }

  function CorrectIn(rows: seq<Row>, block: string): (n: nat)
    ensures n <= CountIn(rows, block)
  {
    if rows == [] then 0
    else
      var last := rows[|rows| - 1];
      CorrectIn(rows[..|rows| - 1], block) + (if last.blockId == block && last.correct then 1 else 0)
  }

  function Correct(rows: seq<Row>): (n: nat)
    ensures n <= |rows|
  {
    if rows == [] then 0
    else Correct(rows[..|rows| - 1]) + (if rows[|rows| - 1].correct then 1 else 0)
  }

  /** The blocks met, in the order they are first met. */
  function BlocksOf(rows: seq<Row>): (r: seq<string>) {
    if rows == [] then []
    else
      var r := BlocksOf(rows[..|rows| - 1]);
      var block := rows[|rows| - 1].blockId;
      if block in r then r else r + [block]
  }

  function Scores(blocks: seq<string>, rows: seq<Row>): (r: seq<BlockScore>)
    ensures |r| == |blocks|
    ensures forall i :: 0 <= i < |r| ==>
      r[i] == BlockScore(blocks[i], CorrectIn(rows, blocks[i]), CountIn(rows, blocks[i]))
  {
    seq(|blocks|, i requires 0 <= i < |blocks| =>
      BlockScore(blocks[i], CorrectIn(rows, blocks[i]), CountIn(rows, blocks[i])))
  }

  function ResultOf(rows: seq<Row>): (r: Result) {
    Result(Correct(rows), |rows|, Scores(BlocksOf(rows), rows), rows)
  }

  // ---- the running totals of the grading loop ----

  /** The per-block accumulators of one grading run. */
  datatype Totals = Totals(order: seq<string>, correct: map<string, nat>, total: map<string, nat>, right: nat)

  /** The counters hold what the rows say of every block they count. */
  ghost predicate Counts(rows: seq<Row>, correct: map<string, nat>, total: map<string, nat>) {
    && correct.Keys == total.Keys
    && forall b :: b in total ==> total[b] == CountIn(rows, b) && correct[b] == CorrectIn(rows, b)
  }

  ghost predicate Tallies(rows: seq<Row>, t: Totals) {
    && t.order == BlocksOf(rows)
    && (forall b :: b in t.total <==> b in t.order)
    && t.right == Correct(rows)
    && Counts(rows, t.correct, t.total)
  }

  lemma {:induction false} UnmetBlockIsEmpty(rows: seq<Row>, block: string)
    requires block !in BlocksOf(rows)
    ensures CountIn(rows, block) == 0
  {
    if rows != [] {
      UnmetBlockIsEmpty(rows[..|rows| - 1], block);
    }
  }

  lemma CountsMore(rows: seq<Row>, row: Row, b: string)
    ensures CountIn(rows + [row], b) == CountIn(rows, b) + (if row.blockId == b then 1 else 0)
    ensures CorrectIn(rows + [row], b) == CorrectIn(rows, b) + (if row.blockId == b then One(row) else 0)
  {
    assert (rows + [row])[..|rows|] == rows;
  }

  lemma BlocksMore(rows: seq<Row>, row: Row)
    ensures BlocksOf(rows + [row]) == if row.blockId in BlocksOf(rows) then BlocksOf(rows)
         else BlocksOf(rows) + [row.blockId]
    ensures Correct(rows + [row]) == Correct(rows) + One(row)
  {
    assert (rows + [row])[..|rows|] == rows;
  }

  lemma CountBumped(rows: seq<Row>, correct: map<string, nat>, total: map<string, nat>, row: Row)
    requires Counts(rows, correct, total) && row.blockId in total
    ensures Counts(rows + [row], correct[row.blockId := correct[row.blockId] + One(row)],
                   total[row.blockId := total[row.blockId] + 1])
  {
    forall b | b in total
      ensures CountIn(rows + [row], b) == total[b] + (if row.blockId == b then 1 else 0)
      ensures CorrectIn(rows + [row], b) == correct[b] + (if row.blockId == b then One(row) else 0)
    {
      CountsMore(rows, row, b);
    }
  }

  function One(row: Row): (n: nat) {
    if row.correct then 1 else 0
  }

  method StartBlock(ghost rows: seq<Row>, t: Totals, block: string) returns (u: Totals)
    requires Counts(rows, t.correct, t.total) && block !in BlocksOf(rows)
    ensures Counts(rows, u.correct, u.total)
    ensures u.order == t.order + [block] && u.total.Keys == t.total.Keys + {block} && u.right == t.right
  {
    UnmetBlockIsEmpty(rows, block);
    u := Totals(t.order + [block], t.correct[block := 0], t.total[block := 0], t.right);
  }

  method Bump(ghost rows: seq<Row>, t: Totals, row: Row) returns (u: Totals)
    requires Counts(rows, t.correct, t.total) && row.blockId in t.total
    ensures Counts(rows + [row], u.correct, u.total)
    ensures u.order == t.order && u.total.Keys == t.total.Keys && u.right == t.right + One(row)
  {
    CountBumped(rows, t.correct, t.total, row);
    u := t.(total := t.total[row.blockId := t.total[row.blockId] + 1]);
    u := u.(correct := u.correct[row.blockId := u.correct[row.blockId] + One(row)]);
    u := u.(right := u.right + One(row));
  }

  /** Counts one row: lists its block if it is new, then bumps that block's counters. */
  method CountRow(ghost rows: seq<Row>, t: Totals, row: Row) returns (u: Totals)
    requires Tallies(rows, t)
    ensures Tallies(rows + [row], u)
  {
    BlocksMore(rows, row);
    if row.blockId in t.total {
      u := Bump(rows, t, row);
    } else {
      u := StartBlock(rows, t, row.blockId);
      u := Bump(rows, u, row);
    }
  }

  function BlockScores(order: seq<string>, correct: map<string, nat>, total: map<string, nat>): (r: seq<BlockScore>)
    requires forall k :: 0 <= k < |order| ==> order[k] in correct && order[k] in total
    ensures |r| == |order|
    ensures forall k :: 0 <= k < |r| ==> r[k] == BlockScore(order[k], correct[order[k]], total[order[k]])
  {
    if order == [] then []
    else [BlockScore(order[0], correct[order[0]], total[order[0]])] + BlockScores(order[1..], correct, total)
  }

  /** The totals written out. */
  method Published(rows: seq<Row>, t: Totals) returns (r: Result)
    requires Tallies(rows, t)
    ensures r == ResultOf(rows)
  {
    var blocks := BlockScores(t.order, t.correct, t.total);
    assert blocks == Scores(t.order, rows);
    r := Result(t.right, |rows|, blocks, rows);
  }

  // ---- the books balance ----

  function SumTotals(blocks: seq<BlockScore>): (n: nat) {
    if blocks == [] then 0 else blocks[0].total + SumTotals(blocks[1..])
  }

  function SumCorrect(blocks: seq<BlockScore>): (n: nat) {
    if blocks == [] then 0 else blocks[0].correct + SumCorrect(blocks[1..])
  }

  ghost predicate Balances(r: Result) {
    && r.total == |r.modules|
    && r.correct == Correct(r.modules)
    && SumTotals(r.blocks) == r.total
    && SumCorrect(r.blocks) == r.correct
    && (forall i, j :: 0 <= i < j < |r.blocks| ==> r.blocks[i].blockId != r.blocks[j].blockId)
    && (forall i :: 0 <= i < |r.blocks| ==> r.blocks[i].total > 0 && r.blocks[i].correct <= r.blocks[i].total)
    && (forall m :: 0 <= m < |r.modules| ==>
          exists i :: 0 <= i < |r.blocks| && r.blocks[i].blockId == r.modules[m].blockId)
  }

  lemma {:induction false} BlocksListedOnce(rows: seq<Row>)
    ensures NoDup(BlocksOf(rows))
    ensures forall b :: b in BlocksOf(rows) ==> CountIn(rows, b) > 0
    ensures forall m :: 0 <= m < |rows| ==> rows[m].blockId in BlocksOf(rows)
  {
    if rows != [] {
      BlocksListedOnce(rows[..|rows| - 1]);
    }
  }

  /** One more row adds one to one block's share, wherever that block is in a duplicate-free list. */
  lemma {:induction false} SumsGrow(blocks: seq<string>, rows: seq<Row>)
    requires rows != [] && NoDup(blocks)
    ensures
      var (was, last) := (rows[..|rows| - 1], rows[|rows| - 1]);
      var here := if last.blockId in blocks then 1 else 0;
      && SumTotals(Scores(blocks, rows)) == SumTotals(Scores(blocks, was)) + here
      && SumCorrect(Scores(blocks, rows)) == SumCorrect(Scores(blocks, was)) + (if last.correct then here else 0)
  {
    var was := rows[..|rows| - 1];
    if blocks != [] {
      SumsGrow(blocks[1..], rows);
      assert Scores(blocks, rows)[1..] == Scores(blocks[1..], rows);
      assert Scores(blocks, was)[1..] == Scores(blocks[1..], was);
      assert blocks[0] !in blocks[1..];
    }
  }

  lemma {:induction false} SumsAppend(a: seq<BlockScore>, b: BlockScore)
    ensures SumTotals(a + [b]) == SumTotals(a) + b.total
    ensures SumCorrect(a + [b]) == SumCorrect(a) + b.correct
  {
    if a == [] {
      assert a + [b] == [b];
    } else {
      SumsAppend(a[1..], b);
      assert (a + [b])[1..] == a[1..] + [b];
    }
  }

  lemma {:induction false} BlocksCoverRows(rows: seq<Row>)
    ensures SumTotals(Scores(BlocksOf(rows), rows)) == |rows|
    ensures SumCorrect(Scores(BlocksOf(rows), rows)) == Correct(rows)
  {
    if rows != [] {
      var (was, last) := (rows[..|rows| - 1], rows[|rows| - 1]);
      BlocksCoverRows(was);
      BlocksListedOnce(rows);
      SumsGrow(BlocksOf(rows), rows);
      if last.blockId !in BlocksOf(was) {
        UnmetBlockIsEmpty(was, last.blockId);
        var unmet := BlockScore(last.blockId, 0, 0);
        assert Scores(BlocksOf(rows), was) == Scores(BlocksOf(was), was) + [unmet];
        SumsAppend(Scores(BlocksOf(was), was), unmet);
      }
    }
  }

  /** Totals, block totals and block corrections all agree, and each block is listed once. */
  lemma ResultBalances(rows: seq<Row>)
    ensures Balances(ResultOf(rows))
  {
    BlocksListedOnce(rows);
    BlocksCoverRows(rows);
    var (r, blocks) := (ResultOf(rows), BlocksOf(rows));
    forall m | 0 <= m < |r.modules|
      ensures exists i :: 0 <= i < |r.blocks| && r.blocks[i].blockId == r.modules[m].blockId
    {
      var i :| 0 <= i < |blocks| && blocks[i] == rows[m].blockId;
      assert r.blocks[i].blockId == rows[m].blockId;
    }
  }
}

/**
 Rows of a seed matrix: entry k belongs to tree k of a batch.  A level of rows is a batch
 of levels, and a step on rows is a step on every column.
 */
module DpfRows {
  import opened Blocks
  import opened DpfLevels
  import opened DpfPath

  type Row = seq<Block>

  // Entry k, with a default for entries a row does not have.
  function Cell(x: Row, k: nat): Block {
    if k < |x| then x[k] else ZERO
  }

  function RowCorrect(n: nat, x: Row, t: Row, s: Row): (r: Row)
    ensures |r| == n
  {
    seq(n, k requires 0 <= k < n => Xor(Cell(x, k), And(Cell(t, k), Cell(s, k))))
  }

  function RowTag(n: nat, x: Row): (r: Row)
    ensures |r| == n
  {
    seq(n, k requires 0 <= k < n => TagBit(Cell(x, k)))
  }

  function RowChild(n: nat, prf: (nat, Block) -> Block, c: nat, x: Row): (r: Row)
    ensures |r| == n
  {
    seq(n, k requires 0 <= k < n => prf(c, Cell(x, k)))
  }

  function RowAdd(n: nat, x: Row, y: Row): (r: Row)
    ensures |r| == n
  {
    seq(n, k requires 0 <= k < n => Xor(Cell(x, k), Cell(y, k)))
  }

  function RowZero(n: nat): Row {
    seq(n, _ => ZERO)
  }

  function RowOps(n: nat, prf: (nat, Block) -> Block): Ops<Row> {
    Ops((x, t, s) => RowCorrect(n, x, t, s), x => RowTag(n, x), (c, x) => RowChild(n, prf, c, x), (x, y) => RowAdd(n, x, y), RowZero(n))
  }

  ghost predicate AllRows(n: nat, m: seq<Row>) {
    forall r {:trigger m[r]} :: 0 <= r < |m| ==> |m[r]| == n
  }

  ghost predicate BatchLevel(a: Arity, n: nat, lv: Level<Row>) {
    Shaped(a, lv) && AllRows(n, lv.tags) && AllRows(n, lv.seeds)
  }

  // Column k.
  ghost function Column(m: seq<Row>, k: nat): (s: seq<Block>)
    ensures |s| == |m|
  {
    seq(|m|, r requires 0 <= r < |m| => Cell(m[r], k))
  }

  ghost function Tree(lv: Level<Row>, k: nat): Level<Block> {
    Level(Column(lv.tags, k), Column(lv.seeds, k))
  }

  lemma StepKeepsBatch(a: Arity, n: nat, prf: (nat, Block) -> Block, lv: Level<Row>, sigma: seq<Row>)
    requires BatchLevel(a, n, lv) && |sigma| == Width(a)
    ensures BatchLevel(a, n, Step(a, RowOps(n, prf), lv, sigma))
    ensures |Step(a, RowOps(n, prf), lv, sigma).tags| == Width(a) * |lv.tags|
  {
    var rows := Corrected(a, RowOps(n, prf), lv, sigma);
    var next := Step(a, RowOps(n, prf), lv, sigma);
    forall r | 0 <= r < |next.seeds|
      ensures |next.seeds[r]| == n
    {
      ParentBound(a, r, |rows|);
      assert next.seeds[r] == RowChild(n, prf, Slot(a, r), rows[Parent(a, r)]);
    }
  }

  lemma CorrectedColumn(a: Arity, n: nat, prf: (nat, Block) -> Block, lv: Level<Row>, sigma: seq<Row>, k: nat)
    requires BatchLevel(a, n, lv) && |sigma| == Width(a) && k < n
    ensures Column(Corrected(a, RowOps(n, prf), lv, sigma), k) == Corrected(a, BlockOps(prf), Tree(lv, k), Column(sigma, k))
  {
    var rows, blocks := Corrected(a, RowOps(n, prf), lv, sigma), Corrected(a, BlockOps(prf), Tree(lv, k), Column(sigma, k));
    forall r | 0 <= r < |rows|
      ensures Cell(rows[r], k) == blocks[r]
    {
      ParentBound(a, r, |lv.tags|);
      assert rows[r] == RowCorrect(n, lv.seeds[r], lv.tags[Parent(a, r)], sigma[Slot(a, r)]);
    }
  }

  lemma StepColumn(a: Arity, n: nat, prf: (nat, Block) -> Block, lv: Level<Row>, sigma: seq<Row>, k: nat)
    requires BatchLevel(a, n, lv) && |sigma| == Width(a) && k < n
    ensures Tree(Step(a, RowOps(n, prf), lv, sigma), k) == Step(a, BlockOps(prf), Tree(lv, k), Column(sigma, k))
  {
    var o, p := RowOps(n, prf), BlockOps(prf);
    CorrectedColumn(a, n, prf, lv, sigma, k);
    var rows := Corrected(a, o, lv, sigma);
    var blocks := Column(rows, k);
    forall r | 0 <= r < |rows|
      ensures Cell(TagsOf(o, rows)[r], k) == TagsOf(p, blocks)[r]
    {
    }
    forall r | 0 <= r < Width(a) * |rows|
      ensures Cell(ChildrenOf(a, o, rows)[r], k) == ChildrenOf(a, p, blocks)[r]
    {
      ParentBound(a, r, |rows|);
      assert ChildrenOf(a, o, rows)[r] == RowChild(n, prf, Slot(a, r), rows[Parent(a, r)]);
    }
    assert Column(TagsOf(o, rows), k) == TagsOf(p, blocks);
    assert Column(ChildrenOf(a, o, rows), k) == ChildrenOf(a, p, blocks);
  }

  lemma {:induction false} SlotSumColumn(a: Arity, n: nat, prf: (nat, Block) -> Block, seeds: seq<Row>, c: nat, m: nat, k: nat)
    requires AllRows(n, seeds) && c < Width(a) && Width(a) * m <= |seeds| && k < n
    ensures Cell(SlotSum(a, RowOps(n, prf), seeds, c, m), k) == SlotSum(a, BlockOps(prf), Column(seeds, k), c, m)
  {
    if m == 0 {
    } else {
      SlotSumColumn(a, n, prf, seeds, c, m - 1, k);
      ChildBound(a, m - 1, c, m);
    }
  }
}

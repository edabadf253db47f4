/**
 Two parties advancing a batch of trees: the two-party invariant of every tree, from the
 root to the last level.
 */
module DpfBatch {
  import opened Blocks
  import opened DpfLevels
  import opened DpfPath
  import opened DpfRows
  import opened DpfBuffers
  import opened DpfExpansion

  function XorEach(x: seq<Block>, y: seq<Block>): (s: seq<Block>)
    requires |x| == |y|
    ensures |s| == |x|
  {
    seq(|x|, c requires 0 <= c < |x| => Xor(x[c], y[c]))
  }

  // pos[k] is the active node of tree k among the parents.
  ghost predicate BatchOnPath(a: Arity, l0: Level<Row>, l1: Level<Row>, pos: seq<nat>) {
    forall k {:trigger pos[k]} {:trigger Tree(l0, k)} {:trigger Tree(l1, k)} :: 0 <= k < |pos| ==>
      OnPath(a, Tree(l0, k), Tree(l1, k), pos[k])
  }

  // sigma is a correction word for every tree; c[k] is the active slot of tree k.
  ghost predicate BatchGood(a: Arity, z0: seq<Row>, z1: seq<Row>, sigma: seq<Row>, c: seq<nat>) {
    && |z0| == |z1| == |sigma| == Width(a)
    && forall k {:trigger c[k]} {:trigger Column(sigma, k)} :: 0 <= k < |c| ==>
         GoodSigma(a, XorEach(Column(z0, k), Column(z1, k)), Column(sigma, k), c[k])
  }

  function Deeper(a: Arity, pos: seq<nat>, c: seq<nat>): (next: seq<nat>)
    requires |pos| == |c| && forall k {:trigger c[k]} :: 0 <= k < |c| ==> c[k] < Width(a)
    ensures |next| == |pos|
  {
    seq(|pos|, k requires 0 <= k < |pos| => Child(a, pos[k], c[k]))
  }

  lemma RootOnPath(a: Arity, n: nat, rand0: nat -> Block, at0: nat, rand1: nat -> Block, at1: nat)
    ensures BatchOnPath(a, RootLevel(a, n, false, rand0, at0), RootLevel(a, n, true, rand1, at1), seq(n, _ => 0))
  {
    var l0, l1 := RootLevel(a, n, false, rand0, at0), RootLevel(a, n, true, rand1, at1);
    forall k | 0 <= k < n
      ensures OnPath(a, Tree(l0, k), Tree(l1, k), 0)
    {
      hide Saturate;
      assert Tree(l0, k).tags[0] == Saturate(false) && Tree(l1, k).tags[0] == Saturate(true);
    }
  }

  lemma ColumnSums(a: Arity, n: nat, prf: (nat, Block) -> Block, l0: Level<Row>, l1: Level<Row>, z0: seq<Row>, z1: seq<Row>, k: nat)
    requires BatchLevel(a, n, l0) && BatchLevel(a, n, l1) && |l0.tags| == |l1.tags| && k < n
    requires HoldsSums(a, RowOps(n, prf), z0, l0) && HoldsSums(a, RowOps(n, prf), z1, l1)
    ensures SharedSums(a, prf, Tree(l0, k), Tree(l1, k)) == XorEach(Column(z0, k), Column(z1, k))
  {
    var s, t := SharedSums(a, prf, Tree(l0, k), Tree(l1, k)), XorEach(Column(z0, k), Column(z1, k));
    forall c | 0 <= c < Width(a)
      ensures s[c] == t[c]
    {
      hide RowOps, BlockOps, SlotSum, Xor;
      SlotSumColumn(a, n, prf, l0.seeds, c, |l0.tags|, k);
      SlotSumColumn(a, n, prf, l1.seeds, c, |l1.tags|, k);
    }
  }

  // One level: whatever the secret paths are, every tree keeps the two-party invariant.
  lemma BatchStep(a: Arity, n: nat, prf: (nat, Block) -> Block, l0: Level<Row>, l1: Level<Row>, z0: seq<Row>, z1: seq<Row>,
                  sigma: seq<Row>, pos: seq<nat>, c: seq<nat>)
    requires BatchLevel(a, n, l0) && BatchLevel(a, n, l1) && |l0.tags| == |l1.tags| && |pos| == |c| == n
    requires HoldsSums(a, RowOps(n, prf), z0, l0) && HoldsSums(a, RowOps(n, prf), z1, l1)
    requires BatchOnPath(a, l0, l1, pos) && BatchGood(a, z0, z1, sigma, c)
    requires forall k {:trigger c[k]} :: 0 <= k < |c| ==> c[k] < Width(a)
    ensures BatchOnPath(a, Step(a, RowOps(n, prf), l0, sigma), Step(a, RowOps(n, prf), l1, sigma), Deeper(a, pos, c))
  {
    var n0, n1, next := Step(a, RowOps(n, prf), l0, sigma), Step(a, RowOps(n, prf), l1, sigma), Deeper(a, pos, c);
    forall k | 0 <= k < n
      ensures OnPath(a, Tree(n0, k), Tree(n1, k), next[k])
    {
      hide RowOps, BlockOps, Step, OnPath, GoodSigma, Tree, HoldsSums;
      ColumnSums(a, n, prf, l0, l1, z0, z1, k);
      StepColumn(a, n, prf, l0, sigma, k);
      StepColumn(a, n, prf, l1, sigma, k);
      StepKeepsPath(a, prf, Tree(l0, k), Tree(l1, k), Column(sigma, k), pos[k], c[k]);
    }
  }

  // The corrected seed of tree k in row r of the last level.
  function LeafSeed(a: Arity, lv: Level<Row>, sigma: seq<Row>, r: nat, k: nat): Block
    requires r < |lv.seeds| && Parent(a, r) < |lv.tags| && |sigma| == Width(a)
  {
    Xor(Cell(lv.seeds[r], k), And(Cell(lv.tags[Parent(a, r)], k), Cell(sigma[Slot(a, r)], k)))
  }

  lemma LeafSeedCorrected(a: Arity, n: nat, prf: (nat, Block) -> Block, lv: Level<Row>, sigma: seq<Row>, r: nat, k: nat)
    requires Shaped(a, lv) && r < |lv.seeds| && |sigma| == Width(a)
    ensures Parent(a, r) < |lv.tags|
    ensures Corrected(a, BlockOps(prf), Tree(lv, k), Column(sigma, k))[r] == LeafSeed(a, lv, sigma, r, k)
  {
    ParentBound(a, r, |lv.tags|);
    hide Xor, And;
  }

  // The last correction: equal leaf seeds everywhere but at the active leaf, where the
  // low bits differ.
  lemma BatchLeaf(a: Arity, n: nat, prf: (nat, Block) -> Block, l0: Level<Row>, l1: Level<Row>, z0: seq<Row>, z1: seq<Row>,
                  sigma: seq<Row>, pos: seq<nat>, c: seq<nat>, k: nat, r: nat)
    requires BatchLevel(a, n, l0) && BatchLevel(a, n, l1) && |l0.tags| == |l1.tags| && |pos| == |c| == n
    requires HoldsSums(a, RowOps(n, prf), z0, l0) && HoldsSums(a, RowOps(n, prf), z1, l1)
    requires BatchOnPath(a, l0, l1, pos) && BatchGood(a, z0, z1, sigma, c)
    requires k < n && r < |l0.seeds| && c[k] < Width(a)
    ensures Parent(a, r) < |l0.tags|
    ensures if r == Child(a, pos[k], c[k]) then Lsb(LeafSeed(a, l0, sigma, r, k)) != Lsb(LeafSeed(a, l1, sigma, r, k))
            else LeafSeed(a, l0, sigma, r, k) == LeafSeed(a, l1, sigma, r, k)
  {
    hide RowOps, OnPath, GoodSigma, HoldsSums, Lsb, BlockOps, Corrected, LeafSeed, Column, XorEach, SharedSums;
    LeafSeedCorrected(a, n, prf, l0, sigma, r, k);
    LeafSeedCorrected(a, n, prf, l1, sigma, r, k);
    assert Shaped(a, l0) && Shaped(a, l1);
    ColumnSums(a, n, prf, l0, l1, z0, z1, k);
    CorrectedPair(a, prf, Tree(l0, k), Tree(l1, k), Column(sigma, k), pos[k], c[k], r);
  }
}

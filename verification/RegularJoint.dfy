/**
 The binary protocol as a function of both parties' inputs: the levels of both trees and
 the correction words, without messages, buffers or transfers.  The interactive protocol,
 the offline expansion and the dealer are all compared with it.
 */
module RegularJoint {
  import opened Blocks
  import opened DpfLevels
  import opened DpfPath
  import opened DpfRows
  import opened DpfBuffers
  import opened DpfExpansion
  import opened DpfBatch
  import opened RegularSigma

  // AES with the fixed key, its round function, the addition of 64-bit lanes, and the
  // stream a seed expands to.
  datatype Crypto = Crypto(enc: Block -> Block, roundEnc: (Block, Block) -> Block, add64: (Block, Block) -> Block,
                           prng: Block -> (nat -> Block))

  // The two children of a seed.
  function Prf(crypto: Crypto): (nat, Block) -> Block {
    (c: nat, s: Block) => if c == 0 then crypto.roundEnc(crypto.enc(s), s) else crypto.add64(crypto.enc(s), s)
  }

  // ---------- points ----------

  // Bits lo to hi - 1 of p ^ q.
  function XorBits(p: nat, q: nat, lo: nat, hi: nat): nat
    requires lo <= hi
    decreases hi - lo
  {
    if lo == hi then 0 else (if BitOf(p, lo) != BitOf(q, lo) then 1 else 0) + 2 * XorBits(p, q, lo + 1, hi)
  }

  function AlphaBits(points0: seq<nat>, points1: seq<nat>, i: nat): (alpha: seq<bool>)
    requires |points0| == |points1|
    ensures |alpha| == |points0|
  {
    seq(|points0|, k requires 0 <= k < |points0| => BitOf(points0[k], i) != BitOf(points1[k], i))
  }

  function Positions(points0: seq<nat>, points1: seq<nat>, lo: nat, hi: nat): (pos: seq<nat>)
    requires |points0| == |points1| && lo <= hi
    ensures |pos| == |points0|
  {
    seq(|points0|, k requires 0 <= k < |points0| => XorBits(points0[k], points1[k], lo, hi))
  }

  function Slots(alpha: seq<bool>): (c: seq<nat>)
    ensures |c| == |alpha| && forall k {:trigger c[k]} :: 0 <= k < |c| ==> c[k] < 2
  {
    seq(|alpha|, k requires 0 <= k < |alpha| => SlotOf(alpha[k]))
  }

  lemma PositionsDeepen(points0: seq<nat>, points1: seq<nat>, lo: nat, hi: nat)
    requires |points0| == |points1| && lo < hi
    ensures Deeper(Two, Positions(points0, points1, lo + 1, hi), Slots(AlphaBits(points0, points1, lo)))
         == Positions(points0, points1, lo, hi)
  {
    var x, y := Deeper(Two, Positions(points0, points1, lo + 1, hi), Slots(AlphaBits(points0, points1, lo))),
                Positions(points0, points1, lo, hi);
    forall k | 0 <= k < |points0|
      ensures x[k] == y[k]
    {
    }
  }

  // ---------- correction words ----------

  // The sums of the left and the right children.
  ghost function SumsOf(n: nat, prf: (nat, Block) -> Block, lv: Level<Row>): (z: seq<Row>)
    requires Shaped(Two, lv)
    ensures |z| == 2
  {
    [SlotSum(Two, RowOps(n, prf), lv.seeds, 0, |lv.tags|), SlotSum(Two, RowOps(n, prf), lv.seeds, 1, |lv.tags|)]
  }

  lemma SumsHeld(n: nat, prf: (nat, Block) -> Block, lv: Level<Row>, z: seq<Row>)
    requires Shaped(Two, lv)
    ensures HoldsSums(Two, RowOps(n, prf), z, lv) <==> z == SumsOf(n, prf, lv)
  {
    hide RowOps, SlotSum;
    assert z == SumsOf(n, prf, lv) <==> |z| == 2 && z[0] == SumsOf(n, prf, lv)[0] && z[1] == SumsOf(n, prf, lv)[1];
  }

  function PairOf(z0: seq<Row>, z1: seq<Row>, alpha: bool, k: nat): (Block, Block)
    requires |z0| == |z1| == 2
  {
    SigmaPair(Xor(Cell(z0[0], k), Cell(z1[0], k)), Xor(Cell(z0[1], k), Cell(z1[1], k)), alpha)
  }

  function JointSigma(z0: seq<Row>, z1: seq<Row>, alpha: seq<bool>): (s: seq<Row>)
    requires |z0| == |z1| == 2
    ensures |s| == 2 && AllRows(|alpha|, s)
  {
    [seq(|alpha|, k requires 0 <= k < |alpha| => PairOf(z0, z1, alpha[k], k).0),
     seq(|alpha|, k requires 0 <= k < |alpha| => PairOf(z0, z1, alpha[k], k).1)]
  }

  lemma JointSigmaIsGood(z0: seq<Row>, z1: seq<Row>, alpha: seq<bool>)
    requires |z0| == |z1| == 2
    ensures BatchGood(Two, z0, z1, JointSigma(z0, z1, alpha), Slots(alpha))
  {
    var sigma, c := JointSigma(z0, z1, alpha), Slots(alpha);
    forall k | 0 <= k < |c|
      ensures GoodSigma(Two, XorEach(Column(z0, k), Column(z1, k)), Column(sigma, k), c[k])
    {
      hide Xor, SigmaPair, GoodSigma;
      var zz0, zz1 := Xor(Cell(z0[0], k), Cell(z1[0], k)), Xor(Cell(z0[1], k), Cell(z1[1], k));
      SigmaPairIsGood(zz0, zz1, alpha[k]);
      assert XorEach(Column(z0, k), Column(z1, k)) == [zz0, zz1];
      assert Column(sigma, k) == [SigmaPair(zz0, zz1, alpha[k]).0, SigmaPair(zz0, zz1, alpha[k]).1];
    }
  }

  // ---------- levels ----------

  // The inputs of both parties.
  datatype Inputs = Inputs(n: nat, depth: nat, points0: seq<nat>, points1: seq<nat>, seed0: Block, seed1: Block)

  ghost predicate WellFormed(i: Inputs) {
    |i.points0| == |i.points1| == i.n && i.depth > 0
  }

  datatype Pair = Pair(l0: Level<Row>, l1: Level<Row>)

  ghost predicate Even(n: nat, p: Pair, iter: nat) {
    && BatchLevel(Two, n, p.l0) && BatchLevel(Two, n, p.l1) && iter > 0 && |p.l0.tags| == |p.l1.tags| == Nodes(Two, iter - 1)
  }

  ghost function JointSums(crypto: Crypto, i: Inputs, p: Pair, iter: nat): (s: seq<Row>)
    requires WellFormed(i) && Even(i.n, p, iter) && iter <= i.depth
    ensures |s| == 2 && AllRows(i.n, s)
  {
    JointSigma(SumsOf(i.n, Prf(crypto), p.l0), SumsOf(i.n, Prf(crypto), p.l1), AlphaBits(i.points0, i.points1, i.depth - iter))
  }

  // Both levels number iter.
  ghost function Joint(crypto: Crypto, i: Inputs, iter: nat): (p: Pair)
    requires WellFormed(i) && 1 <= iter <= i.depth
    ensures Even(i.n, p, iter)
  {
    if iter == 1 then
      Pair(RootLevel(Two, i.n, false, crypto.prng(i.seed0), 0), RootLevel(Two, i.n, true, crypto.prng(i.seed1), 0))
    else
      var p := Joint(crypto, i, iter - 1);
      var sigma := JointSums(crypto, i, p, iter - 1);
      StepKeepsBatch(Two, i.n, Prf(crypto), p.l0, sigma);
      StepKeepsBatch(Two, i.n, Prf(crypto), p.l1, sigma);
      Pair(Step(Two, RowOps(i.n, Prf(crypto)), p.l0, sigma), Step(Two, RowOps(i.n, Prf(crypto)), p.l1, sigma))
  }

  // The correction word of level iter.
  ghost function WordAt(crypto: Crypto, i: Inputs, iter: nat): (s: seq<Row>)
    requires WellFormed(i) && 1 <= iter <= i.depth
    ensures |s| == 2 && AllRows(i.n, s)
  {
    JointSums(crypto, i, Joint(crypto, i, iter), iter)
  }

  lemma JointNext(crypto: Crypto, i: Inputs, iter: nat)
    requires WellFormed(i) && 1 <= iter < i.depth
    ensures var p := Joint(crypto, i, iter);
            Joint(crypto, i, iter + 1) == Pair(Step(Two, RowOps(i.n, Prf(crypto)), p.l0, WordAt(crypto, i, iter)),
                                               Step(Two, RowOps(i.n, Prf(crypto)), p.l1, WordAt(crypto, i, iter)))
  {
    hide Step, RowOps, RootLevel, JointSums, Prf;
  }

  lemma JointRoot(crypto: Crypto, i: Inputs)
    requires WellFormed(i)
    ensures BatchOnPath(Two, Joint(crypto, i, 1).l0, Joint(crypto, i, 1).l1, Positions(i.points0, i.points1, i.depth, i.depth))
  {
    hide BatchOnPath, RootLevel;
    RootOnPath(Two, i.n, crypto.prng(i.seed0), 0, crypto.prng(i.seed1), 0);
    assert Positions(i.points0, i.points1, i.depth, i.depth) == seq(i.n, _ => 0);
  }

  // Every tree keeps the two-party invariant on every level.
  lemma {:induction false} JointOnPath(crypto: Crypto, i: Inputs, iter: nat)
    requires WellFormed(i) && 1 <= iter <= i.depth
    ensures BatchOnPath(Two, Joint(crypto, i, iter).l0, Joint(crypto, i, iter).l1,
                        Positions(i.points0, i.points1, i.depth - iter + 1, i.depth))
  {
    hide BatchOnPath, Positions, JointSums, Step, RowOps, Joint, Even;
    if iter == 1 {
      JointRoot(crypto, i);
    } else {
      JointOnPath(crypto, i, iter - 1);
      JointNext(crypto, i, iter - 1);
      JointStep(crypto, i, Joint(crypto, i, iter - 1), iter - 1);
    }
  }

  lemma JointStep(crypto: Crypto, i: Inputs, p: Pair, iter: nat)
    requires WellFormed(i) && Even(i.n, p, iter) && iter < i.depth
    requires BatchOnPath(Two, p.l0, p.l1, Positions(i.points0, i.points1, i.depth - iter + 1, i.depth))
    ensures BatchOnPath(Two, Step(Two, RowOps(i.n, Prf(crypto)), p.l0, JointSums(crypto, i, p, iter)),
                        Step(Two, RowOps(i.n, Prf(crypto)), p.l1, JointSums(crypto, i, p, iter)),
                        Positions(i.points0, i.points1, i.depth - iter, i.depth))
  {
    hide BatchOnPath, Positions, AlphaBits, Slots, JointSigma, SumsOf, Step, RowOps, HoldsSums, BatchGood, Deeper;
    var z0, z1, alpha := SumsOf(i.n, Prf(crypto), p.l0), SumsOf(i.n, Prf(crypto), p.l1), AlphaBits(i.points0, i.points1, i.depth - iter);
    SumsHeld(i.n, Prf(crypto), p.l0, z0);
    SumsHeld(i.n, Prf(crypto), p.l1, z1);
    JointSigmaIsGood(z0, z1, alpha);
    BatchStep(Two, i.n, Prf(crypto), p.l0, p.l1, z0, z1, JointSums(crypto, i, p, iter),
              Positions(i.points0, i.points1, i.depth - iter + 1, i.depth), Slots(alpha));
    PositionsDeepen(i.points0, i.points1, i.depth - iter, i.depth);
  }
}

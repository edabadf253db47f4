/**
 The active path of a run of the binary protocol (RegularDpf.h lines 699 to 773): its seeds
 alone determine the correction words and the leaf values that full-tree expansion reveals,
 and the checks of the dealer hold on it.
 */
module RegularReveal {
  import opened Blocks
  import opened DpfLevels
  import opened DpfPath
  import opened DpfLeaves
  import opened DpfRows
  import opened DpfBuffers
  import opened DpfBatch
  import opened DpfLastLayer
  import opened DpfReconstruct
  import opened RegularSigma
  import opened RegularJoint
  import opened RegularKey
  import opened RegularExpand
  import opened RegularPath

  // The active siblings of both parties and the tags of their parents.
  datatype Path = Path(left0: Block, right0: Block, left1: Block, right1: Block, tag0: Block, tag1: Block)

  // The column of tree k of one level.
  ghost predicate Follows(l0: Level<Block>, l1: Level<Block>, pos: nat, p: Path) {
    && Shaped(Two, l0) && Shaped(Two, l1) && |l0.tags| == |l1.tags| && pos < |l0.tags|
    && p.left0 == l0.seeds[Child(Two, pos, 0)] && p.right0 == l0.seeds[Child(Two, pos, 1)] && p.tag0 == l0.tags[pos]
    && p.left1 == l1.seeds[Child(Two, pos, 0)] && p.right1 == l1.seeds[Child(Two, pos, 1)] && p.tag1 == l1.tags[pos]
  }

  // ---------- one level on the path ----------

  // The corrected siblings of one party.
  function CorrectBoth(left: Block, right: Block, tag: Block, sigma: (Block, Block)): (Block, Block) {
    (Xor(left, And(sigma.0, tag)), Xor(right, And(sigma.1, tag)))
  }

  function Pick2(a: bool, x: (Block, Block)): Block {
    if a then x.1 else x.0
  }

  lemma AndComm(x: Block, y: Block)
    ensures And(x, y) == And(y, x)
  {
    assert And(x, y).bits == And(y, x).bits;
  }

  // The two children of the active node after a step.
  lemma StepOnPath(prf: (nat, Block) -> Block, l: Level<Block>, sigma: seq<Block>, pos: nat, j: nat)
    requires Shaped(Two, l) && |sigma| == 2 && pos < |l.tags| && j < 2
    ensures Child(Two, pos, j) < |l.seeds|
    ensures var x, next, r := Xor(l.seeds[Child(Two, pos, j)], And(l.tags[pos], sigma[j])), Step(Two, BlockOps(prf), l, sigma),
                              Child(Two, pos, j);
            && Corrected(Two, BlockOps(prf), l, sigma)[r] == x && next.tags[r] == TagBit(x)
            && Child(Two, r, 1) < |next.seeds| && next.seeds[Child(Two, r, 0)] == prf(0, x) && next.seeds[Child(Two, r, 1)] == prf(1, x)
  {
    hide Xor, And, TagBit;
    ChildParent(Two, pos, j);
    ChildBound(Two, pos, j, |l.tags|);
    var r, m := Child(Two, pos, j), |l.seeds|;
    ChildParent(Two, r, 0);
    ChildParent(Two, r, 1);
    ChildBound(Two, r, 1, m);
  }

  // The next path: the active node's children.
  function NextPath(prf: (nat, Block) -> Block, x0: Block, x1: Block): Path {
    Path(prf(0, x0), prf(1, x0), prf(0, x1), prf(1, x1), TagBit(x0), TagBit(x1))
  }

  lemma PathAdvances(prf: (nat, Block) -> Block, l0: Level<Block>, l1: Level<Block>, pos: nat, p: Path, sigma: (Block, Block), a: bool)
    requires Follows(l0, l1, pos, p)
    ensures var x0, x1 := CorrectBoth(p.left0, p.right0, p.tag0, sigma), CorrectBoth(p.left1, p.right1, p.tag1, sigma);
            var n0, n1 := Step(Two, BlockOps(prf), l0, [sigma.0, sigma.1]), Step(Two, BlockOps(prf), l1, [sigma.0, sigma.1]);
            Follows(n0, n1, Child(Two, pos, SlotOf(a)), NextPath(prf, Pick2(a, x0), Pick2(a, x1)))
  {
    hide Xor, And, TagBit, Step, BlockOps;
    StepOnPath(prf, l0, [sigma.0, sigma.1], pos, SlotOf(a));
    StepOnPath(prf, l1, [sigma.0, sigma.1], pos, SlotOf(a));
    AndComm(sigma.0, p.tag0);
    AndComm(sigma.1, p.tag0);
    AndComm(sigma.0, p.tag1);
    AndComm(sigma.1, p.tag1);
  }

  // The dealer's checks after the correction.
  lemma ChecksPass(prf: (nat, Block) -> Block, l0: Level<Block>, l1: Level<Block>, pos: nat, p: Path, a: bool)
    requires OnPath(Two, l0, l1, pos) && Follows(l0, l1, pos, p)
    ensures var sigma := SigmaPair(Xor(p.left0, p.left1), Xor(p.right0, p.right1), a);
            var x0, x1 := CorrectBoth(p.left0, p.right0, p.tag0, sigma), CorrectBoth(p.left1, p.right1, p.tag1, sigma);
            && SharedSums(Two, prf, l0, l1) == [Xor(p.left0, p.left1), Xor(p.right0, p.right1)]
            && Pick2(!a, x0) == Pick2(!a, x1) && Lsb(Pick2(a, x0)) != Lsb(Pick2(a, x1))
  {
    hide Xor, And, TagBit, SigmaPair, Lsb;
    var zz0, zz1 := Xor(p.left0, p.left1), Xor(p.right0, p.right1);
    var s := SigmaPair(zz0, zz1, a);
    SumsCancel(Two, BlockOps(prf), l0, l1, pos, 0, |l0.tags|);
    SumsCancel(Two, BlockOps(prf), l0, l1, pos, 1, |l0.tags|);
    assert SharedSums(Two, prf, l0, l1) == [zz0, zz1];
    SigmaPairIsGood(zz0, zz1, a);
    SiblingCorrected(prf, l0, l1, pos, p, s, a, 0);
    SiblingCorrected(prf, l0, l1, pos, p, s, a, 1);
  }

  lemma SiblingCorrected(prf: (nat, Block) -> Block, l0: Level<Block>, l1: Level<Block>, pos: nat, p: Path, s: (Block, Block), a: bool,
                         j: nat)
    requires OnPath(Two, l0, l1, pos) && Follows(l0, l1, pos, p) && j < 2
    requires GoodSigma(Two, SharedSums(Two, prf, l0, l1), [s.0, s.1], SlotOf(a))
    ensures var x0, x1 := CorrectBoth(p.left0, p.right0, p.tag0, s), CorrectBoth(p.left1, p.right1, p.tag1, s);
            var y0, y1 := Pick2(j == 1, x0), Pick2(j == 1, x1);
            if j == SlotOf(a) then Lsb(y0) != Lsb(y1) else y0 == y1
  {
    hide Xor, And, TagBit, Lsb, SharedSums, GoodSigma, BlockOps, Step;
    StepOnPath(prf, l0, [s.0, s.1], pos, j);
    StepOnPath(prf, l1, [s.0, s.1], pos, j);
    CorrectedPair(Two, prf, l0, l1, [s.0, s.1], pos, SlotOf(a), Child(Two, pos, j));
    AndComm(Pick2(j == 1, s), p.tag0);
    AndComm(Pick2(j == 1, s), p.tag1);
  }

  // ---------- the path of tree k ----------

  ghost function ActiveAt(i: Inputs, k: nat, iter: nat): nat
    requires WellFormed(i) && k < i.n && 1 <= iter <= i.depth + 1
  {
    XorBits(i.points0[k], i.points1[k], i.depth - iter + 1, i.depth)
  }

  predicate AlphaAt(i: Inputs, k: nat, iter: nat)
    requires |i.points0| == |i.points1| == i.n && k < i.n && iter <= i.depth
  {
    BitOf(i.points0[k], i.depth - iter) != BitOf(i.points1[k], i.depth - iter)
  }

  ghost predicate TreeFollows(crypto: Crypto, i: Inputs, k: nat, iter: nat, p: Path) {
    && WellFormed(i) && k < i.n && 1 <= iter <= i.depth
    && Follows(Tree(Joint(crypto, i, iter).l0, k), Tree(Joint(crypto, i, iter).l1, k), ActiveAt(i, k, iter), p)
  }

  function PathSigma(p: Path, a: bool): (Block, Block) {
    SigmaPair(Xor(p.left0, p.left1), Xor(p.right0, p.right1), a)
  }

  lemma TreeOnPath(crypto: Crypto, i: Inputs, k: nat, iter: nat)
    requires WellFormed(i) && k < i.n && 1 <= iter <= i.depth
    ensures OnPath(Two, Tree(Joint(crypto, i, iter).l0, k), Tree(Joint(crypto, i, iter).l1, k), ActiveAt(i, k, iter))
  {
    hide OnPath, Joint, Tree;
    JointOnPath(crypto, i, iter);
    assert Positions(i.points0, i.points1, i.depth - iter + 1, i.depth)[k] == ActiveAt(i, k, iter);
  }

  // The correction word of the run is what the dealer computes on the path.
  lemma PathWord(crypto: Crypto, i: Inputs, k: nat, iter: nat, p: Path)
    requires TreeFollows(crypto, i, k, iter, p)
    ensures var s := PathSigma(p, AlphaAt(i, k, iter)); Column(WordAt(crypto, i, iter), k) == [s.0, s.1]
    ensures var alpha := AlphaAt(i, k, iter);
            var s := PathSigma(p, alpha);
            var x0, x1 := CorrectBoth(p.left0, p.right0, p.tag0, s), CorrectBoth(p.left1, p.right1, p.tag1, s);
            Pick2(!alpha, x0) == Pick2(!alpha, x1) && Lsb(Pick2(alpha, x0)) != Lsb(Pick2(alpha, x1))
  {
    hide OnPath, Follows, Joint, SigmaPair, Xor, CorrectBoth, Lsb, SharedSums, HoldsSums, BatchLevel, RowOps, SlotSum, Tree, ActiveAt;
    var q, prf := Joint(crypto, i, iter), Prf(crypto);
    TreeOnPath(crypto, i, k, iter);
    ChecksPass(prf, Tree(q.l0, k), Tree(q.l1, k), ActiveAt(i, k, iter), p, AlphaAt(i, k, iter));
    ShapedBatch(i.n, q, iter);
    var z0, z1 := SumsOf(i.n, prf, q.l0), SumsOf(i.n, prf, q.l1);
    SumsHeld(i.n, prf, q.l0, z0);
    SumsHeld(i.n, prf, q.l1, z1);
    ColumnSums(Two, i.n, prf, q.l0, q.l1, z0, z1, k);
    SigmaColumn(z0, z1, AlphaBits(i.points0, i.points1, i.depth - iter), k);
  }

  lemma ShapedBatch(n: nat, p: Pair, iter: nat)
    requires Even(n, p, iter)
    ensures Shaped(Two, p.l0) && Shaped(Two, p.l1)
  {
  }

  lemma SigmaColumn(z0: seq<Row>, z1: seq<Row>, alpha: seq<bool>, k: nat)
    requires |z0| == |z1| == 2 && k < |alpha|
    ensures var zz := XorEach(Column(z0, k), Column(z1, k)); var s := SigmaPair(zz[0], zz[1], alpha[k]);
            Column(JointSigma(z0, z1, alpha), k) == [s.0, s.1]
  {
    hide SigmaPair, Xor;
    assert JointSigma(z0, z1, alpha)[0][k] == PairOf(z0, z1, alpha[k], k).0;
    assert JointSigma(z0, z1, alpha)[1][k] == PairOf(z0, z1, alpha[k], k).1;
  }

  lemma TreeAdvances(crypto: Crypto, i: Inputs, k: nat, iter: nat, p: Path)
    requires TreeFollows(crypto, i, k, iter, p) && iter < i.depth
    ensures var a, s := AlphaAt(i, k, iter), PathSigma(p, AlphaAt(i, k, iter));
            var x0, x1 := CorrectBoth(p.left0, p.right0, p.tag0, s), CorrectBoth(p.left1, p.right1, p.tag1, s);
            TreeFollows(crypto, i, k, iter + 1, NextPath(Prf(crypto), Pick2(a, x0), Pick2(a, x1)))
  {
    hide Follows, Joint, SigmaPair, Xor, CorrectBoth, BatchLevel, RowOps, BlockOps, Step, Tree, NextPath, WordAt, Column, PathSigma;
    var q, prf, w := Joint(crypto, i, iter), Prf(crypto), WordAt(crypto, i, iter);
    PathWord(crypto, i, k, iter, p);
    JointNext(crypto, i, iter);
    StepColumn(Two, i.n, prf, q.l0, w, k);
    StepColumn(Two, i.n, prf, q.l1, w, k);
    PathAdvances(prf, Tree(q.l0, k), Tree(q.l1, k), ActiveAt(i, k, iter), p, PathSigma(p, AlphaAt(i, k, iter)), AlphaAt(i, k, iter));
  }

  lemma TreeStarts(crypto: Crypto, i: Inputs, k: nat)
    requires WellFormed(i) && k < i.n
    ensures var r0, r1 := crypto.prng(i.seed0), crypto.prng(i.seed1);
            TreeFollows(crypto, i, k, 1, Path(r0(2 * k), r0(2 * k + 1), r1(2 * k), r1(2 * k + 1), Saturate(false), Saturate(true)))
  {
    hide Saturate;
    var p := Joint(crypto, i, 1);
    assert Tree(p.l0, k).seeds[0] == crypto.prng(i.seed0)(2 * k) && Tree(p.l0, k).seeds[1] == crypto.prng(i.seed0)(2 * k + 1);
    assert Tree(p.l1, k).seeds[0] == crypto.prng(i.seed1)(2 * k) && Tree(p.l1, k).seeds[1] == crypto.prng(i.seed1)(2 * k + 1);
    assert Tree(p.l0, k).tags[0] == Saturate(false) && Tree(p.l1, k).tags[0] == Saturate(true);
  }

  lemma WordColumn(crypto: Crypto, i: Inputs, k: nat, iter: nat)
    requires WellFormed(i) && k < i.n && 1 <= iter <= i.depth
    ensures Column(WordAt(crypto, i, iter), k)[0] == FirstWord(crypto, i, iter)[k]
    ensures Lsb(Column(WordAt(crypto, i, iter), k)[1]) == LowBits(crypto, i, iter)[k]
  {
    hide WordAt, Lsb;
  }

  // x0 and x1 are the two parties' corrected seeds of the active leaf of tree k.
  ghost predicate ActiveLeaf(crypto: Crypto, i: Inputs, k: nat, x0: Block, x1: Block) {
    && WellFormed(i) && k < i.n
    && ActiveAt(i, k, i.depth + 1) < |Joint(crypto, i, i.depth).l0.seeds| == |Joint(crypto, i, i.depth).l1.seeds|
    && var ops, p, word, at := BlockOps(Prf(crypto)), Joint(crypto, i, i.depth), Column(WordAt(crypto, i, i.depth), k),
                              ActiveAt(i, k, i.depth + 1);
       x0 == Corrected(Two, ops, Tree(p.l0, k), word)[at] && x1 == Corrected(Two, ops, Tree(p.l1, k), word)[at]
  }

  lemma LeafOnPath(prf: (nat, Block) -> Block, l: Level<Block>, pos: nat, left: Block, right: Block, tag: Block, s: (Block, Block), a: bool)
    requires Shaped(Two, l) && pos < |l.tags| && left == l.seeds[Child(Two, pos, 0)] && right == l.seeds[Child(Two, pos, 1)]
    requires tag == l.tags[pos]
    ensures Child(Two, pos, SlotOf(a)) < |l.seeds|
    ensures Pick2(a, CorrectBoth(left, right, tag, s)) == Corrected(Two, BlockOps(prf), l, [s.0, s.1])[Child(Two, pos, SlotOf(a))]
  {
    hide Xor, And, Step, Corrected;
    StepOnPath(prf, l, [s.0, s.1], pos, SlotOf(a));
    AndComm(Pick2(a, s), tag);
  }

  lemma ActiveDeepens(i: Inputs, k: nat)
    requires WellFormed(i) && k < i.n
    ensures ActiveAt(i, k, i.depth + 1) == Child(Two, ActiveAt(i, k, i.depth), SlotOf(AlphaAt(i, k, i.depth)))
  {
    hide BitOf;
  }

  lemma LeafReached(crypto: Crypto, i: Inputs, k: nat, p: Path, x0: Block, x1: Block)
    requires TreeFollows(crypto, i, k, i.depth, p)
    requires var s := PathSigma(p, AlphaAt(i, k, i.depth));
             x0 == Pick2(AlphaAt(i, k, i.depth), CorrectBoth(p.left0, p.right0, p.tag0, s))
             && x1 == Pick2(AlphaAt(i, k, i.depth), CorrectBoth(p.left1, p.right1, p.tag1, s))
    ensures ActiveLeaf(crypto, i, k, x0, x1)
  {
    hide Joint, PathSigma, CorrectBoth, WordAt, Corrected, BlockOps, Lsb, Pick2, ActiveAt, BatchLevel, Column;
    ActiveDeepens(i, k);
    var q, prf, a, s := Joint(crypto, i, i.depth), Prf(crypto), AlphaAt(i, k, i.depth), PathSigma(p, AlphaAt(i, k, i.depth));
    PathWord(crypto, i, k, i.depth, p);
    LeafOnPath(prf, Tree(q.l0, k), ActiveAt(i, k, i.depth), p.left0, p.right0, p.tag0, s, a);
    LeafOnPath(prf, Tree(q.l1, k), ActiveAt(i, k, i.depth), p.left1, p.right1, p.tag1, s, a);
  }

  // ---------- the leaf value ----------

  lemma LeafEntry(crypto: Crypto, n: nat, lv: Level<Row>, w: seq<Row>, rows: nat, r: nat, k: nat)
    requires Shaped(Two, lv) && |w| == 2 && r < rows <= |lv.seeds| && k < n
    ensures var x := Corrected(Two, BlockOps(Prf(crypto)), Tree(lv, k), Column(w, k))[r];
            LeafTable(crypto, n, lv, w, rows)[r][k] == crypto.roundEnc(x, x)
  {
    hide Xor, And, Corrected, BlockOps, Tree, Column;
    LeafSeedCorrected(Two, n, Prf(crypto), lv, w, r, k);
    assert SeedRowAt(Two, n, lv, w, r)[k] == LeafSeed(Two, lv, w, r, k);
  }

  // The revealed value of the dealer is that of the run, for points among the rows.
  lemma DealtGamma(crypto: Crypto, i: Inputs, rows: nat, values0: seq<Block>, values1: seq<Block>, k: nat, x0: Block, x1: Block,
                   value: Block)
    requires ActiveLeaf(crypto, i, k, x0, x1) && ActiveAt(i, k, i.depth + 1) < rows <= Nodes(Two, i.depth)
    requires |values0| == |values1| == i.n && value == Xor(values0[k], values1[k])
    ensures Xor(Xor(crypto.roundEnc(x0, x0), crypto.roundEnc(x1, x1)), value) == JointGamma(crypto, i, rows, values0, values1)[k]
  {
    hide Joint, WordAt, Corrected, BlockOps, Xor, XorLike, RowSums, LeafTable, TagTable, BatchLevel, Tree, Column;
    var target := ActiveAt(i, k, i.depth + 1);
    var q, w, leaf0, leaf1 := Joint(crypto, i, i.depth), WordAt(crypto, i, i.depth), LeavesOf(crypto, i, false, rows),
                              LeavesOf(crypto, i, true, rows);
    ShapedBatch(i.n, q, i.depth);
    LeafEntry(crypto, i.n, q.l0, w, rows, target, k);
    LeafEntry(crypto, i.n, q.l1, w, rows, target, k);
    OffTarget(crypto, i, rows, k);
    BlockCtxIsXorLike();
    SumsPair(BlockCtx(), i.n, leaf0, leaf1, rows, k, target);
    XorComm(value, Xor(leaf0[target][k], leaf1[target][k]));
  }

  // Off the active leaf both parties hold the same leaves.
  lemma OffTarget(crypto: Crypto, i: Inputs, rows: nat, k: nat)
    requires WellFormed(i) && k < i.n && rows <= Nodes(Two, i.depth)
    ensures forall r {:trigger LeavesOf(crypto, i, false, rows)[r]} :: 0 <= r < rows && r != ActiveAt(i, k, i.depth + 1) ==>
      LeavesOf(crypto, i, false, rows)[r][k] == LeavesOf(crypto, i, true, rows)[r][k]
  {
    hide LeavesOf, TagsOfLeaves, ShareTags, Xor;
    RunShares(crypto, i, rows);
    var leaf0, leaf1 := LeavesOf(crypto, i, false, rows), LeavesOf(crypto, i, true, rows);
    assert Positions(i.points0, i.points1, 0, i.depth)[k] == ActiveAt(i, k, i.depth + 1);
    forall r {:trigger leaf0[r]} | 0 <= r < rows && r != ActiveAt(i, k, i.depth + 1)
      ensures leaf0[r][k] == leaf1[r][k]
    {
      assert BlockCtx().plus(leaf0[r][k], leaf1[r][k]) == ZERO;
      XorZeroMeansEqual(leaf0[r][k], leaf1[r][k]);
    }
  }

  // ---------- the words and leaf values of a key ----------

  lemma SigmaSpelt(left: Block, right: Block, alpha: bool)
    ensures SigmaPair(left, right, alpha).0
         == (if alpha then Block(left.bits[0 := left.bits[0]]) else Block(right.bits[0 := !left.bits[0]]))
    ensures Lsb(SigmaPair(left, right, alpha).1) == (right.bits[0] != alpha)
  {
  }

  // The seeds of the run are the seeds of its keys.
  lemma RunOnPath(crypto: Crypto, i: Inputs, party: bool, leafVals: seq<Block>, iter: nat, r: nat, k: nat)
    requires WellFormed(i) && (|leafVals| == 0 || |leafVals| == i.n) && 1 <= iter <= i.depth && r < Nodes(Two, iter) && k < i.n
    ensures var lv, key := if party then Joint(crypto, i, iter).l1 else Joint(crypto, i, iter).l0, JointKey(crypto, i, party, leafVals);
            && r < |lv.seeds| && Tree(lv, k).seeds[r] == RawSeed(crypto, party, i.n, i.depth, key, k, iter, r)
            && Corrected(Two, BlockOps(Prf(crypto)), Tree(lv, k), Column(WordAt(crypto, i, iter), k))[r]
               == NodeSeed(crypto, party, i.n, i.depth, key, k, iter, r)
  {
    hide Joint, JointKey, WordAt, RawSeed, NodeSeed, KeySigma, BlockOps, Corrected, SeedRowAt;
    var lv, w := if party then Joint(crypto, i, iter).l1 else Joint(crypto, i, iter).l0, WordAt(crypto, i, iter);
    JointKeyLevel(crypto, i, party, leafVals, iter);
    JointKeySigma(crypto, i, party, leafVals, iter);
    LevelOnPath(crypto, party, i.n, i.depth, JointKey(crypto, i, party, leafVals), iter, r, k);
    SeedOfTree(crypto, i.n, lv, w, r, k);
  }

  lemma SeedOfTree(crypto: Crypto, n: nat, lv: Level<Row>, w: seq<Row>, r: nat, k: nat)
    requires Shaped(Two, lv) && |w| == 2 && r < |lv.seeds| && k < n
    ensures Corrected(Two, BlockOps(Prf(crypto)), Tree(lv, k), Column(w, k))[r] == SeedRowAt(Two, n, lv, w, r)[k]
  {
    hide Xor, And, Corrected, BlockOps, Tree, Column;
    LeafSeedCorrected(Two, n, Prf(crypto), lv, w, r, k);
  }

  lemma ActiveNodeFits(i: Inputs, k: nat, iter: nat)
    requires WellFormed(i) && k < i.n && 1 <= iter <= i.depth + 1
    ensures ActiveAt(i, k, iter) < Nodes(Two, iter - 1)
    ensures iter <= i.depth ==> 2 * ActiveAt(i, k, iter) + 1 < Nodes(Two, iter)
  {
    hide BitOf;
    XorBitsFit(i.points0[k], i.points1[k], i.depth - iter + 1, i.depth);
  }

  lemma {:induction false} XorBitsFit(p: nat, q: nat, lo: nat, hi: nat)
    requires lo <= hi
    ensures XorBits(p, q, lo, hi) < Nodes(Two, hi - lo)
    decreases hi - lo
  {
    hide BitOf;
    if lo < hi {
      XorBitsFit(p, q, lo + 1, hi);
    }
  }

  // The node on the path has the bits in which the two shares of the point differ.
  lemma {:induction false} XorBitsAt(p: nat, q: nat, lo: nat, hi: nat, b: nat)
    requires lo <= hi && b < hi - lo
    ensures XorBits(p, q, lo, hi) < Nodes(Two, hi - lo) && BitOf(XorBits(p, q, lo, hi), b) == (BitOf(p, lo + b) != BitOf(q, lo + b))
    decreases hi - lo
  {
    XorBitsFit(p, q, lo, hi);
    var low, rest := if BitOf(p, lo) != BitOf(q, lo) then 1 else 0, XorBits(p, q, lo + 1, hi);
    assert (low + 2 * rest) % 2 == low && (low + 2 * rest) / 2 == rest;
    if b > 0 {
      XorBitsAt(p, q, lo + 1, hi, b - 1);
    }
  }

  // The word of a run from the seeds under the active node.
  lemma WordFromSeeds(crypto: Crypto, i: Inputs, k: nat, iter: nat, path: Path)
    requires TreeFollows(crypto, i, k, iter, path)
    ensures FirstWord(crypto, i, iter)[k] == PathSigma(path, AlphaAt(i, k, iter)).0
    ensures LowBits(crypto, i, iter)[k] == Lsb(PathSigma(path, AlphaAt(i, k, iter)).1)
  {
    hide Joint, WordAt, ActiveAt, AlphaAt, PathSigma, CorrectBoth, Lsb, FirstWord, LowBits, Follows, Tree;
    PathWord(crypto, i, k, iter, path);
    WordColumn(crypto, i, k, iter);
  }

  // The seeds under the active node.
  lemma PathSeeds(crypto: Crypto, i: Inputs, k: nat, iter: nat) returns (path: Path)
    requires WellFormed(i) && k < i.n && 1 <= iter <= i.depth
    ensures TreeFollows(crypto, i, k, iter, path)
  {
    hide Joint, ActiveAt, Tree;
    var pos, p := ActiveAt(i, k, iter), Joint(crypto, i, iter);
    TreeOnPath(crypto, i, k, iter);
    var t0, t1 := Tree(p.l0, k), Tree(p.l1, k);
    path := Path(t0.seeds[2 * pos], t0.seeds[2 * pos + 1], t1.seeds[2 * pos], t1.seeds[2 * pos + 1], t0.tags[pos], t1.tags[pos]);
  }

  lemma WordsOfKeys(crypto: Crypto, i: Inputs, leafVals: seq<Block>, iter: nat)
    requires WellFormed(i) && (|leafVals| == 0 || |leafVals| == i.n) && 1 <= iter <= i.depth
    ensures forall party {:trigger JointKey(crypto, i, party, leafVals)} ::
      && JointKey(crypto, i, party, leafVals).correctionWords[iter - 1] == FirstWord(crypto, i, iter)
      && JointKey(crypto, i, party, leafVals).correctionBits[iter - 1] == LowBits(crypto, i, iter)
  {
    hide FirstWord, LowBits;
    assert JointWords(crypto, i)[iter - 1] == FirstWord(crypto, i, iter) && JointBits(crypto, i)[iter - 1] == LowBits(crypto, i, iter);
  }

  lemma PathIsRaw(crypto: Crypto, i: Inputs, leafVals: seq<Block>, k: nat, iter: nat, path: Path)
    requires TreeFollows(crypto, i, k, iter, path) && (|leafVals| == 0 || |leafVals| == i.n)
    ensures var pos, key0, key1 := ActiveAt(i, k, iter), JointKey(crypto, i, false, leafVals), JointKey(crypto, i, true, leafVals);
            && path.left0 == RawSeed(crypto, false, i.n, i.depth, key0, k, iter, 2 * pos)
            && path.right0 == RawSeed(crypto, false, i.n, i.depth, key0, k, iter, 2 * pos + 1)
            && path.left1 == RawSeed(crypto, true, i.n, i.depth, key1, k, iter, 2 * pos)
            && path.right1 == RawSeed(crypto, true, i.n, i.depth, key1, k, iter, 2 * pos + 1)
  {
    hide Joint, WordAt, RawSeed, NodeSeed, ActiveAt, Corrected, Tree, JointKey, BlockOps, Column, Even;
    var pos := ActiveAt(i, k, iter);
    ActiveNodeFits(i, k, iter);
    RunOnPath(crypto, i, false, leafVals, iter, 2 * pos, k);
    RunOnPath(crypto, i, false, leafVals, iter, 2 * pos + 1, k);
    RunOnPath(crypto, i, true, leafVals, iter, 2 * pos, k);
    RunOnPath(crypto, i, true, leafVals, iter, 2 * pos + 1, k);
  }

  // The correction words of every run.
  lemma WordRevealed(crypto: Crypto, i: Inputs, leafVals: seq<Block>, k: nat, iter: nat)
    requires WellFormed(i) && (|leafVals| == 0 || |leafVals| == i.n) && k < i.n && 1 <= iter <= i.depth
    ensures WordReveals(crypto, i.n, i.depth, JointKey(crypto, i, false, leafVals), JointKey(crypto, i, true, leafVals), i.points0[k],
                        i.points1[k], k, iter - 1)
  {
    hide TreeFollows, RawSeed, XorBits, BitOf, SigmaPair, Xor, Lsb, FirstWord, LowBits, JointKey, KeyShape;
    var path := PathSeeds(crypto, i, k, iter);
    PathIsRaw(crypto, i, leafVals, k, iter, path);
    WordFromSeeds(crypto, i, k, iter, path);
    SigmaSpelt(Xor(path.left0, path.left1), Xor(path.right0, path.right1), AlphaAt(i, k, iter));
    WordsOfKeys(crypto, i, leafVals, iter);
  }

  lemma ActiveLeafSeeds(crypto: Crypto, i: Inputs, leafVals: seq<Block>, k: nat, x0: Block, x1: Block)
    requires ActiveLeaf(crypto, i, k, x0, x1) && (|leafVals| == 0 || |leafVals| == i.n)
    ensures var target := ActiveAt(i, k, i.depth + 1);
            && x0 == NodeSeed(crypto, false, i.n, i.depth, JointKey(crypto, i, false, leafVals), k, i.depth, target)
            && x1 == NodeSeed(crypto, true, i.n, i.depth, JointKey(crypto, i, true, leafVals), k, i.depth, target)
  {
    hide Joint, WordAt, NodeSeed, ActiveAt, Corrected, Tree, JointKey, BlockOps, Column;
    ActiveNodeFits(i, k, i.depth + 1);
    RunOnPath(crypto, i, false, leafVals, i.depth, ActiveAt(i, k, i.depth + 1), k);
    RunOnPath(crypto, i, true, leafVals, i.depth, ActiveAt(i, k, i.depth + 1), k);
  }

  lemma ActiveLeafExists(crypto: Crypto, i: Inputs, k: nat) returns (x0: Block, x1: Block)
    requires WellFormed(i) && k < i.n
    ensures ActiveLeaf(crypto, i, k, x0, x1)
  {
    hide Joint, WordAt, ActiveAt, Corrected, BlockOps;
    ActiveNodeFits(i, k, i.depth + 1);
    var ops, p, word, at := BlockOps(Prf(crypto)), Joint(crypto, i, i.depth), Column(WordAt(crypto, i, i.depth), k),
                            ActiveAt(i, k, i.depth + 1);
    x0, x1 := Corrected(Two, ops, Tree(p.l0, k), word)[at], Corrected(Two, ops, Tree(p.l1, k), word)[at];
  }

  // The leaf value of tree k as the path gives it, whatever the point is.
  ghost function PathGamma(crypto: Crypto, i: Inputs, k: nat, value: Block): Block
    requires WellFormed(i) && k < i.n
  {
    var target, key0, key1 := ActiveAt(i, k, i.depth + 1), JointKey(crypto, i, false, []), JointKey(crypto, i, true, []);
    var x0, x1 := NodeSeed(crypto, false, i.n, i.depth, key0, k, i.depth, target),
                  NodeSeed(crypto, true, i.n, i.depth, key1, k, i.depth, target);
    Xor(value, Xor(crypto.roundEnc(x0, x0), crypto.roundEnc(x1, x1)))
  }

  lemma PathGammaReveals(crypto: Crypto, i: Inputs, leafVals: seq<Block>, k: nat, value: Block)
    requires WellFormed(i) && k < i.n == |leafVals| && leafVals[k] == PathGamma(crypto, i, k, value)
    ensures LeafReveals(crypto, i.n, i.depth, JointKey(crypto, i, false, leafVals), JointKey(crypto, i, true, leafVals), i.points0[k],
                        i.points1[k], k, value)
  {
    hide ActiveLeaf, NodeSeed, XorBits, Xor, JointWords, JointBits;
    var x0, x1 := ActiveLeafExists(crypto, i, k);
    ActiveLeafSeeds(crypto, i, leafVals, k, x0, x1);
    ActiveLeafSeeds(crypto, i, [], k, x0, x1);
  }

  // The leaf values of every run, for active leaves among the rows that are summed up.
  lemma LeafRevealed(crypto: Crypto, i: Inputs, domain: nat, values0: seq<Block>, values1: seq<Block>, k: nat)
    requires WellFormed(i) && domain <= Nodes(Two, i.depth) && |values0| == |values1| == i.n && k < i.n
    requires ActiveAt(i, k, i.depth + 1) < RoundUp2(domain)
    ensures var gamma := GammaOf(crypto, i, domain, values0, values1);
            LeafReveals(crypto, i.n, i.depth, JointKey(crypto, i, false, gamma), JointKey(crypto, i, true, gamma), i.points0[k],
                        i.points1[k], k, Xor(values0[k], values1[k]))
  {
    hide ActiveLeaf, NodeSeed, XorBits, Xor, JointGamma, RoundUp2, JointWords, JointBits;
    RowsFit(domain, i.depth);
    var x0, x1 := ActiveLeafExists(crypto, i, k);
    ActiveLeafSeeds(crypto, i, GammaOf(crypto, i, domain, values0, values1), k, x0, x1);
    DealtGamma(crypto, i, RoundUp2(domain), values0, values1, k, x0, x1, Xor(values0[k], values1[k]));
    XorComm(Xor(crypto.roundEnc(x0, x0), crypto.roundEnc(x1, x1)), Xor(values0[k], values1[k]));
  }
}

/**
 What a party of the ternary protocol computes at one node of one tree, written out along
 the path from the root (TernaryDpf.h lines 161 to 292, 295 to 347 and 420 to 557), for the
 correction words that the two parties reveal.
 */
module TernaryPath {
  import opened Blocks
  import opened Trits
  import opened DpfLevels
  import opened DpfPath
  import opened DpfRows
  import opened DpfBuffers
  import opened DpfExpansion
  import opened DpfBatch
  import opened DpfLeaves
  import opened DpfLastLayer
  import opened DpfReconstruct
  import opened TernaryDpf
  import opened TernaryProtocol

  // The correction words of the first levels: three rows of n blocks for each.
  ghost predicate WordsFit(n: nat, words: seq<seq<Row>>) {
    forall t {:trigger words[t]} :: 0 <= t < |words| ==> Rows3(n, words[t])
  }

  // Node r of level iter of tree k before its correction: three words of the stream for each
  // tree at the top, and below it the hash of the parent's corrected seed for the child.
  ghost function RawSeed(crypto: Crypto, party: bool, n: nat, words: seq<seq<Row>>, rand: nat -> Block, k: nat, iter: nat, r: nat): Block
    requires WordsFit(n, words) && k < n && 1 <= iter <= |words| + 1
    decreases iter, 0
  {
    if iter == 1 then rand(3 * k + r) else crypto.aes(r % 3, NodeSeed(crypto, party, n, words, rand, k, iter - 1, r / 3))
  }

  // ... and after it: the word of the level is added if the parent's low bit is set.
  ghost function NodeSeed(crypto: Crypto, party: bool, n: nat, words: seq<seq<Row>>, rand: nat -> Block, k: nat, iter: nat, r: nat): Block
    requires WordsFit(n, words) && k < n && 1 <= iter <= |words|
    decreases iter, 1
  {
    assert Rows3(n, words[iter - 1]) && |words[iter - 1][r % 3]| == n;
    var raw := RawSeed(crypto, party, n, words, rand, k, iter, r);
    var tag := if iter == 1 then party else NodeSeed(crypto, party, n, words, rand, k, iter - 1, r / 3).bits[0];
    if tag then Xor(raw, words[iter - 1][r % 3][k]) else raw
  }

  // The correction word of level t + 1 of tree k, whose point is shared as p and q: the sums of
  // both parties' children of the active node, shifted at the active child by the two blocks
  // the parties have drawn, whose low bits are set to the party's index.
  ghost predicate WordReveals(crypto: Crypto, n: nat, depth: nat, words: seq<seq<Row>>, rand0: nat -> Block, rand1: nat -> Block,
                              p: F3x32, q: F3x32, k: nat, t: nat)
    requires WordsFit(n, words) && k < n && t < |words| <= depth <= 32
  {
    var pos, c := Value(Sum(p, q), depth - t, depth), (p[depth - t - 1] + q[depth - t - 1]) % 3;
    var x, y := rand0(3 * n + t * n + k), rand1(3 * n + t * n + k);
    var shift := Xor(Block(x.bits[0 := false]), Block(y.bits[0 := true]));
    |words[t]| == 3 && forall j {:trigger words[t][j]} :: 0 <= j < 3 ==>
      && k < |words[t][j]|
      && var sum := Xor(RawSeed(crypto, false, n, words, rand0, k, t + 1, 3 * pos + j),
                        RawSeed(crypto, true, n, words, rand1, k, t + 1, 3 * pos + j));
         words[t][j][k] == if j == c then Xor(sum, shift) else sum
  }

  // ---------- the levels of a party ----------

  ghost function LevelAt(crypto: Crypto, party: bool, n: nat, words: seq<seq<Row>>, rand: nat -> Block, iter: nat): (lv: Level<Row>)
    requires WordsFit(n, words) && 1 <= iter <= |words| + 1
    ensures BatchLevel(Three, n, lv) && |lv.tags| == Nodes(Three, iter - 1)
  {
    if iter == 1 then RootLevel(Three, n, party, rand, 0)
    else
      var lv, w := LevelAt(crypto, party, n, words, rand, iter - 1), words[iter - 2];
      StepKeepsBatch(Three, n, crypto.aes, lv, w);
      Step(Three, RowOps(n, crypto.aes), lv, w)
  }

  // A further word changes nothing above it.
  lemma {:induction false} LevelKept(crypto: Crypto, party: bool, n: nat, words: seq<seq<Row>>, w: seq<Row>, rand: nat -> Block, iter: nat)
    requires WordsFit(n, words) && Rows3(n, w) && 1 <= iter <= |words| + 1
    ensures WordsFit(n, words + [w]) && LevelAt(crypto, party, n, words + [w], rand, iter) == LevelAt(crypto, party, n, words, rand, iter)
  {
    hide Step, RowOps, RootLevel, Rows3;
    if iter > 1 {
      LevelKept(crypto, party, n, words, w, rand, iter - 1);
    }
  }

  lemma {:induction false} SeedKept(crypto: Crypto, party: bool, n: nat, words: seq<seq<Row>>, w: seq<Row>, rand: nat -> Block, k: nat,
                                    iter: nat, r: nat)
    requires WordsFit(n, words) && Rows3(n, w) && k < n && 1 <= iter <= |words| + 1
    ensures WordsFit(n, words + [w])
    ensures RawSeed(crypto, party, n, words + [w], rand, k, iter, r) == RawSeed(crypto, party, n, words, rand, k, iter, r)
    ensures iter <= |words| ==>
      NodeSeed(crypto, party, n, words + [w], rand, k, iter, r) == NodeSeed(crypto, party, n, words, rand, k, iter, r)
  {
    hide Xor;
    if iter > 1 {
      SeedKept(crypto, party, n, words, w, rand, k, iter - 1, r / 3);
    }
  }

  lemma RowsOfStep(crypto: Crypto, n: nat, lv: Level<Row>, sigma: seq<Row>, r: nat, k: nat)
    requires BatchLevel(Three, n, lv) && |sigma| == 3 && r / 3 < |lv.seeds| && k < n
    ensures var next, x := Step(Three, RowOps(n, crypto.aes), lv, sigma), SeedRowAt(Three, n, lv, sigma, r / 3)[k];
            && r < |next.seeds| && |next.seeds[r]| == |next.tags[r / 3]| == n
            && next.seeds[r][k] == crypto.aes(r % 3, x) && next.tags[r / 3][k] == Saturate(Lsb(x))
  {
    hide RowCorrect, Saturate, Lsb;
    ParentBound(Three, r / 3, |lv.tags|);
    var next, x := Step(Three, RowOps(n, crypto.aes), lv, sigma), SeedRowAt(Three, n, lv, sigma, r / 3);
    var rows := Corrected(Three, RowOps(n, crypto.aes), lv, sigma);
    assert rows[r / 3] == x;
    assert next.seeds[r] == RowChild(n, crypto.aes, Slot(Three, r), rows[Parent(Three, r)]);
    assert next.tags[r / 3] == RowTag(n, x);
  }

  lemma CorrectedEntry(n: nat, lv: Level<Row>, sigma: seq<Row>, r: nat, k: nat, tag: bool)
    requires BatchLevel(Three, n, lv) && Rows3(n, sigma) && r < |lv.seeds| && k < n && lv.tags[r / 3][k] == Saturate(tag)
    ensures |sigma[r % 3]| == n
    ensures SeedRowAt(Three, n, lv, sigma, r)[k] == if tag then Xor(lv.seeds[r][k], sigma[r % 3][k]) else lv.seeds[r][k]
  {
    hide Saturate, Xor, And;
    AndSaturate(sigma[r % 3][k], tag);
    XorZero(lv.seeds[r][k]);
  }

  // The levels hold exactly these seeds.
  lemma {:induction false} LevelOnPath(crypto: Crypto, party: bool, n: nat, words: seq<seq<Row>>, rand: nat -> Block, iter: nat, r: nat,
                                       k: nat)
    requires WordsFit(n, words) && 1 <= iter <= |words| + 1 && r < Nodes(Three, iter) && k < n
    ensures var lv := LevelAt(crypto, party, n, words, rand, iter);
            && r < |lv.seeds| && |lv.seeds[r]| == n && lv.seeds[r][k] == RawSeed(crypto, party, n, words, rand, k, iter, r)
            && (iter <= |words| ==>
                  SeedRowAt(Three, n, lv, words[iter - 1], r)[k] == NodeSeed(crypto, party, n, words, rand, k, iter, r))
  {
    hide SeedRowAt, Saturate, Xor, Step, RowOps;
    var lv := LevelAt(crypto, party, n, words, rand, iter);
    if iter > 1 {
      LevelOnPath(crypto, party, n, words, rand, iter - 1, r / 3, k);
      RowsOfStep(crypto, n, LevelAt(crypto, party, n, words, rand, iter - 1), words[iter - 2], r, k);
    }
    if iter <= |words| {
      CorrectedEntry(n, lv, words[iter - 1], r, k,
                     if iter == 1 then party else Lsb(NodeSeed(crypto, party, n, words, rand, k, iter - 1, r / 3)));
    }
  }

  // ---------- what the parties reveal ----------

  ghost predicate AllReveal(crypto: Crypto, n: nat, depth: nat, words: seq<seq<Row>>, rand0: nat -> Block, rand1: nat -> Block,
                            points0: seq<F3x32>, points1: seq<F3x32>) {
    && WordsFit(n, words) && |words| <= depth <= 32 && |points0| == |points1| == n
    && forall t, k :: 0 <= t < |words| && 0 <= k < n ==>
         WordReveals(crypto, n, depth, words, rand0, rand1, points0[k], points1[k], k, t)
  }

  // Both sums of a level differ by the children of the active node only.
  lemma SumsAtNode(n: nat, prf: (nat, Block) -> Block, l0: Level<Row>, l1: Level<Row>, z0: seq<Row>, z1: seq<Row>, pos: nat, k: nat,
                   j: nat)
    requires BatchLevel(Three, n, l0) && BatchLevel(Three, n, l1) && |l0.tags| == |l1.tags| && k < n && j < 3
    requires HoldsSums(Three, RowOps(n, prf), z0, l0) && HoldsSums(Three, RowOps(n, prf), z1, l1)
    requires OnPath(Three, Tree(l0, k), Tree(l1, k), pos) && Rows3(n, z0) && Rows3(n, z1)
    ensures 3 * pos + j < |l0.seeds| && |l0.seeds[3 * pos + j]| == |l1.seeds[3 * pos + j]| == |z0[j]| == |z1[j]| == n
    ensures Xor(z0[j][k], z1[j][k]) == Xor(l0.seeds[3 * pos + j][k], l1.seeds[3 * pos + j][k])
  {
    var t0, t1 := Tree(l0, k), Tree(l1, k);
    ColumnSums(Three, n, prf, l0, l1, z0, z1, k);
    SumsCancel(Three, BlockOps(prf), t0, t1, pos, j, |t0.tags|);
    hide Xor, SlotSum, HoldsSums, OnPath;
    assert SharedSums(Three, prf, t0, t1)[j] == Xor(t0.seeds[3 * pos + j], t1.seeds[3 * pos + j]);
    assert XorEach(Column(z0, k), Column(z1, k))[j] == Xor(z0[j][k], z1[j][k]);
  }

  lemma NodesKept(crypto: Crypto, party: bool, n: nat, words: seq<seq<Row>>, w: seq<Row>, rand: nat -> Block, k: nat, iter: nat)
    requires WordsFit(n, words) && Rows3(n, w) && k < n && 1 <= iter <= |words| + 1
    ensures WordsFit(n, words + [w])
    ensures forall r: nat {:trigger RawSeed(crypto, party, n, words + [w], rand, k, iter, r)} ::
      RawSeed(crypto, party, n, words + [w], rand, k, iter, r) == RawSeed(crypto, party, n, words, rand, k, iter, r)
  {
    hide RawSeed, Rows3;
    SeedKept(crypto, party, n, words, w, rand, k, iter, 0);
    forall r: nat {:trigger RawSeed(crypto, party, n, words + [w], rand, k, iter, r)}
      ensures RawSeed(crypto, party, n, words + [w], rand, k, iter, r) == RawSeed(crypto, party, n, words, rand, k, iter, r)
    {
      SeedKept(crypto, party, n, words, w, rand, k, iter, r);
    }
  }

  lemma RevealKept(crypto: Crypto, n: nat, depth: nat, words: seq<seq<Row>>, w: seq<Row>, rand0: nat -> Block, rand1: nat -> Block,
                   p: F3x32, q: F3x32, k: nat, t: nat)
    requires WordsFit(n, words) && Rows3(n, w) && k < n && t < |words| < depth <= 32
    requires WordReveals(crypto, n, depth, words, rand0, rand1, p, q, k, t)
    ensures WordsFit(n, words + [w]) && WordReveals(crypto, n, depth, words + [w], rand0, rand1, p, q, k, t)
  {
    hide RawSeed, Xor, Value, Sum, Rows3;
    var pos := Value(Sum(p, q), depth - t, depth);
    NodesKept(crypto, false, n, words, w, rand0, k, t + 1);
    NodesKept(crypto, true, n, words, w, rand1, k, t + 1);
  }

  // The word of the next level.
  lemma RevealNext(crypto: Crypto, n: nat, depth: nat, words: seq<seq<Row>>, w: seq<Row>, rand0: nat -> Block, rand1: nat -> Block,
                   z0: seq<Row>, z1: seq<Row>, p: F3x32, q: F3x32, k: nat)
    requires WordsFit(n, words) && Rows3(n, w) && Rows3(n, z0) && Rows3(n, z1) && k < n && |words| < depth <= 32
    requires var iter := |words| + 1;
             var l0, l1 := LevelAt(crypto, false, n, words, rand0, iter), LevelAt(crypto, true, n, words, rand1, iter);
             && HoldsSums(Three, RowOps(n, crypto.aes), z0, l0) && HoldsSums(Three, RowOps(n, crypto.aes), z1, l1)
             && OnPath(Three, Tree(l0, k), Tree(l1, k), Value(Sum(p, q), depth - |words|, depth))
    requires Shifted(z0, z1, w, k, (p[depth - |words| - 1] + q[depth - |words| - 1]) % 3,
                     ShiftOf(rand0, 3 * n + |words| * n, rand1, 3 * n + |words| * n, k))
    ensures WordsFit(n, words + [w]) && WordReveals(crypto, n, depth, words + [w], rand0, rand1, p, q, k, |words|)
  {
    hide RawSeed, LevelAt, Xor, Value, Sum, Rows3, HoldsSums, RowOps, OnPath;
    var t, pos := |words|, Value(Sum(p, q), depth - |words|, depth);
    var l0, l1 := LevelAt(crypto, false, n, words, rand0, t + 1), LevelAt(crypto, true, n, words, rand1, t + 1);
    NodesKept(crypto, false, n, words, w, rand0, k, t + 1);
    NodesKept(crypto, true, n, words, w, rand1, k, t + 1);
    forall j {:trigger w[j]} | 0 <= j < 3
      ensures k < |z0[j]| && k < |z1[j]|
      ensures Xor(z0[j][k], z1[j][k]) == Xor(RawSeed(crypto, false, n, words, rand0, k, t + 1, 3 * pos + j),
                                             RawSeed(crypto, true, n, words, rand1, k, t + 1, 3 * pos + j))
    {
      SumsAtNode(n, crypto.aes, l0, l1, z0, z1, pos, k, j);
      LevelOnPath(crypto, false, n, words, rand0, t + 1, 3 * pos + j, k);
      LevelOnPath(crypto, true, n, words, rand1, t + 1, 3 * pos + j, k);
    }
  }

  lemma AllRevealNext(crypto: Crypto, n: nat, depth: nat, words: seq<seq<Row>>, w: seq<Row>, rand0: nat -> Block, rand1: nat -> Block,
                      z0: seq<Row>, z1: seq<Row>, points0: seq<F3x32>, points1: seq<F3x32>, pos: seq<nat>)
    requires AllReveal(crypto, n, depth, words, rand0, rand1, points0, points1) && |words| < depth
    requires Rows3(n, w) && Rows3(n, z0) && Rows3(n, z1) && |pos| == n
    requires var iter := |words| + 1;
             var l0, l1 := LevelAt(crypto, false, n, words, rand0, iter), LevelAt(crypto, true, n, words, rand1, iter);
             && HoldsSums(Three, RowOps(n, crypto.aes), z0, l0) && HoldsSums(Three, RowOps(n, crypto.aes), z1, l1)
             && BatchOnPath(Three, l0, l1, pos)
    requires forall k {:trigger pos[k]} :: 0 <= k < n ==> pos[k] == Value(Sum(points0[k], points1[k]), depth - |words|, depth)
    requires forall k {:trigger points0[k]} {:trigger points1[k]} :: 0 <= k < n ==>
      Shifted(z0, z1, w, k, (points0[k][depth - |words| - 1] + points1[k][depth - |words| - 1]) % 3,
              ShiftOf(rand0, 3 * n + |words| * n, rand1, 3 * n + |words| * n, k))
    ensures AllReveal(crypto, n, depth, words + [w], rand0, rand1, points0, points1)
  {
    hide LevelAt, Value, Sum, Rows3, HoldsSums, RowOps, OnPath, Shifted, ShiftOf, WordReveals, Tree;
    forall t, k | 0 <= t < |words| + 1 && 0 <= k < n
      ensures WordReveals(crypto, n, depth, words + [w], rand0, rand1, points0[k], points1[k], k, t)
    {
      if t < |words| {
        RevealKept(crypto, n, depth, words, w, rand0, rand1, points0[k], points1[k], k, t);
      } else {
        assert pos[k] == Value(Sum(points0[k], points1[k]), depth - |words|, depth);
        RevealNext(crypto, n, depth, words, w, rand0, rand1, z0, z1, points0[k], points1[k], k);
      }
    }
  }

  // The two levels number iter and the words above them.
  ghost predicate OnWords(crypto: Crypto, n: nat, depth: nat, words: seq<seq<Row>>, rand0: nat -> Block, rand1: nat -> Block,
                          points0: seq<F3x32>, points1: seq<F3x32>, l0: Level<Row>, l1: Level<Row>, iter: nat) {
    && AllReveal(crypto, n, depth, words, rand0, rand1, points0, points1) && 1 <= iter <= |words| + 1
    && l0 == LevelAt(crypto, false, n, words, rand0, iter) && l1 == LevelAt(crypto, true, n, words, rand1, iter)
  }

  // Correcting a level with a further word leads to the next one.
  lemma LevelNext(crypto: Crypto, party: bool, n: nat, words: seq<seq<Row>>, w: seq<Row>, rand: nat -> Block)
    requires WordsFit(n, words) && Rows3(n, w)
    ensures WordsFit(n, words + [w])
    ensures LevelAt(crypto, party, n, words + [w], rand, |words| + 2)
         == Step(Three, RowOps(n, crypto.aes), LevelAt(crypto, party, n, words, rand, |words| + 1), w)
  {
    hide Step, RowOps, RootLevel, Rows3;
    LevelKept(crypto, party, n, words, w, rand, |words| + 1);
  }

  // ---------- the leaves ----------

  // Leaf value and tag of every leaf below domain.
  ghost predicate LeavesOnPath<F>(ctx: CoeffCtx<F>, crypto: Crypto, party: bool, n: nat, words: seq<seq<Row>>, rand: nat -> Block,
                                  domain: nat, leaf: seq<seq<F>>, t: seq<seq<bool>>)
    requires WordsFit(n, words) && |words| > 0
  {
    && Table(domain, n, leaf) && Table(domain, n, t)
    && forall r, k {:trigger leaf[r][k]} {:trigger t[r][k]} :: 0 <= r < domain && 0 <= k < n ==>
         var x := NodeSeed(crypto, party, n, words, rand, k, |words|, r);
         leaf[r][k] == ctx.fromBlock(crypto.roundFn(x, x)) && t[r][k] == x.bits[0]
  }

  lemma LayerOnPath<F>(ctx: CoeffCtx<F>, crypto: Crypto, party: bool, n: nat, words: seq<seq<Row>>, rand: nat -> Block, domain: nat,
                       leaf: seq<seq<F>>, t: seq<seq<bool>>, sums: seq<F>)
    requires WordsFit(n, words) && |words| > 0 && domain <= Nodes(Three, |words|)
    requires Layer(ctx, crypto.roundFn, Three, n, LevelAt(crypto, party, n, words, rand, |words|), words[|words| - 1], leaf, t, sums,
                   domain)
    ensures LeavesOnPath(ctx, crypto, party, n, words, rand, domain, leaf, t)
  {
    hide LevelAt, NodeSeed, SeedRowAt, RowSums, Rows3, Nodes;
    var lv, w := LevelAt(crypto, party, n, words, rand, |words|), words[|words| - 1];
    forall r, k {:trigger leaf[r][k]} {:trigger t[r][k]} | 0 <= r < domain && 0 <= k < n
      ensures |t[r]| == n
      ensures var x := NodeSeed(crypto, party, n, words, rand, k, |words|, r);
              leaf[r][k] == ctx.fromBlock(crypto.roundFn(x, x)) && t[r][k] == x.bits[0]
    {
      LevelOnPath(crypto, party, n, words, rand, |words|, r, k);
      assert leaf[r] == LeafRow(ctx, crypto.roundFn, SeedRowAt(Three, n, lv, w, r)) && t[r] == TagRow(SeedRowAt(Three, n, lv, w, r));
    }
    forall r {:trigger t[r]} | 0 <= r < |t|
      ensures |t[r]| == n
    {
      assert t[r] == TagRow(SeedRowAt(Three, n, lv, w, r));
    }
  }

  // The outputs of a party: its leaves, with gamma added where the tag is set.
  ghost predicate OutputsOnPath<F>(ctx: CoeffCtx<F>, crypto: Crypto, party: bool, n: nat, words: seq<seq<Row>>, rand: nat -> Block,
                                   domain: nat, gamma: seq<F>, out: seq<seq<F>>, t: seq<seq<bool>>)
    requires WordsFit(n, words) && |words| > 0 && (|gamma| == 0 || |gamma| == n)
  {
    && Table(domain, n, out) && Table(domain, n, t)
    && forall r, k {:trigger out[r][k]} {:trigger t[r][k]} :: 0 <= r < domain && 0 <= k < n ==>
         var x := NodeSeed(crypto, party, n, words, rand, k, |words|, r);
         var leaf := ctx.fromBlock(crypto.roundFn(x, x));
         t[r][k] == x.bits[0] && out[r][k] == if |gamma| > 0 && x.bits[0] then ctx.plus(gamma[k], leaf) else leaf
  }

  // The value revealed for the leaf of tree k: the shared value, and both parties' leaves at
  // the shared point if it is below domain.
  ghost predicate GammaReveals<F>(ctx: CoeffCtx<F>, crypto: Crypto, n: nat, words: seq<seq<Row>>, rand0: nat -> Block, rand1: nat -> Block,
                                  domain: nat, p: F3x32, q: F3x32, k: nat, value: F, gamma: F)
    requires WordsFit(n, words) && 0 < |words| <= 32 && k < n
  {
    var target := Value(Sum(p, q), 0, |words|);
    var x, y := NodeSeed(crypto, false, n, words, rand0, k, |words|, target), NodeSeed(crypto, true, n, words, rand1, k, |words|, target);
    gamma == ctx.plus(value, if target < domain then ctx.plus(ctx.fromBlock(crypto.roundFn(x, x)), ctx.fromBlock(crypto.roundFn(y, y)))
                             else ctx.zero)
  }

  lemma AppliedOnPath<F(!new)>(ctx: CoeffCtx<F>, crypto: Crypto, party: bool, n: nat, words: seq<seq<Row>>, rand: nat -> Block,
                               domain: nat, gamma: seq<F>, leaf: seq<seq<F>>, t: seq<seq<bool>>, out: seq<seq<F>>)
    requires WordsFit(n, words) && |words| > 0 && XorLike(ctx) && |gamma| == n
    requires LeavesOnPath(ctx, crypto, party, n, words, rand, domain, leaf, t) && Applied(ctx, n, domain, gamma, leaf, t, out)
    ensures OutputsOnPath(ctx, crypto, party, n, words, rand, domain, gamma, out, t)
  {
    hide NodeSeed, XorLike;
    forall r, k {:trigger out[r][k]} {:trigger t[r][k]} | 0 <= r < domain && 0 <= k < n
      ensures out[r][k] == if t[r][k] then ctx.plus(gamma[k], leaf[r][k]) else leaf[r][k]
    {
      MaskCases(ctx, gamma[k]);
      PlusCancel(ctx, leaf[r][k], leaf[r][k]);
    }
  }
}

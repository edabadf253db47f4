/**
 The dealer's keyGen (RegularDpf.h lines 676 to 776): with all inputs in the clear it
 follows only the active path of each tree.  Its keys are those of the interactive
 protocol, and none of its internal checks fails.
 */
module RegularDealer {
  import opened Blocks
  import opened DpfLevels
  import opened DpfPath
  import opened DpfRows
  import opened DpfBuffers
  import opened DpfExpansion
  import opened DpfLastLayer
  import opened RegularJoint
  import opened RegularDpf
  import opened RegularKey
  import opened RegularExpand
  import opened RegularPath
  import opened RegularReveal

  // ---------- the dealer ----------

  // One level of one tree; the result tells whether the internal checks pass.
  method DealLevel(crypto: Crypto, a: bool, p: Path) returns (ok: bool, word: Block, tau1: bool, x0: Block, x1: Block, next: Path)
    ensures var s := PathSigma(p, a);
            var y0, y1 := CorrectBoth(p.left0, p.right0, p.tag0, s), CorrectBoth(p.left1, p.right1, p.tag1, s);
            && word == s.0 && tau1 == Lsb(s.1) && x0 == Pick2(a, y0) && x1 == Pick2(a, y1) && next == NextPath(Prf(crypto), x0, x1)
            && (ok <==> Pick2(!a, y0) == Pick2(!a, y1) && Lsb(x0) != Lsb(x1))
  {
    hide Xor, And;
    var na := !a;
    var diff := Xor(Pick2(na, (p.left0, p.right0)), Pick2(na, (p.left1, p.right1)));
    var tau0 := Lsb(Xor(p.left0, p.left1)) != na;
    tau1 := Lsb(Xor(p.right0, p.right1)) != a;
    diff := SetLsb(diff, tau0);
    word := diff;
    var sigma0, sigma1 := diff, SetLsb(diff, tau1);
    var left0, right0 := Xor(p.left0, And(sigma0, p.tag0)), Xor(p.right0, And(sigma1, p.tag0));
    var left1, right1 := Xor(p.left1, And(sigma0, p.tag1)), Xor(p.right1, And(sigma1, p.tag1));
    x0, x1 := Pick2(a, (left0, right0)), Pick2(a, (left1, right1));
    var tag0, tag1 := TagBit(x0), TagBit(x1);
    ok := Pick2(na, (left0, right0)) == Pick2(na, (left1, right1)) && Lsb(Xor(x0, x1)) && Xor(tag0, tag1) == Saturate(true);
    LsbOfXor(x0, x1);
    var temp0, temp1 := crypto.enc(x0), crypto.enc(x1);
    next := Path(crypto.roundEnc(temp0, x0), crypto.add64(temp0, x0), crypto.roundEnc(temp1, x1), crypto.add64(temp1, x1), tag0, tag1);
  }

  lemma LsbOfXor(x: Block, y: Block)
    ensures Lsb(Xor(x, y)) == (Lsb(x) != Lsb(y))
    ensures Lsb(x) != Lsb(y) ==> Xor(TagBit(x), TagBit(y)) == Saturate(true)
  {
    assert Lsb(x) != Lsb(y) ==> Xor(TagBit(x), TagBit(y)).bits == Saturate(true).bits;
  }

  // All levels of tree k; x0 and x1 are the corrected seeds of the active leaf.
  method DealTree(crypto: Crypto, depth: nat, point: nat, seeds: Path, ghost i: Inputs, ghost k: nat)
    returns (ok: bool, words: seq<Block>, bits: seq<bool>, x0: Block, x1: Block)
    requires WellFormed(i) && k < i.n && depth == i.depth && TreeFollows(crypto, i, k, 1, seeds)
    requires forall b :: 0 <= b < depth ==> BitOf(point, b) == (BitOf(i.points0[k], b) != BitOf(i.points1[k], b))
    ensures ok && |words| == |bits| == depth
    ensures forall t {:trigger words[t]} :: 0 <= t < depth ==> words[t] == FirstWord(crypto, i, t + 1)[k]
    ensures forall t {:trigger bits[t]} :: 0 <= t < depth ==> bits[t] == LowBits(crypto, i, t + 1)[k]
    ensures ActiveLeaf(crypto, i, k, x0, x1)
  {
    hide PathSigma, CorrectBoth, TreeFollows, WordAt, FirstWord, LowBits, NextPath, BitOf, Joint, Lsb, ActiveLeaf;
    words, bits := [], [];
    x0, x1 := seeds.left0, seeds.left1;
    ok := true;
    var p, iter := seeds, 1;
    while iter <= depth
      invariant 1 <= iter <= depth + 1 && |words| == |bits| == iter - 1
      invariant iter <= depth ==> TreeFollows(crypto, i, k, iter, p)
      invariant iter > depth ==> ActiveLeaf(crypto, i, k, x0, x1)
      invariant forall t {:trigger words[t]} :: 0 <= t < iter - 1 ==> words[t] == FirstWord(crypto, i, t + 1)[k]
      invariant forall t {:trigger bits[t]} :: 0 <= t < iter - 1 ==> bits[t] == LowBits(crypto, i, t + 1)[k]
    {
      var a := BitOf(point, depth - iter);
      PathWord(crypto, i, k, iter, p);
      WordColumn(crypto, i, k, iter);
      ghost var before := p;
      var word, tau1;
      ok, word, tau1, x0, x1, p := DealLevel(crypto, a, p);
      if !ok {
        assert false;
        return;
      }
      if iter == depth {
        LeafReached(crypto, i, k, before, x0, x1);
      } else {
        TreeAdvances(crypto, i, k, iter, before);
      }
      words, bits := words + [word], bits + [tau1];
      iter := iter + 1;
    }
  }

  // ---------- all trees ----------

  // The plain points as a trivial sharing.
  function PlainInputs(points: seq<nat>, depth: nat, seed0: Block, seed1: Block): Inputs {
    Inputs(|points|, depth, points, seq(|points|, _ => 0), seed0, seed1)
  }

  function ZeroBlocks(n: nat): seq<Block> {
    seq(n, _ => ZERO)
  }

  lemma {:induction false} ZeroHasNoBits(b: nat)
    ensures !BitOf(0, b)
  {
    if b > 0 {
      ZeroHasNoBits(b - 1);
    }
  }

  // A column appended to every row.
  function WithColumn<T>(m: seq<seq<T>>, c: seq<T>): (r: seq<seq<T>>)
    requires |m| == |c|
    ensures |r| == |m|
  {
    seq(|m|, t requires 0 <= t < |m| => m[t] + [c[t]])
  }

  // The first k columns.
  function FirstColumns<T>(m: seq<seq<T>>, k: nat): (r: seq<seq<T>>)
    requires forall t {:trigger m[t]} :: 0 <= t < |m| ==> k <= |m[t]|
    ensures |r| == |m|
  {
    seq(|m|, t requires 0 <= t < |m| => m[t][..k])
  }

  lemma NextColumn<T>(m: seq<seq<T>>, k: nat, n: nat, c: seq<T>)
    requires k < n && |c| == |m| && forall t {:trigger m[t]} :: 0 <= t < |m| ==> |m[t]| == n
    requires forall t {:trigger c[t]} :: 0 <= t < |m| ==> c[t] == m[t][k]
    ensures WithColumn(FirstColumns(m, k), c) == FirstColumns(m, k + 1)
  {
    var x, y := WithColumn(FirstColumns(m, k), c), FirstColumns(m, k + 1);
    forall t | 0 <= t < |m|
      ensures x[t] == y[t]
    {
      assert x[t] == m[t][..k] + [c[t]];
      assert m[t][..k + 1] == m[t][..k] + [m[t][k]];
    }
  }

  lemma AllColumns<T>(m: seq<seq<T>>, n: nat)
    requires forall t {:trigger m[t]} :: 0 <= t < |m| ==> |m[t]| == n
    ensures FirstColumns(m, n) == m
  {
    forall t | 0 <= t < |m|
      ensures FirstColumns(m, n)[t] == m[t]
    {
    }
  }

  // Tree k: correction words, low bits and the leaf value.
  method DealOne(crypto: Crypto, depth: nat, points: seq<nat>, values: seq<Block>, seed0: Block, seed1: Block, k: nat, ghost i: Inputs,
                 ghost rows: nat)
    returns (ok: bool, words: seq<Block>, bits: seq<bool>, gamma: Block)
    requires depth > 0 && i == PlainInputs(points, depth, seed0, seed1) && |values| == |points| && k < |points| && rows <= Nodes(Two, depth)
    ensures ok && |words| == |bits| == depth
    ensures forall t {:trigger words[t]} :: 0 <= t < depth ==> words[t] == JointWords(crypto, i)[t][k]
    ensures forall t {:trigger bits[t]} :: 0 <= t < depth ==> bits[t] == JointBits(crypto, i)[t][k]
    ensures ActiveAt(i, k, depth + 1) < rows ==> gamma == JointGamma(crypto, i, rows, values, ZeroBlocks(|values|))[k]
    ensures gamma == PathGamma(crypto, i, k, values[k])
  {
    hide NodeSeed, ActiveAt;
    hide TreeFollows, FirstWord, LowBits, ActiveLeaf, JointGamma, BitOf, Xor, Saturate;
    var r0, r1 := crypto.prng(seed0), crypto.prng(seed1);
    var seeds := Path(r0(2 * k), r0(2 * k + 1), r1(2 * k), r1(2 * k + 1), Saturate(false), Saturate(true));
    TreeStarts(crypto, i, k);
    forall b: nat | b < depth
      ensures BitOf(points[k], b) == (BitOf(i.points0[k], b) != BitOf(i.points1[k], b))
    {
      ZeroHasNoBits(b);
    }
    var x0, x1;
    ok, words, bits, x0, x1 := DealTree(crypto, depth, points[k], seeds, i, k);
    gamma := Xor(Xor(crypto.roundEnc(x0, x0), crypto.roundEnc(x1, x1)), values[k]);
    ActiveLeafSeeds(crypto, i, [], k, x0, x1);
    XorComm(Xor(crypto.roundEnc(x0, x0), crypto.roundEnc(x1, x1)), values[k]);
    if ActiveAt(i, k, depth + 1) < rows {
      XorZero(values[k]);
      DealtGamma(crypto, i, rows, values, ZeroBlocks(|values|), k, x0, x1, values[k]);
    }
  }

  // The dealt keys: seeds, correction words and low bits of the run, and its leaf values for
  // the points among the leaves it sums up.
  ghost predicate Dealt(crypto: Crypto, i: Inputs, domain: nat, values: seq<Block>, key0: RegularDpfKey, key1: RegularDpfKey)
    requires WellFormed(i) && |values| == i.n > 0 && domain <= Nodes(Two, i.depth)
  {
    && key0 == RegularDpfKey(i.seed0, JointWords(crypto, i), JointBits(crypto, i), key0.leafVals)
    && key1 == RegularDpfKey(i.seed1, JointWords(crypto, i), JointBits(crypto, i), key0.leafVals)
    && |key0.leafVals| == i.n
    && forall k {:trigger key0.leafVals[k]} :: 0 <= k < i.n && ActiveAt(i, k, i.depth + 1) < RoundUp2(domain) ==>
         key0.leafVals[k] == GammaOf(crypto, i, domain, values, ZeroBlocks(i.n))[k]
  }

  // Without values no tree is dealt.
  function EmptyKey(seed: Block, depth: nat): RegularDpfKey {
    RegularDpfKey(seed, seq(depth, _ => []), seq(depth, _ => []), [])
  }

  // The static keyGen.
  method KeyGen(crypto: Crypto, domain: nat, points: seq<nat>, values: seq<Block>, seed0: Block, seed1: Block)
    returns (ok: bool, key0: RegularDpfKey, key1: RegularDpfKey)
    requires domain > 0
    ensures ok <==> (|values| == |points| || |values| == 0) && CeilLog2(domain) > 0
    ensures ok && |values| > 0 ==> Dealt(crypto, PlainInputs(points, CeilLog2(domain), seed0, seed1), domain, values, key0, key1)
    ensures ok && |values| == 0 ==> key0 == EmptyKey(seed0, CeilLog2(domain)) && key1 == EmptyKey(seed1, CeilLog2(domain))
    ensures ok && |values| > 0 ==>
      KeyShape(|points|, CeilLog2(domain), key0) && KeyShape(|points|, CeilLog2(domain), key1) && key0.seed == seed0 && key1.seed == seed1
    ensures ok && |values| > 0 ==> forall t, k :: 0 <= t < CeilLog2(domain) && 0 <= k < |points| ==>
      WordReveals(crypto, |points|, CeilLog2(domain), key0, key1, points[k], 0, k, t)
    ensures ok && |values| > 0 ==> |key0.leafVals| == |key1.leafVals| == |points| && forall k :: 0 <= k < |points| ==>
      LeafReveals(crypto, |points|, CeilLog2(domain), key0, key1, points[k], 0, k, values[k])
  {
    hide PathGamma, WordReveals, LeafReveals, XorBits, BitOf;
    hide JointWords, JointBits, JointGamma, WithColumn, FirstColumns, Nodes, RoundUp2, ActiveAt;
    var d := Log2Ceil(domain);
    key0, key1 := EmptyKey(seed0, d), EmptyKey(seed1, d);
    ok := (|values| == |points| || |values| == 0) && d > 0;
    if !ok || |values| == 0 {
      return;
    }
    RowsFit(domain, d);
    ghost var i, rows := PlainInputs(points, d, seed0, seed1), RoundUp2(domain);
    ghost var gammas := JointGamma(crypto, i, rows, values, ZeroBlocks(|values|));
    ghost var allWords, allBits := JointWords(crypto, i), JointBits(crypto, i);
    var words: seq<seq<Block>>, bits: seq<seq<bool>>, leafVals: seq<Block> := key0.correctionWords, key0.correctionBits, [];
    NoColumns(allWords);
    NoColumns(allBits);
    var k := 0;
    while k < |values|
      invariant k <= |values| && |leafVals| == k && ok
      invariant words == FirstColumns(allWords, k) && bits == FirstColumns(allBits, k)
      invariant forall q {:trigger leafVals[q]} :: 0 <= q < k && ActiveAt(i, q, d + 1) < rows ==> leafVals[q] == gammas[q]
      invariant forall q {:trigger leafVals[q]} :: 0 <= q < k ==> leafVals[q] == PathGamma(crypto, i, q, values[q])
    {
      var w, b, gamma;
      ok, w, b, gamma := DealOne(crypto, d, points, values, seed0, seed1, k, i, rows);
      NextColumn(allWords, k, i.n, w);
      NextColumn(allBits, k, i.n, b);
      words, bits, leafVals := WithColumn(words, w), WithColumn(bits, b), leafVals + [gamma];
      k := k + 1;
    }
    AllColumns(allWords, i.n);
    AllColumns(allBits, i.n);
    key0 := RegularDpfKey(seed0, words, bits, leafVals);
    key1 := RegularDpfKey(seed1, words, bits, leafVals);
    DealtReveals(crypto, points, d, values, seed0, seed1, leafVals);
    assert key0 == JointKey(crypto, i, false, leafVals) && key1 == JointKey(crypto, i, true, leafVals);
  }

  // The dealt keys, spelled out on the path of every point.
  lemma DealtReveals(crypto: Crypto, points: seq<nat>, depth: nat, values: seq<Block>, seed0: Block, seed1: Block, leafVals: seq<Block>)
    requires depth > 0 && |values| == |points| == |leafVals| > 0
    requires forall k {:trigger leafVals[k]} :: 0 <= k < |points| ==>
      leafVals[k] == PathGamma(crypto, PlainInputs(points, depth, seed0, seed1), k, values[k])
    ensures var i := PlainInputs(points, depth, seed0, seed1);
            var key0, key1 := JointKey(crypto, i, false, leafVals), JointKey(crypto, i, true, leafVals);
            && (forall t, k :: 0 <= t < depth && 0 <= k < |points| ==>
                  WordReveals(crypto, |points|, depth, key0, key1, points[k], 0, k, t))
            && (forall k :: 0 <= k < |points| ==> LeafReveals(crypto, |points|, depth, key0, key1, points[k], 0, k, values[k]))
  {
    hide JointWords, JointBits, PathGamma, WordReveals, LeafReveals, XorBits, BitOf;
    var i := PlainInputs(points, depth, seed0, seed1);
    var key0, key1 := JointKey(crypto, i, false, leafVals), JointKey(crypto, i, true, leafVals);
    forall t, k | 0 <= t < depth && 0 <= k < |points|
      ensures WordReveals(crypto, |points|, depth, key0, key1, points[k], 0, k, t)
    {
      WordRevealed(crypto, i, leafVals, k, t + 1);
    }
    forall k | 0 <= k < |points|
      ensures LeafReveals(crypto, |points|, depth, key0, key1, points[k], 0, k, values[k])
    {
      PathGammaReveals(crypto, i, leafVals, k, values[k]);
    }
  }

  lemma NoColumns<T>(m: seq<seq<T>>)
    ensures seq(|m|, _ => []) == FirstColumns(m, 0)
  {
    forall t | 0 <= t < |m|
      ensures [] == m[t][..0]
    {
    }
  }

  // ---------- other sharings of the same points ----------

  ghost predicate SameSecrets(i: Inputs, j: Inputs) {
    && WellFormed(i) && WellFormed(j) && i.n == j.n && i.depth == j.depth && i.seed0 == j.seed0 && i.seed1 == j.seed1
    && forall b {:trigger AlphaBits(i.points0, i.points1, b)} {:trigger AlphaBits(j.points0, j.points1, b)} :: 0 <= b < i.depth ==>
         AlphaBits(i.points0, i.points1, b) == AlphaBits(j.points0, j.points1, b)
  }

  // The run depends on the points only through their sum.
  lemma {:induction false} JointSame(crypto: Crypto, i: Inputs, j: Inputs, iter: nat)
    requires SameSecrets(i, j) && 1 <= iter <= i.depth
    ensures Joint(crypto, i, iter) == Joint(crypto, j, iter) && WordAt(crypto, i, iter) == WordAt(crypto, j, iter)
  {
    hide RootLevel, SumsOf, JointSigma, AlphaBits, Step, RowOps, Even;
    assert AlphaBits(i.points0, i.points1, i.depth - iter) == AlphaBits(j.points0, j.points1, i.depth - iter);
    if iter > 1 {
      JointSame(crypto, i, j, iter - 1);
      JointNext(crypto, i, iter - 1);
      JointNext(crypto, j, iter - 1);
    }
  }

  // ... so every sharing of points and values leads to the same keys.
  lemma KeysSame(crypto: Crypto, i: Inputs, j: Inputs, party: bool, domain: nat, u0: seq<Block>, u1: seq<Block>, v0: seq<Block>,
                 v1: seq<Block>)
    requires SameSecrets(i, j) && domain <= Nodes(Two, i.depth)
    requires |u0| == |u1| == |v0| == |v1| && (|u0| == 0 || |u0| == i.n)
    requires forall k {:trigger u0[k]} :: 0 <= k < |u0| ==> Xor(u0[k], u1[k]) == Xor(v0[k], v1[k])
    ensures JointKey(crypto, i, party, GammaOf(crypto, i, domain, u0, u1)) == JointKey(crypto, j, party, GammaOf(crypto, j, domain, v0, v1))
  {
    hide Joint, WordAt, AlphaBits, Xor, LeafTable, RowSums, RoundUp2;
    forall iter {:trigger FirstWord(crypto, i, iter)} {:trigger LowBits(crypto, i, iter)} | 1 <= iter <= i.depth
      ensures FirstWord(crypto, i, iter) == FirstWord(crypto, j, iter) && LowBits(crypto, i, iter) == LowBits(crypto, j, iter)
    {
      JointSame(crypto, i, j, iter);
    }
    assert JointWords(crypto, i) == JointWords(crypto, j) && JointBits(crypto, i) == JointBits(crypto, j);
    JointSame(crypto, i, j, i.depth);
    var g, h := GammaOf(crypto, i, domain, u0, u1), GammaOf(crypto, j, domain, v0, v1);
    RowsFit(domain, i.depth);
    forall k | 0 <= k < |u0|
      ensures g[k] == h[k]
    {
      assert Xor(u0[k], u1[k]) == Xor(v0[k], v1[k]);
    }
    assert g == h;
  }
}

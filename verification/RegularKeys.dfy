/**
 Keys in use: interactive key generation (RegularDpf.h lines 238 to 250 and 281 to 660 with
 an output key), offline expansion (lines 778 to 787), and what both promise together.
 */
module RegularKeys {
  import opened Blocks
  import opened DpfLevels
  import opened DpfLeaves
  import opened DpfRows
  import opened DpfBuffers
  import opened DpfExpansion
  import opened DpfLastLayer
  import opened DpfReconstruct
  import opened DpfMult
  import opened RegularJoint
  import opened RegularDpf
  import opened RegularKey
  import opened RegularExpand
  import opened RegularPath
  import opened RegularReveal

  // implExpand with an output key, run by both parties.
  method RunForKeys(crypto: Crypto, d0: RegularDpf, d1: RegularDpf, points0: seq<nat>, points1: seq<nat>, values0: seq<Block>,
                    values1: seq<Block>, seed0: Block, seed1: Block) returns (ok: bool, key0: RegularDpfKey, key1: RegularDpfKey)
    requires Paired(d0, d1) && Configured(d0) && (|values0| == 0 <==> |values1| == 0)
    modifies d0.mult`otIdx, d1.mult`otIdx
    ensures ok <==> InputsOk(d0, points0, values0) && InputsOk(d1, points1, values1) && old(CanMultiply(d0))
    ensures ok ==> var i := InputsOf(d0, points0, points1, seed0, seed1);
                   && |values0| == |values1|
                   && key0 == JointKey(crypto, i, false, GammaOf(crypto, i, d0.domain, values0, values1))
                   && key1 == JointKey(crypto, i, true, GammaOf(crypto, i, d0.domain, values0, values1))
  {
    hide MultsPaired, AtLevel, Joint, JointWords, JointBits, WordAt;
    hide Layer, RoundUp2, MultsFor, JointGamma, LeavesOf, TagsOfLeaves, SumsOfLeaves;
    key0, key1 := RegularDpfKey(seed0, [], [], []), RegularDpfKey(seed1, [], [], []);
    ok := InputsOk(d0, points0, values0) && InputsOk(d1, points1, values1);
    if !ok {
      return;
    }
    ghost var i := InputsOf(d0, points0, points1, seed0, seed1);
    var rows := RoundUp2(d0.domain);
    RowsFit(d0.domain, d0.depth);
    var e0, e1, sigma, words, bits;
    ok, e0, e1, sigma, words, bits := Levels(crypto, d0, d1, points0, points1, seed0, seed1, i);
    if !ok {
      return;
    }
    key0, key1 := key0.(correctionWords := words, correctionBits := bits), key1.(correctionWords := words, correctionBits := bits);
    if |values0| == 0 {
      var none := NoGamma(crypto, i, d0.domain, values0, values1);
      return;
    }
    var leaf0, tags0, s0, leaf1, tags1, s1 := LastLayers(crypto, d0.numPoints, d0.depth, i, e0, e1, sigma, rows);
    var gamma0, gamma1 := ExchangeDifferences(crypto, i, rows, s0, s1, values0, values1);
    key0, key1 := key0.(leafVals := gamma0), key1.(leafVals := gamma1);
  }

  // The keys of a run, spelled out on the path of every point.
  lemma KeysReveal(crypto: Crypto, i: Inputs, domain: nat, values0: seq<Block>, values1: seq<Block>)
    requires WellFormed(i) && domain <= Nodes(Two, i.depth) && |values0| == |values1| && (|values0| == 0 || |values0| == i.n)
    ensures var gamma := GammaOf(crypto, i, domain, values0, values1);
            var key0, key1 := JointKey(crypto, i, false, gamma), JointKey(crypto, i, true, gamma);
            && key0.seed == i.seed0 && key1.seed == i.seed1 && key0.leafVals == key1.leafVals == gamma
            && (forall t, k :: 0 <= t < i.depth && 0 <= k < i.n ==>
                  WordReveals(crypto, i.n, i.depth, key0, key1, i.points0[k], i.points1[k], k, t))
            && (forall k :: 0 <= k < |values0| && XorBits(i.points0[k], i.points1[k], 0, i.depth) < (domain + 1) / 2 * 2 ==>
                  LeafReveals(crypto, i.n, i.depth, key0, key1, i.points0[k], i.points1[k], k, Xor(values0[k], values1[k])))
  {
    hide JointWords, JointBits, JointGamma, WordReveals, LeafReveals, XorBits, BitOf, Xor;
    var gamma := GammaOf(crypto, i, domain, values0, values1);
    var key0, key1 := JointKey(crypto, i, false, gamma), JointKey(crypto, i, true, gamma);
    forall t, k | 0 <= t < i.depth && 0 <= k < i.n
      ensures WordReveals(crypto, i.n, i.depth, key0, key1, i.points0[k], i.points1[k], k, t)
    {
      WordRevealed(crypto, i, gamma, k, t + 1);
    }
    forall k | 0 <= k < |values0| && XorBits(i.points0[k], i.points1[k], 0, i.depth) < (domain + 1) / 2 * 2
      ensures LeafReveals(crypto, i.n, i.depth, key0, key1, i.points0[k], i.points1[k], k, Xor(values0[k], values1[k]))
    {
      LeafRevealed(crypto, i, domain, values0, values1, k);
    }
  }

  // keyGen, run by both parties.
  method KeyGen(crypto: Crypto, d0: RegularDpf, d1: RegularDpf, points0: seq<nat>, points1: seq<nat>, values0: seq<Block>,
                values1: seq<Block>, seed0: Block, seed1: Block) returns (ok: bool, key0: RegularDpfKey, key1: RegularDpfKey)
    requires Paired(d0, d1) && Configured(d0) && (|values0| == 0 <==> |values1| == 0)
    modifies d0.mult`otIdx, d1.mult`otIdx
    ensures ok <==> |points0| == |points1| == d0.numPoints && (|values0| == 0 || |values0| == |values1| == d0.numPoints)
                    && old(|d0.mult.choiceBits| > 0 && d0.mult.otIdx + d0.numPoints * d0.depth <= d0.mult.totalMults)
    ensures ok ==> var i := InputsOf(d0, points0, points1, seed0, seed1);
                   && |values0| == |values1|
                   && key0 == JointKey(crypto, i, false, GammaOf(crypto, i, d0.domain, values0, values1))
                   && key1 == JointKey(crypto, i, true, GammaOf(crypto, i, d0.domain, values0, values1))
    ensures ok ==> KeyShape(d0.numPoints, d0.depth, key0) && KeyShape(d0.numPoints, d0.depth, key1)
    ensures ok ==> key0.seed == seed0 && key1.seed == seed1 && |key0.leafVals| == |key1.leafVals| == |values0|
    ensures ok ==> forall t, k :: 0 <= t < d0.depth && 0 <= k < d0.numPoints ==>
      WordReveals(crypto, d0.numPoints, d0.depth, key0, key1, points0[k], points1[k], k, t)
    ensures ok ==> forall k :: 0 <= k < |values0| && XorBits(points0[k], points1[k], 0, d0.depth) < (d0.domain + 1) / 2 * 2 ==>
      LeafReveals(crypto, d0.numPoints, d0.depth, key0, key1, points0[k], points1[k], k, Xor(values0[k], values1[k]))
  {
    hide MultsPaired, JointKey, KeyShape, WordReveals, LeafReveals, XorBits, Xor, MultsFor, JointGamma;
    MultsForIsProduct(d0.depth, d0.numPoints);
    ok, key0, key1 := RunForKeys(crypto, d0, d1, points0, points1, values0, values1, seed0, seed1);
    if ok {
      KeysReveal(crypto, InputsOf(d0, points0, points1, seed0, seed1), d0.domain, values0, values1);
    }
  }

  // One party's tree of a key at level iter.
  ghost predicate KeyAt(crypto: Crypto, party: bool, n: nat, depth: nat, key: RegularDpfKey, e: Expansion, iter: nat)
    reads e, e.s
  {
    && KeyShape(n, depth, key) && 1 <= iter <= depth && e.a == Two && e.n == n && e.depth == depth && e.prf == Prf(crypto)
    && e.Valid(iter) && e.lv == KeyLevel(crypto, party, n, depth, key, iter)
  }

  // The correction words of one level from a key.
  method ReadWords(n: nat, depth: nat, key: RegularDpfKey, iter: nat) returns (sigma: seq<Row>)
    requires KeyShape(n, depth, key) && 1 <= iter <= depth
    ensures sigma == KeySigma(n, depth, key, iter) && |sigma| == 2 && AllRows(n, sigma)
  {
    hide SetLsb;
    var word, bit := key.correctionWords[iter - 1], key.correctionBits[iter - 1];
    var s0: Row, s1: Row := [], [];
    var k := 0;
    while k < n
      invariant k <= n && s0 == word[..k] && |s1| == k
      invariant forall q {:trigger s1[q]} :: 0 <= q < k ==> s1[q] == SetLsb(word[q], bit[q])
    {
      s0 := s0 + [word[k]];
      s1 := s1 + [SetLsb(s0[k], bit[k])];
      k := k + 1;
    }
    assert s0 == word && s1 == WithBits(word, bit);
    sigma := [s0, s1];
  }

  // The levels of a key; sigma is the last correction word.
  method KeyClimb(crypto: Crypto, ghost party: bool, n: nat, depth: nat, key: RegularDpfKey, e: Expansion) returns (sigma: seq<Row>)
    requires KeyAt(crypto, party, n, depth, key, e, 1) && |e.s| == 3
    modifies e, e.s[0], e.s[1], e.s[2]
    ensures KeyAt(crypto, party, n, depth, key, e, depth) && sigma == KeySigma(n, depth, key, depth)
  {
    hide KeyLevel, KeySigma, SlotSum, RowOps, Holds, HoldsSums, BatchLevel, Step, Prf, KeyShape;
    sigma := [];
    var iter := 1;
    while iter <= depth
      invariant 1 <= iter <= depth + 1 && KeyAt(crypto, party, n, depth, key, e, if iter <= depth then iter else depth)
      invariant iter > depth ==> sigma == KeySigma(n, depth, key, depth)
    {
      sigma := ReadWords(n, depth, key, iter);
      if iter != depth {
        KeyNext(crypto, party, n, depth, key, iter);
        e.Advance(iter, sigma);
      }
      iter := iter + 1;
    }
  }

  lemma KeyNext(crypto: Crypto, party: bool, n: nat, depth: nat, key: RegularDpfKey, iter: nat)
    requires KeyShape(n, depth, key) && 1 <= iter < depth
    ensures KeyLevel(crypto, party, n, depth, key, iter + 1)
         == Step(Two, RowOps(n, Prf(crypto)), KeyLevel(crypto, party, n, depth, key, iter), KeySigma(n, depth, key, iter))
  {
    hide Step, RowOps, RootLevel, KeySigma;
  }

  // The static expand: full-domain evaluation of a key without interaction.
  method ExpandKey(crypto: Crypto, partyIdx: nat, domain: nat, key: RegularDpfKey, numTrees: nat)
    returns (ok: bool, out: seq<seq<Block>>, t: seq<seq<bool>>)
    requires domain >= 2 ==> KeyShape(numTrees, CeilLog2(domain), key)
    ensures ok <==> partyIdx <= 1 && domain >= 2 && numTrees > 0
    ensures ok ==> (out, t) == KeyOutputs(crypto, partyIdx == 1, numTrees, CeilLog2(domain), domain, key)
    ensures ok ==> Table(domain, numTrees, out) && Table(domain, numTrees, t)
    ensures ok ==> forall r, k {:trigger out[r][k]} {:trigger t[r][k]} :: 0 <= r < domain && 0 <= k < numTrees ==>
      var x := NodeSeed(crypto, partyIdx == 1, numTrees, CeilLog2(domain), key, k, CeilLog2(domain), r);
      && t[r][k] == x.bits[0]
      && out[r][k] == if |key.leafVals| > 0 && x.bits[0] then Xor(key.leafVals[k], crypto.roundEnc(x, x)) else crypto.roundEnc(x, x)
    ensures ok && domain == 4 ==> forall r, k {:trigger out[r][k]} {:trigger t[r][k]} :: 0 <= r < 4 && 0 <= k < numTrees ==>
      FourthOf(crypto, partyIdx == 1, key, r, k, out[r][k], t[r][k])
  {
    hide NodeSeed, FourthOf;
    hide KeyLevel, KeySigma, SlotSum, RowOps, HoldsSums, Prf, LeafTable, TagTable, Layer, RowSums, RoundUp2, Programmed, AllRows;
    out, t := [], [];
    var d := new RegularDpf();
    ok := d.Init(partyIdx, domain, numTrees);
    if !ok {
      return;
    }
    ghost var depth := d.depth;
    var n, rows := d.numPoints, RoundUp2(domain);
    RowsFit(domain, depth);
    var e := new Expansion(Two, n, d.depth, Prf(crypto), partyIdx == 1, crypto.prng(key.seed), 0);
    KeyRoot(crypto, partyIdx == 1, n, depth, key);
    var sigma := KeyClimb(crypto, partyIdx == 1, n, d.depth, key, e);
    var leaf, tags, sums := LastLayer(BlockCtx(), crypto.roundEnc, Two, n, e.s[(d.depth - 1) % 3], e.s[d.depth % 3], rows, sigma, e.lv);
    LayerTables(crypto, n, e.lv, sigma, leaf, tags, sums, rows);
    out := OutputAll(n, domain, leaf, tags, key.leafVals);
    t := tags[..domain];
    FirstRows(crypto, n, e.lv, sigma, domain, rows, key.leafVals);
    OutputsOnPath(crypto, partyIdx == 1, n, depth, domain, key);
    if domain == 4 {
      FourLeaves(crypto, partyIdx == 1, n, key);
    }
  }

  // The outputs of a key, leaf by leaf.
  lemma OutputsOnPath(crypto: Crypto, party: bool, n: nat, depth: nat, domain: nat, key: RegularDpfKey)
    requires KeyShape(n, depth, key) && domain <= Nodes(Two, depth)
    ensures var o := KeyOutputs(crypto, party, n, depth, domain, key);
            forall r, k {:trigger o.0[r][k]} {:trigger o.1[r][k]} :: 0 <= r < domain && 0 <= k < n ==>
              var x := NodeSeed(crypto, party, n, depth, key, k, depth, r);
              && o.1[r][k] == x.bits[0]
              && o.0[r][k] == if |key.leafVals| > 0 && x.bits[0] then Xor(key.leafVals[k], crypto.roundEnc(x, x)) else crypto.roundEnc(x, x)
  {
    hide KeyLevel, KeySigma, SeedRowAt, NodeSeed, RawSeed, Xor;
    var o := KeyOutputs(crypto, party, n, depth, domain, key);
    forall r, k {:trigger o.0[r][k]} {:trigger o.1[r][k]} | 0 <= r < domain && 0 <= k < n
      ensures var x := NodeSeed(crypto, party, n, depth, key, k, depth, r);
              && o.1[r][k] == x.bits[0]
              && o.0[r][k] == if |key.leafVals| > 0 && x.bits[0] then Xor(key.leafVals[k], crypto.roundEnc(x, x)) else crypto.roundEnc(x, x)
    {
      LevelOnPath(crypto, party, n, depth, key, depth, r, k);
      var x := NodeSeed(crypto, party, n, depth, key, k, depth, r);
      XorZero(crypto.roundEnc(x, x));
    }
  }

  // Leaf r of a tree with four leaves and its tag, from the key alone.
  ghost predicate FourthOf(crypto: Crypto, party: bool, key: RegularDpfKey, r: nat, k: nat, out: Block, tag: bool) {
    && r < 4 && |key.correctionWords| == |key.correctionBits| == 2
    && k < |key.correctionWords[0]| == |key.correctionWords[1]| == |key.correctionBits[0]| == |key.correctionBits[1]|
    && (|key.leafVals| == 0 || k < |key.leafVals|)
    && var w0, w1, b0, b1 := key.correctionWords[0][k], key.correctionWords[1][k], key.correctionBits[0][k], key.correctionBits[1][k];
       var drawn := crypto.prng(key.seed)(if r < 2 then 2 * k else 2 * k + 1);
       var y := if !party then drawn else if r < 2 then Xor(drawn, w0) else Xor(drawn, Block(w0.bits[0 := b0]));
       var raw := if r == 0 || r == 2 then crypto.roundEnc(crypto.enc(y), y) else crypto.add64(crypto.enc(y), y);
       var x := if !y.bits[0] then raw else if r == 0 || r == 2 then Xor(raw, w1) else Xor(raw, Block(w1.bits[0 := b1]));
       && tag == x.bits[0]
       && out == (if tag && |key.leafVals| > 0 then Xor(key.leafVals[k], crypto.roundEnc(x, x)) else crypto.roundEnc(x, x))
  }

  lemma FourLeaves(crypto: Crypto, party: bool, n: nat, key: RegularDpfKey)
    requires CeilLog2(4) == 2 && KeyShape(n, 2, key)
    ensures forall r, k {:trigger NodeSeed(crypto, party, n, 2, key, k, 2, r)} :: 0 <= r < 4 && 0 <= k < n ==>
      var x := NodeSeed(crypto, party, n, 2, key, k, 2, r);
      FourthOf(crypto, party, key, r, k,
               if |key.leafVals| > 0 && x.bits[0] then Xor(key.leafVals[k], crypto.roundEnc(x, x)) else crypto.roundEnc(x, x), x.bits[0])
  {
    hide Xor;
  }

  lemma KeyRoot(crypto: Crypto, party: bool, n: nat, depth: nat, key: RegularDpfKey)
    requires KeyShape(n, depth, key)
    ensures KeyLevel(crypto, party, n, depth, key, 1) == RootLevel(Two, n, party, crypto.prng(key.seed), 0)
  {
  }

  // The outputs depend on the rows below domain only.
  lemma FirstRows(crypto: Crypto, n: nat, lv: Level<Row>, sigma: seq<Row>, domain: nat, rows: nat, gamma: seq<Block>)
    requires Shaped(Two, lv) && |sigma| == 2 && domain <= rows <= |lv.seeds| && (|gamma| == 0 || |gamma| == n)
    ensures TagTable(n, lv, sigma, domain) == TagTable(n, lv, sigma, rows)[..domain]
    ensures Programmed(n, domain, LeafTable(crypto, n, lv, sigma, domain), TagTable(n, lv, sigma, domain), gamma)
         == Programmed(n, domain, LeafTable(crypto, n, lv, sigma, rows), TagTable(n, lv, sigma, rows), gamma)
  {
    hide LeafRow, TagRow, SeedRowAt, LeafOutput;
    assert LeafTable(crypto, n, lv, sigma, domain) == LeafTable(crypto, n, lv, sigma, rows)[..domain];
    assert TagTable(n, lv, sigma, domain) == TagTable(n, lv, sigma, rows)[..domain];
    assert Programmed(n, domain, LeafTable(crypto, n, lv, sigma, domain), TagTable(n, lv, sigma, domain), gamma)
        == Programmed(n, domain, LeafTable(crypto, n, lv, sigma, rows), TagTable(n, lv, sigma, rows), gamma);
  }

  // ---------- what both parties' outputs share ----------

  lemma ShareRandomBelow(n: nat, domain: nat, rows: nat, target: seq<nat>, x: seq<seq<Block>>, y: seq<seq<Block>>)
    requires ShareRandom(BlockCtx(), n, rows, target, x, y) && domain <= rows
    ensures ShareRandom(BlockCtx(), n, domain, target, x[..domain], y[..domain])
  {
    hide BlockCtx;
  }

  lemma ShareTagsBelow(n: nat, domain: nat, rows: nat, target: seq<nat>, x: seq<seq<bool>>, y: seq<seq<bool>>)
    requires ShareTags(n, rows, target, x, y) && domain <= rows
    ensures ShareTags(n, domain, target, x[..domain], y[..domain])
  {
  }

  // The two expansions share the point function at the XOR of the shared points.
  lemma ExpansionsShare(crypto: Crypto, i: Inputs, domain: nat, values0: seq<Block>, values1: seq<Block>,
                        out0: seq<seq<Block>>, out1: seq<seq<Block>>, t0: seq<seq<bool>>, t1: seq<seq<bool>>)
    requires WellFormed(i) && domain <= Nodes(Two, i.depth) && |values0| == |values1| && (|values0| == 0 || |values0| == i.n)
    requires ExpandsTo(crypto, i, false, domain, GammaOf(crypto, i, domain, values0, values1), out0, t0)
    requires ExpandsTo(crypto, i, true, domain, GammaOf(crypto, i, domain, values0, values1), out1, t1)
    ensures ShareTags(i.n, domain, Positions(i.points0, i.points1, 0, i.depth), t0, t1)
    ensures |values0| > 0 ==>
      ShareValues(BlockCtx(), i.n, domain, Positions(i.points0, i.points1, 0, i.depth), values0, values1, out0, out1)
    ensures |values0| == 0 ==> ShareRandom(BlockCtx(), i.n, domain, Positions(i.points0, i.points1, 0, i.depth), out0, out1)
  {
    hide KeyOutputs, JointKey, JointGamma, LeavesOf, TagsOfLeaves, ShareTags, ShareValues, ShareRandom, Positions, RoundUp2, LeafOutput;
    var rows, gamma := RoundUp2(domain), GammaOf(crypto, i, domain, values0, values1);
    RowsFit(domain, i.depth);
    KeyExpandsToRun(crypto, i, false, domain, rows, gamma);
    KeyExpandsToRun(crypto, i, true, domain, rows, gamma);
    RunShares(crypto, i, rows);
    var target := Positions(i.points0, i.points1, 0, i.depth);
    ShareTagsBelow(i.n, domain, rows, target, TagsOfLeaves(crypto, i, false, rows), TagsOfLeaves(crypto, i, true, rows));
    if |values0| > 0 {
      RunSharesValues(crypto, i, domain, rows, values0, values1);
    } else {
      ShareRandomBelow(i.n, domain, rows, target, LeavesOf(crypto, i, false, rows), LeavesOf(crypto, i, true, rows));
      NothingProgrammed(i.n, domain, LeavesOf(crypto, i, false, rows), TagsOfLeaves(crypto, i, false, rows));
      NothingProgrammed(i.n, domain, LeavesOf(crypto, i, true, rows), TagsOfLeaves(crypto, i, true, rows));
      assert gamma == [];
    }
  }

  lemma NothingProgrammed(n: nat, domain: nat, leaf: seq<seq<Block>>, t: seq<seq<bool>>)
    requires domain <= |leaf| == |t| && Table(|leaf|, n, leaf) && Table(|t|, n, t)
    ensures Programmed(n, domain, leaf, t, []) == leaf[..domain]
  {
    SameTable(domain, n, Programmed(n, domain, leaf, t, []), leaf[..domain]);
  }
}

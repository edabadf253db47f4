/**
 Whole runs of the binary protocol (RegularDpf.h lines 281 to 660): interactive expansion,
 interactive key generation, and the offline expansion of a key.
 */
module RegularExpand {
  import opened Blocks
  import opened DpfLevels
  import opened DpfLeaves
  import opened DpfRows
  import opened DpfBuffers
  import opened DpfExpansion
  import opened DpfBatch
  import opened DpfLastLayer
  import opened DpfReconstruct
  import opened DpfMult
  import opened RegularJoint
  import opened RegularDpf
  import opened RegularKey

  // Both trees at level iter.
  ghost predicate AtLevel(crypto: Crypto, i: Inputs, e0: Expansion, e1: Expansion, iter: nat)
    reads e0, e1, e0.s, e1.s
  {
    && WellFormed(i) && 1 <= iter <= i.depth && e0 != e1 && Apart(e0, e1)
    && e0.a == e1.a == Two && e0.n == e1.n == i.n && e0.depth == e1.depth == i.depth && e0.prf == e1.prf == Prf(crypto)
    && e0.Valid(iter) && e1.Valid(iter) && e0.lv == Joint(crypto, i, iter).l0 && e1.lv == Joint(crypto, i, iter).l1
  }

  ghost predicate Matches(d0: RegularDpf, d1: RegularDpf, i: Inputs)
    reads d0, d1, d0.mult, d1.mult
  {
    Paired(d0, d1) && i.n == d0.numPoints && i.depth == d0.depth && WellFormed(i)
  }

  method AdvanceBoth(crypto: Crypto, ghost i: Inputs, e0: Expansion, e1: Expansion, iter: nat, sigma0: seq<Row>, sigma1: seq<Row>)
    requires AtLevel(crypto, i, e0, e1, iter) && iter < i.depth && sigma0 == sigma1 == WordAt(crypto, i, iter)
    modifies e0, e1, e0.s[0], e0.s[1], e0.s[2], e1.s[0], e1.s[1], e1.s[2]
    ensures AtLevel(crypto, i, e0, e1, iter + 1)
  {
    hide Joint, WordAt, SlotSum, RowOps, Step, Holds, HoldsSums, BatchLevel, Prf;
    JointNext(crypto, i, iter);
    e0.Advance(iter, sigma0);
    e1.Advance(iter, sigma1);
  }

  // One iteration of the loop over the levels.
  method Level(crypto: Crypto, d0: RegularDpf, d1: RegularDpf, ghost i: Inputs, e0: Expansion, e1: Expansion, iter: nat,
               points0: seq<nat>, points1: seq<nat>) returns (ok: bool, sigma: seq<Row>, bits: seq<bool>)
    requires Matches(d0, d1, i) && points0 == i.points0 && points1 == i.points1 && AtLevel(crypto, i, e0, e1, iter)
    modifies d0.mult`otIdx, d1.mult`otIdx, e0, e1, e0.s[0], e0.s[1], e0.s[2], e1.s[0], e1.s[1], e1.s[2]
    ensures ok <==> old(d0.mult.Accepts(i.n, i.n))
    ensures Matches(d0, d1, i) && d0.mult.otIdx == old(d0.mult.otIdx) + if ok then i.n else 0
    ensures ok ==> sigma == WordAt(crypto, i, iter) && bits == LowBits(crypto, i, iter)
    ensures ok ==> AtLevel(crypto, i, e0, e1, if iter < i.depth then iter + 1 else iter)
  {
    hide Joint, JointSigma, AlphaBits, MultsPaired, Prf, SumsOf, RowOps, SlotSum, Holds, HoldsSums, AllRows;
    SumsHeld(i.n, Prf(crypto), e0.lv, e0.z);
    SumsHeld(i.n, Prf(crypto), e1.lv, e1.z);
    var sigma1, bits1;
    ok, sigma, sigma1, bits, bits1 := CorrectionWord(d0, d1, points0, points1, iter, e0.z, e1.z);
    if ok {
      assert bits == LowBits(crypto, i, iter);
      if iter != d0.depth {
        AdvanceBoth(crypto, i, e0, e1, iter, sigma, sigma1);
      }
    }
  }

  // The loop over the levels, with the correction words collected for a key.
  method Climb(crypto: Crypto, d0: RegularDpf, d1: RegularDpf, ghost i: Inputs, e0: Expansion, e1: Expansion, points0: seq<nat>,
               points1: seq<nat>)
    returns (ok: bool, sigma: seq<Row>, words: seq<Row>, bits: seq<seq<bool>>)
    requires Matches(d0, d1, i) && points0 == i.points0 && points1 == i.points1 && AtLevel(crypto, i, e0, e1, 1) && |e0.s| == |e1.s| == 3
    modifies d0.mult`otIdx, d1.mult`otIdx, e0, e1, e0.s[0], e0.s[1], e0.s[2], e1.s[0], e1.s[1], e1.s[2]
    ensures ok <==> old(CanMultiply(d0))
    ensures Matches(d0, d1, i) && (ok ==> d0.mult.otIdx == old(d0.mult.otIdx) + MultsFor(i.depth, i.n))
    ensures ok ==> AtLevel(crypto, i, e0, e1, i.depth) && sigma == WordAt(crypto, i, i.depth)
    ensures ok ==> words == JointWords(crypto, i) && bits == JointBits(crypto, i)
  {
    hide AtLevel, WordAt, Joint, MultsFor, MultsPaired;
    sigma, words, bits := [], [], [];
    ghost var start := d0.mult.otIdx;
    var iter := 1;
    MultsZero(i.n);
    while iter <= d0.depth
      invariant 1 <= iter <= i.depth + 1 && Matches(d0, d1, i) && |words| == |bits| == iter - 1
      invariant d0.mult.otIdx == start + MultsFor(iter - 1, i.n)
      invariant iter > 1 ==> |d0.mult.choiceBits| > 0 && d0.mult.otIdx <= d0.mult.totalMults
      invariant AtLevel(crypto, i, e0, e1, if iter <= i.depth then iter else i.depth)
      invariant iter > i.depth ==> sigma == WordAt(crypto, i, i.depth)
      invariant forall t {:trigger words[t]} :: 0 <= t < iter - 1 ==> words[t] == FirstWord(crypto, i, t + 1)
      invariant forall t {:trigger bits[t]} :: 0 <= t < iter - 1 ==> bits[t] == LowBits(crypto, i, t + 1)
    {
      MultsNext(iter, i.n);
      MultsForGrows(iter, i.depth, i.n);
      var low;
      ok, sigma, low := Level(crypto, d0, d1, i, e0, e1, iter, points0, points1);
      if !ok {
        return;
      }
      words, bits := words + [sigma[0]], bits + [low];
      iter := iter + 1;
    }
    ok := true;
    assert words == JointWords(crypto, i) && bits == JointBits(crypto, i);
  }

  // The multiplications left suffice for all levels.
  ghost predicate CanMultiply(d: RegularDpf)
    reads d, d.mult
  {
    |d.mult.choiceBits| > 0 && d.mult.otIdx + MultsFor(d.depth, d.numPoints) <= d.mult.totalMults
  }

  // CanMultiply as a product.
  lemma ProductOfMults(d: RegularDpf)
    ensures CanMultiply(d) <==> |d.mult.choiceBits| > 0 && d.mult.otIdx + d.numPoints * d.depth <= d.mult.totalMults
  {
    MultsForIsProduct(d.depth, d.numPoints);
  }

  method PlantBoth(crypto: Crypto, n: nat, depth: nat, ghost i: Inputs, seed0: Block, seed1: Block) returns (e0: Expansion, e1: Expansion)
    requires WellFormed(i) && i.n == n && i.depth == depth && i.seed0 == seed0 && i.seed1 == seed1
    ensures AtLevel(crypto, i, e0, e1, 1) && |e0.s| == |e1.s| == 3
    ensures fresh(e0) && fresh(e1) && fresh(e0.s[0]) && fresh(e0.s[1]) && fresh(e0.s[2]) && fresh(e1.s[0]) && fresh(e1.s[1])
    ensures fresh(e1.s[2])
  {
    hide RootLevel, SlotSum, Holds, HoldsSums, BatchLevel, Capacity, Prf;
    e0 := new Expansion(Two, n, depth, Prf(crypto), false, crypto.prng(seed0), 0);
    e1 := new Expansion(Two, n, depth, Prf(crypto), true, crypto.prng(seed1), 0);
  }

  // ---------- the last layer ----------

  // roundUpTo(domain, 2)
  function RoundUp2(domain: nat): (rows: nat)
    ensures domain <= rows && rows % 2 == 0
  {
    (domain + 1) / 2 * 2
  }

  lemma RowsFit(domain: nat, depth: nat)
    requires depth > 0 && domain <= Nodes(Two, depth)
    ensures RoundUp2(domain) <= Nodes(Two, depth)
  {
  }

  // The leaves of both parties after the last level.
  ghost function LeavesOf(crypto: Crypto, i: Inputs, party: bool, rows: nat): (leaf: seq<seq<Block>>)
    requires WellFormed(i) && rows <= Nodes(Two, i.depth)
    ensures Table(rows, i.n, leaf)
  {
    var p := Joint(crypto, i, i.depth);
    LeafTable(crypto, i.n, if party then p.l1 else p.l0, WordAt(crypto, i, i.depth), rows)
  }

  ghost function TagsOfLeaves(crypto: Crypto, i: Inputs, party: bool, rows: nat): (t: seq<seq<bool>>)
    requires WellFormed(i) && rows <= Nodes(Two, i.depth)
    ensures Table(rows, i.n, t)
  {
    var p := Joint(crypto, i, i.depth);
    TagTable(i.n, if party then p.l1 else p.l0, WordAt(crypto, i, i.depth), rows)
  }

  // The sums of the leaves of every tree.
  ghost function SumsOfLeaves(crypto: Crypto, i: Inputs, party: bool, rows: nat): (s: seq<Block>)
    requires WellFormed(i) && rows <= Nodes(Two, i.depth)
    ensures |s| == i.n
  {
    RowSums(BlockCtx(), i.n, LeavesOf(crypto, i, party, rows), rows)
  }

  // The values revealed for the leaves: both values and both sums.
  ghost function JointGamma(crypto: Crypto, i: Inputs, rows: nat, values0: seq<Block>, values1: seq<Block>): (g: seq<Block>)
    requires WellFormed(i) && rows <= Nodes(Two, i.depth) && |values0| == |values1| && (|values0| == 0 || |values0| == i.n)
    ensures |g| == |values0|
  {
    seq(|values0|, k requires 0 <= k < |values0| =>
      Xor(Xor(values0[k], values1[k]), Xor(SumsOfLeaves(crypto, i, false, rows)[k], SumsOfLeaves(crypto, i, true, rows)[k])))
  }

  // Both parties' last layers.
  method LastLayers(crypto: Crypto, n: nat, depth: nat, ghost i: Inputs, e0: Expansion, e1: Expansion, sigma: seq<Row>, rows: nat)
    returns (leaf0: seq<seq<Block>>, t0: seq<seq<bool>>, s0: seq<Block>, leaf1: seq<seq<Block>>, t1: seq<seq<bool>>, s1: seq<Block>)
    requires n == i.n && depth == i.depth && AtLevel(crypto, i, e0, e1, depth) && sigma == WordAt(crypto, i, depth)
    requires rows <= Nodes(Two, depth)
    ensures leaf0 == LeavesOf(crypto, i, false, rows) && t0 == TagsOfLeaves(crypto, i, false, rows)
    ensures s0 == SumsOfLeaves(crypto, i, false, rows)
    ensures leaf1 == LeavesOf(crypto, i, true, rows) && t1 == TagsOfLeaves(crypto, i, true, rows)
    ensures s1 == SumsOfLeaves(crypto, i, true, rows)
    ensures |s0| == |s1| == n
    ensures Layer(BlockCtx(), crypto.roundEnc, Two, n, Joint(crypto, i, depth).l0, sigma, leaf0, t0, s0, rows)
    ensures Layer(BlockCtx(), crypto.roundEnc, Two, n, Joint(crypto, i, depth).l1, sigma, leaf1, t1, s1, rows)
  {
    hide Layer, Joint, WordAt, HoldsSums, AllRows, LeafTable, TagTable, RowSums, BlockCtx, Prf;
    leaf0, t0, s0 := LastLayer(BlockCtx(), crypto.roundEnc, Two, n, e0.s[(depth - 1) % 3], e0.s[depth % 3], rows, sigma, e0.lv);
    leaf1, t1, s1 := LastLayer(BlockCtx(), crypto.roundEnc, Two, n, e1.s[(depth - 1) % 3], e1.s[depth % 3], rows, sigma, e1.lv);
    LayerTables(crypto, n, e0.lv, sigma, leaf0, t0, s0, rows);
    LayerTables(crypto, n, e1.lv, sigma, leaf1, t1, s1, rows);
  }

  // What a party sends, and both parties' gamma.
  method ExchangeDifferences(crypto: Crypto, ghost i: Inputs, ghost rows: nat, s0: seq<Block>, s1: seq<Block>, values0: seq<Block>,
                             values1: seq<Block>)
    returns (gamma0: seq<Block>, gamma1: seq<Block>)
    requires WellFormed(i) && rows <= Nodes(Two, i.depth) && |values0| == |values1| == |s0| == |s1| == i.n
    requires s0 == SumsOfLeaves(crypto, i, false, rows) && s1 == SumsOfLeaves(crypto, i, true, rows)
    ensures gamma0 == gamma1 == JointGamma(crypto, i, rows, values0, values1)
  {
    hide Xor, SumsOfLeaves, XorEach;
    var diff0, diff1 := XorEach(s0, values0), XorEach(s1, values1);
    gamma0, gamma1 := XorEach(diff1, diff0), XorEach(diff0, diff1);
    GammaIsJoint(diff0, diff1, s0, s1, values0, values1, gamma0, gamma1);
    assert gamma0 == JointGamma(crypto, i, rows, values0, values1);
    assert gamma1 == JointGamma(crypto, i, rows, values0, values1);
  }

  lemma GammaIsJoint(diff0: seq<Block>, diff1: seq<Block>, s0: seq<Block>, s1: seq<Block>, values0: seq<Block>, values1: seq<Block>,
                     gamma0: seq<Block>, gamma1: seq<Block>)
    requires |s0| == |s1| == |values0| == |values1| && diff0 == XorEach(s0, values0) && diff1 == XorEach(s1, values1)
    requires gamma0 == XorEach(diff1, diff0) && gamma1 == XorEach(diff0, diff1)
    ensures |gamma0| == |gamma1| == |s0|
    ensures forall k {:trigger gamma0[k]} :: 0 <= k < |s0| ==> gamma0[k] == Xor(Xor(values0[k], values1[k]), Xor(s0[k], s1[k]))
    ensures forall k {:trigger gamma1[k]} :: 0 <= k < |s0| ==> gamma1[k] == Xor(Xor(values0[k], values1[k]), Xor(s0[k], s1[k]))
  {
    hide Xor;
    forall k {:trigger gamma0[k]} {:trigger gamma1[k]} | 0 <= k < |s0|
      ensures gamma0[k] == Xor(Xor(values0[k], values1[k]), Xor(s0[k], s1[k])) && gamma1[k] == gamma0[k]
    {
      XorSwap(s1[k], values1[k], s0[k], values0[k]);
      XorComm(s1[k], s0[k]);
      XorComm(values1[k], values0[k]);
      XorComm(Xor(s0[k], s1[k]), Xor(values0[k], values1[k]));
      XorComm(diff0[k], diff1[k]);
    }
  }

  // The two-party invariant of the last level.
  lemma JointReady(crypto: Crypto, i: Inputs)
    requires WellFormed(i)
    ensures var p, prf := Joint(crypto, i, i.depth), Prf(crypto);
            Ready(Two, i.n, prf, p.l0, p.l1, SumsOf(i.n, prf, p.l0), SumsOf(i.n, prf, p.l1), WordAt(crypto, i, i.depth),
                  Positions(i.points0, i.points1, 1, i.depth), Slots(AlphaBits(i.points0, i.points1, 0)))
  {
    hide BatchOnPath, HoldsSums, BatchGood, RowOps, JointSigma, Joint, SumsOf, Positions, AlphaBits;
    var p := Joint(crypto, i, i.depth);
    JointOnPath(crypto, i, i.depth);
    SumsHeld(i.n, Prf(crypto), p.l0, SumsOf(i.n, Prf(crypto), p.l0));
    SumsHeld(i.n, Prf(crypto), p.l1, SumsOf(i.n, Prf(crypto), p.l1));
    JointSigmaIsGood(SumsOf(i.n, Prf(crypto), p.l0), SumsOf(i.n, Prf(crypto), p.l1), AlphaBits(i.points0, i.points1, 0));
  }

  // ---------- what the outputs share ----------

  // The outputs of one party.
  ghost function RunOutputs(crypto: Crypto, i: Inputs, party: bool, domain: nat, rows: nat, gamma: seq<Block>): (out: seq<seq<Block>>)
    requires WellFormed(i) && domain <= rows <= Nodes(Two, i.depth) && (|gamma| == 0 || |gamma| == i.n)
    ensures Table(domain, i.n, out)
  {
    Programmed(i.n, domain, LeavesOf(crypto, i, party, rows), TagsOfLeaves(crypto, i, party, rows), gamma)
  }

  lemma LayersExist(crypto: Crypto, n: nat, lv: Level<Row>, sigma: seq<Row>, rows: nat)
    requires Shaped(Two, lv) && |sigma| == 2 && rows <= |lv.seeds|
    ensures var leaf := LeafTable(crypto, n, lv, sigma, rows);
            Layer(BlockCtx(), crypto.roundEnc, Two, n, lv, sigma, leaf, TagTable(n, lv, sigma, rows), RowSums(BlockCtx(), n, leaf, rows),
                  rows)
  {
    hide LeafRow, TagRow, SeedRowAt, RowSums;
  }

  // Without values the outputs agree off the points, and the tags share the indicator.
  lemma RunShares(crypto: Crypto, i: Inputs, rows: nat)
    requires WellFormed(i) && rows <= Nodes(Two, i.depth)
    ensures ShareTags(i.n, rows, Positions(i.points0, i.points1, 0, i.depth), TagsOfLeaves(crypto, i, false, rows),
                      TagsOfLeaves(crypto, i, true, rows))
    ensures ShareRandom(BlockCtx(), i.n, rows, Positions(i.points0, i.points1, 0, i.depth), LeavesOf(crypto, i, false, rows),
                        LeavesOf(crypto, i, true, rows))
  {
    hide Ready, Layer, Joint, WordAt, LeafTable, TagTable, SumsOf, ShareTags, ShareRandom, Positions, AlphaBits, Slots, XorLike, RowSums;
    var p, w := Joint(crypto, i, i.depth), WordAt(crypto, i, i.depth);
    JointReady(crypto, i);
    BlockCtxIsXorLike();
    PositionsDeepen(i.points0, i.points1, 0, i.depth);
    LayersExist(crypto, i.n, p.l0, w, rows);
    LayersExist(crypto, i.n, p.l1, w, rows);
    var prf := Prf(crypto);
    LeavesShare(BlockCtx(), crypto.roundEnc, Two, i.n, prf, p.l0, p.l1, SumsOf(i.n, prf, p.l0), SumsOf(i.n, prf, p.l1), w,
                Positions(i.points0, i.points1, 1, i.depth), Slots(AlphaBits(i.points0, i.points1, 0)),
                LeavesOf(crypto, i, false, rows), LeavesOf(crypto, i, true, rows),
                TagsOfLeaves(crypto, i, false, rows), TagsOfLeaves(crypto, i, true, rows),
                SumsOfLeaves(crypto, i, false, rows), SumsOfLeaves(crypto, i, true, rows), rows);
  }

  lemma RunSharesValue(crypto: Crypto, i: Inputs, domain: nat, rows: nat, values0: seq<Block>, values1: seq<Block>, r: nat, k: nat)
    requires WellFormed(i) && domain <= rows <= Nodes(Two, i.depth) && |values0| == |values1| == i.n && r < domain && k < i.n
    ensures var gamma := JointGamma(crypto, i, rows, values0, values1);
            Xor(RunOutputs(crypto, i, false, domain, rows, gamma)[r][k], RunOutputs(crypto, i, true, domain, rows, gamma)[r][k])
            == if r == Positions(i.points0, i.points1, 0, i.depth)[k] then Xor(values0[k], values1[k]) else ZERO
  {
    hide Ready, Layer, Joint, WordAt, LeafTable, TagTable, SumsOf, Positions, AlphaBits, Slots, XorLike, RowSums, Xor, Mask;
    var p, w, ctx := Joint(crypto, i, i.depth), WordAt(crypto, i, i.depth), BlockCtx();
    var s0, s1 := SumsOfLeaves(crypto, i, false, rows), SumsOfLeaves(crypto, i, true, rows);
    JointReady(crypto, i);
    BlockCtxIsXorLike();
    PositionsDeepen(i.points0, i.points1, 0, i.depth);
    LayersExist(crypto, i.n, p.l0, w, rows);
    LayersExist(crypto, i.n, p.l1, w, rows);
    GammasAgree(ctx, values0[k], values1[k], s0[k], s1[k]);
    var prf := Prf(crypto);
    OutputPair(ctx, crypto.roundEnc, Two, i.n, prf, p.l0, p.l1, SumsOf(i.n, prf, p.l0), SumsOf(i.n, prf, p.l1), w,
               Positions(i.points0, i.points1, 1, i.depth), Slots(AlphaBits(i.points0, i.points1, 0)),
               LeavesOf(crypto, i, false, rows), LeavesOf(crypto, i, true, rows),
               TagsOfLeaves(crypto, i, false, rows), TagsOfLeaves(crypto, i, true, rows),
               s0, s1, rows, values0[k], values1[k], k, r);
  }

  // With values the outputs share the point function.
  lemma RunSharesValues(crypto: Crypto, i: Inputs, domain: nat, rows: nat, values0: seq<Block>, values1: seq<Block>)
    requires WellFormed(i) && domain <= rows <= Nodes(Two, i.depth) && |values0| == |values1| == i.n
    ensures var gamma := JointGamma(crypto, i, rows, values0, values1);
            ShareValues(BlockCtx(), i.n, domain, Positions(i.points0, i.points1, 0, i.depth), values0, values1,
                        RunOutputs(crypto, i, false, domain, rows, gamma), RunOutputs(crypto, i, true, domain, rows, gamma))
  {
    hide RunOutputs, Positions, Xor, JointGamma;
    var gamma := JointGamma(crypto, i, rows, values0, values1);
    var out0, out1 := RunOutputs(crypto, i, false, domain, rows, gamma), RunOutputs(crypto, i, true, domain, rows, gamma);
    forall r, k {:trigger out0[r][k]} {:trigger out1[r][k]} | 0 <= r < domain && 0 <= k < i.n
      ensures Xor(out0[r][k], out1[r][k])
           == if r == Positions(i.points0, i.points1, 0, i.depth)[k] then Xor(values0[k], values1[k]) else ZERO
    {
      RunSharesValue(crypto, i, domain, rows, values0, values1, r, k);
    }
  }

  // The outputs of a run are those of the key the run generates.
  lemma KeyExpandsToRun(crypto: Crypto, i: Inputs, party: bool, domain: nat, rows: nat, gamma: seq<Block>)
    requires WellFormed(i) && domain <= rows <= Nodes(Two, i.depth) && (|gamma| == 0 || |gamma| == i.n)
    ensures KeyOutputs(crypto, party, i.n, i.depth, domain, JointKey(crypto, i, party, gamma)).0
         == RunOutputs(crypto, i, party, domain, rows, gamma)
    ensures KeyOutputs(crypto, party, i.n, i.depth, domain, JointKey(crypto, i, party, gamma)).1
         == TagsOfLeaves(crypto, i, party, rows)[..domain]
  {
    hide JointWords, JointBits, Joint, WordAt, KeyLevel, KeySigma, LeafRow, TagRow, SeedRowAt, LeafOutput;
    var key := JointKey(crypto, i, party, gamma);
    JointKeyLevel(crypto, i, party, gamma, i.depth);
    JointKeySigma(crypto, i, party, gamma, i.depth);
    var out, run := KeyOutputs(crypto, party, i.n, i.depth, domain, key).0, RunOutputs(crypto, i, party, domain, rows, gamma);
    var lv, w := KeyLevel(crypto, party, i.n, i.depth, key, i.depth), WordAt(crypto, i, i.depth);
    assert LeafTable(crypto, i.n, lv, w, domain) == LeafTable(crypto, i.n, lv, w, rows)[..domain];
    assert TagTable(i.n, lv, w, domain) == TagTable(i.n, lv, w, rows)[..domain];
    assert out == run;
  }

  // ---------- the three entry points ----------

  ghost predicate Configured(d: RegularDpf)
    reads d
  {
    d.depth > 0 && d.numPoints > 0 && Nodes(Two, d.depth - 1) < d.domain <= Nodes(Two, d.depth)
  }

  // The checks at the start of implExpand without a key.
  predicate InputsOk(d: RegularDpf, points: seq<nat>, values: seq<Block>)
    reads d
  {
    |points| == d.numPoints && (|values| == 0 || |values| == d.numPoints)
  }

  function InputsOf(d0: RegularDpf, points0: seq<nat>, points1: seq<nat>, seed0: Block, seed1: Block): Inputs
    reads d0
  {
    Inputs(d0.numPoints, d0.depth, points0, points1, seed0, seed1)
  }

  // What an expansion yields for one party: exactly what its key would expand to.
  ghost predicate ExpandsTo(crypto: Crypto, i: Inputs, party: bool, domain: nat, gamma: seq<Block>, out: seq<seq<Block>>,
                            t: seq<seq<bool>>) {
    && WellFormed(i) && domain <= Nodes(Two, i.depth) && (|gamma| == 0 || |gamma| == i.n)
    && (out, t) == KeyOutputs(crypto, party, i.n, i.depth, domain, JointKey(crypto, i, party, gamma))
  }

  // gamma for the values given, which may be none.
  ghost function GammaOf(crypto: Crypto, i: Inputs, domain: nat, values0: seq<Block>, values1: seq<Block>): (gamma: seq<Block>)
    requires WellFormed(i) && domain <= Nodes(Two, i.depth) && |values0| == |values1| && (|values0| == 0 || |values0| == i.n)
    ensures |gamma| == |values0|
  {
    RowsFit(domain, i.depth);
    JointGamma(crypto, i, RoundUp2(domain), values0, values1)
  }

  // One output for each leaf below domain.
  method OutputAll(n: nat, domain: nat, leaf: seq<seq<Block>>, t: seq<seq<bool>>, gamma: seq<Block>) returns (out: seq<seq<Block>>)
    requires domain <= |leaf| == |t| && Table(|leaf|, n, leaf) && Table(|t|, n, t) && (|gamma| == 0 || |gamma| == n)
    ensures out == Programmed(n, domain, leaf, t, gamma)
  {
    hide LeafOutput;
    if |gamma| == 0 {
      out := leaf[..domain];
      SameTable(domain, n, out, Programmed(n, domain, leaf, t, gamma));
    } else {
      out := Outputs(BlockCtx(), n, domain, leaf, t, gamma);
      SameTable(domain, n, out, Programmed(n, domain, leaf, t, gamma));
    }
  }

  lemma SameTable<T>(m: nat, n: nat, x: seq<seq<T>>, y: seq<seq<T>>)
    requires Table(m, n, x) && Table(m, n, y)
    requires forall r, k {:trigger x[r][k]} :: 0 <= r < m && 0 <= k < n ==> x[r][k] == y[r][k]
    ensures x == y
  {
    forall r | 0 <= r < m
      ensures x[r] == y[r]
    {
    }
  }

  // The levels of a run.
  method Levels(crypto: Crypto, d0: RegularDpf, d1: RegularDpf, points0: seq<nat>, points1: seq<nat>, seed0: Block, seed1: Block,
                ghost i: Inputs)
    returns (ok: bool, e0: Expansion, e1: Expansion, sigma: seq<Row>, words: seq<Row>, bits: seq<seq<bool>>)
    requires Paired(d0, d1) && Configured(d0) && |points0| == |points1| == d0.numPoints && i == InputsOf(d0, points0, points1, seed0, seed1)
    modifies d0.mult`otIdx, d1.mult`otIdx
    ensures ok <==> old(CanMultiply(d0))
    ensures ok ==> d0.mult.otIdx == old(d0.mult.otIdx) + MultsFor(d0.depth, d0.numPoints)
    ensures ok ==> AtLevel(crypto, i, e0, e1, i.depth) && sigma == WordAt(crypto, i, i.depth)
    ensures ok ==> words == JointWords(crypto, i) && bits == JointBits(crypto, i)
  {
    hide MultsPaired, AtLevel, Joint, JointWords, JointBits, WordAt, MultsFor;
    e0, e1 := PlantBoth(crypto, d0.numPoints, d0.depth, i, seed0, seed1);
    ok, sigma, words, bits := Climb(crypto, d0, d1, i, e0, e1, points0, points1);
  }

  // Gamma and outputs of both parties, without any further state.
  method FinishBoth(crypto: Crypto, n: nat, domain: nat, ghost i: Inputs, values0: seq<Block>, values1: seq<Block>,
                    leaf0: seq<seq<Block>>, tags0: seq<seq<bool>>, s0: seq<Block>,
                    leaf1: seq<seq<Block>>, tags1: seq<seq<bool>>, s1: seq<Block>)
    returns (out0: seq<seq<Block>>, out1: seq<seq<Block>>, t0: seq<seq<bool>>, t1: seq<seq<bool>>)
    requires WellFormed(i) && n == i.n && domain <= RoundUp2(domain) <= Nodes(Two, i.depth) && |values0| == |values1|
    requires (|values0| == 0 || |values0| == n)
    requires leaf0 == LeavesOf(crypto, i, false, RoundUp2(domain)) && leaf1 == LeavesOf(crypto, i, true, RoundUp2(domain))
    requires tags0 == TagsOfLeaves(crypto, i, false, RoundUp2(domain)) && tags1 == TagsOfLeaves(crypto, i, true, RoundUp2(domain))
    requires s0 == SumsOfLeaves(crypto, i, false, RoundUp2(domain)) && s1 == SumsOfLeaves(crypto, i, true, RoundUp2(domain))
    requires |s0| == |s1| == n
    ensures ExpandsTo(crypto, i, false, domain, GammaOf(crypto, i, domain, values0, values1), out0, t0)
    ensures ExpandsTo(crypto, i, true, domain, GammaOf(crypto, i, domain, values0, values1), out1, t1)
  {
    hide KeyOutputs, JointKey, JointGamma, LeavesOf, TagsOfLeaves, SumsOfLeaves, RoundUp2, Programmed;
    var gamma0, gamma1 := NoGamma(crypto, i, domain, values0, values1), NoGamma(crypto, i, domain, values0, values1);
    if |values0| > 0 {
      gamma0, gamma1 := ExchangeDifferences(crypto, i, RoundUp2(domain), s0, s1, values0, values1);
    }
    out0 := OutputAll(n, domain, leaf0, tags0, gamma0);
    out1 := OutputAll(n, domain, leaf1, tags1, gamma1);
    t0, t1 := tags0[..domain], tags1[..domain];
    KeyExpandsToRun(crypto, i, false, domain, RoundUp2(domain), gamma0);
    KeyExpandsToRun(crypto, i, true, domain, RoundUp2(domain), gamma1);
  }

  // No gamma when there are no values.
  function NoGamma(ghost crypto: Crypto, ghost i: Inputs, ghost domain: nat, values0: seq<Block>, values1: seq<Block>): (gamma: seq<Block>)
    requires WellFormed(i) && domain <= Nodes(Two, i.depth) && |values0| == |values1| && (|values0| == 0 || |values0| == i.n)
    ensures gamma == [] && (|values0| == 0 ==> gamma == GammaOf(crypto, i, domain, values0, values1))
  {
    []
  }

  // The interactive expansion, run by both parties.
  method Expand(crypto: Crypto, d0: RegularDpf, d1: RegularDpf, points0: seq<nat>, points1: seq<nat>, values0: seq<Block>,
                values1: seq<Block>, seed0: Block, seed1: Block)
    returns (ok: bool, out0: seq<seq<Block>>, out1: seq<seq<Block>>, t0: seq<seq<bool>>, t1: seq<seq<bool>>)
    requires Paired(d0, d1) && Configured(d0) && (|values0| == 0 <==> |values1| == 0)
    modifies d0.mult`otIdx, d1.mult`otIdx
    ensures ok <==> |points0| == |points1| == d0.numPoints && (|values0| == 0 || |values0| == |values1| == d0.numPoints)
                    && old(|d0.mult.choiceBits| > 0 && d0.mult.otIdx + d0.numPoints * d0.depth <= d0.mult.totalMults)
    ensures ok ==> d0.mult.otIdx == old(d0.mult.otIdx) + d0.numPoints * d0.depth
    ensures ok ==> var i := InputsOf(d0, points0, points1, seed0, seed1);
                   && |values0| == |values1|
                   && ExpandsTo(crypto, i, false, d0.domain, GammaOf(crypto, i, d0.domain, values0, values1), out0, t0)
                   && ExpandsTo(crypto, i, true, d0.domain, GammaOf(crypto, i, d0.domain, values0, values1), out1, t1)
  {
    hide MultsPaired, AtLevel, Joint, JointWords, JointBits, WordAt, Layer;
    hide RoundUp2, MultsFor, ExpandsTo, GammaOf, LeavesOf, TagsOfLeaves, SumsOfLeaves;
    out0, out1, t0, t1 := [], [], [], [];
    MultsForIsProduct(d0.depth, d0.numPoints);
    ok := InputsOk(d0, points0, values0) && InputsOk(d1, points1, values1);
    if !ok {
      return;
    }
    ghost var i := InputsOf(d0, points0, points1, seed0, seed1);
    var rows := RoundUp2(d0.domain);
    RowsFit(d0.domain, d0.depth);
    var e0, e1, sigma, words, bits;
    ok, e0, e1, sigma, words, bits := Levels(crypto, d0, d1, points0, points1, seed0, seed1, i);
    if !ok {
      return;
    }
    var leaf0, tags0, s0, leaf1, tags1, s1 := LastLayers(crypto, d0.numPoints, d0.depth, i, e0, e1, sigma, rows);
    out0, out1, t0, t1 := FinishBoth(crypto, d0.numPoints, d0.domain, i, values0, values1, leaf0, tags0, s0, leaf1, tags1, s1);
  }
}

/**
 The interactive binary distributed point function of RegularDpf.h.  A party is an object;
 the segments of its coroutine between two messages are methods.
 */
module RegularDpf {
  import opened Blocks
  import opened DpfLevels
  import opened DpfRows
  import opened DpfBuffers
  import opened DpfExpansion
  import opened DpfMult
  import opened RegularSigma
  import opened RegularJoint

  // The smallest depth whose tree has x leaves.
  function CeilLog2(x: nat): (i: nat)
    requires x > 0
    ensures x <= Nodes(Two, i) && (i > 0 ==> Nodes(Two, i - 1) < x)
  {
    if x == 1 then 0 else 1 + CeilLog2((x + 1) / 2)
  }

  lemma DepthUnique(x: nat, i: nat)
    requires 0 < x <= Nodes(Two, i) && (i > 0 ==> Nodes(Two, i - 1) < x)
    ensures i == CeilLog2(x)
  {
    var d := CeilLog2(x);
    if i < d {
      NodesGrow(Two, i, d - 1);
    } else if d < i {
      NodesGrow(Two, d, i - 1);
    }
  }

  method Log2Ceil(x: nat) returns (i: nat)
    requires x > 0
    ensures i == CeilLog2(x)
  {
    i := 0;
    var v := 1;
    while v < x
      invariant v == Nodes(Two, i) && (i > 0 ==> Nodes(Two, i - 1) < x)
      decreases x - v
    {
      v := v * 2;
      i := i + 1;
    }
    DepthUnique(x, i);
  }

  // Two rows of n blocks.
  ghost predicate Rows2(n: nat, m: seq<Row>) {
    |m| == 2 && AllRows(n, m)
  }

  class RegularDpf {
    var partyIdx: nat
    var domain: nat
    var depth: nat
    var numPoints: nat
    const mult: DpfMult

    constructor ()
      ensures partyIdx == domain == depth == numPoints == 0 && fresh(mult)
    {
      partyIdx, domain, depth, numPoints := 0, 0, 0, 0;
      mult := new DpfMult();
    }

    // The result tells whether the call returns normally.
    method Init(partyIdx: nat, domain: nat, numPoints: nat) returns (ok: bool)
      modifies this, mult
      ensures ok <==> partyIdx <= 1 && domain >= 2 && numPoints > 0
      ensures ok ==> this.partyIdx == partyIdx && this.domain == domain && this.numPoints == numPoints
      ensures ok ==> depth == CeilLog2(domain) > 0
      ensures ok ==> mult.partyIdx == partyIdx && mult.totalMults == numPoints * depth && mult.otIdx == 0 && mult.choiceBits == []
      ensures !ok ==> unchanged(this) && unchanged(mult)
    {
      if partyIdx > 1 || domain < 2 || numPoints == 0 {
        return false;
      }
      depth := Log2Ceil(domain);
      this.partyIdx := partyIdx;
      this.domain := domain;
      this.numPoints := numPoints;
      ok := mult.Init(partyIdx, numPoints * depth);
    }

    // The inputs of the multiplication: negAlphaj and diff.
    method Prepare(points: seq<nat>, iter: nat, z: seq<Row>) returns (negAlpha: seq<bool>, diff: seq<Block>)
      requires |points| == numPoints && 1 <= iter <= depth && Rows2(numPoints, z)
      ensures |negAlpha| == |diff| == numPoints
      ensures forall k {:trigger negAlpha[k]} :: 0 <= k < numPoints ==> negAlpha[k] == (BitOf(points[k], depth - iter) != (partyIdx != 0))
      ensures forall k {:trigger diff[k]} :: 0 <= k < numPoints ==> diff[k] == MaskedDifference(z[0][k], z[1][k])
    {
      hide MaskedDifference, BitOf;
      negAlpha, diff := [], [];
      var k := 0;
      while k < numPoints
        invariant k <= numPoints && |negAlpha| == |diff| == k
        invariant forall q {:trigger negAlpha[q]} :: 0 <= q < k ==> negAlpha[q] == (BitOf(points[q], depth - iter) != (partyIdx != 0))
        invariant forall q {:trigger diff[q]} :: 0 <= q < k ==> diff[q] == MaskedDifference(z[0][q], z[1][q])
      {
        diff := diff + [DifferenceOf(z[0][k], z[1][k])];
        negAlpha := negAlpha + [BitOf(points[k], depth - iter) != (partyIdx != 0)];
        k := k + 1;
      }
    }

    // The message: shares of the first correction words and of the low bits of the second.
    method Message(points: seq<nat>, iter: nat, z: seq<Row>, product: seq<Block>) returns (sigmaMult: seq<Block>, tau: seq<bool>)
      requires |points| == |product| == numPoints && 1 <= iter <= depth && Rows2(numPoints, z)
      ensures |sigmaMult| == |tau| == numPoints
      ensures forall k {:trigger sigmaMult[k]} :: 0 <= k < numPoints ==>
        sigmaMult[k] == SigmaMessage(partyIdx != 0, BitOf(points[k], depth - iter), z[0][k], product[k])
      ensures forall k {:trigger tau[k]} :: 0 <= k < numPoints ==> tau[k] == (Lsb(z[1][k]) != BitOf(points[k], depth - iter))
    {
      hide Xor, LowBit, BitOf, Lsb;
      sigmaMult, tau := [], [];
      var k := 0;
      while k < numPoints
        invariant k <= numPoints && |sigmaMult| == |tau| == k
        invariant forall q {:trigger sigmaMult[q]} :: 0 <= q < k ==>
          sigmaMult[q] == SigmaMessage(partyIdx != 0, BitOf(points[q], depth - iter), z[0][q], product[q])
        invariant forall q {:trigger tau[q]} :: 0 <= q < k ==> tau[q] == (Lsb(z[1][q]) != BitOf(points[q], depth - iter))
      {
        var alpha := BitOf(points[k], depth - iter);
        sigmaMult := sigmaMult + [Xor(Xor(product[k], z[0][k]), LowBit((partyIdx != 0) != alpha))];
        tau := tau + [Lsb(z[1][k]) != alpha];
        k := k + 1;
      }
    }

    // The correction words from both messages.
    method Reveal(sigmaMult: seq<Block>, tau: seq<bool>, sigmaMult': seq<Block>, tau': seq<bool>) returns (sigma: seq<Row>, bits: seq<bool>)
      requires |sigmaMult| == |tau| == |sigmaMult'| == |tau'| == numPoints
      ensures Rows2(numPoints, sigma) && |bits| == numPoints
      ensures forall k {:trigger sigma[0][k]} :: 0 <= k < numPoints ==> sigma[0][k] == Xor(sigmaMult'[k], sigmaMult[k])
      ensures forall k {:trigger bits[k]} :: 0 <= k < numPoints ==> bits[k] == (tau'[k] != tau[k])
      ensures forall k {:trigger sigma[1][k]} :: 0 <= k < numPoints ==> sigma[1][k] == SetLsb(sigma[0][k], bits[k])
    {
      hide Xor, SetLsb;
      var s0: Row, s1: Row := [], [];
      bits := [];
      var k := 0;
      while k < numPoints
        invariant k <= numPoints && |s0| == |s1| == |bits| == k
        invariant forall q {:trigger s0[q]} :: 0 <= q < k ==> s0[q] == Xor(sigmaMult'[q], sigmaMult[q])
        invariant forall q {:trigger bits[q]} :: 0 <= q < k ==> bits[q] == (tau'[q] != tau[q])
        invariant forall q {:trigger s1[q]} :: 0 <= q < k ==> s1[q] == SetLsb(s0[q], bits[q])
      {
        var bit := tau'[k] != tau[k];
        s0 := s0 + [Xor(sigmaMult'[k], sigmaMult[k])];
        bits := bits + [bit];
        s1 := s1 + [SetLsb(s0[k], bit)];
        k := k + 1;
      }
      sigma := [s0, s1];
    }
  }

  // z0 ^ z1 with the low bit cleared
  function DifferenceOf(z0: Block, z1: Block): (d: Block)
    ensures d == MaskedDifference(z0, z1)
  {
    SetLsb(Xor(z0, z1), false)
  }

  // Two parties with the same configuration and correlated transfers.
  ghost predicate Paired(d0: RegularDpf, d1: RegularDpf)
    reads d0, d1, d0.mult, d1.mult
  {
    && d0 != d1 && d0.partyIdx == 0 && d1.partyIdx == 1 && d0.domain == d1.domain && d0.depth == d1.depth && d0.numPoints == d1.numPoints
    && MultsPaired(d0.mult, d1.mult)
  }

  lemma RevealedWord(z0: seq<Row>, z1: seq<Row>, alpha0: bool, alpha1: bool, k: nat, p0: Block, p1: Block,
                     m0: Block, m1: Block, tau0: bool, tau1: bool, sigma0: Block, sigma1: Block)
    requires |z0| == |z1| == 2
    requires Xor(p0, p1) == Mask(Xor(MaskedDifference(Cell(z0[0], k), Cell(z0[1], k)), MaskedDifference(Cell(z1[0], k), Cell(z1[1], k))),
                                 (alpha0 != false) != (alpha1 != true))
    requires m0 == SigmaMessage(false, alpha0, Cell(z0[0], k), p0) && m1 == SigmaMessage(true, alpha1, Cell(z1[0], k), p1)
    requires tau0 == (Lsb(Cell(z0[1], k)) != alpha0) && tau1 == (Lsb(Cell(z1[1], k)) != alpha1)
    requires (sigma0 == Xor(m1, m0) || sigma0 == Xor(m0, m1)) && sigma1 == SetLsb(sigma0, tau0 != tau1)
    ensures (sigma0, sigma1) == PairOf(z0, z1, alpha0 != alpha1, k) && (tau0 != tau1) == Lsb(sigma1)
  {
    hide Xor, Mask, MaskedDifference, SigmaMessage;
    XorComm(m0, m1);
    RevealedPair(Cell(z0[0], k), Cell(z0[1], k), Cell(z1[0], k), Cell(z1[1], k), alpha0, alpha1, p0, p1);
  }

  // The messages of one level.
  method CorrectionWord(d0: RegularDpf, d1: RegularDpf, points0: seq<nat>, points1: seq<nat>, iter: nat, z0: seq<Row>, z1: seq<Row>)
    returns (ok: bool, sigma0: seq<Row>, sigma1: seq<Row>, bits0: seq<bool>, bits1: seq<bool>)
    requires Paired(d0, d1) && |points0| == |points1| == d0.numPoints && 1 <= iter <= d0.depth
    requires Rows2(d0.numPoints, z0) && Rows2(d0.numPoints, z1)
    modifies d0.mult`otIdx, d1.mult`otIdx
    ensures ok <==> old(d0.mult.Accepts(d0.numPoints, d0.numPoints))
    ensures Paired(d0, d1) && d0.mult.otIdx == old(d0.mult.otIdx) + if ok then d0.numPoints else 0
    ensures ok ==> sigma0 == sigma1 == JointSigma(z0, z1, AlphaBits(points0, points1, d0.depth - iter))
    ensures ok ==> bits0 == bits1 && |bits0| == d0.numPoints && forall k {:trigger bits0[k]} :: 0 <= k < d0.numPoints ==>
      bits0[k] == Lsb(Cell(sigma0[1], k))
  {
    hide ExactShares, MultsPaired, Xor, Mask, MaskedDifference, SigmaMessage, SigmaPair, BitOf, Lsb, SetLsb;
    sigma0, sigma1, bits0, bits1 := [], [], [], [];
    var n := d0.numPoints;
    var neg0, diff0 := d0.Prepare(points0, iter, z0);
    var neg1, diff1 := d1.Prepare(points1, iter, z1);
    var p0, p1;
    ok, p0, p1 := Multiply(d0.mult, d1.mult, neg0, neg1, diff0, diff1);
    if !ok {
      return;
    }
    var m0, tau0 := d0.Message(points0, iter, z0, p0);
    var m1, tau1 := d1.Message(points1, iter, z1, p1);
    sigma0, bits0 := d0.Reveal(m0, tau0, m1, tau1);
    sigma1, bits1 := d1.Reveal(m1, tau1, m0, tau0);
    ghost var joint := JointSigma(z0, z1, AlphaBits(points0, points1, d0.depth - iter));
    forall k {:trigger sigma0[0][k]} {:trigger sigma1[0][k]} {:trigger bits0[k]} | 0 <= k < n
      ensures sigma0[0][k] == joint[0][k] && sigma0[1][k] == joint[1][k] && bits0[k] == Lsb(sigma0[1][k])
      ensures sigma1[0][k] == joint[0][k] && sigma1[1][k] == joint[1][k] && bits1[k] == bits0[k]
    {
      var a0, a1 := BitOf(points0[k], d0.depth - iter), BitOf(points1[k], d0.depth - iter);
      RevealedWord(z0, z1, a0, a1, k, p0[k], p1[k], m0[k], m1[k], tau0[k], tau1[k], sigma0[0][k], sigma0[1][k]);
      RevealedWord(z0, z1, a0, a1, k, p0[k], p1[k], m0[k], m1[k], tau0[k], tau1[k], sigma1[0][k], sigma1[1][k]);
    }
    SameTwoRows(n, sigma0, joint);
    SameTwoRows(n, sigma1, joint);
    assert bits0 == bits1;
  }

  lemma SameTwoRows(n: nat, x: seq<Row>, y: seq<Row>)
    requires Rows2(n, x) && Rows2(n, y)
    requires forall k {:trigger x[0][k]} :: 0 <= k < n ==> x[0][k] == y[0][k] && x[1][k] == y[1][k]
    ensures x == y
  {
    forall c, k | 0 <= c < 2 && 0 <= k < n
      ensures x[c][k] == y[c][k]
    {
      assert x[0][k] == y[0][k];
    }
    SameRows(n, x, y);
  }
}

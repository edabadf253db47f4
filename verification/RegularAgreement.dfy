/**
 All ways to a pair of outputs agree (RegularDpf.h lines 45 to 69, 281 to 660, 676 to 787):
 interactive and dealt keys are equal, and expanding a key offline, also one that has been
 written to bytes and read back, yields what interactive expansion yields.
 */
module RegularAgreement {
  import opened Blocks
  import opened DpfLevels
  import opened DpfMult
  import opened DpfBuffers
  import opened DpfLastLayer
  import opened RegularJoint
  import opened RegularDpf
  import opened RegularKey
  import opened RegularExpand
  import opened RegularKeyBytes
  import RegularKeys
  import RegularReveal
  import RegularDealer

  // The points and values that two parties share.
  ghost predicate Shares(depth: nat, points0: seq<nat>, points1: seq<nat>, points: seq<nat>,
                         values0: seq<Block>, values1: seq<Block>, values: seq<Block>) {
    && |points0| == |points1| == |points| == |values0| == |values1| == |values|
    && (forall k, b {:trigger BitOf(points[k], b)} {:trigger BitOf(points0[k], b), BitOf(points1[k], b)} ::
          0 <= k < |points| && 0 <= b < depth ==> BitOf(points[k], b) == (BitOf(points0[k], b) != BitOf(points1[k], b)))
    && (forall k {:trigger values[k]} :: 0 <= k < |values| ==> values[k] == Xor(values0[k], values1[k]))
  }

  // ---------- plain points ----------

  lemma {:induction false} ShiftedBits(p: nat, lo: nat, hi: nat)
    requires lo <= hi
    ensures XorBits(p, 0, lo + 1, hi + 1) == XorBits(p / 2, 0, lo, hi)
    decreases hi - lo
  {
    RegularDealer.ZeroHasNoBits(lo);
    RegularDealer.ZeroHasNoBits(lo + 1);
    if lo < hi {
      ShiftedBits(p, lo + 1, hi);
    }
  }

  // The bits of a number below 2^d make up the number.
  lemma {:induction false} AllBits(p: nat, d: nat)
    requires p < Nodes(Two, d)
    ensures XorBits(p, 0, 0, d) == p
  {
    if d > 0 {
      AllBits(p / 2, d - 1);
      ShiftedBits(p, 0, d - 1);
      RegularDealer.ZeroHasNoBits(0);
    }
  }

  lemma PlainSame(n: nat, depth: nat, points0: seq<nat>, points1: seq<nat>, points: seq<nat>,
                  values0: seq<Block>, values1: seq<Block>, values: seq<Block>, seed0: Block, seed1: Block)
    requires Shares(depth, points0, points1, points, values0, values1, values) && |points| == n && depth > 0
    ensures RegularDealer.SameSecrets(Inputs(n, depth, points0, points1, seed0, seed1),
                                      RegularDealer.PlainInputs(points, depth, seed0, seed1))
  {
    hide BitOf;
    var i, j := Inputs(n, depth, points0, points1, seed0, seed1), RegularDealer.PlainInputs(points, depth, seed0, seed1);
    forall b: nat {:trigger AlphaBits(i.points0, i.points1, b)} {:trigger AlphaBits(j.points0, j.points1, b)} | b < depth
      ensures AlphaBits(i.points0, i.points1, b) == AlphaBits(j.points0, j.points1, b)
    {
      forall k | 0 <= k < n
        ensures AlphaBits(i.points0, i.points1, b)[k] == AlphaBits(j.points0, j.points1, b)[k]
      {
        RegularDealer.ZeroHasNoBits(b);
        assert BitOf(points[k], b) == (BitOf(points0[k], b) != BitOf(points1[k], b));
      }
    }
  }

  lemma SharedValues(n: nat, values0: seq<Block>, values1: seq<Block>, values: seq<Block>)
    requires |values0| == |values1| == |values| == n
    requires forall k {:trigger values[k]} :: 0 <= k < n ==> values[k] == Xor(values0[k], values1[k])
    ensures forall k {:trigger values0[k]} :: 0 <= k < n ==> Xor(values0[k], values1[k]) == Xor(values[k], RegularDealer.ZeroBlocks(n)[k])
  {
    hide Xor;
    forall k {:trigger values0[k]} | 0 <= k < n
      ensures Xor(values0[k], values1[k]) == Xor(values[k], RegularDealer.ZeroBlocks(n)[k])
    {
      XorZero(values[k]);
    }
  }

  // ---------- the generators ----------

  // Interactive key generation on shares and the dealer on what they share, with the same
  // seeds and at least one value: the same seeds, correction words and low bits whatever the
  // points, the same leaf value for every point among the leaves that are summed up, and so
  // the same keys when all points lie in the domain.
  method GeneratorsAgree(crypto: Crypto, d0: RegularDpf, d1: RegularDpf, points0: seq<nat>, points1: seq<nat>, points: seq<nat>,
                         values0: seq<Block>, values1: seq<Block>, values: seq<Block>, seed0: Block, seed1: Block)
    returns (key0: RegularDpfKey, key1: RegularDpfKey, dealt0: RegularDpfKey, dealt1: RegularDpfKey)
    requires Paired(d0, d1) && Configured(d0) && CanMultiply(d0) && |points| == d0.numPoints
    requires Shares(d0.depth, points0, points1, points, values0, values1, values)
    modifies d0.mult`otIdx, d1.mult`otIdx
    ensures dealt0.(leafVals := []) == key0.(leafVals := []) && dealt1.(leafVals := []) == key1.(leafVals := [])
    ensures |dealt0.leafVals| == |key0.leafVals| == d0.numPoints && dealt1.leafVals == dealt0.leafVals && key1.leafVals == key0.leafVals
    ensures forall k {:trigger dealt0.leafVals[k]} {:trigger key0.leafVals[k]} ::
      0 <= k < d0.numPoints && XorBits(points[k], 0, 0, d0.depth) < RoundUp2(d0.domain) ==>
      dealt0.leafVals[k] == key0.leafVals[k]
    ensures InDomain(points, d0.domain) ==> dealt0 == key0 && dealt1 == key1
    ensures key0 == JointKey(crypto, InputsOf(d0, points0, points1, seed0, seed1), false,
                             GammaOf(crypto, InputsOf(d0, points0, points1, seed0, seed1), d0.domain, values0, values1))
    ensures key1 == JointKey(crypto, InputsOf(d0, points0, points1, seed0, seed1), true,
                             GammaOf(crypto, InputsOf(d0, points0, points1, seed0, seed1), d0.domain, values0, values1))
  {
    hide JointWords, JointBits, GammaOf, Xor, BitOf, Nodes;
    hide RoundUp2, MultsFor, RegularDealer.SameSecrets, RegularDealer.Dealt, Shares, InDomain;
    SharesSizes(d0.depth, points0, points1, points, values0, values1, values);
    MultsForIsProduct(d0.depth, d0.numPoints);
    var ok;
    ok, key0, key1 := RegularKeys.KeyGen(crypto, d0, d1, points0, points1, values0, values1, seed0, seed1);
    DepthUnique(d0.domain, d0.depth);
    ok, dealt0, dealt1 := RegularDealer.KeyGen(crypto, d0.domain, points, values, seed0, seed1);
    DealtIsJoint(crypto, d0.depth, d0.domain, points0, points1, points, values0, values1, values, seed0, seed1, key0, key1, dealt0, dealt1);
  }

  lemma SharesSizes(depth: nat, points0: seq<nat>, points1: seq<nat>, points: seq<nat>, values0: seq<Block>, values1: seq<Block>,
                    values: seq<Block>)
    requires Shares(depth, points0, points1, points, values0, values1, values)
    ensures |points0| == |points1| == |points| == |values0| == |values1| == |values|
  {
  }

  ghost predicate InDomain(points: seq<nat>, domain: nat) {
    forall k {:trigger points[k]} :: 0 <= k < |points| ==> points[k] < domain
  }

  lemma DealtIsJoint(crypto: Crypto, depth: nat, domain: nat, points0: seq<nat>, points1: seq<nat>, points: seq<nat>,
                     values0: seq<Block>, values1: seq<Block>, values: seq<Block>, seed0: Block, seed1: Block,
                     key0: RegularDpfKey, key1: RegularDpfKey, dealt0: RegularDpfKey, dealt1: RegularDpfKey)
    requires depth > 0 && Shares(depth, points0, points1, points, values0, values1, values)
    requires |points| > 0 && domain <= Nodes(Two, depth) && |points0| == |points1| == |points| == |values0| == |values1| == |values|
    requires var i := Inputs(|points|, depth, points0, points1, seed0, seed1);
             WellFormed(i) && key0 == JointKey(crypto, i, false, GammaOf(crypto, i, domain, values0, values1))
             && key1 == JointKey(crypto, i, true, GammaOf(crypto, i, domain, values0, values1))
    requires RegularDealer.Dealt(crypto, RegularDealer.PlainInputs(points, depth, seed0, seed1), domain, values, dealt0, dealt1)
    ensures dealt0.(leafVals := []) == key0.(leafVals := []) && dealt1.(leafVals := []) == key1.(leafVals := [])
    ensures |dealt0.leafVals| == |key0.leafVals| == |points| && dealt1.leafVals == dealt0.leafVals && key1.leafVals == key0.leafVals
    ensures forall k {:trigger dealt0.leafVals[k]} {:trigger key0.leafVals[k]} ::
      0 <= k < |points| && XorBits(points[k], 0, 0, depth) < RoundUp2(domain) ==>
      dealt0.leafVals[k] == key0.leafVals[k]
    ensures InDomain(points, domain) ==> dealt0 == key0 && dealt1 == key1
  {
    hide JointWords, JointBits, GammaOf, Xor, BitOf, XorBits, Nodes, RoundUp2, RegularDealer.SameSecrets;
    var i, j := Inputs(|points|, depth, points0, points1, seed0, seed1), RegularDealer.PlainInputs(points, depth, seed0, seed1);
    PlainSame(|points|, depth, points0, points1, points, values0, values1, values, seed0, seed1);
    SharedValues(|points|, values0, values1, values);
    var zeros := RegularDealer.ZeroBlocks(|points|);
    RegularDealer.KeysSame(crypto, i, j, false, domain, values0, values1, values, zeros);
    RegularDealer.KeysSame(crypto, i, j, true, domain, values0, values1, values, zeros);
    forall k {:trigger dealt0.leafVals[k]} {:trigger key0.leafVals[k]} |
        0 <= k < |points| && XorBits(points[k], 0, 0, depth) < RoundUp2(domain)
      ensures dealt0.leafVals[k] == key0.leafVals[k]
    {
      assert RegularReveal.ActiveAt(j, k, depth + 1) == XorBits(points[k], 0, 0, depth);
    }
    if InDomain(points, domain) {
      forall k {:trigger dealt0.leafVals[k]} | 0 <= k < |points|
        ensures dealt0.leafVals[k] == key0.leafVals[k]
      {
        AllBits(points[k], depth);
        RoundedAbove(domain);
      }
      assert dealt0.leafVals == key0.leafVals;
    }
  }

  lemma RoundedAbove(domain: nat)
    ensures domain <= RoundUp2(domain)
  {
  }

  // ---------- the expansions ----------

  // A key written to bytes, read back into a key of the same shape, and expanded offline.
  method ThroughBytes(crypto: Crypto, partyIdx: nat, n: nat, depth: nat, domain: nat, key: RegularDpfKey)
    returns (ok: bool, out: seq<seq<Block>>, t: seq<seq<bool>>)
    requires partyIdx <= 1 && n > 0 && domain >= 2 && depth == CeilLog2(domain) && KeyShape(n, depth, key)
    ensures ok && (out, t) == KeyOutputs(crypto, partyIdx == 1, n, depth, domain, key)
  {
    hide KeyOutputs, Nodes;
    var buffer := new Byte[16 * (1 + depth * n + |key.leafVals|) + depth * n](_ => BitByte(false));
    var read;
    ok, read := WriteAndRead(n, key, buffer);
    ok, out, t := RegularKeys.ExpandKey(crypto, partyIdx, domain, read, n);
  }

  // Interactive expansion on one supply of transfers, key generation on another and offline
  // expansion of the keys: the same outputs and tags.
  method ExpansionsAgree(crypto: Crypto, d0: RegularDpf, d1: RegularDpf, e0: RegularDpf, e1: RegularDpf, points0: seq<nat>,
                         points1: seq<nat>, values0: seq<Block>, values1: seq<Block>, seed0: Block, seed1: Block)
    returns (out0: seq<seq<Block>>, out1: seq<seq<Block>>, t0: seq<seq<bool>>, t1: seq<seq<bool>>,
             offline0: seq<seq<Block>>, offline1: seq<seq<Block>>, tags0: seq<seq<bool>>, tags1: seq<seq<bool>>)
    requires Paired(d0, d1) && Configured(d0) && CanMultiply(d0) && Paired(e0, e1) && Configured(e0) && CanMultiply(e0)
    requires d0.domain == e0.domain && d0.depth == e0.depth && d0.numPoints == e0.numPoints && {d0.mult, d1.mult} !! {e0.mult, e1.mult}
    requires |points0| == |points1| == d0.numPoints && |values0| == |values1| && (|values0| == 0 || |values0| == d0.numPoints)
    modifies d0.mult`otIdx, d1.mult`otIdx, e0.mult`otIdx, e1.mult`otIdx
    ensures offline0 == out0 && offline1 == out1 && tags0 == t0 && tags1 == t1
  {
    hide JointKey, GammaOf, Nodes, MultsFor, KeyOutputs, KeyShape, MultsPaired;
    DepthUnique(e0.domain, e0.depth);
    MultsForIsProduct(d0.depth, d0.numPoints);
    var ok, key0, key1;
    ok, out0, out1, t0, t1 := Expand(crypto, d0, d1, points0, points1, values0, values1, seed0, seed1);
    ok, key0, key1 := RegularKeys.KeyGen(crypto, e0, e1, points0, points1, values0, values1, seed0, seed1);
    ok, offline0, tags0 := ThroughBytes(crypto, 0, e0.numPoints, e0.depth, e0.domain, key0);
    ok, offline1, tags1 := ThroughBytes(crypto, 1, e0.numPoints, e0.depth, e0.domain, key1);
  }

  // ---------- the point function ----------

  lemma {:induction false} SharedBits(p: nat, q: nat, r: nat, lo: nat, hi: nat)
    requires lo <= hi && forall b: nat {:trigger BitOf(r, b)} :: b < hi ==> BitOf(r, b) == (BitOf(p, b) != BitOf(q, b))
    ensures XorBits(p, q, lo, hi) == XorBits(r, 0, lo, hi)
    decreases hi - lo
  {
    if lo < hi {
      SharedBits(p, q, r, lo + 1, hi);
      RegularDealer.ZeroHasNoBits(lo);
      assert BitOf(r, lo) == (BitOf(p, lo) != BitOf(q, lo));
    }
  }

  lemma SharedPositions(depth: nat, points0: seq<nat>, points1: seq<nat>, points: seq<nat>,
                        values0: seq<Block>, values1: seq<Block>, values: seq<Block>)
    requires Shares(depth, points0, points1, points, values0, values1, values)
    requires forall k {:trigger points[k]} :: 0 <= k < |points| ==> points[k] < Nodes(Two, depth)
    ensures Positions(points0, points1, 0, depth) == points
  {
    hide BitOf, Nodes, XorBits, Xor;
    forall k | 0 <= k < |points|
      ensures Positions(points0, points1, 0, depth)[k] == points[k]
    {
      SharedBits(points0[k], points1[k], points[k], 0, depth);
      AllBits(points[k], depth);
    }
  }

  // Interactive expansion on shares of points, which the tree has leaves for, and values: the outputs XOR to the value at
  // the point and to zero elsewhere, and the tags differ exactly at the point.
  method ExpandReconstructs(crypto: Crypto, d0: RegularDpf, d1: RegularDpf, points0: seq<nat>, points1: seq<nat>, values0: seq<Block>,
                            values1: seq<Block>, seed0: Block, seed1: Block, ghost points: seq<nat>, ghost values: seq<Block>)
    returns (out0: seq<seq<Block>>, out1: seq<seq<Block>>, t0: seq<seq<bool>>, t1: seq<seq<bool>>)
    requires Paired(d0, d1) && Configured(d0) && CanMultiply(d0) && |points| == d0.numPoints
    requires Shares(d0.depth, points0, points1, points, values0, values1, values)
    requires forall k {:trigger points[k]} :: 0 <= k < |points| ==> points[k] < Nodes(Two, d0.depth)
    modifies d0.mult`otIdx, d1.mult`otIdx
    ensures Table(d0.domain, d0.numPoints, out0) && Table(d0.domain, d0.numPoints, out1)
    ensures Table(d0.domain, d0.numPoints, t0) && Table(d0.domain, d0.numPoints, t1)
    ensures forall r, k {:trigger out0[r][k]} {:trigger out1[r][k]} :: 0 <= r < d0.domain && 0 <= k < d0.numPoints ==>
      Xor(out0[r][k], out1[r][k]) == if r == points[k] then values[k] else ZERO
    ensures forall r, k {:trigger t0[r][k]} {:trigger t1[r][k]} :: 0 <= r < d0.domain && 0 <= k < d0.numPoints ==>
      (t0[r][k] != t1[r][k] <==> r == points[k])
  {
    hide GammaOf, ExpandsTo, Nodes, Xor, BitOf, Positions, MultsPaired, MultsFor;
    MultsForIsProduct(d0.depth, d0.numPoints);
    var ok;
    ok, out0, out1, t0, t1 := Expand(crypto, d0, d1, points0, points1, values0, values1, seed0, seed1);
    SharedPositions(d0.depth, points0, points1, points, values0, values1, values);
    RegularKeys.ExpansionsShare(crypto, InputsOf(d0, points0, points1, seed0, seed1), d0.domain, values0, values1, out0, out1, t0, t1);
  }
}

/**
 Whole runs of the sparse protocol (SparseDpf.h lines 221 to 515) for every dense depth: one
 secret point among the listed points of each row.
 */
module SparseExpand {
  import opened Blocks
  import opened DpfMult
  import opened DpfLevels
  import opened DpfBuffers
  import opened RegularJoint
  import opened SparseSplit
  import opened SparseTree
  import opened SparsePair
  import opened SparseLevels
  import opened SparsePath
  import opened SparsePlant
  import opened SparseDpf
  import opened SparseLeaves
  import opened SparseStart
  import opened SparseDense
  import opened SparseEnds
  import RegularDpf
  import RegularExpand

  // ---------- the end of a run ----------

  lemma StillPreset(row: seq<nat>, depth: nat, a: nat, p0: seq<Block>, p1: seq<Block>, q0: seq<bool>, q1: seq<bool>, loc: seq<(nat, nat)>,
                    loc': seq<(nat, nat)>)
    requires PresetOk(row, depth, a, p0, p1, q0, q1, loc) && SameInside(depth, loc, loc')
    ensures PresetOk(row, depth, a, p0, p1, q0, q1, loc')
  {
    forall x {:trigger p0[x]} {:trigger q0[x]} | 0 <= x < |row| && loc'[x].0 > depth
      ensures (x != a ==> p0[x] == p1[x]) && (q0[x] != q1[x] <==> x == a)
    {
      assert loc[x].0 > depth;
    }
  }

  // The outputs of one row, for a secret point in the trees or outside.
  ghost predicate RowFinished(row: seq<nat>, depth: nat, a: nat, v0: Block, v1: Block, p0: seq<Block>, p1: seq<Block>,
                              out0: seq<Block>, out1: seq<Block>, tags0: seq<bool>, tags1: seq<bool>) {
    && a < |row| == |p0| == |p1|
    && RowShares(|row|, a, SharedValue(v0, v1, Lone(row, depth, a), p0[a], p1[a]), out0, out1, tags0, tags1)
  }

  method FinishRows(rows: seq<seq<nat>>, depth: nat, trees0: seq<Tree>, trees1: seq<Tree>, values0: seq<Block>, values1: seq<Block>,
                    p0: seq<seq<Block>>, p1: seq<seq<Block>>, q0: seq<seq<bool>>, q1: seq<seq<bool>>,
                    ghost secret: seq<nat>, ghost start0: seq<Tree>, ghost start1: seq<Tree>,
                    ghost locs: seq<seq<(nat, nat)>>, ghost locs': seq<seq<(nat, nat)>>)
    returns (out0: seq<seq<Block>>, tags0: seq<seq<bool>>, out1: seq<seq<Block>>, tags1: seq<seq<bool>>, ghost leaf0: seq<seq<Block>>,
             ghost leaf1: seq<seq<Block>>, ghost gamma: seq<Block>)
    requires Started(rows, depth, secret, start0, start1, locs, p0, p1, q0, q1) && AllInside(depth, locs, locs')
    requires AllTogether(rows, depth, secret, trees0, trees1, 0, false, locs') && |values0| == |values1| == |rows|
    ensures |out0| == |tags0| == |out1| == |tags1| == |rows|
    ensures forall r {:trigger out0[r]} :: 0 <= r < |rows| ==>
      RowFinished(rows[r], depth, secret[r], values0[r], values1[r], p0[r], p1[r], out0[r], out1[r], tags0[r], tags1[r])
    ensures |leaf0| == |leaf1| == |gamma| == |rows|
    ensures forall r {:trigger out0[r]} :: 0 <= r < |rows| ==>
      EndsOfRow(rows[r], depth, trees0[r], p0[r], q0[r], locs'[r], leaf0[r], gamma[r], out0[r], tags0[r])
    ensures forall r {:trigger out1[r]} :: 0 <= r < |rows| ==>
      EndsOfRow(rows[r], depth, trees1[r], p1[r], q1[r], locs'[r], leaf1[r], gamma[r], out1[r], tags1[r])
  {
    hide RowTogether, RowShares, Xor, Planted, PresetOk, SameInside, Lone, AllHeld, Masked;
    out0, tags0, out1, tags1 := [], [], [], [];
    leaf0, leaf1, gamma := [], [], [];
    var r := 0;
    while r < |rows|
      invariant r <= |rows| && |out0| == |tags0| == |out1| == |tags1| == r
      invariant forall k {:trigger out0[k]} :: 0 <= k < r ==>
        RowFinished(rows[k], depth, secret[k], values0[k], values1[k], p0[k], p1[k], out0[k], out1[k], tags0[k], tags1[k])
      invariant |leaf0| == |leaf1| == |gamma| == r
      invariant forall k {:trigger out0[k]} :: 0 <= k < r ==>
        EndsOfRow(rows[k], depth, trees0[k], p0[k], q0[k], locs'[k], leaf0[k], gamma[k], out0[k], tags0[k])
      invariant forall k {:trigger out1[k]} :: 0 <= k < r ==>
        EndsOfRow(rows[k], depth, trees1[k], p1[k], q1[k], locs'[k], leaf1[k], gamma[k], out1[k], tags1[k])
    {
      assert RowTogether(rows[r], depth, secret[r], trees0[r], trees1[r], 0, false, locs'[r]);
      assert RowStarted(rows[r], depth, secret[r], start0[r], start1[r], locs[r], p0[r], p1[r], q0[r], q1[r]);
      assert SameInside(depth, locs[r], locs'[r]);
      StillPreset(rows[r], depth, secret[r], p0[r], p1[r], q0[r], q1[r], locs[r], locs'[r]);
      PresetLengths(rows[r], depth, secret[r], p0[r], p1[r], q0[r], q1[r], locs[r], locs'[r]);
      assert locs'[r][secret[r]].0 > depth <==> Lone(rows[r], depth, secret[r]);
      var x0, u0, x1, u1;
      ghost var l0, l1, g;
      x0, u0, x1, u1, l0, l1, g := FinishRow(rows[r], depth, secret[r], trees0[r], trees1[r], values0[r], values1[r], locs'[r], p0[r],
                                             p1[r], q0[r], q1[r]);
      out0, tags0, out1, tags1 := out0 + [x0], tags0 + [u0], out1 + [x1], tags1 + [u1];
      leaf0, leaf1, gamma := leaf0 + [l0], leaf1 + [l1], gamma + [g];
      r := r + 1;
    }
  }

  lemma PresetLengths(row: seq<nat>, depth: nat, a: nat, p0: seq<Block>, p1: seq<Block>, q0: seq<bool>, q1: seq<bool>, loc: seq<(nat, nat)>,
                      loc': seq<(nat, nat)>)
    requires PresetOk(row, depth, a, p0, p1, q0, q1, loc) && SameInside(depth, loc, loc') && a < |row|
    ensures |row| == |p0| == |p1| == |q0| == |q1| == |loc| == |loc'| && (loc'[a].0 > depth <==> loc[a].0 > depth)
  {
  }

  // ---------- the inputs ----------

  // The listed points of every row: increasing, below domain, and at least two if no dense
  // tree splits them up.
  ghost predicate RowsOk(rows: seq<seq<nat>>, domain: nat, dense: bool) {
    forall r {:trigger rows[r]} :: 0 <= r < |rows| ==>
      Increasing(rows[r]) && (dense || |rows[r]| > 1) && (forall i {:trigger rows[r][i]} :: 0 <= i < |rows[r]| ==> rows[r][i] < domain)
  }

  lemma {:induction false} BelowDepth(x: nat, d: nat)
    requires x < Nodes(Two, d)
    ensures High(x, d) == 0
  {
    if d > 0 {
      BelowDepth(x / 2, d - 1);
    }
  }

  lemma RowsGood(rows: seq<seq<nat>>, domain: nat, depth: nat, r: nat)
    requires RowsOk(rows, domain, false) && domain <= Nodes(Two, depth) && r < |rows|
    ensures GoodRow(rows[r], depth)
  {
    forall i {:trigger rows[r][i]} | 0 <= i < |rows[r]|
      ensures High(rows[r][i], depth) == 0
    {
      BelowDepth(rows[r][i], depth);
    }
  }

  // The dense trees of two parties, configured by Init.
  ghost predicate DensePaired(d0: SparseDpf, d1: SparseDpf)
    reads d0, d1, d0.reg, d1.reg, d0.reg.mult, d1.reg.mult
  {
    && RegularDpf.Paired(d0.reg, d1.reg) && RegularExpand.Configured(d0.reg)
    && d0.reg.numPoints == d0.numPoints && d0.reg.depth == d0.denseDepth && d0.reg.domain == Nodes(Two, d0.denseDepth)
  }

  // Two parties that can run the protocol.
  ghost predicate BothReady(d0: SparseDpf, d1: SparseDpf)
    reads d0, d1, d0.mult, d1.mult, d0.reg, d1.reg, d0.reg.mult, d1.reg.mult
  {
    && PartiesPaired(d0, d1) && d0.domain > 1 && d0.denseDepth <= RegularDpf.CeilLog2(d0.domain)
    && (d0.denseDepth > 0 ==> DensePaired(d0, d1))
    && {d0.mult, d1.mult} !! {d0.reg.mult, d1.reg.mult}
  }

  // The multiplications left suffice for the dense levels and the used ones below them.
  ghost predicate CanRun(d: SparseDpf, rows: seq<seq<nat>>)
    requires d.domain > 0 && d.denseDepth <= RegularDpf.CeilLog2(d.domain)
    reads d, d.mult, d.reg, d.reg.mult
  {
    (d.denseDepth > 0 ==> RegularExpand.CanMultiply(d.reg)) && CanMultiply(d, LevelsUsed(rows, d.SparseDepth()))
  }

  // All transfers that SetBaseOts asks for are there, and none is used.
  ghost predicate Supplied(m: DpfMult, levels: nat, n: nat)
    reads m
  {
    m.otIdx == 0 && |m.choiceBits| == m.totalMults == MultsFor(levels, n)
  }

  // What a run costs: the multiplications of the dense levels, and as many for every level below
  // them on which two neighbours of some row separate.
  lemma RunCost(d: SparseDpf, rows: seq<seq<nat>>, used: set<nat>)
    requires d.domain > 0 && d.denseDepth <= RegularDpf.CeilLog2(d.domain)
    requires d.denseDepth > 0 ==> d.reg.numPoints == d.numPoints && d.reg.depth == d.denseDepth
    requires forall p: nat {:trigger p in used} :: p in used <==>
      0 < p <= d.SparseDepth() && exists r: nat, x: nat {:trigger SplitPair(rows[r], x, p)} :: r < |rows| && SplitPair(rows[r], x, p)
    ensures |used| == LevelsUsed(rows, d.SparseDepth()) && MultsFor(|used|, d.numPoints) == d.numPoints * |used|
    ensures CanRun(d, rows) <==>
      && (d.denseDepth > 0 ==> |d.reg.mult.choiceBits| > 0 && d.reg.mult.otIdx + d.numPoints * d.denseDepth <= d.reg.mult.totalMults)
      && (|used| > 0 ==> |d.mult.choiceBits| > 0 && d.mult.otIdx + d.numPoints * |used| <= d.mult.totalMults)
  {
    hide LevelUsed, SplitPair;
    forall p: nat {:trigger p in used}
      ensures p in used <==> 0 < p <= d.SparseDepth() && LevelUsed(rows, p)
    {
      UsedByRow(rows, p);
    }
    LevelsUsedCounts(rows, d.SparseDepth(), used);
    MultsForIsProduct(|used|, d.numPoints);
    RegularExpand.ProductOfMults(d.reg);
  }

  // They suffice for all rows.
  lemma SuppliedCanRun(d: SparseDpf, rows: seq<seq<nat>>)
    requires d.domain > 0 && d.denseDepth <= RegularDpf.CeilLog2(d.domain) && |rows| == d.numPoints
    requires Supplied(d.mult, d.SparseDepth(), d.numPoints)
    requires d.denseDepth > 0 ==> RegularExpand.Configured(d.reg) && Supplied(d.reg.mult, d.reg.depth, d.reg.numPoints)
    ensures CanRun(d, rows)
  {
    hide LevelsUsed;
    var depth := d.SparseDepth();
    LevelsUsedGrows(rows, 0, depth);
    LevelsUsedZero(rows);
    NoRowsNoLevels(rows, depth);
    MultsForGrows(LevelsUsed(rows, depth), depth, d.numPoints);
  }

  lemma SecretsBelow(points0: seq<nat>, points1: seq<nat>, rows: seq<seq<nat>>, secret: seq<nat>, levels: nat, depth: nat)
    requires SecretsShared(points0, points1, rows, secret, levels) && depth <= levels
    ensures SecretsShared(points0, points1, rows, secret, depth)
  {
    hide BitOf;
  }

  // A lone secret point starts with the leaves of its bin in the dense tree.
  ghost predicate StartsWithLeaves(crypto: Crypto, i: Inputs, row: seq<nat>, depth: nat, a: nat, r: nat, p0: seq<Block>, p1: seq<Block>) {
    && a < |row| == |p0| == |p1|
    && (Lone(row, depth, a) ==>
          var b := High(row[a], depth);
          HasBin(i, b, r) && p0[a] == DenseLeaf(crypto, i, false, b, r) && p1[a] == DenseLeaf(crypto, i, true, b, r))
  }

  lemma SecretLeaves(crypto: Crypto, i: Inputs, row: seq<nat>, depth: nat, a: nat, r: nat, s0: seq<Block>, s1: seq<Block>, p0: seq<Block>,
                     p1: seq<Block>)
    requires FromLeaves(crypto, i, r, s0, s1) && PresetSecret(row, depth, a, s0, s1, p0, p1)
    ensures StartsWithLeaves(crypto, i, row, depth, a, r, p0, p1)
  {
    hide High, Lone, Nodes, DenseLeaf;
  }

  // What the outputs of row r share at the secret point: the row's value, off by the
  // difference of the two leaves in the bin if no other listed point shares the bin.
  ghost function ValueShared(crypto: Crypto, i: Inputs, row: seq<nat>, depth: nat, a: nat, r: nat, v0: Block, v1: Block): Block
    requires a < |row|
  {
    var b := High(row[a], depth);
    if Lone(row, depth, a) && HasBin(i, b, r) then
      Xor(Xor(DenseLeaf(crypto, i, false, b, r), DenseLeaf(crypto, i, true, b, r)), Xor(v0, v1))
    else Xor(v0, v1)
  }

  // The value of a row is right exactly when nothing is missing.
  lemma ValueRight(size: nat, a: nat, v0: Block, v1: Block, lone: bool, x: Block, y: Block, out0: seq<Block>, out1: seq<Block>,
                   tags0: seq<bool>, tags1: seq<bool>)
    requires a < size && RowShares(size, a, SharedValue(v0, v1, lone, x, y), out0, out1, tags0, tags1)
    ensures RowShares(size, a, Xor(v0, v1), out0, out1, tags0, tags1) <==> !lone || x == y
  {
    var v := Xor(v0, v1);
    if lone {
      if Xor(Xor(x, y), v) == v {
        XorBack(Xor(x, y), v);
        XorZeroMeansEqual(x, y);
      }
      if x == y {
        hide Xor;
        XorSelf(x);
        XorComm(ZERO, v);
        XorZero(v);
      }
    }
    hide Xor;
    assert Xor(out0[a], out1[a]) == SharedValue(v0, v1, lone, x, y);
  }

  lemma XorBack(d: Block, v: Block)
    requires Xor(d, v) == v
    ensures d == ZERO
  {
    hide Xor;
    XorAssoc(d, v, v);
    XorSelf(v);
    XorZero(d);
  }

  // ---------- a whole run ----------

  // The rows at the start: one root each, or the bins of the dense trees.
  method Start(hash: Block -> Block, crypto: Crypto, d0: SparseDpf, d1: SparseDpf, points0: seq<nat>, points1: seq<nat>,
               rows: seq<seq<nat>>, seed0: Block, seed1: Block, rand0: nat -> Block, rand1: nat -> Block, depth: nat,
               ghost secret: seq<nat>)
    returns (ok: bool, trees0: seq<Tree>, trees1: seq<Tree>, p0: seq<seq<Block>>, p1: seq<seq<Block>>, q0: seq<seq<bool>>,
             q1: seq<seq<bool>>, next: nat, ghost locs: seq<seq<(nat, nat)>>, ghost s0: seq<seq<Block>>, ghost s1: seq<seq<Block>>,
             ghost u0: seq<seq<bool>>, ghost u1: seq<seq<bool>>)
    requires BothReady(d0, d1) && |points0| == |points1| == |rows| == |secret| == d0.numPoints && depth == d0.SparseDepth()
    requires SecretsShared(points0, points1, rows, secret, RegularDpf.CeilLog2(d0.domain)) && RowsOk(rows, d0.domain, d0.denseDepth > 0)
    modifies d0.reg.mult`otIdx, d1.reg.mult`otIdx
    ensures ok <==> (d0.denseDepth > 0 ==> old(RegularExpand.CanMultiply(d0.reg)))
    ensures ok && d0.denseDepth == 0 ==> AllRooted(rows, trees0, locs, rand0, false) && AllRooted(rows, trees1, locs, rand1, true)
    ensures ok && d0.denseDepth > 0 ==> var i := DenseInputs(d0.reg, points0, points1, depth, seed0, seed1);
                   && AllFromBins(hash, crypto, i, rows, depth, trees0, locs, s0, u0, p0, q0, false)
                   && AllFromBins(hash, crypto, i, rows, depth, trees1, locs, s1, u1, p1, q1, true)
    ensures ok ==> Started(rows, depth, secret, trees0, trees1, locs, p0, p1, q0, q1)
    ensures ok ==> var i := DenseInputs(d0.reg, points0, points1, depth, seed0, seed1);
                   forall r {:trigger p0[r]} :: 0 <= r < |rows| ==> StartsWithLeaves(crypto, i, rows[r], depth, secret[r], r, p0[r], p1[r])
    ensures ok && d0.denseDepth == 0 ==> forall r {:trigger rows[r]} :: 0 <= r < |rows| ==> !Lone(rows[r], depth, secret[r])
  {
    hide RowsOk, Started, SecretsShared, DenseShared, FromLeaves, PartiesPaired, Lone, PresetSecret, Nodes, StartsWithLeaves;
    hide FromBins, OfKey, AllRooted, AllFromBins;
    trees0, trees1, p0, p1, q0, q1, next, locs, s0, s1, u0, u1 := [], [], [], [], [], [], 0, [], [], [], [], [];
    InSecretRows(points0, points1, rows, secret, RegularDpf.CeilLog2(d0.domain));
    if d0.denseDepth > 0 {
      DomainBelow(rows, d0.domain, depth, d0.denseDepth);
      var x0, x1, y0, y1;
      RegularExpand.ProductOfMults(d0.reg);
      ok, x0, x1, y0, y1 := Dense(crypto, d0.reg, d1.reg, points0, points1, depth, seed0, seed1, rows, secret);
      if !ok {
        return;
      }
      trees0, trees1, p0, p1, q0, q1, locs := PlantDense(hash, rows, depth, secret, x0, x1, y0, y1);
      s0, s1, u0, u1 := x0, x1, y0, y1;
      StartedSizes(rows, depth, secret, trees0, trees1, locs, p0, p1, q0, q1);
      ghost var i := DenseInputs(d0.reg, points0, points1, depth, seed0, seed1);
      StartsFromBins(hash, crypto, i, rows, depth, trees0, locs, s0, u0, p0, q0, false);
      StartsFromBins(hash, crypto, i, rows, depth, trees1, locs, s1, u1, p1, q1, true);
      AllSecretLeaves(crypto, i, rows, depth, secret, s0, s1, p0, p1);
    } else {
      ok := true;
      GoodRows(rows, d0.domain, depth);
      trees0, trees1, p0, q0, next, locs := PlantRows(rows, depth, rand0, rand1, secret);
      p1, q1 := p0, q0;
      StartedSizes(rows, depth, secret, trees0, trees1, locs, p0, p1, q0, q1);
      NoneLone(rows, depth, secret);
      NoLeaves(crypto, DenseInputs(d0.reg, points0, points1, depth, seed0, seed1), rows, depth, secret, p0, p1);
    }
  }

  lemma InSecretRows(points0: seq<nat>, points1: seq<nat>, rows: seq<seq<nat>>, secret: seq<nat>, depth: nat)
    requires SecretsShared(points0, points1, rows, secret, depth)
    ensures |secret| == |rows| && forall r {:trigger secret[r]} :: 0 <= r < |rows| ==> secret[r] < |rows[r]|
  {
    hide BitOf;
  }

  lemma DomainBelow(rows: seq<seq<nat>>, domain: nat, depth: nat, dense: nat)
    requires RowsOk(rows, domain, true) && domain > 0 && RegularDpf.CeilLog2(domain) == depth + dense
    ensures forall r, x {:trigger rows[r][x]} :: 0 <= r < |rows| && 0 <= x < |rows[r]| ==> rows[r][x] < Nodes(Two, depth + dense)
    ensures forall r {:trigger rows[r]} :: 0 <= r < |rows| ==> Increasing(rows[r])
  {
    hide Increasing, Nodes;
  }

  lemma GoodRows(rows: seq<seq<nat>>, domain: nat, depth: nat)
    requires RowsOk(rows, domain, false) && domain > 0 && RegularDpf.CeilLog2(domain) == depth
    ensures forall r {:trigger rows[r]} :: 0 <= r < |rows| ==> GoodRow(rows[r], depth)
  {
    hide RowsOk, GoodRow, Nodes;
    forall r {:trigger rows[r]} | 0 <= r < |rows|
      ensures GoodRow(rows[r], depth)
    {
      RowsGood(rows, domain, depth, r);
    }
  }

  lemma NoneLone(rows: seq<seq<nat>>, depth: nat, secret: seq<nat>)
    requires |secret| == |rows| && (forall r {:trigger secret[r]} :: 0 <= r < |rows| ==> secret[r] < |rows[r]|)
    requires forall r {:trigger rows[r]} :: 0 <= r < |rows| ==> GoodRow(rows[r], depth)
    ensures forall r {:trigger rows[r]} :: 0 <= r < |rows| ==> !Lone(rows[r], depth, secret[r])
  {
    hide High, Increasing;
    forall r {:trigger rows[r]} | 0 <= r < |rows|
      ensures !Lone(rows[r], depth, secret[r])
    {
      assert secret[r] < |rows[r]|;
      var y := if secret[r] == 0 then 1 else 0;
      assert High(rows[r][y], depth) == High(rows[r][secret[r]], depth);
    }
  }

  lemma StartedSizes(rows: seq<seq<nat>>, depth: nat, secret: seq<nat>, trees0: seq<Tree>, trees1: seq<Tree>, locs: seq<seq<(nat, nat)>>,
                     p0: seq<seq<Block>>, p1: seq<seq<Block>>, q0: seq<seq<bool>>, q1: seq<seq<bool>>)
    requires Started(rows, depth, secret, trees0, trees1, locs, p0, p1, q0, q1)
    ensures |rows| == |secret| == |trees0| == |trees1| == |locs| == |p0| == |p1| == |q0| == |q1|
    ensures forall r {:trigger p0[r]} :: 0 <= r < |rows| ==> secret[r] < |rows[r]| == |p0[r]| == |p1[r]|
  {
    hide Planted, Lone;
    forall r {:trigger p0[r]} | 0 <= r < |rows|
      ensures secret[r] < |rows[r]| == |p0[r]| == |p1[r]|
    {
      assert RowStarted(rows[r], depth, secret[r], trees0[r], trees1[r], locs[r], p0[r], p1[r], q0[r], q1[r]);
    }
  }

  lemma AllSecretLeaves(crypto: Crypto, i: Inputs, rows: seq<seq<nat>>, depth: nat, secret: seq<nat>, s0: seq<seq<Block>>,
                        s1: seq<seq<Block>>, p0: seq<seq<Block>>, p1: seq<seq<Block>>)
    requires |rows| == |secret| == |s0| == |s1| == |p0| == |p1|
    requires forall r {:trigger s0[r]} :: 0 <= r < |rows| ==> FromLeaves(crypto, i, r, s0[r], s1[r])
    requires forall r {:trigger p0[r]} :: 0 <= r < |rows| ==> PresetSecret(rows[r], depth, secret[r], s0[r], s1[r], p0[r], p1[r])
    ensures forall r {:trigger p0[r]} :: 0 <= r < |rows| ==> StartsWithLeaves(crypto, i, rows[r], depth, secret[r], r, p0[r], p1[r])
  {
    hide FromLeaves, PresetSecret, StartsWithLeaves;
    forall r {:trigger p0[r]} | 0 <= r < |rows|
      ensures StartsWithLeaves(crypto, i, rows[r], depth, secret[r], r, p0[r], p1[r])
    {
      assert FromLeaves(crypto, i, r, s0[r], s1[r]);
      SecretLeaves(crypto, i, rows[r], depth, secret[r], r, s0[r], s1[r], p0[r], p1[r]);
    }
  }

  lemma NoLeaves(crypto: Crypto, i: Inputs, rows: seq<seq<nat>>, depth: nat, secret: seq<nat>, p0: seq<seq<Block>>, p1: seq<seq<Block>>)
    requires |rows| == |secret| == |p0| == |p1|
    requires forall r {:trigger p0[r]} :: 0 <= r < |rows| ==> secret[r] < |rows[r]| == |p0[r]| == |p1[r]|
    requires forall r {:trigger rows[r]} :: 0 <= r < |rows| ==> secret[r] < |rows[r]| && !Lone(rows[r], depth, secret[r])
    ensures forall r {:trigger p0[r]} :: 0 <= r < |rows| ==> StartsWithLeaves(crypto, i, rows[r], depth, secret[r], r, p0[r], p1[r])
  {
    hide Lone, High;
  }

  // The outputs of row r share the value v at the row's secret point.
  ghost predicate ShareRow(rows: seq<seq<nat>>, secret: seq<nat>, r: nat, v: Block,
                           out0: seq<seq<Block>>, out1: seq<seq<Block>>, tags0: seq<seq<bool>>, tags1: seq<seq<bool>>) {
    && r < |rows| == |secret| == |out0| == |out1| == |tags0| == |tags1|
    && RowShares(|rows[r]|, secret[r], v, out0[r], out1[r], tags0[r], tags1[r])
  }

  // The two leaves in the bin of row r's secret point are the same.
  ghost predicate BinMeets(crypto: Crypto, i: Inputs, rows: seq<seq<nat>>, secret: seq<nat>, depth: nat, r: nat)
    requires r < |rows| == |secret| && secret[r] < |rows[r]|
  {
    LeavesMeet(crypto, i, High(rows[r][secret[r]], depth), r)
  }

  // What a run promises for row r.
  ghost predicate RowResult(crypto: Crypto, i: Inputs, rows: seq<seq<nat>>, depth: nat, secret: seq<nat>, r: nat, v0: Block, v1: Block,
                            out0: seq<seq<Block>>, out1: seq<seq<Block>>, tags0: seq<seq<bool>>, tags1: seq<seq<bool>>) {
    && r < |rows| == |secret| && secret[r] < |rows[r]|
    && ShareRow(rows, secret, r, ValueShared(crypto, i, rows[r], depth, secret[r], r, v0, v1), out0, out1, tags0, tags1)
    && (ShareRow(rows, secret, r, Xor(v0, v1), out0, out1, tags0, tags1) <==>
        !Lone(rows[r], depth, secret[r]) || BinMeets(crypto, i, rows, secret, depth, r))
  }

  // One row at the end of a run.
  lemma RowRight(crypto: Crypto, i: Inputs, rows: seq<seq<nat>>, depth: nat, secret: seq<nat>, r: nat, v0: Block, v1: Block, p0: seq<Block>,
                 p1: seq<Block>, out0: seq<seq<Block>>, out1: seq<seq<Block>>, tags0: seq<seq<bool>>, tags1: seq<seq<bool>>)
    requires r < |rows| == |secret| == |out0| == |out1| == |tags0| == |tags1|
    requires RowFinished(rows[r], depth, secret[r], v0, v1, p0, p1, out0[r], out1[r], tags0[r], tags1[r])
    requires StartsWithLeaves(crypto, i, rows[r], depth, secret[r], r, p0, p1)
    ensures RowResult(crypto, i, rows, depth, secret, r, v0, v1, out0, out1, tags0, tags1)
  {
    hide RowShares, Xor, Lone, High, DenseLeaf, HasBin;
    var a := secret[r];
    ValueRight(|rows[r]|, a, v0, v1, Lone(rows[r], depth, a), p0[a], p1[a], out0[r], out1[r], tags0[r], tags1[r]);
  }

  // expand, run by both parties.  Every row's outputs share a value at the secret point and
  // zero at the other listed points.  It is the row's value if another listed point shares
  // the secret point's bin, which is always so without a dense tree; otherwise it is off by
  // the difference of the two leaves in the bin.
  method Expand(hash: Block -> Block, crypto: Crypto, d0: SparseDpf, d1: SparseDpf, points0: seq<nat>, points1: seq<nat>,
                values0: seq<Block>, values1: seq<Block>, rows: seq<seq<nat>>, seed0: Block, seed1: Block,
                rand0: nat -> Block, rand1: nat -> Block, ghost secret: seq<nat>)
    returns (ok: bool, out0: seq<seq<Block>>, tags0: seq<seq<bool>>, out1: seq<seq<Block>>, tags1: seq<seq<bool>>,
             ghost words0: seq<Words>, ghost words1: seq<Words>, ghost gamma: seq<Block>)
    requires BothReady(d0, d1) && |rows| == |values0| == |values1| == d0.numPoints && |points0| == |points1|
    requires RowsOk(rows, d0.domain, d0.denseDepth > 0)
    requires |points0| == |rows| ==> SecretsShared(points0, points1, rows, secret, RegularDpf.CeilLog2(d0.domain))
    modifies d0.mult`otIdx, d1.mult`otIdx, d0.reg.mult`otIdx, d1.reg.mult`otIdx
    ensures PartiesPaired(d0, d1)
    ensures ok <==> |points0| == d0.numPoints && old(CanRun(d0, rows))
    ensures ok ==> d0.mult.otIdx == old(d0.mult.otIdx) + MultsFor(LevelsUsed(rows, d0.SparseDepth()), d0.numPoints)
    ensures ok ==> |out0| == |tags0| == |out1| == |tags1| == |rows| == |secret|
    ensures ok ==> var depth := d0.SparseDepth();
                   var i := DenseInputs(d0.reg, points0, points1, depth, seed0, seed1);
                   forall r {:trigger values0[r]} :: 0 <= r < |rows| ==>
                     RowResult(crypto, i, rows, depth, secret, r, values0[r], values1[r], out0, out1, tags0, tags1)
    ensures ok && d0.denseDepth == 0 ==> forall r {:trigger rows[r]} :: 0 <= r < |rows| ==> !Lone(rows[r], d0.SparseDepth(), secret[r])
    ensures ok ==> |words0| == |words1| == |gamma| == |rows|
    ensures ok && d0.denseDepth == 0 ==> forall r {:trigger out0[r]} {:trigger out1[r]} :: 0 <= r < |rows| ==>
      && RowFromRoot(hash, rows[r], words0[r], (rand0(2 * r), rand0(2 * r + 1)), false, gamma[r], out0[r], tags0[r])
      && RowFromRoot(hash, rows[r], words1[r], (rand1(2 * r), rand1(2 * r + 1)), true, gamma[r], out1[r], tags1[r])
    ensures ok && d0.denseDepth > 0 ==> var depth := d0.SparseDepth();
      var i := DenseInputs(d0.reg, points0, points1, depth, seed0, seed1);
      forall r {:trigger out0[r]} {:trigger out1[r]} :: 0 <= r < |rows| ==>
        && RowFromBins(hash, crypto, i, false, r, rows[r], depth, words0[r], gamma[r], out0[r], tags0[r])
        && RowFromBins(hash, crypto, i, true, r, rows[r], depth, words1[r], gamma[r], out1[r], tags1[r])
  {
    hide AllRooted, AllFromBins, RowFromRoot, RowFromBins, AllTraced, EndsOfRow, AllRun;
    words0, words1, gamma := [], [], [];
    hide RowTogether, Xor, MultsPaired, RowsOk, CanMultiply, BitOf;
    hide Started, SecretsShared, Lone, RegularExpand.CanMultiply, AllInside, LevelsUsed;
    hide StartsWithLeaves, RowResult, RowFinished;
    out0, tags0, out1, tags1 := [], [], [], [];
    var levels := RegularDpf.Log2Ceil(d0.domain);
    var depth := levels - d0.denseDepth;
    ok := |points0| == |rows|;
    if !ok {
      return;
    }
    InSecretRows(points0, points1, rows, secret, levels);
    var trees0, trees1, p0, p1, q0, q1, next;
    ghost var locs;
    ghost var s0, s1, u0, u1;
    ok, trees0, trees1, p0, p1, q0, q1, next, locs, s0, s1, u0, u1 := Start(hash, crypto, d0, d1, points0, points1, rows, seed0, seed1,
                                                                            rand0, rand1, depth, secret);
    if !ok {
      return;
    }
    ghost var start0, start1, start := trees0, trees1, locs;
    SecretsBelow(points0, points1, rows, secret, levels, depth);
    StartedTogether(rows, depth, secret, trees0, trees1, locs, p0, p1, q0, q1, depth > 0);
    StartedSizes(rows, depth, secret, trees0, trees1, locs, p0, p1, q0, q1);
    ok, trees0, trees1, locs := Climb(hash, d0, d1, points0, points1, rows, depth, trees0, trees1, rand0, rand1, next, secret, locs);
    if !ok {
      return;
    }
    ghost var leaf0, leaf1;
    out0, tags0, out1, tags1, leaf0, leaf1, gamma := FinishRows(rows, depth, trees0, trees1, values0, values1, p0, p1, q0, q1, secret,
                                                                start0, start1, start, locs);
    words0, words1 := WordsOf(trees0), WordsOf(trees1);
    ghost var i := DenseInputs(d0.reg, points0, points1, depth, seed0, seed1);
    RowsRun(hash, rows, depth, secret, start0, start, trees0, trees1, locs, p0, q0, leaf0, gamma, out0, tags0, false);
    RowsRun(hash, rows, depth, secret, start1, start, trees0, trees1, locs, p1, q1, leaf1, gamma, out1, tags1, true);
    if d0.denseDepth == 0 {
      RowsFromRoots(hash, rows, depth, start0, start, trees0, locs, p0, q0, leaf0, gamma, out0, tags0, rand0, false);
      RowsFromRoots(hash, rows, depth, start1, start, trees1, locs, p1, q1, leaf1, gamma, out1, tags1, rand1, true);
    } else {
      DomainBelow(rows, d0.domain, depth, d0.denseDepth);
      RowsFromBins(hash, crypto, i, rows, depth, start0, start, trees0, locs, s0, u0, p0, q0, leaf0, gamma, out0, tags0, false);
      RowsFromBins(hash, crypto, i, rows, depth, start1, start, trees1, locs, s1, u1, p1, q1, leaf1, gamma, out1, tags1, true);
    }
    forall r {:trigger values0[r]} | 0 <= r < |rows|
      ensures RowResult(crypto, i, rows, depth, secret, r, values0[r], values1[r], out0, out1, tags0, tags1)
    {
      assert RowFinished(rows[r], depth, secret[r], values0[r], values1[r], p0[r], p1[r], out0[r], out1[r], tags0[r], tags1[r]);
      assert StartsWithLeaves(crypto, i, rows[r], depth, secret[r], r, p0[r], p1[r]);
      RowRight(crypto, i, rows, depth, secret, r, values0[r], values1[r], p0[r], p1[r], out0, out1, tags0, tags1);
    }
  }
}

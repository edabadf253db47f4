/**
 A party of the sparse protocol and the loop over the levels of its trees (SparseDpf.h lines
 17 to 96 and 361 to 469), run by both parties.
 */
module SparseDpf {
  import opened Blocks
  import opened DpfMult
  import opened SparseTree
  import opened SparsePair
  import opened SparseLevels
  import opened SparsePath
  import opened SparseRow
  import opened ObliviousTransfer
  import opened DpfLevels
  import opened DpfBuffers
  import RegularDpf

  // The rows before row r that do not use level d.
  function Unused(trees: seq<Tree>, d: nat, r: nat): nat
    requires r <= |trees| && forall q {:trigger trees[q]} :: 0 <= q < |trees| ==> d < |trees[q].used|
  {
    if r == 0 then 0 else Unused(trees, d, r - 1) + if trees[r - 1].used[d] then 0 else 1
  }

  // The blocks that row r takes from the stream if it does not use level d.
  function FillAt(trees: seq<Tree>, d: nat, rand: nat -> Block, at: nat, r: nat): (Block, Block)
    requires r <= |trees| && forall q {:trigger trees[q]} :: 0 <= q < |trees| ==> d < |trees[q].used|
  {
    (rand(at + 2 * Unused(trees, d, r)), rand(at + 2 * Unused(trees, d, r) + 1))
  }

  lemma UnusedZero(trees: seq<Tree>, d: nat)
    requires forall q {:trigger trees[q]} :: 0 <= q < |trees| ==> d < |trees[q].used|
    ensures Unused(trees, d, 0) == 0
  {
  }

  lemma UnusedNext(trees: seq<Tree>, d: nat, rand: nat -> Block, at: nat, r: nat)
    requires r < |trees| && forall q {:trigger trees[q]} :: 0 <= q < |trees| ==> d < |trees[q].used|
    ensures Unused(trees, d, r + 1) == Unused(trees, d, r) + if trees[r].used[d] then 0 else 1
    ensures FillAt(trees, d, rand, at, r) == (rand(at + 2 * Unused(trees, d, r)), rand(at + 2 * Unused(trees, d, r) + 1))
  {
  }

  class SparseDpf {
    var partyIdx: nat
    var numPoints: nat
    var domain: nat
    var denseDepth: nat
    const reg: RegularDpf.RegularDpf
    const mult: DpfMult

    constructor ()
      ensures partyIdx == numPoints == domain == denseDepth == 0 && fresh(mult) && fresh(reg) && fresh(reg.mult) && mult != reg.mult
    {
      partyIdx, numPoints, domain, denseDepth := 0, 0, 0, 0;
      reg := new RegularDpf.RegularDpf();
      mult := new DpfMult();
    }

    // The levels below the dense tree.
    function SparseDepth(): nat
      requires domain > 0 && denseDepth <= RegularDpf.CeilLog2(domain)
      reads this
    {
      RegularDpf.CeilLog2(domain) - denseDepth
    }

    method Init(partyIdx: nat, numPoints: nat, domain: nat, denseDepth: nat) returns (ok: bool)
      requires domain > 0 && mult != reg.mult
      modifies this, mult, reg, reg.mult
      ensures this.partyIdx == partyIdx && this.numPoints == numPoints && this.domain == domain
      ensures this.denseDepth == if denseDepth < RegularDpf.CeilLog2(domain) then denseDepth else RegularDpf.CeilLog2(domain)
      ensures ok <==> partyIdx <= 1 && (this.denseDepth == 0 || numPoints > 0)
      ensures ok ==>
        mult.partyIdx == partyIdx && mult.totalMults == SparseDepth() * numPoints && mult.otIdx == 0 && mult.choiceBits == []
      ensures ok && this.denseDepth > 0 ==> reg.mult.partyIdx == partyIdx && reg.mult.totalMults == numPoints * this.denseDepth
                                            && reg.mult.otIdx == 0 && reg.mult.choiceBits == []
      ensures ok && this.denseDepth > 0 ==> reg.partyIdx == partyIdx && reg.numPoints == numPoints
      ensures ok && this.denseDepth > 0 ==> reg.depth == this.denseDepth && reg.domain == Nodes(Two, this.denseDepth)
    {
      hide Nodes, RegularDpf.CeilLog2;
      this.numPoints, this.partyIdx, this.domain := numPoints, partyIdx, domain;
      var levels := RegularDpf.Log2Ceil(domain);
      this.denseDepth := if denseDepth < levels then denseDepth else levels;
      var depth := levels - this.denseDepth;
      ok := mult.Init(partyIdx, depth * numPoints);
      if ok && this.denseDepth > 0 {
        PowerDepth(this.denseDepth);
        ok := reg.Init(partyIdx, Nodes(Two, this.denseDepth), numPoints);
      }
    }

    // The first transfers go to the dense tree, the others to the levels below it.
    method SetBaseOts(baseSendOts: seq<SendOt>, baseRecvOts: seq<Block>, baseChoices: seq<bool>) returns (ok: bool)
      requires domain > 0 && mult != reg.mult
      requires denseDepth <= RegularDpf.CeilLog2(domain) && reg.mult.totalMults == numPoints * denseDepth
      requires mult.totalMults == SparseDepth() * numPoints
      modifies mult, reg.mult
      ensures ok <==> |baseSendOts| == |baseRecvOts| == |baseChoices| == RegularDpf.CeilLog2(domain) * numPoints
      ensures mult.partyIdx == old(mult.partyIdx) && reg.mult.partyIdx == old(reg.mult.partyIdx)
      ensures mult.totalMults == old(mult.totalMults) && reg.mult.totalMults == old(reg.mult.totalMults)
      ensures ok ==> reg.mult.totalMults <= |baseSendOts| && mult.otIdx == 0
      ensures ok ==> mult.sendOts == baseSendOts[reg.mult.totalMults..] && mult.recvOts == baseRecvOts[reg.mult.totalMults..]
                     && mult.choiceBits == baseChoices[reg.mult.totalMults..]
      ensures ok && reg.mult.totalMults > 0 ==>
        && reg.mult.sendOts == baseSendOts[..reg.mult.totalMults] && reg.mult.recvOts == baseRecvOts[..reg.mult.totalMults]
        && reg.mult.choiceBits == baseChoices[..reg.mult.totalMults] && reg.mult.otIdx == 0
      ensures !ok ==> unchanged(mult) && unchanged(reg.mult)
    {
      var levels := RegularDpf.Log2Ceil(domain);
      SplitCount(denseDepth, levels - denseDepth, numPoints);
      var count := levels * numPoints;
      if |baseSendOts| != count || |baseRecvOts| != count || |baseChoices| != count {
        return false;
      }
      var denseCount := reg.mult.totalMults;
      if denseCount > 0 {
        ok := reg.mult.SetBaseOts(baseSendOts[..denseCount], baseRecvOts[..denseCount], baseChoices[..denseCount]);
      }
      ok := mult.SetBaseOts(baseSendOts[denseCount..], baseRecvOts[denseCount..], baseChoices[denseCount..]);
    }

    // One row: what a party feeds into the multiplication and reveals on level d.  A row
    // that does not use the level takes two random sums from the stream.
    method PrepareRow(point: nat, tree: Tree, d: nat, rand: nat -> Block, at: nat)
      returns (filled: Tree, negAlpha: bool, diff: Block, tau: (bool, bool), next: nat)
      requires 0 < d < |tree.z| == |tree.used|
      ensures filled == Filled(tree, d, (rand(at), rand(at + 1))) && next == at + (if tree.used[d] then 0 else 2)
      ensures |filled.z| == |tree.z| && filled.z[d] == if tree.used[d] then tree.z[d] else (rand(at), rand(at + 1))
      ensures negAlpha == (BitOf(point, d - 1) != (partyIdx != 0)) && diff == Xor(filled.z[d].0, filled.z[d].1)
      ensures tau == TauShare(partyIdx != 0, BitOf(point, d - 1), filled.z[d])
    {
      hide Xor, BitOf, Lsb;
      filled, next := tree, at;
      if !tree.used[d] {
        filled, next := tree.(z := tree.z[d := (rand(at), rand(at + 1))]), at + 2;
      }
      var alpha := BitOf(point, d - 1);
      tau := ((Lsb(filled.z[d].0) != alpha) != (partyIdx != 0), Lsb(filled.z[d].1) != alpha);
      negAlpha := alpha != (partyIdx != 0);
      diff := Xor(filled.z[d].0, filled.z[d].1);
    }

    method Prepare(points: seq<nat>, trees: seq<Tree>, d: nat, rand: nat -> Block, at: nat)
      returns (filled: seq<Tree>, used: bool, negAlpha: seq<bool>, diff: seq<Block>, taus: seq<(bool, bool)>, next: nat)
      requires |points| == |trees| == numPoints && 0 < d
      requires forall r {:trigger trees[r]} :: 0 <= r < |trees| ==> d < |trees[r].z| == |trees[r].used|
      ensures |filled| == |negAlpha| == |diff| == |taus| == numPoints
      ensures used <==> exists r {:trigger trees[r]} :: 0 <= r < numPoints && trees[r].used[d]
      ensures forall r {:trigger filled[r]} :: 0 <= r < numPoints ==> |filled[r].z| == |trees[r].z|
      ensures forall r {:trigger filled[r]} :: 0 <= r < numPoints ==> filled[r] == Filled(trees[r], d, FillAt(trees, d, rand, at, r))
      ensures forall r {:trigger negAlpha[r]} :: 0 <= r < numPoints ==> negAlpha[r] == (BitOf(points[r], d - 1) != (partyIdx != 0))
      ensures forall r {:trigger diff[r]} :: 0 <= r < numPoints ==> diff[r] == Xor(filled[r].z[d].0, filled[r].z[d].1)
      ensures forall r {:trigger taus[r]} :: 0 <= r < numPoints ==>
        taus[r] == TauShare(partyIdx != 0, BitOf(points[r], d - 1), filled[r].z[d])
    {
      hide Xor, BitOf, Filled, TauShare, Unused, FillAt;
      UnusedZero(trees, d);
      filled, used, negAlpha, diff, taus, next := [], false, [], [], [], at;
      var r := 0;
      while r < numPoints
        invariant r <= numPoints && |filled| == |negAlpha| == |diff| == |taus| == r
        invariant next == at + 2 * Unused(trees, d, r)
        invariant forall q {:trigger filled[q]} :: 0 <= q < r ==> |filled[q].z| == |trees[q].z|
        invariant used <==> exists q {:trigger trees[q]} :: 0 <= q < r && trees[q].used[d]
        invariant forall q {:trigger filled[q]} :: 0 <= q < r ==> filled[q] == Filled(trees[q], d, FillAt(trees, d, rand, at, q))
        invariant forall q {:trigger negAlpha[q]} :: 0 <= q < r ==> negAlpha[q] == (BitOf(points[q], d - 1) != (partyIdx != 0))
        invariant forall q {:trigger diff[q]} :: 0 <= q < r ==> diff[q] == Xor(filled[q].z[d].0, filled[q].z[d].1)
        invariant forall q {:trigger taus[q]} :: 0 <= q < r ==> taus[q] == TauShare(partyIdx != 0, BitOf(points[q], d - 1), filled[q].z[d])
      {
        UnusedNext(trees, d, rand, at, r);
        used := used || trees[r].used[d];
        var tree, neg, x, tau;
        tree, neg, x, tau, next := PrepareRow(points[r], trees[r], d, rand, next);
        filled, negAlpha, diff, taus := filled + [tree], negAlpha + [neg], diff + [x], taus + [tau];
        r := r + 1;
      }
    }
  }

  // A party's share of the correction words: product ^ z0.
  method SigmaShares(trees: seq<Tree>, d: nat, product: seq<Block>) returns (sigmas: seq<Block>)
    requires |trees| == |product| && forall r {:trigger trees[r]} :: 0 <= r < |trees| ==> d < |trees[r].z|
    ensures |sigmas| == |trees|
    ensures forall r {:trigger sigmas[r]} :: 0 <= r < |trees| ==> sigmas[r] == Xor(product[r], trees[r].z[d].0)
  {
    hide Xor;
    sigmas := [];
    var r := 0;
    while r < |trees|
      invariant r <= |trees| && |sigmas| == r
      invariant forall q {:trigger sigmas[q]} :: 0 <= q < r ==> sigmas[q] == Xor(product[q], trees[q].z[d].0)
    {
      sigmas := sigmas + [Xor(product[r], trees[r].z[d].0)];
      r := r + 1;
    }
  }

  // reveal, and the correction words stored in the trees.
  method StoreWords(trees: seq<Tree>, d: nat, sigmas: seq<Block>, taus: seq<(bool, bool)>, sigmas': seq<Block>, taus': seq<(bool, bool)>)
    returns (closed: seq<Tree>)
    requires |trees| == |sigmas| == |taus| == |sigmas'| == |taus'|
    requires forall r {:trigger trees[r]} :: 0 <= r < |trees| ==> d < |trees[r].sigma| == |trees[r].tau|
    ensures |closed| == |trees|
    ensures forall r {:trigger closed[r]} :: 0 <= r < |trees| ==>
      closed[r] == WithWords(trees[r], d, Xor(sigmas[r], sigmas'[r]), XorBits2(taus[r], taus'[r]))
    ensures forall r {:trigger closed[r]} :: 0 <= r < |trees| && |trees[r].levels| == |trees[r].sigma| ==>
      closed[r].levels == trees[r].levels && SameAbove(trees[r], closed[r], d)
  {
    hide Xor;
    closed := [];
    var r := 0;
    while r < |trees|
      invariant r <= |trees| && |closed| == r
      invariant forall q {:trigger closed[q]} :: 0 <= q < r ==>
        closed[q] == WithWords(trees[q], d, Xor(sigmas[q], sigmas'[q]), XorBits2(taus[q], taus'[q]))
    {
      var sigma, tau := Xor(sigmas[r], sigmas'[r]), (taus[r].0 != taus'[r].0, taus[r].1 != taus'[r].1);
      closed := closed + [trees[r].(sigma := trees[r].sigma[d := sigma], tau := trees[r].tau[d := tau])];
      r := r + 1;
    }
  }

  // 2^d needs exactly d levels.
  lemma {:induction false} PowerDepth(d: nat)
    ensures Nodes(Two, d) > 0 && RegularDpf.CeilLog2(Nodes(Two, d)) == d && (d > 0 ==> Nodes(Two, d) >= 2)
  {
    if d > 0 {
      PowerDepth(d - 1);
    }
    RegularDpf.DepthUnique(Nodes(Two, d), d);
  }

  lemma SplitCount(x: nat, y: nat, n: nat)
    ensures (x + y) * n == n * x + y * n
  {
  }

  // Two parties with the same configuration and correlated transfers.
  ghost predicate PartiesPaired(d0: SparseDpf, d1: SparseDpf)
    reads d0, d1, d0.mult, d1.mult
  {
    && d0 != d1 && d0.partyIdx == 0 && d1.partyIdx == 1 && d0.numPoints == d1.numPoints && d0.domain == d1.domain
    && d0.denseDepth == d1.denseDepth && MultsPaired(d0.mult, d1.mult)
  }

  // ---------- all rows ----------

  // The secret of every row: the shared point is the listed one, on the bits of the domain.
  ghost predicate SecretsShared(points0: seq<nat>, points1: seq<nat>, rows: seq<seq<nat>>, secret: seq<nat>, depth: nat) {
    && |points0| == |points1| == |rows| == |secret|
    && (forall r {:trigger secret[r]} :: 0 <= r < |rows| ==> secret[r] < |rows[r]|)
    && (forall r, b: nat {:trigger BitOf(points0[r], b)} :: 0 <= r < |rows| && b < depth ==>
          BitOf(rows[r][secret[r]], b) == (BitOf(points0[r], b) != BitOf(points1[r], b)))
  }

  // Every row of both parties after i nodes of level d; i counts from the end when done.
  ghost predicate RowTogether(row: seq<nat>, depth: nat, a: nat, t0: Tree, t1: Tree, d: nat, done: bool, loc: seq<(nat, nat)>) {
    && Sized(t0, depth) && Sized(t1, depth) && d <= depth && Tracked(row, depth, |row|, t0.used, loc)
    && Together(row, depth, a, t0, t1, d, if done then |t0.levels[d]| else 0, loc)
  }

  ghost predicate AllTogether(rows: seq<seq<nat>>, depth: nat, secret: seq<nat>, trees0: seq<Tree>, trees1: seq<Tree>, d: nat, done: bool,
                              locs: seq<seq<(nat, nat)>>) {
    && |rows| == |secret| == |trees0| == |trees1| == |locs|
    && forall r {:trigger rows[r]} {:trigger trees0[r]} {:trigger trees1[r]} {:trigger locs[r]} :: 0 <= r < |rows| ==>
         RowTogether(rows[r], depth, secret[r], trees0[r], trees1[r], d, done, locs[r])
  }

  // The products share the difference of the two sums, where the secret bit is clear.
  ghost predicate SharesDifference(p0: Block, p1: Block, z0: (Block, Block), z1: (Block, Block), alpha0: bool, alpha1: bool) {
    Xor(p0, p1) == Mask(Xor(Xor(z0.0, z0.1), Xor(z1.0, z1.1)), (alpha0 != false) != (alpha1 != true))
  }

  // One row: both parties' inputs to the correction words.
  lemma RowCloses(row: seq<nat>, depth: nat, a: nat, t0: Tree, t1: Tree, d: nat, loc: seq<(nat, nat)>, fill0: (Block, Block),
                  fill1: (Block, Block), alpha0: bool, alpha1: bool, product0: Block, product1: Block)
    requires 0 < d <= depth && RowTogether(row, depth, a, t0, t1, d, true, loc) && a < |row| && Alpha(row, a, d) == (alpha0 != alpha1)
    requires var z0, z1 := Filled(t0, d, fill0).z[d], Filled(t1, d, fill1).z[d];
             SharesDifference(product0, product1, z0, z1, alpha0, alpha1)
    ensures var f0, f1 := Filled(t0, d, fill0), Filled(t1, d, fill1);
            var s0, s1 := Xor(product0, f0.z[d].0), Xor(product1, f1.z[d].0);
            var u0, u1 := TauShare(false, alpha0, f0.z[d]), TauShare(true, alpha1, f1.z[d]);
            RowTogether(row, depth, a, WithWords(f0, d, Xor(s0, s1), XorBits2(u0, u1)), WithWords(f1, d, Xor(s1, s0), XorBits2(u1, u0)),
                        d - 1, false, loc)
  {
    hide Xor, Together, Alpha, Mask, TauShare, Tracked;
    var f0, f1 := Filled(t0, d, fill0), Filled(t1, d, fill1);
    var s0, s1 := Xor(product0, f0.z[d].0), Xor(product1, f1.z[d].0);
    RevealedWords(f0.z[d], f1.z[d], alpha0, alpha1, product0, product1);
    XorComm(s0, s1);
    var u0, u1 := TauShare(false, alpha0, f0.z[d]), TauShare(true, alpha1, f1.z[d]);
    var r0, r1 := WithWords(f0, d, Xor(s0, s1), XorBits2(u0, u1)), WithWords(f1, d, Xor(s1, s0), XorBits2(u1, u0));
    CloseTogether(row, depth, a, t0, t1, d, loc, r0, r1);
  }

  // A level that no row uses keeps its correction words.
  lemma RowSkips(row: seq<nat>, depth: nat, a: nat, t0: Tree, t1: Tree, d: nat, loc: seq<(nat, nat)>, fill0: (Block, Block),
                 fill1: (Block, Block))
    requires 0 < d <= depth && RowTogether(row, depth, a, t0, t1, d, true, loc) && !t0.used[d] && a < |row|
    ensures RowTogether(row, depth, a, Filled(t0, d, fill0), Filled(t1, d, fill1), d - 1, false, loc)
  {
    SameUse(row, depth, a, t0, t1, d, loc);
    hide Together, Closed, Tracked;
    CloseTogether(row, depth, a, t0, t1, d, loc, Filled(t0, d, fill0), Filled(t1, d, fill1));
  }

  lemma SameUse(row: seq<nat>, depth: nat, a: nat, t0: Tree, t1: Tree, d: nat, loc: seq<(nat, nat)>)
    requires RowTogether(row, depth, a, t0, t1, d, true, loc)
    ensures t0.used == t1.used && a < |row|
  {
  }

  // A finished level is used by a row exactly when two of its points separate there.
  lemma RowUses(row: seq<nat>, depth: nat, a: nat, t0: Tree, t1: Tree, d: nat, loc: seq<(nat, nat)>)
    requires 0 < d && RowTogether(row, depth, a, t0, t1, d, true, loc)
    ensures t0.used[d] <==> SplitsAt(row, d)
  {
    hide SplitsAt, Tracked, Covers, PairsOk, LevelsOk, NodesOk;
    UsedIff(row, depth, t0, d, loc);
  }

  lemma LevelUses(rows: seq<seq<nat>>, depth: nat, secret: seq<nat>, trees0: seq<Tree>, trees1: seq<Tree>, d: nat,
                  locs: seq<seq<(nat, nat)>>)
    requires 0 < d <= depth && AllTogether(rows, depth, secret, trees0, trees1, d, true, locs)
    ensures forall r {:trigger trees0[r]} :: 0 <= r < |rows| ==> d < |trees0[r].used|
    ensures LevelUsed(rows, d) <==> exists r {:trigger trees0[r]} :: 0 <= r < |rows| && trees0[r].used[d]
  {
    hide SplitsAt, Tracked, Together;
    forall r {:trigger trees0[r]} {:trigger rows[r]} | 0 <= r < |rows|
      ensures d < |trees0[r].used| && (trees0[r].used[d] <==> SplitsAt(rows[r], d))
    {
      assert RowTogether(rows[r], depth, secret[r], trees0[r], trees1[r], d, true, locs[r]);
      RowUses(rows[r], depth, secret[r], trees0[r], trees1[r], d, locs[r]);
    }
  }

  ghost predicate FilledTree(t: Tree, d: nat, depth: nat, fill: (Block, Block), filled: Tree) {
    d <= depth && Sized(t, depth) && Sized(filled, depth) && filled == Filled(t, d, fill)
  }

  ghost predicate AllFilled(trees: seq<Tree>, d: nat, depth: nat, fills: seq<(Block, Block)>, filled: seq<Tree>) {
    |trees| == |fills| == |filled|
    && forall r {:trigger filled[r]} {:trigger trees[r]} :: 0 <= r < |trees| ==> FilledTree(trees[r], d, depth, fills[r], filled[r])
  }

  // The correction words of level d for all rows, when some row uses the level.
  method WordsOfLevel(points0: seq<nat>, points1: seq<nat>, f0: seq<Tree>, f1: seq<Tree>, d: nat, depth: nat, p0: seq<Block>,
                      p1: seq<Block>, taus0: seq<(bool, bool)>, taus1: seq<(bool, bool)>, ghost rows: seq<seq<nat>>, ghost secret: seq<nat>,
                      ghost trees0: seq<Tree>, ghost trees1: seq<Tree>, ghost locs: seq<seq<(nat, nat)>>,
                      ghost fill0: seq<(Block, Block)>, ghost fill1: seq<(Block, Block)>)
    returns (r0: seq<Tree>, r1: seq<Tree>)
    requires 0 < d <= depth && SecretsShared(points0, points1, rows, secret, depth)
    requires AllTogether(rows, depth, secret, trees0, trees1, d, true, locs)
    requires |f0| == |f1| == |p0| == |p1| == |taus0| == |taus1| == |fill0| == |fill1| == |rows|
    requires AllFilled(trees0, d, depth, fill0, f0) && AllFilled(trees1, d, depth, fill1, f1)
    requires forall r {:trigger taus0[r]} :: 0 <= r < |rows| ==> taus0[r] == TauShare(false, BitOf(points0[r], d - 1), f0[r].z[d])
    requires forall r {:trigger taus1[r]} :: 0 <= r < |rows| ==> taus1[r] == TauShare(true, BitOf(points1[r], d - 1), f1[r].z[d])
    requires forall r {:trigger p0[r]} :: 0 <= r < |rows| ==>
      SharesDifference(p0[r], p1[r], f0[r].z[d], f1[r].z[d], BitOf(points0[r], d - 1), BitOf(points1[r], d - 1))
    ensures AllTogether(rows, depth, secret, r0, r1, d - 1, false, locs) && AllKept(trees0, r0, d) && AllKept(trees1, r1, d)
  {
    hide RowTogether, Xor, BitOf, TauShare, Mask, WithWords;
    var s0 := SigmaShares(f0, d, p0);
    var s1 := SigmaShares(f1, d, p1);
    r0 := StoreWords(f0, d, s0, taus0, s1, taus1);
    r1 := StoreWords(f1, d, s1, taus1, s0, taus0);
    hide Filled;
    WordsKept(trees0, d, depth, fill0, f0, r0);
    WordsKept(trees1, d, depth, fill1, f1, r1);
    forall r {:trigger rows[r]} {:trigger r0[r]} {:trigger r1[r]} {:trigger locs[r]} | 0 <= r < |rows|
      ensures RowTogether(rows[r], depth, secret[r], r0[r], r1[r], d - 1, false, locs[r])
    {
      assert FilledTree(trees0[r], d, depth, fill0[r], f0[r]) && FilledTree(trees1[r], d, depth, fill1[r], f1[r]);
      AlphaShared(points0, points1, rows, secret, depth, d, r);
      RowCloses(rows[r], depth, secret[r], trees0[r], trees1[r], d, locs[r], fill0[r], fill1[r], BitOf(points0[r], d - 1),
                BitOf(points1[r], d - 1), p0[r], p1[r]);
    }
  }

  lemma WordsKept(trees: seq<Tree>, d: nat, depth: nat, fills: seq<(Block, Block)>, filled: seq<Tree>, closed: seq<Tree>)
    requires AllFilled(trees, d, depth, fills, filled) && |closed| == |trees|
    requires forall r {:trigger closed[r]} :: 0 <= r < |trees| ==>
      closed[r].levels == filled[r].levels && SameAbove(filled[r], closed[r], d)
    ensures AllKept(trees, closed, d)
  {
    hide SameAbove;
    forall r {:trigger closed[r]} | 0 <= r < |trees|
      ensures closed[r].levels == trees[r].levels && SameAbove(trees[r], closed[r], d)
    {
      assert FilledTree(trees[r], d, depth, fills[r], filled[r]);
      FilledAbove(trees[r], d, fills[r], closed[r]);
    }
  }

  lemma FilledAbove(t: Tree, d: nat, fill: (Block, Block), closed: Tree)
    requires d < |t.z| == |t.used| && SameAbove(Filled(t, d, fill), closed, d)
    ensures Filled(t, d, fill).levels == t.levels && SameAbove(t, closed, d)
  {
  }

  // A level that no row uses.
  lemma LevelSkips(rows: seq<seq<nat>>, depth: nat, secret: seq<nat>, trees0: seq<Tree>, trees1: seq<Tree>, d: nat,
                   locs: seq<seq<(nat, nat)>>, f0: seq<Tree>, f1: seq<Tree>, fill0: seq<(Block, Block)>, fill1: seq<(Block, Block)>)
    requires 0 < d <= depth && AllTogether(rows, depth, secret, trees0, trees1, d, true, locs)
    requires |f0| == |f1| == |fill0| == |fill1| == |rows|
    requires AllFilled(trees0, d, depth, fill0, f0) && AllFilled(trees1, d, depth, fill1, f1)
    requires forall r {:trigger trees0[r]} :: 0 <= r < |rows| ==> !trees0[r].used[d]
    ensures AllTogether(rows, depth, secret, f0, f1, d - 1, false, locs) && AllKept(trees0, f0, d) && AllKept(trees1, f1, d)
  {
    FilledKept(trees0, d, depth, fill0, f0);
    FilledKept(trees1, d, depth, fill1, f1);
    hide RowTogether, Filled;
    forall r {:trigger rows[r]} {:trigger f0[r]} {:trigger f1[r]} {:trigger locs[r]} | 0 <= r < |rows|
      ensures RowTogether(rows[r], depth, secret[r], f0[r], f1[r], d - 1, false, locs[r])
    {
      assert FilledTree(trees0[r], d, depth, fill0[r], f0[r]) && FilledTree(trees1[r], d, depth, fill1[r], f1[r]);
      SameUse(rows[r], depth, secret[r], trees0[r], trees1[r], d, locs[r]);
      RowSkips(rows[r], depth, secret[r], trees0[r], trees1[r], d, locs[r], fill0[r], fill1[r]);
    }
  }

  lemma FilledKept(trees: seq<Tree>, d: nat, depth: nat, fills: seq<(Block, Block)>, filled: seq<Tree>)
    requires AllFilled(trees, d, depth, fills, filled)
    ensures AllKept(trees, filled, d)
  {
    forall r {:trigger filled[r]} | 0 <= r < |trees|
      ensures filled[r].levels == trees[r].levels && SameAbove(trees[r], filled[r], d)
    {
      assert FilledTree(trees[r], d, depth, fills[r], filled[r]);
    }
  }

  ghost function Fills(trees: seq<Tree>, d: nat, rand: nat -> Block, at: nat): (f: seq<(Block, Block)>)
    requires forall q {:trigger trees[q]} :: 0 <= q < |trees| ==> d < |trees[q].used|
    ensures |f| == |trees|
  {
    seq(|trees|, r requires 0 <= r < |trees| => FillAt(trees, d, rand, at, r))
  }

  // The correction words of level d, exchanged if some row uses the level.
  method CloseLevel(d0: SparseDpf, d1: SparseDpf, points0: seq<nat>, points1: seq<nat>, trees0: seq<Tree>, trees1: seq<Tree>, d: nat,
                    depth: nat, rand0: nat -> Block, rand1: nat -> Block, at0: nat, at1: nat,
                    ghost rows: seq<seq<nat>>, ghost secret: seq<nat>, ghost locs: seq<seq<(nat, nat)>>)
    returns (ok: bool, r0: seq<Tree>, r1: seq<Tree>, next0: nat, next1: nat)
    requires PartiesPaired(d0, d1) && |trees0| == |trees1| == d0.numPoints && 0 < d <= depth
    requires SecretsShared(points0, points1, rows, secret, depth)
    requires AllTogether(rows, depth, secret, trees0, trees1, d, true, locs)
    modifies d0.mult`otIdx, d1.mult`otIdx
    ensures PartiesPaired(d0, d1) && d0.mult.otIdx == old(d0.mult.otIdx) + if ok && LevelUsed(rows, d) then d0.numPoints else 0
    ensures ok <==> !LevelUsed(rows, d) || old(d0.mult.Accepts(d0.numPoints, d0.numPoints))
    ensures ok ==> AllTogether(rows, depth, secret, r0, r1, d - 1, false, locs) && AllKept(trees0, r0, d) && AllKept(trees1, r1, d)
  {
    hide RowTogether, Xor, BitOf, TauShare, Mask, WithWords, Filled, FillAt, Unused, LevelUsed, SameAbove;
    LevelUses(rows, depth, secret, trees0, trees1, d, locs);
    ok := true;
    TreesSized(rows, depth, secret, trees0, trees1, d, true, locs);
    var used0, neg0, diff0, taus0, used1, neg1, diff1, taus1;
    r0, used0, neg0, diff0, taus0, next0 := d0.Prepare(points0, trees0, d, rand0, at0);
    r1, used1, neg1, diff1, taus1, next1 := d1.Prepare(points1, trees1, d, rand1, at1);
    ghost var fill0, fill1 := Fills(trees0, d, rand0, at0), Fills(trees1, d, rand1, at1);
    FilledByStream(trees0, r0, d, depth, rand0, at0);
    FilledByStream(trees1, r1, d, depth, rand1, at1);
    if !used0 {
      LevelSkips(rows, depth, secret, trees0, trees1, d, locs, r0, r1, fill0, fill1);
      return;
    }
    var p0, p1;
    ok, p0, p1 := Multiply(d0.mult, d1.mult, neg0, neg1, diff0, diff1);
    if ok {
      r0, r1 := WordsOfLevel(points0, points1, r0, r1, d, depth, p0, p1, taus0, taus1, rows, secret, trees0, trees1, locs, fill0, fill1);
    }
  }

  lemma FilledByStream(trees: seq<Tree>, filled: seq<Tree>, d: nat, depth: nat, rand: nat -> Block, at: nat)
    requires |trees| == |filled| && d <= depth && forall r {:trigger trees[r]} :: 0 <= r < |trees| ==> Sized(trees[r], depth)
    requires forall r {:trigger trees[r]} :: 0 <= r < |trees| ==> d < |trees[r].z| == |trees[r].used|
    requires forall r {:trigger filled[r]} :: 0 <= r < |trees| ==> filled[r] == Filled(trees[r], d, FillAt(trees, d, rand, at, r))
    ensures AllFilled(trees, d, depth, Fills(trees, d, rand, at), filled)
  {
    hide FillAt;
  }

  lemma TreesSized(rows: seq<seq<nat>>, depth: nat, secret: seq<nat>, trees0: seq<Tree>, trees1: seq<Tree>, d: nat, done: bool,
                   locs: seq<seq<(nat, nat)>>)
    requires AllTogether(rows, depth, secret, trees0, trees1, d, done, locs)
    ensures forall r {:trigger trees0[r]} :: 0 <= r < |rows| ==> Sized(trees0[r], depth)
    ensures forall r {:trigger trees1[r]} :: 0 <= r < |rows| ==> Sized(trees1[r], depth)
  {
    hide Together, Tracked;
  }

  lemma AlphaShared(points0: seq<nat>, points1: seq<nat>, rows: seq<seq<nat>>, secret: seq<nat>, depth: nat, d: nat, r: nat)
    requires SecretsShared(points0, points1, rows, secret, depth) && 0 < d <= depth && r < |rows|
    ensures secret[r] < |rows[r]| && Alpha(rows[r], secret[r], d) == (BitOf(points0[r], d - 1) != BitOf(points1[r], d - 1))
  {
    hide BitOf;
    assert secret[r] < |rows[r]|;
  }

  // ---------- all levels ----------

  ghost predicate AllInside(depth: nat, locs: seq<seq<(nat, nat)>>, locs': seq<seq<(nat, nat)>>) {
    |locs| == |locs'| && forall r {:trigger locs[r]} {:trigger locs'[r]} :: 0 <= r < |locs| ==> SameInside(depth, locs[r], locs'[r])
  }

  lemma AllInsideSame(depth: nat, locs: seq<seq<(nat, nat)>>)
    ensures AllInside(depth, locs, locs)
  {
  }

  lemma AllInsideTrans(depth: nat, x: seq<seq<(nat, nat)>>, y: seq<seq<(nat, nat)>>, z: seq<seq<(nat, nat)>>)
    requires AllInside(depth, x, y) && AllInside(depth, y, z)
    ensures AllInside(depth, x, z)
  {
    forall r {:trigger x[r]} {:trigger z[r]} | 0 <= r < |x|
      ensures SameInside(depth, x[r], z[r])
    {
      assert SameInside(depth, x[r], y[r]) && SameInside(depth, y[r], z[r]);
      forall q {:trigger x[r][q]} {:trigger z[r][q]} | 0 <= q < |x[r]|
        ensures x[r][q].0 > depth <==> z[r][q].0 > depth
      {
        assert x[r][q].0 > depth <==> y[r][q].0 > depth;
      }
    }
  }

  // Every row's points keep their ends in the expansion of level d.
  ghost predicate AllFollow(hash: Block -> Block, rows: seq<seq<nat>>, trees: seq<Tree>, locs: seq<seq<(nat, nat)>>, trees': seq<Tree>,
                            locs': seq<seq<(nat, nat)>>, d: nat) {
    && |rows| == |trees| == |locs| == |trees'| == |locs'|
    && forall r {:trigger trees'[r]} :: 0 <= r < |rows| ==>
         SparseRow.Follows(hash, rows[r], trees[r], locs[r], trees'[r], locs'[r], d)
  }

  // Every row has the same nodes and the same words above level d.
  ghost predicate AllKept(trees: seq<Tree>, trees': seq<Tree>, d: nat) {
    |trees| == |trees'| && forall r {:trigger trees'[r]} :: 0 <= r < |trees'| ==>
      trees'[r].levels == trees[r].levels && SameAbove(trees[r], trees'[r], d)
  }

  // Every row's points have the ends they have at the start.
  ghost predicate AllTraced(hash: Block -> Block, rows: seq<seq<nat>>, trees: seq<Tree>, locs: seq<seq<(nat, nat)>>, trees': seq<Tree>,
                            locs': seq<seq<(nat, nat)>>, d: nat) {
    && |rows| == |trees| == |locs| == |trees'| == |locs'|
    && forall r {:trigger trees'[r]} :: 0 <= r < |rows| ==>
         Traces(hash, rows[r], trees[r], locs[r], trees'[r], locs'[r], d) && AllFit(trees'[r], locs'[r])
  }

  lemma TracedKept(hash: Block -> Block, rows: seq<seq<nat>>, trees: seq<Tree>, locs: seq<seq<(nat, nat)>>, trees': seq<Tree>,
                   locs': seq<seq<(nat, nat)>>, trees'': seq<Tree>, d: nat)
    requires AllTraced(hash, rows, trees, locs, trees', locs', d) && AllKept(trees', trees'', d) && d > 0
    ensures AllTraced(hash, rows, trees, locs, trees'', locs', d - 1)
  {
    hide Traces, SameAbove, PlaceFits;
    forall r {:trigger trees''[r]} | 0 <= r < |rows|
      ensures Traces(hash, rows[r], trees[r], locs[r], trees''[r], locs'[r], d - 1) && AllFit(trees''[r], locs'[r])
    {
      assert AllFit(trees'[r], locs'[r]);
      TracesSizes(hash, rows[r], trees[r], locs[r], trees'[r], locs'[r], d);
      TracesSame(hash, rows[r], trees'[r], trees''[r], locs'[r], d - 1);
      TracesTrans(hash, rows[r], trees[r], locs[r], trees'[r], locs'[r], trees''[r], locs'[r], d, d - 1);
      FitsKept(trees'[r], trees''[r], locs'[r]);
    }
  }

  lemma FitsKept(t: Tree, t': Tree, loc: seq<(nat, nat)>)
    requires AllFit(t, loc) && t'.levels == t.levels
    ensures AllFit(t', loc)
  {
  }

  lemma TracesSizes(hash: Block -> Block, points: seq<nat>, t: Tree, loc: seq<(nat, nat)>, t': Tree, loc': seq<(nat, nat)>, d: nat)
    requires Traces(hash, points, t, loc, t', loc', d)
    ensures |loc| == |loc'| == |points|
  {
  }

  lemma TracedFollow(hash: Block -> Block, rows: seq<seq<nat>>, trees: seq<Tree>, locs: seq<seq<(nat, nat)>>, trees': seq<Tree>,
                     locs': seq<seq<(nat, nat)>>, trees'': seq<Tree>, locs'': seq<seq<(nat, nat)>>, d: nat)
    requires AllTraced(hash, rows, trees, locs, trees', locs', d) && AllFollow(hash, rows, trees', locs', trees'', locs'', d)
    ensures AllTraced(hash, rows, trees, locs, trees'', locs'', d)
  {
    hide Traces, AllFit;
    forall r {:trigger trees''[r]} | 0 <= r < |rows|
      ensures Traces(hash, rows[r], trees[r], locs[r], trees''[r], locs''[r], d) && AllFit(trees''[r], locs''[r])
    {
      assert Traces(hash, rows[r], trees[r], locs[r], trees'[r], locs'[r], d);
      TracesTrans(hash, rows[r], trees[r], locs[r], trees'[r], locs'[r], trees''[r], locs''[r], d, d);
    }
  }

  lemma TracedFirst(hash: Block -> Block, rows: seq<seq<nat>>, depth: nat, secret: seq<nat>, trees0: seq<Tree>, trees1: seq<Tree>, d: nat,
                    done: bool, locs: seq<seq<(nat, nat)>>)
    requires AllTogether(rows, depth, secret, trees0, trees1, d, done, locs)
    ensures AllTraced(hash, rows, trees0, locs, trees0, locs, d) && AllTraced(hash, rows, trees1, locs, trees1, locs, d)
  {
    hide Traces, AllFit, RowTogether;
    forall r | 0 <= r < |rows|
      ensures Traces(hash, rows[r], trees0[r], locs[r], trees0[r], locs[r], d) && AllFit(trees0[r], locs[r])
      ensures Traces(hash, rows[r], trees1[r], locs[r], trees1[r], locs[r], d) && AllFit(trees1[r], locs[r])
    {
      assert RowTogether(rows[r], depth, secret[r], trees0[r], trees1[r], d, done, locs[r]);
      RowFits(rows[r], depth, secret[r], trees0[r], trees1[r], d, done, locs[r]);
      TracesSame(hash, rows[r], trees0[r], trees0[r], locs[r], d);
      TracesSame(hash, rows[r], trees1[r], trees1[r], locs[r], d);
    }
  }

  lemma RowFits(row: seq<nat>, depth: nat, a: nat, t0: Tree, t1: Tree, d: nat, done: bool, loc: seq<(nat, nat)>)
    requires RowTogether(row, depth, a, t0, t1, d, done, loc)
    ensures AllFit(t0, loc) && AllFit(t1, loc) && |loc| == |row|
  {
    hide Covers, PairsOk, LevelsOk, Tracked, PlaceFits;
    forall x {:trigger loc[x]} | 0 <= x < |loc| && loc[x].0 < |t0.levels|
      ensures PlaceFits(t0, loc[x]) && PlaceFits(t1, loc[x])
    {
      PlacesFit(row, depth, a, t0, t1, d, if done then |t0.levels[d]| else 0, loc, x);
    }
    CoversSize(row, t0, d, if done then |t0.levels[d]| else 0, loc);
  }

  lemma CoversSize(row: seq<nat>, t: Tree, d: nat, i: nat, loc: seq<(nat, nat)>)
    requires Covers(row, t, d, i, loc)
    ensures |loc| == |row|
  {
  }

  // All nodes of level d of every row.
  method ExpandRows(hash: Block -> Block, rows: seq<seq<nat>>, depth: nat, trees0: seq<Tree>, trees1: seq<Tree>, d: nat,
                    ghost secret: seq<nat>, ghost locs: seq<seq<(nat, nat)>>)
    returns (r0: seq<Tree>, r1: seq<Tree>, ghost locs': seq<seq<(nat, nat)>>)
    requires 0 < d <= depth && AllTogether(rows, depth, secret, trees0, trees1, d, false, locs)
    ensures AllTogether(rows, depth, secret, r0, r1, d, true, locs') && AllInside(depth, locs, locs')
    ensures AllFollow(hash, rows, trees0, locs, r0, locs', d) && AllFollow(hash, rows, trees1, locs, r1, locs', d)
  {
    hide Together, Sized, SameInside, Tracked, SparseRow.Follows;
    r0, r1, locs' := [], [], [];
    var r := 0;
    while r < |rows|
      invariant r <= |rows| && |r0| == |r1| == |locs'| == r
      invariant forall q {:trigger r0[q]} {:trigger r1[q]} {:trigger locs'[q]} :: 0 <= q < r ==>
        RowTogether(rows[q], depth, secret[q], r0[q], r1[q], d, true, locs'[q])
      invariant forall q {:trigger locs'[q]} {:trigger locs[q]} :: 0 <= q < r ==> SameInside(depth, locs[q], locs'[q])
      invariant forall q {:trigger r0[q]} :: 0 <= q < r ==> SparseRow.Follows(hash, rows[q], trees0[q], locs[q], r0[q], locs'[q], d)
      invariant forall q {:trigger r1[q]} :: 0 <= q < r ==> SparseRow.Follows(hash, rows[q], trees1[q], locs[q], r1[q], locs'[q], d)
    {
      assert RowTogether(rows[r], depth, secret[r], trees0[r], trees1[r], d, false, locs[r]);
      var t0, t1;
      ghost var loc;
      t0, t1, loc := SparseRow.ExpandLevel(hash, rows[r], depth, secret[r], trees0[r], trees1[r], d, locs[r]);
      r0, r1, locs' := r0 + [t0], r1 + [t1], locs' + [loc];
      r := r + 1;
    }
  }

  // The loop over the levels.
  method Climb(hash: Block -> Block, d0: SparseDpf, d1: SparseDpf, points0: seq<nat>, points1: seq<nat>, rows: seq<seq<nat>>, depth: nat,
               trees0: seq<Tree>, trees1: seq<Tree>, rand0: nat -> Block, rand1: nat -> Block, at: nat,
               ghost secret: seq<nat>, ghost locs: seq<seq<(nat, nat)>>)
    returns (ok: bool, r0: seq<Tree>, r1: seq<Tree>, ghost locs': seq<seq<(nat, nat)>>)
    requires PartiesPaired(d0, d1) && |rows| == d0.numPoints && SecretsShared(points0, points1, rows, secret, depth)
    requires AllTogether(rows, depth, secret, trees0, trees1, depth, depth > 0, locs)
    modifies d0.mult`otIdx, d1.mult`otIdx
    ensures PartiesPaired(d0, d1) && (ok ==> d0.mult.otIdx == old(d0.mult.otIdx) + MultsFor(LevelsUsed(rows, depth), d0.numPoints))
    ensures ok <==> old(CanMultiply(d0, LevelsUsed(rows, depth)))
    ensures ok ==> AllTogether(rows, depth, secret, r0, r1, 0, false, locs') && AllInside(depth, locs, locs')
    ensures ok ==> AllTraced(hash, rows, trees0, locs, r0, locs', 0) && AllTraced(hash, rows, trees1, locs, r1, locs', 0)
  {
    hide RowTogether, SecretsShared, MultsPaired, MultsFor, AllInside, LevelUsed, LevelsUsed, AllTraced, AllKept, AllFollow;
    TracedFirst(hash, rows, depth, secret, trees0, trees1, depth, depth > 0, locs);
    ghost var all := LevelsUsed(rows, depth);
    ok, r0, r1, locs' := true, trees0, trees1, locs;
    var next0, next1 := at, at;
    var d: nat := depth;
    MultsZero(d0.numPoints);
    AllInsideSame(depth, locs);
    LevelsUsedZero(rows);
    while d > 0
      invariant d <= depth && PartiesPaired(d0, d1) && LevelsUsed(rows, d) <= all
      invariant d0.mult.otIdx == old(d0.mult.otIdx) + MultsFor(all - LevelsUsed(rows, d), d0.numPoints)
      invariant LevelsUsed(rows, d) < all ==> |d0.mult.choiceBits| > 0 && d0.mult.otIdx <= d0.mult.totalMults
      invariant d0.mult.choiceBits == old(d0.mult.choiceBits) && d0.mult.totalMults == old(d0.mult.totalMults) && d0.numPoints == |rows|
      invariant AllTogether(rows, depth, secret, r0, r1, d, d > 0, locs') && AllInside(depth, locs, locs')
      invariant AllTraced(hash, rows, trees0, locs, r0, locs', d) && AllTraced(hash, rows, trees1, locs, r1, locs', d)
    {
      ghost var open0, open1 := r0, r1;
      LevelsUsedNext(rows, d);
      LevelsUsedGrows(rows, 0, d - 1);
      if LevelUsed(rows, d) {
        MultsNext(all - LevelsUsed(rows, d) + 1, d0.numPoints);
        MultsForGrows(all - LevelsUsed(rows, d) + 1, all, d0.numPoints);
      }
      ok, r0, r1, next0, next1 := CloseLevel(d0, d1, points0, points1, r0, r1, d, depth, rand0, rand1, next0, next1, rows, secret, locs');
      if !ok {
        return;
      }
      TracedKept(hash, rows, trees0, locs, open0, locs', r0, d);
      TracedKept(hash, rows, trees1, locs, open1, locs', r1, d);
      d := d - 1;
      if d > 0 {
        ghost var before, closed0, closed1 := locs', r0, r1;
        r0, r1, locs' := ExpandRows(hash, rows, depth, r0, r1, d, secret, locs');
        AllInsideTrans(depth, locs, before, locs');
        TracedFollow(hash, rows, trees0, locs, closed0, before, r0, locs', d);
        TracedFollow(hash, rows, trees1, locs, closed1, before, r1, locs', d);
      }
    }
  }

  // The multiplications left suffice for the given number of used levels.
  ghost predicate CanMultiply(d: SparseDpf, levels: nat)
    reads d, d.mult
  {
    levels > 0 ==> |d.mult.choiceBits| > 0 && d.mult.otIdx + MultsFor(levels, d.numPoints) <= d.mult.totalMults
  }
}

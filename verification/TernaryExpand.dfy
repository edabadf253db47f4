/**
 A whole run of the interactive ternary protocol (TernaryDpf.h lines 79 to 417): for every
 domain and every tritwise sharing of the points, the outputs of the two parties share
 the point function and their tags share its indicator.
 */
module TernaryExpand {
  import opened Blocks
  import opened Radix3
  import opened Trits
  import opened DpfLevels
  import opened DpfLeaves
  import opened DpfRows
  import opened DpfBuffers
  import opened DpfExpansion
  import opened DpfBatch
  import opened DpfLastLayer
  import opened DpfReconstruct
  import opened TernaryCorrection
  import opened TernaryDpf
  import opened TernaryProtocol
  import opened TernaryPath

  // The secret points, or the part of each made of the trits lo to hi - 1.
  function Positions(points0: seq<F3x32>, points1: seq<F3x32>, lo: nat, hi: nat): (pos: seq<nat>)
    requires |points0| == |points1| && lo <= hi <= 32
    ensures |pos| == |points0|
  {
    seq(|points0|, k requires 0 <= k < |points0| => Value(Sum(points0[k], points1[k]), lo, hi))
  }

  lemma PositionsDeepen(points0: seq<F3x32>, points1: seq<F3x32>, lo: nat, hi: nat)
    requires |points0| == |points1| && lo < hi <= 32
    ensures Deeper(Three, Positions(points0, points1, lo + 1, hi), ActiveTrits(points0, points1, lo)) == Positions(points0, points1, lo, hi)
  {
    var x, y := Deeper(Three, Positions(points0, points1, lo + 1, hi), ActiveTrits(points0, points1, lo)),
                Positions(points0, points1, lo, hi);
    forall k | 0 <= k < |points0|
      ensures x[k] == y[k]
    {
      assert Sum(points0[k], points1[k])[lo] == AddTrits(points0[k][lo], points1[k][lo]);
    }
  }

  // A point share: trits below the depth, nothing above.
  predicate ValidShare(d: F3x32, depth: nat)
    requires depth <= 32
  {
    (forall j :: 0 <= j < depth ==> d[j] != 3) && (forall j :: depth <= j < 32 ==> d[j] == 0)
  }

  method CheckPoint(d: F3x32, depth: nat) returns (ok: bool)
    requires depth <= 32
    ensures ok <==> ValidShare(d, depth)
  {
    var v: seq<nat> := d;
    var j := 0;
    while j < depth
      invariant j <= depth && v == d[j..]
      invariant forall i {:trigger d[i]} :: 0 <= i < j ==> d[i] != 3
    {
      if v[0] == 3 {
        assert d[j] == 3;
        return false;
      }
      v := v[1..];
      j := j + 1;
    }
    var zero: seq<nat> := seq(|v|, _ => 0);
    ok := v == zero;
    if ok {
      forall i | depth <= i < 32
        ensures d[i] == 0
      {
        assert d[i] == v[i - depth];
      }
    }
  }

  ghost predicate InputsOk<F>(d: TernaryDpf, points: seq<F3x32>, values: seq<F>)
    requires d.depth <= 32
    reads d
  {
    && |points| == d.numPoints && (|values| == 0 || |values| == d.numPoints)
    && (d.domain == 1 || forall k {:trigger points[k]} :: 0 <= k < |points| ==> ValidShare(points[k], d.depth))
  }

  // The checks at the start of expand; the result tells whether none of them throws.
  method CheckInputs<F>(d: TernaryDpf, points: seq<F3x32>, values: seq<F>) returns (ok: bool)
    requires d.depth <= 32
    ensures ok <==> InputsOk(d, points, values)
  {
    if |points| != d.numPoints || (|values| != 0 && |values| != d.numPoints) {
      return false;
    }
    if d.domain == 1 {
      return true;
    }
    var k := 0;
    while k < d.numPoints
      invariant k <= d.numPoints
      invariant forall q {:trigger points[q]} :: 0 <= q < k ==> ValidShare(points[q], d.depth)
    {
      var valid := CheckPoint(points[k], d.depth);
      if !valid {
        return false;
      }
      k := k + 1;
    }
    ok := true;
  }

  // Both trees at level iter.
  ghost predicate Together(crypto: Crypto, n: nat, depth: nat, points0: seq<F3x32>, points1: seq<F3x32>, rand0: nat -> Block,
                           rand1: nat -> Block, words: seq<seq<Row>>, e0: Expansion, e1: Expansion, iter: nat)
    reads e0, e1, e0.s, e1.s
  {
    && |words| == iter - 1 && OnWords(crypto, n, depth, words, rand0, rand1, points0, points1, e0.lv, e1.lv, iter)
    && e0 != e1 && Apart(e0, e1) && depth <= 32
    && e0.a == e1.a == Three && e0.n == e1.n == n == |points0| == |points1| && e0.depth == e1.depth == depth
    && e0.prf == e1.prf == crypto.aes && e0.Valid(iter) && e1.Valid(iter)
    && BatchOnPath(Three, e0.lv, e1.lv, Positions(points0, points1, depth - iter + 1, depth))
  }

  // Everything one party needs from its inputs for the levels iter to depth.
  ghost predicate Supplied(d: TernaryDpf, points: seq<F3x32>, iter: nat)
    reads d
  {
    && d.partyIdx <= 1 && |points| == d.numPoints && 1 <= iter <= d.depth + 1 && 1 <= d.depth <= 32
    && (forall k {:trigger points[k]} :: 0 <= k < d.numPoints ==> ValidShare(points[k], d.depth))
    && d.otIdx + OtsFor(d.depth + 1 - iter, d.numPoints) <= |d.sendOts| && |d.sendOts| == |d.recvOts| == |d.choices|
  }

  lemma SuppliedUsable(d: TernaryDpf, points: seq<F3x32>, iter: nat)
    requires Supplied(d, points, iter) && iter <= d.depth
    ensures d.Usable(points, iter)
  {
    forall k | 0 <= k < d.numPoints
      ensures points[k][d.depth - iter] < 3
    {
      assert ValidShare(points[k], d.depth);
    }
  }

  // What the last level has reached.
  ghost predicate Finished(crypto: Crypto, n: nat, depth: nat, points0: seq<F3x32>, points1: seq<F3x32>, rand0: nat -> Block,
                           rand1: nat -> Block, words: seq<seq<Row>>, e0: Expansion, e1: Expansion, sigma: seq<Row>)
    reads e0, e1, e0.s, e1.s
  {
    && |words| == depth > 0 && OnWords(crypto, n, depth, words, rand0, rand1, points0, points1, e0.lv, e1.lv, depth)
    && sigma == words[depth - 1]
    && |points0| == |points1| == n && 1 <= depth <= 32
    && e0.a == e1.a == Three && e0.n == e1.n == n && e0.depth == e1.depth == depth
    && e0.Valid(depth) && e1.Valid(depth) && Rows3(n, sigma)
    && Ready(Three, n, crypto.aes, e0.lv, e1.lv, e0.z, e1.z, sigma, Positions(points0, points1, 1, depth), ActiveTrits(points0, points1, 0))
  }

  // Both parties expand level iter with the same correction word.
  method AdvanceBoth(crypto: Crypto, n: nat, depth: nat, ghost points0: seq<F3x32>, ghost points1: seq<F3x32>, ghost rand0: nat -> Block,
                     ghost rand1: nat -> Block, ghost words: seq<seq<Row>>, e0: Expansion, e1: Expansion, iter: nat, sigma0: seq<Row>,
                     sigma1: seq<Row>)
    requires Together(crypto, n, depth, points0, points1, rand0, rand1, words, e0, e1, iter) && iter < depth
    requires AllReveal(crypto, n, depth, words + [sigma0], rand0, rand1, points0, points1)
    requires sigma0 == sigma1 && Rows3(n, sigma0) && BatchGood(Three, e0.z, e1.z, sigma0, ActiveTrits(points0, points1, depth - iter))
    modifies e0, e1, e0.s[0], e0.s[1], e0.s[2], e1.s[0], e1.s[1], e1.s[2]
    ensures Together(crypto, n, depth, points0, points1, rand0, rand1, words + [sigma0], e0, e1, iter + 1)
  {
    hide BatchOnPath, BatchGood, SlotSum, RowOps, Step, Positions, ActiveTrits, Holds, Deeper, AllReveal, LevelAt;
    AllRevealFits(crypto, n, depth, words, rand0, rand1, points0, points1);
    LevelNext(crypto, false, n, words, sigma0, rand0);
    LevelNext(crypto, true, n, words, sigma0, rand1);
    ghost var pos, c := Positions(points0, points1, depth - iter + 1, depth), ActiveTrits(points0, points1, depth - iter);
    BatchStep(Three, n, crypto.aes, e0.lv, e1.lv, e0.z, e1.z, sigma0, pos, c);
    PositionsDeepen(points0, points1, depth - iter, depth);
    e0.Advance(iter, sigma0);
    e1.Advance(iter, sigma1);
  }

  // The correction word of one level.
  method NextWord(crypto: Crypto, d0: TernaryDpf, d1: TernaryDpf, points0: seq<F3x32>, points1: seq<F3x32>, e0: Expansion, e1: Expansion,
                  iter: nat, rand0: nat -> Block, rand1: nat -> Block, at: nat, ghost words: seq<seq<Row>>)
    returns (sigma0: seq<Row>, sigma1: seq<Row>)
    requires Paired(d0, d1) && Supplied(d0, points0, iter) && Supplied(d1, points1, iter) && iter <= d0.depth
    requires Together(crypto, d0.numPoints, d0.depth, points0, points1, rand0, rand1, words, e0, e1, iter)
    requires at == 3 * d0.numPoints + |words| * d0.numPoints
    modifies d0`otIdx, d1`otIdx, d0`sent, d0`masked, d0`received, d1`sent, d1`masked, d1`received
    ensures Paired(d0, d1) && d0.otIdx == old(d0.otIdx) + d0.numPoints * 2
    ensures Used(d0, old(d0.otIdx), 2 * d0.numPoints) && Used(d1, old(d1.otIdx), 2 * d1.numPoints)
    ensures sigma0 == sigma1 && Rows3(d0.numPoints, sigma0)
    ensures BatchGood(Three, e0.z, e1.z, sigma0, ActiveTrits(points0, points1, d0.depth - iter))
    ensures AllReveal(crypto, d0.numPoints, d0.depth, words + [sigma0], rand0, rand1, points0, points1)
  {
    hide OtsFor, BatchOnPath, BatchGood, OtsCorrelated, SlotSum, RowOps, Positions, ActiveTrits, Holds, ValidShare;
    hide LevelAt, AllReveal, Shifted, ShiftOf, HoldsSums, OnWords;
    SumsWide(d0.numPoints, crypto.aes, e0.z, e0.lv);
    SumsWide(d0.numPoints, crypto.aes, e1.z, e1.lv);
    SuppliedUsable(d0, points0, iter);
    SuppliedUsable(d1, points1, iter);
    sigma0, sigma1 := CorrectionWord(crypto, d0, d1, points0, points1, iter, e0.z, e1.z, rand0, at, rand1, at);
    NextRevealed(crypto, d0.numPoints, d0.depth, points0, points1, rand0, rand1, words, e0, e1, iter, sigma0, at);
  }

  // One iteration of the loop over the levels; the shifts are drawn from position at on.
  method Level(crypto: Crypto, d0: TernaryDpf, d1: TernaryDpf, points0: seq<F3x32>, points1: seq<F3x32>, e0: Expansion, e1: Expansion,
               iter: nat, rand0: nat -> Block, rand1: nat -> Block, at: nat, ghost words: seq<seq<Row>>) returns (sigma: seq<Row>)
    requires Paired(d0, d1) && Supplied(d0, points0, iter) && Supplied(d1, points1, iter) && iter <= d0.depth
    requires Together(crypto, d0.numPoints, d0.depth, points0, points1, rand0, rand1, words, e0, e1, iter)
    requires at == 3 * d0.numPoints + |words| * d0.numPoints
    modifies d0`otIdx, d1`otIdx, d0`sent, d0`masked, d0`received, d1`sent, d1`masked, d1`received, e0, e1, e0.s[0], e0.s[1], e0.s[2],
             e1.s[0], e1.s[1], e1.s[2]
    ensures Paired(d0, d1) && Supplied(d0, points0, iter + 1) && Supplied(d1, points1, iter + 1)
    ensures iter < d0.depth ==>
      Together(crypto, d0.numPoints, d0.depth, points0, points1, rand0, rand1, words + [sigma], e0, e1, iter + 1)
    ensures iter == d0.depth ==>
      Finished(crypto, d0.numPoints, d0.depth, points0, points1, rand0, rand1, words + [sigma], e0, e1, sigma)
    ensures d0.otIdx == old(d0.otIdx) + d0.numPoints * 2
    ensures Used(d0, old(d0.otIdx), 2 * d0.numPoints) && Used(d1, old(d1.otIdx), 2 * d1.numPoints)
  {
    hide OtsFor, BatchOnPath, BatchGood, OtsCorrelated, SlotSum, RowOps, Positions, ActiveTrits, Holds, ValidShare;
    hide LevelAt, AllReveal, HoldsSums, OnWords;
    OtsLeft(d0.depth + 1 - iter, d0.numPoints);
    var sigma1;
    sigma, sigma1 := NextWord(crypto, d0, d1, points0, points1, e0, e1, iter, rand0, rand1, at, words);
    if iter != d0.depth {
      AdvanceBoth(crypto, d0.numPoints, d0.depth, points0, points1, rand0, rand1, words, e0, e1, iter, sigma, sigma1);
    } else {
      LastWord(crypto, d0.numPoints, d0.depth, points0, points1, rand0, rand1, words, e0.lv, e1.lv, sigma);
    }
  }

  lemma AllRevealFits(crypto: Crypto, n: nat, depth: nat, words: seq<seq<Row>>, rand0: nat -> Block, rand1: nat -> Block,
                      points0: seq<F3x32>, points1: seq<F3x32>)
    requires AllReveal(crypto, n, depth, words, rand0, rand1, points0, points1)
    ensures WordsFit(n, words) && |words| <= depth <= 32
  {
    hide WordReveals;
  }

  lemma SumsWide(n: nat, prf: (nat, Block) -> Block, z: seq<Row>, lv: Level<Row>)
    requires Shaped(Three, lv) && HoldsSums(Three, RowOps(n, prf), z, lv)
    ensures |z| == 3
  {
    hide SlotSum, RowOps;
  }

  // The levels stay what they are with one more word.
  lemma LastWord(crypto: Crypto, n: nat, depth: nat, points0: seq<F3x32>, points1: seq<F3x32>, rand0: nat -> Block,
                 rand1: nat -> Block, words: seq<seq<Row>>, l0: Level<Row>, l1: Level<Row>, sigma: seq<Row>)
    requires OnWords(crypto, n, depth, words, rand0, rand1, points0, points1, l0, l1, |words| + 1) && Rows3(n, sigma)
    requires AllReveal(crypto, n, depth, words + [sigma], rand0, rand1, points0, points1)
    ensures OnWords(crypto, n, depth, words + [sigma], rand0, rand1, points0, points1, l0, l1, |words| + 1)
  {
    AllRevealFits(crypto, n, depth, words, rand0, rand1, points0, points1);
    LevelKept(crypto, false, n, words, sigma, rand0, |words| + 1);
    LevelKept(crypto, true, n, words, sigma, rand1, |words| + 1);
    hide AllReveal, LevelAt;
  }

  // The word of a level is revealed as the levels of both parties say.
  lemma NextRevealed(crypto: Crypto, n: nat, depth: nat, points0: seq<F3x32>, points1: seq<F3x32>, rand0: nat -> Block,
                     rand1: nat -> Block, words: seq<seq<Row>>, e0: Expansion, e1: Expansion, iter: nat, sigma: seq<Row>, at: nat)
    requires Together(crypto, n, depth, points0, points1, rand0, rand1, words, e0, e1, iter) && iter <= depth
    requires at == 3 * n + |words| * n && Rows3(n, sigma)
    requires forall k {:trigger points0[k]} {:trigger points1[k]} :: 0 <= k < n ==>
      Shifted(e0.z, e1.z, sigma, k, (points0[k][depth - iter] + points1[k][depth - iter]) % 3, ShiftOf(rand0, at, rand1, at, k))
    ensures AllReveal(crypto, n, depth, words + [sigma], rand0, rand1, points0, points1)
  {
    hide LevelAt, AllReveal, Shifted, ShiftOf, HoldsSums, Holds, BatchOnPath, RowOps, Value, Sum;
    SumsWide(n, crypto.aes, e0.z, e0.lv);
    SumsWide(n, crypto.aes, e1.z, e1.lv);
    AllRevealNext(crypto, n, depth, words, sigma, rand0, rand1, e0.z, e1.z, points0, points1,
                  Positions(points0, points1, depth - iter + 1, depth));
  }

  lemma OtsLeft(levels: nat, n: nat)
    requires levels > 0
    ensures OtsFor(levels, n) == OtsFor(levels - 1, n) + 2 * n
  {
  }

  lemma RootTogether(crypto: Crypto, n: nat, depth: nat, points0: seq<F3x32>, points1: seq<F3x32>, e0: Expansion, e1: Expansion,
                     rand0: nat -> Block, rand1: nat -> Block)
    requires e0 != e1 && Apart(e0, e1) && 1 <= depth <= 32 && n == |points0| == |points1|
    requires e0.a == e1.a == Three && e0.n == e1.n == n && e0.depth == e1.depth == depth && e0.prf == e1.prf == crypto.aes
    requires e0.Valid(1) && e1.Valid(1) && e0.lv == RootLevel(Three, n, false, rand0, 0) && e1.lv == RootLevel(Three, n, true, rand1, 0)
    ensures Together(crypto, n, depth, points0, points1, rand0, rand1, [], e0, e1, 1)
  {
    hide BatchOnPath, RootLevel;
    RootOnPath(Three, n, rand0, 0, rand1, 0);
    assert Positions(points0, points1, depth, depth) == seq(n, _ => 0);
  }

  // Level 1 of both parties.
  method PlantBoth(crypto: Crypto, n: nat, depth: nat, ghost points0: seq<F3x32>, ghost points1: seq<F3x32>, rand0: nat -> Block,
                   rand1: nat -> Block)
    returns (e0: Expansion, e1: Expansion)
    requires 1 <= depth <= 32 && n == |points0| == |points1|
    ensures Together(crypto, n, depth, points0, points1, rand0, rand1, [], e0, e1, 1)
    ensures fresh(e0) && fresh(e1) && fresh(e0.s[0]) && fresh(e0.s[1]) && fresh(e0.s[2]) && fresh(e1.s[0]) && fresh(e1.s[1])
    ensures fresh(e1.s[2])
  {
    hide BatchOnPath, RootLevel, SlotSum, Positions, Holds, HoldsSums, BatchLevel, Capacity;
    e0 := new Expansion(Three, n, depth, crypto.aes, false, rand0, 0);
    e1 := new Expansion(Three, n, depth, crypto.aes, true, rand1, 0);
    RootTogether(crypto, n, depth, points0, points1, e0, e1, rand0, rand1);
  }

  // The loop over the levels; the shifts of level 1 are drawn from position at on.
  method Climb(crypto: Crypto, d0: TernaryDpf, d1: TernaryDpf, points0: seq<F3x32>, points1: seq<F3x32>, e0: Expansion, e1: Expansion,
               rand0: nat -> Block, rand1: nat -> Block, at: nat) returns (sigma: seq<Row>, ghost words: seq<seq<Row>>)
    requires Paired(d0, d1) && Supplied(d0, points0, 1) && Supplied(d1, points1, 1) && d0.depth >= 1 && at == 3 * d0.numPoints
    requires Together(crypto, d0.numPoints, d0.depth, points0, points1, rand0, rand1, [], e0, e1, 1) && |e0.s| == |e1.s| == 3
    modifies d0`otIdx, d1`otIdx, d0`sent, d0`masked, d0`received, d1`sent, d1`masked, d1`received, e0, e1, e0.s[0], e0.s[1], e0.s[2],
             e1.s[0], e1.s[1], e1.s[2]
    ensures Finished(crypto, d0.numPoints, d0.depth, points0, points1, rand0, rand1, words, e0, e1, sigma)
    ensures d0.otIdx == old(d0.otIdx) + OtsFor(d0.depth, d0.numPoints) && Paired(d0, d1)
    ensures Used(d0, old(d0.otIdx), OtsFor(d0.depth, d0.numPoints)) && Used(d1, old(d0.otIdx), OtsFor(d0.depth, d0.numPoints))
  {
    hide Supplied, Together, Finished, OtsFor, Paired;
    sigma, words := [], [];
    var n, depth, iter, next := d0.numPoints, d0.depth, 1, at;
    ghost var start := d0.otIdx;
    SameIndex(d0, d1);
    assert forall log: seq<nat> {:trigger log + Run(start, 0)} :: log + Run(start, 0) == log;
    while iter <= depth
      invariant 1 <= iter <= depth + 1 && Paired(d0, d1) && Supplied(d0, points0, iter) && Supplied(d1, points1, iter)
      invariant d0.otIdx + OtsFor(depth + 1 - iter, n) == start + OtsFor(depth, n) && d0.otIdx == d1.otIdx >= start
      invariant Used(d0, start, d0.otIdx - start) && Used(d1, start, d0.otIdx - start)
      invariant |words| == iter - 1 && next == 3 * n + |words| * n
      invariant iter <= depth ==> Together(crypto, n, depth, points0, points1, rand0, rand1, words, e0, e1, iter)
      invariant iter > depth ==> Finished(crypto, n, depth, points0, points1, rand0, rand1, words, e0, e1, sigma)
    {
      OtsLeft(depth + 1 - iter, n);
      ghost var k := d0.otIdx - start;
      NextShifts(n, |words|);
      sigma := Level(crypto, d0, d1, points0, points1, e0, e1, iter, rand0, rand1, next, words);
      words := words + [sigma];
      LogsJoin(old(d0.sent), old(d0.masked), old(d0.received), start, k, 2 * n);
      LogsJoin(old(d1.sent), old(d1.masked), old(d1.received), start, k, 2 * n);
      SameIndex(d0, d1);
      iter, next := iter + 1, next + n;
    }
    OtsNone(n);
  }

  lemma NextShifts(n: nat, m: nat)
    ensures 3 * n + (m + 1) * n == 3 * n + m * n + n
  {
  }

  lemma SameIndex(d0: TernaryDpf, d1: TernaryDpf)
    requires Paired(d0, d1)
    ensures d0.otIdx == d1.otIdx && d0.numPoints == d1.numPoints
  {
  }

  lemma LogsJoin(sent: seq<nat>, masked: seq<nat>, received: seq<nat>, from: nat, x: nat, y: nat)
    ensures (sent + Run(from, x)) + Run(from + x, y) == sent + Run(from, x + y)
    ensures (masked + Run(from, x)) + Run(from + x, y) == masked + Run(from, x + y)
    ensures (received + Run(from, x)) + Run(from + x, y) == received + Run(from, x + y)
  {
    RunJoins(sent, from, x, y);
    RunJoins(masked, from, x, y);
    RunJoins(received, from, x, y);
  }

  lemma OtsNone(n: nat)
    ensures OtsFor(0, n) == 0
  {
  }

  // The levels 1 to depth.
  method Grow(crypto: Crypto, d0: TernaryDpf, d1: TernaryDpf, points0: seq<F3x32>, points1: seq<F3x32>, rand0: nat -> Block,
              rand1: nat -> Block)
    returns (e0: Expansion, e1: Expansion, sigma: seq<Row>, ghost words: seq<seq<Row>>)
    requires Paired(d0, d1) && Supplied(d0, points0, 1) && Supplied(d1, points1, 1)
    modifies d0`otIdx, d1`otIdx, d0`sent, d0`masked, d0`received, d1`sent, d1`masked, d1`received
    ensures Finished(crypto, d0.numPoints, d0.depth, points0, points1, rand0, rand1, words, e0, e1, sigma)
    ensures d0.otIdx == old(d0.otIdx) + OtsFor(d0.depth, d0.numPoints) && Paired(d0, d1)
    ensures Used(d0, old(d0.otIdx), OtsFor(d0.depth, d0.numPoints)) && Used(d1, old(d0.otIdx), OtsFor(d0.depth, d0.numPoints))
  {
    hide LevelAt, AllReveal;
    hide BatchOnPath, OtsCorrelated, RootLevel, SlotSum, ValidShare, Positions;
    hide ActiveTrits, Holds, Ready, HoldsSums, BatchLevel, Capacity, OtsFor;
    e0, e1 := PlantBoth(crypto, d0.numPoints, d0.depth, points0, points1, rand0, rand1);
    sigma, words := Climb(crypto, d0, d1, points0, points1, e0, e1, rand0, rand1, 3 * d0.numPoints);
  }

  // ---------- the outputs ----------

  function Same<T>(n: nat, x: T): (s: seq<T>) {
    seq(n, _ => x)
  }

  // The trivial case of a domain with one element.
  method Trivial<F>(ctx: CoeffCtx<F>, d: TernaryDpf, values: seq<F>, rand: nat -> Block) returns (out: seq<seq<F>>, t: seq<seq<bool>>)
    requires |values| == 0 || |values| == d.numPoints
    ensures Table(1, d.numPoints, out) && t == [Same(d.numPoints, d.partyIdx == 1)]
    ensures |values| > 0 ==> out == [values]
    ensures |values| == 0 ==> forall i: nat {:trigger rand(i)} :: i < d.numPoints ==> out[0][i] == ctx.fromBlock(rand(i))
  {
    var row: seq<F> := [];
    var i := 0;
    while i < d.numPoints
      invariant i <= d.numPoints && |row| == i && (|values| > 0 ==> row == values[..i])
      invariant |values| == 0 ==> forall j: nat {:trigger rand(j)} :: j < i ==> row[j] == ctx.fromBlock(rand(j))
    {
      row := row + [if |values| > 0 then values[i] else ctx.fromBlock(rand(i))];
      i := i + 1;
    }
    out, t := [row], [Same(d.numPoints, d.partyIdx == 1)];
    assert |values| > 0 ==> row == values;
  }

  // The leaves of both parties after the last level.
  method LastLayers<F(!new)>(ctx: CoeffCtx<F>, crypto: Crypto, n: nat, depth: nat, domain: nat, ghost points0: seq<F3x32>,
                             ghost points1: seq<F3x32>, e0: Expansion, e1: Expansion, sigma: seq<Row>, ghost rand0: nat -> Block,
                             ghost rand1: nat -> Block, ghost words: seq<seq<Row>>)
    returns (leaf0: seq<seq<F>>, t0: seq<seq<bool>>, s0: seq<F>, leaf1: seq<seq<F>>, t1: seq<seq<bool>>, s1: seq<F>)
    requires Finished(crypto, n, depth, points0, points1, rand0, rand1, words, e0, e1, sigma) && XorLike(ctx)
    requires domain <= Nodes(Three, depth) && WordsFit(n, words)
    ensures Layer(ctx, crypto.roundFn, Three, n, e0.lv, sigma, leaf0, t0, s0, domain)
    ensures Layer(ctx, crypto.roundFn, Three, n, e1.lv, sigma, leaf1, t1, s1, domain)
    ensures |s0| == |s1| == n && s0 == RowSums(ctx, n, leaf0, domain) && s1 == RowSums(ctx, n, leaf1, domain)
    ensures ShareTags(n, domain, Positions(points0, points1, 0, depth), t0, t1)
    ensures ShareRandom(ctx, n, domain, Positions(points0, points1, 0, depth), leaf0, leaf1)
    ensures LeavesOnPath(ctx, crypto, false, n, words, rand0, domain, leaf0, t0)
    ensures LeavesOnPath(ctx, crypto, true, n, words, rand1, domain, leaf1, t1)
  {
    hide Layer, Ready, XorLike, ShareTags, ShareRandom, Positions, ActiveTrits, AllRows, HoldsSums, LevelAt, AllReveal, WordsFit, RowSums;
    hide LeavesOnPath;
    PositionsDeepen(points0, points1, 0, depth);
    leaf0, t0, s0 := LastLayer(ctx, crypto.roundFn, Three, n, e0.s[(depth - 1) % 3], e0.s[depth % 3], domain, sigma, e0.lv);
    leaf1, t1, s1 := LastLayer(ctx, crypto.roundFn, Three, n, e1.s[(depth - 1) % 3], e1.s[depth % 3], domain, sigma, e1.lv);
    LeavesShare(ctx, crypto.roundFn, Three, n, crypto.aes, e0.lv, e1.lv, e0.z, e1.z, sigma, Positions(points0, points1, 1, depth),
                ActiveTrits(points0, points1, 0), leaf0, leaf1, t0, t1, s0, s1, domain);
    LayerSums(ctx, crypto.roundFn, n, e0.lv, sigma, leaf0, t0, s0, domain);
    LayerSums(ctx, crypto.roundFn, n, e1.lv, sigma, leaf1, t1, s1, domain);
    LayerOnPath(ctx, crypto, false, n, words, rand0, domain, leaf0, t0, s0);
    LayerOnPath(ctx, crypto, true, n, words, rand1, domain, leaf1, t1, s1);
  }

  // Sums, differences and outputs of both parties after the last level.
  method Finish<F(!new)>(ctx: CoeffCtx<F>, crypto: Crypto, n: nat, depth: nat, domain: nat, points0: seq<F3x32>, points1: seq<F3x32>,
                   e0: Expansion, e1: Expansion, sigma: seq<Row>, values0: seq<F>, values1: seq<F>, ghost rand0: nat -> Block,
                   ghost rand1: nat -> Block, ghost words: seq<seq<Row>>)
    returns (out0: seq<seq<F>>, out1: seq<seq<F>>, t0: seq<seq<bool>>, t1: seq<seq<bool>>, ghost gamma: seq<F>)
    requires Finished(crypto, n, depth, points0, points1, rand0, rand1, words, e0, e1, sigma) && XorLike(ctx)
    requires domain <= Nodes(Three, depth)
    requires |values0| == |values1| && (|values0| == 0 || |values0| == n)
    ensures ShareTags(n, domain, Positions(points0, points1, 0, depth), t0, t1)
    ensures |values0| > 0 ==> ShareValues(ctx, n, domain, Positions(points0, points1, 0, depth), values0, values1, out0, out1)
    ensures |values0| == 0 ==> ShareRandom(ctx, n, domain, Positions(points0, points1, 0, depth), out0, out1)
    ensures AllReveal(crypto, n, depth, words, rand0, rand1, points0, points1) && |words| == depth && |gamma| == |values0|
    ensures |words| > 0 && WordsFit(n, words)
    ensures OutputsOnPath(ctx, crypto, false, n, words, rand0, domain, gamma, out0, t0)
    ensures OutputsOnPath(ctx, crypto, true, n, words, rand1, domain, gamma, out1, t1)
    ensures forall k {:trigger gamma[k]} :: 0 <= k < |gamma| ==>
      GammaReveals(ctx, crypto, n, words, rand0, rand1, domain, points0[k], points1[k], k, ctx.plus(values0[k], values1[k]), gamma[k])
  {
    hide LevelAt, WordReveals, WordsFit, GammaReveals, LeavesOnPath, OutputsOnPath, Applied, NodeSeed, BatchOnPath, Holds, RowSums;
    AllRevealFits(crypto, n, depth, words, rand0, rand1, points0, points1);
    hide AllReveal;
    gamma := [];
    hide Layer, Ready, XorLike, ShareTags, ShareRandom, ShareValues, Positions, ActiveTrits, AllRows, HoldsSums;
    ghost var target := Positions(points0, points1, 0, depth);
    PositionsDeepen(points0, points1, 0, depth);
    var leaf0, s0, leaf1, s1;
    leaf0, t0, s0, leaf1, t1, s1 := LastLayers(ctx, crypto, n, depth, domain, points0, points1, e0, e1, sigma, rand0, rand1, words);
    if |values0| > 0 {
      out0, out1, gamma := Program(ctx, crypto.roundFn, Three, n, crypto.aes, e0.lv, e1.lv, e0.z, e1.z, sigma,
                            Positions(points0, points1, 1, depth), ActiveTrits(points0, points1, 0), leaf0, leaf1, t0, t1, s0, s1,
                            domain, domain, values0, values1);
      AppliedOnPath(ctx, crypto, false, n, words, rand0, domain, gamma, leaf0, t0, out0);
      AppliedOnPath(ctx, crypto, true, n, words, rand1, domain, gamma, leaf1, t1, out1);
      GammasOnPath(ctx, crypto, n, depth, domain, points0, points1, words, rand0, rand1, leaf0, leaf1, t0, t1, s0, s1, values0, values1,
                   gamma);
    } else {
      out0, out1 := leaf0, leaf1;
      PlainOnPath(ctx, crypto, false, n, words, rand0, domain, leaf0, t0);
      PlainOnPath(ctx, crypto, true, n, words, rand1, domain, leaf1, t1);
    }
  }

  lemma PlainOnPath<F>(ctx: CoeffCtx<F>, crypto: Crypto, party: bool, n: nat, words: seq<seq<Row>>, rand: nat -> Block,
                       domain: nat, leaf: seq<seq<F>>, t: seq<seq<bool>>)
    requires WordsFit(n, words) && |words| > 0 && LeavesOnPath(ctx, crypto, party, n, words, rand, domain, leaf, t)
    ensures OutputsOnPath(ctx, crypto, party, n, words, rand, domain, [], leaf, t)
  {
    hide NodeSeed;
  }

  // The sums of all leaves leave what the two leaves at the point add up to.
  lemma GammaOnPath<F(!new)>(ctx: CoeffCtx<F>, crypto: Crypto, n: nat, depth: nat, domain: nat, points0: seq<F3x32>, points1: seq<F3x32>,
                             words: seq<seq<Row>>, rand0: nat -> Block, rand1: nat -> Block, leaf0: seq<seq<F>>, leaf1: seq<seq<F>>,
                             t0: seq<seq<bool>>, t1: seq<seq<bool>>, s0: seq<F>, s1: seq<F>, k: nat, value: F, gamma: F)
    requires WordsFit(n, words) && 0 < |words| == depth <= 32 && XorLike(ctx) && |points0| == |points1| == n && k < n
    requires LeavesOnPath(ctx, crypto, false, n, words, rand0, domain, leaf0, t0)
    requires LeavesOnPath(ctx, crypto, true, n, words, rand1, domain, leaf1, t1)
    requires ShareRandom(ctx, n, domain, Positions(points0, points1, 0, depth), leaf0, leaf1)
    requires s0 == RowSums(ctx, n, leaf0, domain) && s1 == RowSums(ctx, n, leaf1, domain)
    requires gamma == ctx.plus(value, ctx.plus(s0[k], s1[k]))
    ensures GammaReveals(ctx, crypto, n, words, rand0, rand1, domain, points0[k], points1[k], k, value, gamma)
  {
    hide NodeSeed, XorLike, RowSums, Value, Sum;
    var target := Value(Sum(points0[k], points1[k]), 0, depth);
    assert Positions(points0, points1, 0, depth)[k] == target;
    forall r {:trigger leaf0[r]} | 0 <= r < domain && r != target
      ensures leaf0[r][k] == leaf1[r][k]
    {
      assert ctx.plus(leaf0[r][k], leaf1[r][k]) == ctx.zero;
      PlusZeroMeansEqual(ctx, leaf0[r][k], leaf1[r][k]);
    }
    SumsPair(ctx, n, leaf0, leaf1, domain, k, target);
  }

  lemma GammasOnPath<F(!new)>(ctx: CoeffCtx<F>, crypto: Crypto, n: nat, depth: nat, domain: nat, points0: seq<F3x32>, points1: seq<F3x32>,
                              words: seq<seq<Row>>, rand0: nat -> Block, rand1: nat -> Block, leaf0: seq<seq<F>>, leaf1: seq<seq<F>>,
                              t0: seq<seq<bool>>, t1: seq<seq<bool>>, s0: seq<F>, s1: seq<F>, values0: seq<F>, values1: seq<F>,
                              gamma: seq<F>)
    requires WordsFit(n, words) && 0 < |words| == depth <= 32 && XorLike(ctx) && |points0| == |points1| == n
    requires LeavesOnPath(ctx, crypto, false, n, words, rand0, domain, leaf0, t0)
    requires LeavesOnPath(ctx, crypto, true, n, words, rand1, domain, leaf1, t1)
    requires ShareRandom(ctx, n, domain, Positions(points0, points1, 0, depth), leaf0, leaf1)
    requires s0 == RowSums(ctx, n, leaf0, domain) && s1 == RowSums(ctx, n, leaf1, domain) && |gamma| == |values0| == |values1| == n
    requires forall k {:trigger gamma[k]} :: 0 <= k < n ==>
      gamma[k] == ctx.plus(ctx.plus(values0[k], values1[k]), ctx.plus(s0[k], s1[k]))
    ensures forall k {:trigger gamma[k]} :: 0 <= k < n ==>
      GammaReveals(ctx, crypto, n, words, rand0, rand1, domain, points0[k], points1[k], k, ctx.plus(values0[k], values1[k]), gamma[k])
  {
    hide LeavesOnPath, ShareRandom, RowSums, XorLike, GammaReveals, Positions;
    forall k {:trigger gamma[k]} | 0 <= k < n
      ensures GammaReveals(ctx, crypto, n, words, rand0, rand1, domain, points0[k], points1[k], k, ctx.plus(values0[k], values1[k]),
                           gamma[k])
    {
      GammaOnPath(ctx, crypto, n, depth, domain, points0, points1, words, rand0, rand1, leaf0, leaf1, t0, t1, s0, s1, k,
                  ctx.plus(values0[k], values1[k]), gamma[k]);
    }
  }

  lemma LayerSums<F>(ctx: CoeffCtx<F>, roundFn: (Block, Block) -> Block, n: nat, lv: Level<Row>, sigma: seq<Row>, leaf: seq<seq<F>>,
                     t: seq<seq<bool>>, sums: seq<F>, domain: nat)
    requires Layer(ctx, roundFn, Three, n, lv, sigma, leaf, t, sums, domain)
    ensures Table(domain, n, leaf) && sums == RowSums(ctx, n, leaf, domain)
  {
    hide LeavesDone, RowSums;
  }

  lemma PlusZeroMeansEqual<F(!new)>(ctx: CoeffCtx<F>, x: F, y: F)
    requires XorLike(ctx) && ctx.plus(x, y) == ctx.zero
    ensures x == y
  {
    PlusCancel(ctx, x, y);
    PlusCancel(ctx, y, x);
  }

  // What init establishes, for domains whose indices fit the 32 trits of F3x32.
  ghost predicate Configured(d: TernaryDpf)
    reads d
  {
    d.domain > 0 && d.numPoints > 0 && d.domain <= Pow3(d.depth) && (d.depth > 0 ==> Pow3(d.depth - 1) < d.domain) && d.depth <= 32
  }

  lemma {:induction false} NodesArePowers(i: nat)
    ensures Nodes(Three, i) == Pow3(i)
  {
    if i > 0 {
      NodesArePowers(i - 1);
    }
  }

  // The secret points.
  function Points(points0: seq<F3x32>, points1: seq<F3x32>, depth: nat): seq<nat>
    requires |points0| == |points1| && depth <= 32
  {
    Positions(points0, points1, 0, depth)
  }

  lemma InputsSupply<F>(d0: TernaryDpf, d1: TernaryDpf, points0: seq<F3x32>, points1: seq<F3x32>, values0: seq<F>, values1: seq<F>)
    requires Paired(d0, d1) && Configured(d0) && d0.domain != 1 && InputsOk(d0, points0, values0) && InputsOk(d1, points1, values1)
    requires d0.otIdx + OtsFor(d0.depth, d0.numPoints) <= |d0.sendOts|
    ensures Supplied(d0, points0, 1) && Supplied(d1, points1, 1)
  {
    hide OtsFor, ValidShare;
  }

  // The outputs of one party for a domain with one element: the values, or words of the stream,
  // and the party as tag.
  ghost predicate Single<F>(ctx: CoeffCtx<F>, values: seq<F>, rand: nat -> Block, party: bool, n: nat, out: seq<seq<F>>,
                            t: seq<seq<bool>>) {
    && |out| == |t| == 1 && |out[0]| == |t[0]| == n && (forall k {:trigger t[0][k]} :: 0 <= k < n ==> t[0][k] == party)
    && if |values| > 0 then out[0] == values else forall k: nat {:trigger rand(k)} :: k < n ==> out[0][k] == ctx.fromBlock(rand(k))
  }

  method TrivialBoth<F(!new)>(ctx: CoeffCtx<F>, d0: TernaryDpf, d1: TernaryDpf, points0: seq<F3x32>, points1: seq<F3x32>,
                              values0: seq<F>, values1: seq<F>, rand0: nat -> Block, rand1: nat -> Block)
    returns (out0: seq<seq<F>>, out1: seq<seq<F>>, t0: seq<seq<bool>>, t1: seq<seq<bool>>)
    requires Paired(d0, d1) && Configured(d0) && d0.domain == 1 && |points0| == |points1| == d0.numPoints
    requires |values0| == |values1| && (|values0| == 0 || |values0| == d0.numPoints)
    ensures d0.depth == 0 && ShareTags(d0.numPoints, 1, Points(points0, points1, 0), t0, t1)
    ensures |values0| > 0 ==> ShareValues(ctx, d0.numPoints, 1, Points(points0, points1, 0), values0, values1, out0, out1)
    ensures |values0| == 0 ==> ShareRandom(ctx, d0.numPoints, 1, Points(points0, points1, 0), out0, out1)
    ensures Single(ctx, values0, rand0, false, d0.numPoints, out0, t0) && Single(ctx, values1, rand1, true, d0.numPoints, out1, t1)
  {
    hide OtsCorrelated;
    out0, t0 := Trivial(ctx, d0, values0, rand0);
    out1, t1 := Trivial(ctx, d1, values1, rand1);
  }

  method RunBoth<F(!new)>(ctx: CoeffCtx<F>, crypto: Crypto, d0: TernaryDpf, d1: TernaryDpf, points0: seq<F3x32>, points1: seq<F3x32>,
                          values0: seq<F>, values1: seq<F>, rand0: nat -> Block, rand1: nat -> Block)
    returns (out0: seq<seq<F>>, out1: seq<seq<F>>, t0: seq<seq<bool>>, t1: seq<seq<bool>>, ghost words: seq<seq<Row>>,
             ghost gamma: seq<F>)
    requires Paired(d0, d1) && Configured(d0) && XorLike(ctx) && d0.domain != 1 && (|values0| == 0 <==> |values1| == 0)
    requires InputsOk(d0, points0, values0) && InputsOk(d1, points1, values1)
    requires d0.otIdx + OtsFor(d0.depth, d0.numPoints) <= |d0.sendOts|
    modifies d0`otIdx, d1`otIdx, d0`sent, d0`masked, d0`received, d1`sent, d1`masked, d1`received
    ensures Paired(d0, d1) && d0.otIdx == old(d0.otIdx) + OtsFor(d0.depth, d0.numPoints)
    ensures Used(d0, old(d0.otIdx), OtsFor(d0.depth, d0.numPoints)) && Used(d1, old(d0.otIdx), OtsFor(d0.depth, d0.numPoints))
    ensures ShareTags(d0.numPoints, d0.domain, Points(points0, points1, d0.depth), t0, t1)
    ensures |values0| > 0 ==> ShareValues(ctx, d0.numPoints, d0.domain, Points(points0, points1, d0.depth), values0, values1, out0, out1)
    ensures |values0| == 0 ==> ShareRandom(ctx, d0.numPoints, d0.domain, Points(points0, points1, d0.depth), out0, out1)
    ensures |words| == d0.depth <= 32 && AllReveal(crypto, d0.numPoints, d0.depth, words, rand0, rand1, points0, points1)
    ensures |gamma| == |values0| && (|gamma| == 0 || |gamma| == d0.numPoints == |values1|) && |points0| == |points1| == d0.numPoints
    ensures |words| > 0 && WordsFit(d0.numPoints, words)
    ensures OutputsOnPath(ctx, crypto, false, d0.numPoints, words, rand0, d0.domain, gamma, out0, t0)
    ensures OutputsOnPath(ctx, crypto, true, d0.numPoints, words, rand1, d0.domain, gamma, out1, t1)
    ensures forall k {:trigger gamma[k]} :: 0 <= k < |gamma| ==>
      GammaReveals(ctx, crypto, d0.numPoints, words, rand0, rand1, d0.domain, points0[k], points1[k], k,
                   ctx.plus(values0[k], values1[k]), gamma[k])
  {
    hide OtsCorrelated, XorLike, ValidShare, OtsFor, ShareTags, ShareValues, ShareRandom, Positions, Supplied, Finished;
    hide AllReveal, OutputsOnPath, GammaReveals;
    InputsSupply(d0, d1, points0, points1, values0, values1);
    var e0, e1, sigma;
    e0, e1, sigma, words := Grow(crypto, d0, d1, points0, points1, rand0, rand1);
    NodesArePowers(d0.depth);
    out0, out1, t0, t1, gamma := Finish(ctx, crypto, d0.numPoints, d0.depth, d0.domain, points0, points1, e0, e1, sigma, values0, values1,
                                        rand0, rand1, words);
  }

  // No trit of a share is 3, and none above the depth is set.
  ghost predicate AllValid(points: seq<F3x32>, depth: nat) {
    forall k, j {:trigger points[k][j]} :: 0 <= k < |points| && 0 <= j < 32 ==>
      if j < depth then points[k][j] != 3 else points[k][j] == 0
  }

  lemma SharesSpelt(points: seq<F3x32>, depth: nat)
    requires depth <= 32
    ensures AllValid(points, depth) <==> forall k {:trigger points[k]} :: 0 <= k < |points| ==> ValidShare(points[k], depth)
  {
    if AllValid(points, depth) {
      forall k {:trigger points[k]} | 0 <= k < |points|
        ensures ValidShare(points[k], depth)
      {
        assert forall j {:trigger points[k][j]} :: 0 <= j < 32 ==> if j < depth then points[k][j] != 3 else points[k][j] == 0;
      }
    } else {
      var k, j :| 0 <= k < |points| && 0 <= j < 32 && !(if j < depth then points[k][j] != 3 else points[k][j] == 0);
      assert !ValidShare(points[k], depth);
    }
  }

  // expand, run by both parties.
  method Expand<F(!new)>(ctx: CoeffCtx<F>, crypto: Crypto, d0: TernaryDpf, d1: TernaryDpf, points0: seq<F3x32>, points1: seq<F3x32>,
                         values0: seq<F>, values1: seq<F>, rand0: nat -> Block, rand1: nat -> Block)
    returns (ok: bool, out0: seq<seq<F>>, out1: seq<seq<F>>, t0: seq<seq<bool>>, t1: seq<seq<bool>>, ghost words: seq<seq<Row>>,
             ghost gamma: seq<F>)
    requires Paired(d0, d1) && Configured(d0) && XorLike(ctx)
    requires |values0| == 0 <==> |values1| == 0
    requires d0.otIdx + d0.depth * d0.numPoints * 2 <= |d0.sendOts|
    modifies d0`otIdx, d1`otIdx, d0`sent, d0`masked, d0`received, d1`sent, d1`masked, d1`received
    ensures ok <==> |points0| == |points1| == d0.numPoints && (|values0| == 0 || |values0| == |values1| == d0.numPoints)
                    && (d0.domain > 1 ==> AllValid(points0, d0.depth) && AllValid(points1, d0.depth))
    ensures Paired(d0, d1) && d0.otIdx == old(d0.otIdx) + if ok then d0.depth * d0.numPoints * 2 else 0
    ensures Used(d0, old(d0.otIdx), if ok then d0.depth * d0.numPoints * 2 else 0)
    ensures Used(d1, old(d0.otIdx), if ok then d0.depth * d0.numPoints * 2 else 0)
    ensures ok ==> |points0| == |points1| && ShareTags(d0.numPoints, d0.domain, Points(points0, points1, d0.depth), t0, t1)
    ensures ok && |values0| > 0 ==>
      ShareValues(ctx, d0.numPoints, d0.domain, Points(points0, points1, d0.depth), values0, values1, out0, out1)
    ensures ok && |values0| == 0 ==> ShareRandom(ctx, d0.numPoints, d0.domain, Points(points0, points1, d0.depth), out0, out1)
    ensures ok && d0.domain > 1 ==> |words| == d0.depth <= 32
    ensures ok && d0.domain > 1 ==> AllReveal(crypto, d0.numPoints, d0.depth, words, rand0, rand1, points0, points1)
    ensures ok && d0.domain > 1 ==> |gamma| == |values0| && (|gamma| == 0 || |gamma| == d0.numPoints == |values1|)
    ensures ok && d0.domain > 1 ==> |points0| == |points1| == d0.numPoints
    ensures ok && d0.domain > 1 ==> |words| > 0 && WordsFit(d0.numPoints, words)
    ensures ok && d0.domain > 1 ==> OutputsOnPath(ctx, crypto, false, d0.numPoints, words, rand0, d0.domain, gamma, out0, t0)
    ensures ok && d0.domain > 1 ==> OutputsOnPath(ctx, crypto, true, d0.numPoints, words, rand1, d0.domain, gamma, out1, t1)
    ensures ok && d0.domain > 1 ==> forall k {:trigger gamma[k]} :: 0 <= k < |gamma| ==>
      GammaReveals(ctx, crypto, d0.numPoints, words, rand0, rand1, d0.domain, points0[k], points1[k], k,
                   ctx.plus(values0[k], values1[k]), gamma[k])
    ensures ok && d0.domain == 1 ==> Single(ctx, values0, rand0, false, d0.numPoints, out0, t0)
    ensures ok && d0.domain == 1 ==> Single(ctx, values1, rand1, true, d0.numPoints, out1, t1)
  {
    hide OtsCorrelated, XorLike, ValidShare, AllValid, OtsFor, ShareTags;
    hide ShareValues, ShareRandom, Points, AllReveal, OutputsOnPath, GammaReveals;
    out0, out1, t0, t1, words, gamma := [], [], [], [], [], [];
    OtsForIsProduct(d0.depth, d0.numPoints);
    SharesSpelt(points0, d0.depth);
    SharesSpelt(points1, d0.depth);
    var ok0 := CheckInputs(d0, points0, values0);
    var ok1 := CheckInputs(d1, points1, values1);
    ok := ok0 && ok1;
    if !ok {
      return;
    }
    if d0.domain == 1 {
      OtsNone(d0.numPoints);
      out0, out1, t0, t1 := TrivialBoth(ctx, d0, d1, points0, points1, values0, values1, rand0, rand1);
      return;
    }
    out0, out1, t0, t1, words, gamma := RunBoth(ctx, crypto, d0, d1, points0, points1, values0, values1, rand0, rand1);
  }
}

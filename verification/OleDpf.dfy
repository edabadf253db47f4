/**
 generate_additive_sharing and dpf of OLE.h (lines 14 to 137): two block-regular sparse
 polynomials are multiplied with one distributed point function for every pair of blocks.
 */
module OleDpf {
  import opened Blocks
  import opened F4Ring
  import F4Mul
  import opened Radix3
  import opened GroupAlgebra
  import opened Trits
  import opened IndexSplit
  import opened BlockSums
  import opened SparsePoly
  import opened DpfLeaves
  import opened DpfReconstruct
  import opened DpfRows
  import opened DpfLastLayer
  import opened ObliviousTransfer
  import opened TernaryDpf
  import opened TernaryProtocol
  import opened TernaryPath
  import opened TernaryExpand
  import Fermat

  // ctx.mul
  function Mul(x: Block, y: Block): Block {
    F4Mul.F4Mul(x, y)
  }

  // ---------- pairs of blocks as tree indices ----------

  function Flat(t: nat, i: nat, j: nat): nat {
    i * t + j
  }

  function PairI(t: nat, k: nat): nat
    requires t > 0
  {
    k / t
  }

  function PairJ(t: nat, k: nat): (j: nat)
    requires t > 0
    ensures j < t
  {
    k % t
  }

  lemma FlatParts(t: nat, i: nat, j: nat)
    requires j < t
    ensures PairI(t, Flat(t, i, j)) == i && PairJ(t, Flat(t, i, j)) == j
  {
    Quotient(t, i, j, Flat(t, i, j) / t, Flat(t, i, j) % t);
  }

  lemma Quotient(t: nat, i: nat, j: nat, q: nat, r: nat)
    requires j < t && r < t && i * t + j == q * t + r
    ensures q == i && r == j
  {
    var e := q - i;
    assert e * t == q * t - i * t;
  }

  lemma FlatBound(t: nat, i: nat, j: nat, u: nat)
    requires i < u && j < t
    ensures Flat(t, i, j) < Flat(t, u, 0)
  {
    assert (i + 1) * t <= u * t;
    assert (i + 1) * t == i * t + t;
  }

  lemma FlatNext(t: nat, i: nat)
    ensures Flat(t, i, t) == Flat(t, i + 1, 0)
  {
  }

  // Random shares of all products of two coefficients; rand holds the draws.
  method GenerateAdditiveSharing(c0: seq<Block>, c1: seq<Block>, rand: nat -> Block) returns (value0: seq<Block>, value1: seq<Block>)
    requires |c1| > 0
    ensures |value0| == |value1| == Flat(|c1|, |c0|, 0)
    ensures forall k {:trigger PairI(|c1|, k)} :: 0 <= k < |value0| ==> PairI(|c1|, k) < |c0|
    ensures forall k {:trigger value0[k]} :: 0 <= k < |value0| ==>
      Xor(value0[k], value1[k]) == Mul(c0[PairI(|c1|, k)], c1[PairJ(|c1|, k)])
    ensures forall k: nat {:trigger value0[k]} :: k < |value0| ==> value0[k] == rand(k)
    ensures forall k: nat {:trigger value1[k]} :: k < |value1| ==>
      k / |c1| < |c0| && value1[k] == Xor(F4Mul.F4Mul(c0[k / |c1|], c1[k % |c1|]), rand(k))
    ensures SharedAs(c0, c1, rand, value0, value1)
  {
    hide Mul, Flat, PairI, PairJ, Xor;
    value0, value1 := [], [];
    var t, i := |c1|, 0;
    FlatZero(t);
    while i < |c0|
      invariant i <= |c0| && |value0| == |value1| == Flat(t, i, 0)
      invariant forall k {:trigger PairI(t, k)} :: 0 <= k < |value0| ==> PairI(t, k) < |c0|
      invariant forall k {:trigger value0[k]} :: 0 <= k < |value0| ==>
        Xor(value0[k], value1[k]) == Mul(c0[PairI(t, k)], c1[PairJ(t, k)])
      invariant forall k: nat {:trigger rand(k)} :: k < |value0| ==>
        value0[k] == rand(k) && value1[k] == Xor(Mul(c0[PairI(t, k)], c1[PairJ(t, k)]), rand(k))
    {
      var j := 0;
      while j < t
        invariant j <= t && |value0| == |value1| == Flat(t, i, j)
        invariant forall k {:trigger PairI(t, k)} :: 0 <= k < |value0| ==> PairI(t, k) < |c0|
        invariant forall k {:trigger value0[k]} :: 0 <= k < |value0| ==>
          Xor(value0[k], value1[k]) == Mul(c0[PairI(t, k)], c1[PairJ(t, k)])
        invariant forall k: nat {:trigger rand(k)} :: k < |value0| ==>
          value0[k] == rand(k) && value1[k] == Xor(Mul(c0[PairI(t, k)], c1[PairJ(t, k)]), rand(k))
      {
        FlatParts(t, i, j);
        FlatStep(t, i, j);
        var temp, r := Mul(c0[i], c1[j]), rand(|value0|);
        ShareOf(r, temp);
        value0 := value0 + [r];
        value1 := value1 + [Xor(temp, r)];
        j := j + 1;
      }
      FlatNext(t, i);
      i := i + 1;
    }
    forall k: nat | k < |value1|
      ensures k / |c1| < |c0| && value1[k] == Xor(F4Mul.F4Mul(c0[k / |c1|], c1[k % |c1|]), rand(k))
    {
      PairSpelt(c0, c1, k);
      assert rand(k) == rand(k);
    }
  }

  // Party 0's share of a product is the drawn block, and party 1's the product with it added.
  ghost predicate SharedAs(c0: seq<Block>, c1: seq<Block>, rand: nat -> Block, value0: seq<Block>, value1: seq<Block>) {
    && |c1| > 0 && |value0| == |value1|
    && forall k: nat {:trigger value0[k]} {:trigger value1[k]} :: k < |value0| ==>
         k / |c1| < |c0| && value0[k] == rand(k) && value1[k] == Xor(F4Mul.F4Mul(c0[k / |c1|], c1[k % |c1|]), rand(k))
  }

  lemma PairSpelt(c0: seq<Block>, c1: seq<Block>, k: nat)
    requires |c1| > 0 && PairI(|c1|, k) < |c0|
    ensures k / |c1| < |c0| && Mul(c0[PairI(|c1|, k)], c1[PairJ(|c1|, k)]) == F4Mul.F4Mul(c0[k / |c1|], c1[k % |c1|])
  {
    hide F4Mul.F4Mul;
  }

  lemma FlatZero(t: nat)
    ensures Flat(t, 0, 0) == 0
  {
  }

  lemma FlatStep(t: nat, i: nat, j: nat)
    ensures Flat(t, i, j + 1) == Flat(t, i, j) + 1
  {
  }

  lemma ShareOf(r: Block, temp: Block)
    ensures Xor(r, Xor(temp, r)) == temp
  {
    XorComm(temp, r);
    XorAssoc(r, r, temp);
    XorSelf(r);
    XorZero(temp);
  }

  // points[i * numPoints + j] for both parties.
  method PairPoints(p0: seq<F3x32>, p1: seq<F3x32>) returns (points0: seq<F3x32>, points1: seq<F3x32>)
    requires |p0| == |p1| > 0
    ensures |points0| == |points1| == Flat(|p0|, |p0|, 0)
    ensures forall k {:trigger PairI(|p0|, k)} :: 0 <= k < |points0| ==> PairI(|p0|, k) < |p0|
    ensures forall k {:trigger points0[k]} :: 0 <= k < |points0| ==> points0[k] == p0[PairI(|p0|, k)]
    ensures forall k {:trigger points1[k]} :: 0 <= k < |points0| ==> points1[k] == p1[PairJ(|p0|, k)]
  {
    hide Flat, PairI, PairJ;
    points0, points1 := [], [];
    var t, i := |p0|, 0;
    FlatZero(t);
    while i < t
      invariant i <= t && |points0| == |points1| == Flat(t, i, 0)
      invariant forall k {:trigger PairI(t, k)} :: 0 <= k < |points0| ==> PairI(t, k) < t
      invariant forall k {:trigger points0[k]} :: 0 <= k < |points0| ==> points0[k] == p0[PairI(t, k)]
      invariant forall k {:trigger points1[k]} :: 0 <= k < |points0| ==> points1[k] == p1[PairJ(t, k)]
    {
      var j := 0;
      while j < t
        invariant j <= t && |points0| == |points1| == Flat(t, i, j)
        invariant forall k {:trigger PairI(t, k)} :: 0 <= k < |points0| ==> PairI(t, k) < t
        invariant forall k {:trigger points0[k]} :: 0 <= k < |points0| ==> points0[k] == p0[PairI(t, k)]
        invariant forall k {:trigger points1[k]} :: 0 <= k < |points0| ==> points1[k] == p1[PairJ(t, k)]
      {
        FlatParts(t, i, j);
        FlatStep(t, i, j);
        points0 := points0 + [p0[i]];
        points1 := points1 + [p1[j]];
        j := j + 1;
      }
      FlatNext(t, i);
      i := i + 1;
    }
  }

  // ---------- accumulation ----------

  // What entry m receives from tree (i, j).
  function Received(b: nat, d: nat, out: seq<seq<Block>>, m: nat): (nat, nat) -> Block
    requires m < Pow3(b + d)
  {
    (i: nat, j: nat) =>
      if i < Pow3(b) && j < Pow3(b) && AddIdx(b, i, j) == Leading(b, d, m) then Output2(out, Trailing(b, d, m), Flat(Pow3(b), i, j))
      else ZERO
  }

  function Output2(out: seq<seq<Block>>, r: nat, k: nat): Block {
    if r < |out| && k < |out[r]| then out[r][k] else ZERO
  }

  // polyA[k + temp] += output(tree, k) for all k below domain.
  method AddRun(poly: array<Block>, temp: nat, domain: nat, out: seq<seq<Block>>, tree: nat)
    requires temp + domain <= poly.Length && |out| == domain && forall r {:trigger out[r]} :: 0 <= r < domain ==> tree < |out[r]|
    modifies poly
    ensures forall m {:trigger poly[m]} :: 0 <= m < poly.Length ==>
      poly[m] == if temp <= m < temp + domain then Xor(old(poly[m]), Output2(out, m - temp, tree)) else old(poly[m])
  {
    hide Xor;
    var k := 0;
    while k < domain
      invariant k <= domain
      invariant forall m {:trigger poly[m]} :: 0 <= m < poly.Length ==>
        poly[m] == if temp <= m < temp + k then Xor(old(poly[m]), Output2(out, m - temp, tree)) else old(poly[m])
    {
      poly[k + temp] := Xor(poly[k + temp], out[k][tree]);
      k := k + 1;
    }
  }

  lemma SumBelow(x: F3x32, y: F3x32, n: nat)
    requires Below(x, n) && Below(y, n)
    ensures Below(Sum(x, y), n)
  {
  }

  // The block that tree (i, j) belongs to.
  method TargetBlock(i: nat, j: nat, numPoints: nat, ghost b: nat) returns (target: nat)
    requires numPoints == Pow3(b) && i < numPoints && j < numPoints && b <= 32
    ensures target == AddIdx(b, i, j)
  {
    hide *;
    var i1 := FromInt(i);
    var i2 := FromInt(j);
    var sum := Add(i1, i2);
    var v := ToInt(sum);
    SumOfIndices(i, j, b);
    SmallModulo(v, numPoints);
    target := v % numPoints;
  }

  lemma SumOfIndices(i: nat, j: nat, b: nat)
    requires i < Pow3(b) && j < Pow3(b) && b <= 32
    ensures Value(Sum(Digits(i), Digits(j)), 0, 32) == AddIdx(b, i, j)
  {
    hide Value, Digits, Sum, AddIdx;
    FromIntToInt(i, b);
    FromIntToInt(j, b);
    SumIsAddIdx(Digits(i), Digits(j), b);
    SumBelow(Digits(i), Digits(j), b);
    ValueBelow(Sum(Digits(i), Digits(j)), 0, b, 32);
  }

  lemma SmallModulo(v: nat, n: nat)
    requires v < n
    ensures v % n == v
  {
  }

  lemma RunOfBlock(b: nat, d: nat, target: nat, m: nat)
    requires target < Pow3(b) && m < Pow3(b + d)
    ensures target * Pow3(d) + Pow3(d) <= Pow3(b + d)
    ensures target * Pow3(d) <= m < target * Pow3(d) + Pow3(d) <==> Leading(b, d, m) == target
    ensures Leading(b, d, m) == target ==> m - target * Pow3(d) == Trailing(b, d, m)
  {
    CatIsOffset(b, d, target, Pow3(d) - 1);
    CatSplit(b, d, m);
    CatIsOffset(b, d, Leading(b, d, m), Trailing(b, d, m));
    if target * Pow3(d) <= m < target * Pow3(d) + Pow3(d) {
      CatIsOffset(b, d, target, m - target * Pow3(d));
      SplitCat(b, d, target, m - target * Pow3(d));
    }
  }

  // All outputs of one party, added up block by block.
  method Accumulate(poly: array<Block>, numPoints: nat, domain: nat, out: seq<seq<Block>>, ghost b: nat, ghost d: nat)
    requires numPoints == Pow3(b) && domain == Pow3(d) && b <= 32 && poly.Length == Pow3(b + d)
    requires Table(domain, Flat(numPoints, numPoints, 0), out)
    modifies poly
    ensures forall m {:trigger poly[m]} :: 0 <= m < poly.Length ==>
      poly[m] == Xor(old(poly[m]), Sum2(Received(b, d, out, m), numPoints, numPoints))
  {
    hide Xor, Received, Flat;
    ghost var start := poly[..];
    NothingReceived(b, d, out, start);
    var i := 0;
    while i < numPoints
      invariant i <= numPoints
      invariant forall m {:trigger poly[m]} :: 0 <= m < poly.Length ==> poly[m] == Xor(start[m], Sum2(Received(b, d, out, m), i, numPoints))
    {
      AccumulateRow(poly, numPoints, domain, out, i, b, d, start);
      i := i + 1;
    }
  }

  lemma NothingReceived(b: nat, d: nat, out: seq<seq<Block>>, start: seq<Block>)
    requires |start| == Pow3(b + d)
    ensures forall m {:trigger start[m]} :: 0 <= m < |start| ==> start[m] == Xor(start[m], Sum2(Received(b, d, out, m), 0, Pow3(b)))
  {
    hide Xor;
    forall m | 0 <= m < |start|
      ensures start[m] == Xor(start[m], ZERO)
    {
      XorZero(start[m]);
    }
  }

  method AccumulateRow(poly: array<Block>, numPoints: nat, domain: nat, out: seq<seq<Block>>, i: nat, ghost b: nat, ghost d: nat,
                       ghost start: seq<Block>)
    requires numPoints == Pow3(b) && domain == Pow3(d) && b <= 32 && poly.Length == |start| == Pow3(b + d) && i < numPoints
    requires Table(domain, Flat(numPoints, numPoints, 0), out)
    requires forall m {:trigger poly[m]} :: 0 <= m < poly.Length ==> poly[m] == Xor(start[m], Sum2(Received(b, d, out, m), i, numPoints))
    modifies poly
    ensures forall m {:trigger poly[m]} :: 0 <= m < poly.Length ==> poly[m] == Xor(start[m], Sum2(Received(b, d, out, m), i + 1, numPoints))
  {
    hide Xor, Received, Flat, Sum2, Leading, Trailing, AddIdx;
    ghost var before := poly[..];
    var j := 0;
    RowStart(b, d, out, before, i);
    while j < numPoints
      invariant j <= numPoints
      invariant forall m {:trigger poly[m]} :: 0 <= m < poly.Length ==>
        poly[m] == Xor(before[m], SumTo(RowOf(Received(b, d, out, m), i), j))
    {
      AccumulatePair(poly, numPoints, domain, out, i, j, b, d, before);
      j := j + 1;
    }
    RowEnd(b, d, out, start, before, poly[..], i);
  }

  method AccumulatePair(poly: array<Block>, numPoints: nat, domain: nat, out: seq<seq<Block>>, i: nat, j: nat, ghost b: nat, ghost d: nat,
                        ghost before: seq<Block>)
    requires numPoints == Pow3(b) && domain == Pow3(d) && b <= 32 && poly.Length == |before| == Pow3(b + d) && i < numPoints
    requires j < numPoints
    requires Table(domain, Flat(numPoints, numPoints, 0), out)
    requires forall m {:trigger poly[m]} :: 0 <= m < poly.Length ==> poly[m] == Xor(before[m], SumTo(RowOf(Received(b, d, out, m), i), j))
    modifies poly
    ensures forall m {:trigger poly[m]} :: 0 <= m < poly.Length ==>
      poly[m] == Xor(before[m], SumTo(RowOf(Received(b, d, out, m), i), j + 1))
  {
    hide Xor, Received, Flat, SumTo, Leading, Trailing, AddIdx, Pow3, Output2;
    var target := TargetBlock(i, j, numPoints, b);
    var temp := target * domain;
    FlatBound(numPoints, i, j, numPoints);
    RunOfBlock(b, d, target, 0);
    AddRun(poly, temp, domain, out, Flat(numPoints, i, j));
    forall m | 0 <= m < poly.Length
      ensures poly[m] == Xor(before[m], SumTo(RowOf(Received(b, d, out, m), i), j + 1))
    {
      assert old(poly[m]) == Xor(before[m], SumTo(RowOf(Received(b, d, out, m), i), j));
      RunOfBlock(b, d, target, m);
      ReceivedStep(b, d, out, m, i, j, before[m], old(poly[m]), poly[m], target);
    }
  }

  lemma RowStart(b: nat, d: nat, out: seq<seq<Block>>, before: seq<Block>, i: nat)
    requires |before| == Pow3(b + d)
    ensures forall m {:trigger before[m]} :: 0 <= m < |before| ==> before[m] == Xor(before[m], SumTo(RowOf(Received(b, d, out, m), i), 0))
  {
    forall m | 0 <= m < |before|
      ensures before[m] == Xor(before[m], ZERO)
    {
      XorZero(before[m]);
    }
  }

  lemma ReceivedStep(b: nat, d: nat, out: seq<seq<Block>>, m: nat, i: nat, j: nat, before: Block, now: Block, after: Block, target: nat)
    requires m < Pow3(b + d) && i < Pow3(b) && j < Pow3(b) && target == AddIdx(b, i, j)
    requires now == Xor(before, SumTo(RowOf(Received(b, d, out, m), i), j))
    requires after == if Leading(b, d, m) == target then Xor(now, Output2(out, Trailing(b, d, m), Flat(Pow3(b), i, j))) else now
    ensures after == Xor(before, SumTo(RowOf(Received(b, d, out, m), i), j + 1))
  {
    hide Xor, Leading, Trailing, AddIdx, Output2, Flat;
    var g := RowOf(Received(b, d, out, m), i);
    XorAssoc(before, SumTo(g, j), g(j));
    XorZero(now);
  }

  lemma RowEnd(b: nat, d: nat, out: seq<seq<Block>>, start: seq<Block>, before: seq<Block>, after: seq<Block>, i: nat)
    requires |start| == |before| == |after| == Pow3(b + d)
    requires forall m {:trigger before[m]} :: 0 <= m < |before| ==> before[m] == Xor(start[m], Sum2(Received(b, d, out, m), i, Pow3(b)))
    requires forall m {:trigger after[m]} :: 0 <= m < |after| ==>
      after[m] == Xor(before[m], SumTo(RowOf(Received(b, d, out, m), i), Pow3(b)))
    ensures forall m {:trigger after[m]} :: 0 <= m < |after| ==> after[m] == Xor(start[m], Sum2(Received(b, d, out, m), i + 1, Pow3(b)))
  {
    hide Xor, Received;
    forall m | 0 <= m < |after|
      ensures after[m] == Xor(start[m], Sum2(Received(b, d, out, m), i + 1, Pow3(b)))
    {
      assert before[m] == Xor(start[m], Sum2(Received(b, d, out, m), i, Pow3(b)));
      XorAssoc(start[m], Sum2(Received(b, d, out, m), i, Pow3(b)), SumTo(RowOf(Received(b, d, out, m), i), Pow3(b)));
    }
  }

  // ---------- the product ----------

  ghost predicate PointsFit(d: nat, p: seq<F3x32>) {
    d <= 32 && forall i {:trigger p[i]} :: 0 <= i < |p| ==> Proper(p[i]) && Below(p[i], d)
  }

  // Where coefficient i sits: at the position of its point in block i.
  function Offsets(b: nat, d: nat, p: seq<F3x32>): (x: seq<nat>)
    requires |p| == Pow3(b) && d <= 32
    ensures |x| == |p|
  {
    seq(|p|, i requires 0 <= i < |p| => if Value(p[i], 0, d) < Pow3(d) then Cat(b, d, i, Value(p[i], 0, d)) else 0)
  }

  lemma OffsetsFit(b: nat, d: nat, p: seq<F3x32>)
    requires |p| == Pow3(b) && PointsFit(d, p)
    ensures forall i {:trigger p[i]} {:trigger Offsets(b, d, p)[i]} :: 0 <= i < |p| ==>
      Value(p[i], 0, d) < Pow3(d) && Offsets(b, d, p)[i] == Cat(b, d, i, Value(p[i], 0, d)) && Offsets(b, d, p)[i] < Pow3(b + d)
    ensures AllDistinct(Offsets(b, d, p))
  {
    hide Cat, Value;
    var x := Offsets(b, d, p);
    forall i | 0 <= i < |p|
      ensures Value(p[i], 0, d) < Pow3(d) && x[i] == Cat(b, d, i, Value(p[i], 0, d)) && Leading(b, d, x[i]) == i
    {
      ValueParts(p[i], d);
      SplitCat(b, d, i, Value(p[i], 0, d));
    }
  }

  lemma PairGain(b: nat, d: nat, p0: seq<F3x32>, p1: seq<F3x32>, c0: seq<Block>, c1: seq<Block>, points0: seq<F3x32>, points1: seq<F3x32>,
                 v0: seq<Block>, v1: seq<Block>, out0: seq<seq<Block>>, out1: seq<seq<Block>>, m: nat, i: nat, j: nat)
    requires |p0| == |p1| == |c0| == |c1| == Pow3(b) && PointsFit(d, p0) && PointsFit(d, p1) && m < Pow3(b + d)
    requires i < Pow3(b) && j < Pow3(b) && |points0| == |points1| && Flat(Pow3(b), i, j) < |points0|
    requires points0[Flat(Pow3(b), i, j)] == p0[i] && points1[Flat(Pow3(b), i, j)] == p1[j]
    requires ShareValues(BlockCtx(), |points0|, Pow3(d), Points(points0, points1, d), v0, v1, out0, out1)
    requires Xor(v0[Flat(Pow3(b), i, j)], v1[Flat(Pow3(b), i, j)]) == Mul(c0[i], c1[j])
    ensures ProductPair(b + d, Offsets(b, d, p0), c0, Offsets(b, d, p1), c1, m)(i, j)
         == Xor(Received(b, d, out0, m)(i, j), Received(b, d, out1, m)(i, j))
  {
    hide Xor, Mul, RingMul, AddIdx, Value, Cat, Leading, Trailing, Sum, Offsets, Flat;
    OffsetsFit(b, d, p0);
    OffsetsFit(b, d, p1);
    var k, r := Flat(Pow3(b), i, j), Trailing(b, d, m);
    var p, q := Value(p0[i], 0, d), Value(p1[j], 0, d);
    assert Proper(p0[i]) && Proper(p1[j]);
    assert p < Pow3(d) && q < Pow3(d) && Offsets(b, d, p0)[i] == Cat(b, d, i, p) && Offsets(b, d, p1)[j] == Cat(b, d, j, q);
    SumIsAddIdx(p0[i], p1[j], d);
    AddCat(b, d, i, p, j, q);
    SplitCat(b, d, AddIdx(b, i, j), AddIdx(d, p, q));
    CatSplit(b, d, m);
    XorZero(ZERO);
    assert Points(points0, points1, d)[k] == AddIdx(d, p, q);
    assert BlockCtx().plus(out0[r][k], out1[r][k]) == if r == AddIdx(d, p, q) then BlockCtx().plus(v0[k], v1[k]) else ZERO;
    MulIsRingMul(c0[i], c1[j]);
  }

  lemma MulIsRingMul(x: Block, y: Block)
    ensures Mul(x, y) == RingMul(x, y)
  {
    F4Mul.F4MulIsRingMul(x, y);
  }

  // What both parties' received outputs add up to at entry m.
  lemma GainIsProduct(b: nat, d: nat, p0: seq<F3x32>, p1: seq<F3x32>, c0: seq<Block>, c1: seq<Block>, points0: seq<F3x32>,
                      points1: seq<F3x32>, v0: seq<Block>, v1: seq<Block>, out0: seq<seq<Block>>, out1: seq<seq<Block>>, m: nat)
    requires |p0| == |p1| == |c0| == |c1| == Pow3(b) && d <= 32 && PointsFit(d, p0) && PointsFit(d, p1) && m < Pow3(b + d)
    requires |points0| == |points1| == |v0| == |v1| == Flat(Pow3(b), Pow3(b), 0)
    requires forall k {:trigger PairI(Pow3(b), k)} :: 0 <= k < |points0| ==> PairI(Pow3(b), k) < Pow3(b)
    requires forall k {:trigger points0[k]} :: 0 <= k < |points0| ==> points0[k] == p0[PairI(Pow3(b), k)]
    requires forall k {:trigger points1[k]} :: 0 <= k < |points0| ==> points1[k] == p1[PairJ(Pow3(b), k)]
    requires forall k {:trigger v0[k]} :: 0 <= k < |v0| ==> Xor(v0[k], v1[k]) == Mul(c0[PairI(Pow3(b), k)], c1[PairJ(Pow3(b), k)])
    requires ShareValues(BlockCtx(), |points0|, Pow3(d), Points(points0, points1, d), v0, v1, out0, out1)
    ensures Xor(Sum2(Received(b, d, out0, m), Pow3(b), Pow3(b)), Sum2(Received(b, d, out1, m), Pow3(b), Pow3(b)))
         == Sum2(ProductPair(b + d, Offsets(b, d, p0), c0, Offsets(b, d, p1), c1, m), Pow3(b), Pow3(b))
  {
    hide Xor, Mul, Received, ProductPair, Offsets, Flat, ShareValues, PairI, PairJ, PointsFit;
    var t := Pow3(b);
    var f := ProductPair(b + d, Offsets(b, d, p0), c0, Offsets(b, d, p1), c1, m);
    forall i: nat, j: nat | i < t && j < t
      ensures f(i, j) == Xor(Received(b, d, out0, m)(i, j), Received(b, d, out1, m)(i, j))
    {
      FlatParts(t, i, j);
      FlatBound(t, i, j, t);
      PairGain(b, d, p0, p1, c0, c1, points0, points1, v0, v1, out0, out1, m, i, j);
    }
    Sum2Xor(Received(b, d, out0, m), Received(b, d, out1, m), f, t, t);
  }

  // The draws of one run: blocks and choice bits.
  datatype Randomness = Randomness(shares: nat -> Block, sends: nat -> Block, coins: nat -> bool, party0: nat -> Block,
                                   party1: nat -> Block)

  // The transfers of a party hold drawn messages, and its choices drawn bits.
  ghost predicate TransfersDrawn(rnd: Randomness, send: seq<SendOt>, choice: seq<bool>, at: nat, coin: nat) {
    && |send| == |choice|
    && forall i: nat {:trigger send[i]} {:trigger choice[i]} :: i < |send| ==>
         send[i] == SendOt(rnd.sends(4 * i + at), rnd.sends(4 * i + at + 1)) && choice[i] == rnd.coins(coin + i)
  }

  // Correlated base transfers for both parties.
  method BaseOts(count: nat, rnd: Randomness)
    returns (send0: seq<SendOt>, recv0: seq<Block>, choice0: seq<bool>, send1: seq<SendOt>, recv1: seq<Block>, choice1: seq<bool>)
    ensures |send0| == |recv0| == |choice0| == |send1| == |recv1| == |choice1| == count
    ensures forall i {:trigger recv0[i]} :: 0 <= i < count ==> recv0[i] == Pick(send1[i], choice0[i])
    ensures forall i {:trigger recv1[i]} :: 0 <= i < count ==> recv1[i] == Pick(send0[i], choice1[i])
    ensures TransfersDrawn(rnd, send0, choice0, 0, 0) && TransfersDrawn(rnd, send1, choice1, 2, count)
  {
    send0, recv0, choice0, send1, recv1, choice1 := [], [], [], [], [], [];
    var i := 0;
    while i < count
      invariant i <= count && |send0| == |recv0| == |choice0| == |send1| == |recv1| == |choice1| == i
      invariant forall q {:trigger recv0[q]} :: 0 <= q < i ==> recv0[q] == Pick(send1[q], choice0[q])
      invariant forall q {:trigger recv1[q]} :: 0 <= q < i ==> recv1[q] == Pick(send0[q], choice1[q])
      invariant TransfersDrawn(rnd, send0, choice0, 0, 0) && TransfersDrawn(rnd, send1, choice1, 2, count)
    {
      var s0, s1 := SendOt(rnd.sends(4 * i), rnd.sends(4 * i + 1)), SendOt(rnd.sends(4 * i + 2), rnd.sends(4 * i + 3));
      var b0, b1 := rnd.coins(i), rnd.coins(count + i);
      send0, send1, choice0, choice1 := send0 + [s0], send1 + [s1], choice0 + [b0], choice1 + [b1];
      recv0, recv1 := recv0 + [Pick(s1, b0)], recv1 + [Pick(s0, b1)];
      i := i + 1;
    }
  }

  // Two initialised parties with correlated base transfers.
  method SetUp(domain: nat, numPoints: nat, rnd: Randomness, ghost d: nat) returns (d0: TernaryDpf, d1: TernaryDpf)
    requires domain == Pow3(d) && d <= 32 && numPoints > 0
    ensures fresh(d0) && fresh(d1) && Paired(d0, d1) && Configured(d0) && d0.depth == d && d0.domain == domain && d0.numPoints == numPoints
    ensures d0.otIdx + d0.depth * d0.numPoints * 2 <= |d0.sendOts|
    ensures TransfersDrawn(rnd, d0.sendOts, d0.choices, 0, 0) && TransfersDrawn(rnd, d1.sendOts, d1.choices, 2, |d0.sendOts|)
  {
    d0 := new TernaryDpf();
    d1 := new TernaryDpf();
    var ok := d0.Init(0, domain, numPoints);
    ok := d1.Init(1, domain, numPoints);
    DepthOfPower(d, d0.depth);
    DepthOfPower(d, d1.depth);
    var count := d0.BaseOtCount();
    var send0, recv0, choice0, send1, recv1, choice1 := BaseOts(count, rnd);
    ok := d0.SetBaseOts(send0, recv0, choice0);
    ok := d1.SetBaseOts(send1, recv1, choice1);
  }

  lemma PairsValid(b: nat, d: nat, p0: seq<F3x32>, points0: seq<F3x32>)
    requires |p0| == Pow3(b) && PointsFit(d, p0)
    requires forall k {:trigger points0[k]} :: 0 <= k < |points0| ==> points0[k] in p0
    ensures forall k {:trigger points0[k]} :: 0 <= k < |points0| ==> ValidShare(points0[k], d)
  {
    forall k | 0 <= k < |points0|
      ensures ValidShare(points0[k], d)
    {
      var i :| 0 <= i < |p0| && p0[i] == points0[k];
      assert Proper(p0[i]) && Below(p0[i], d);
    }
  }

  // ---------- what each party adds ----------

  // The tables of both parties' outputs and tags, and what the parties have revealed to each
  // other on the way.
  datatype Trace = Trace(out0: seq<seq<Block>>, out1: seq<seq<Block>>, t0: seq<seq<bool>>, t1: seq<seq<bool>>, words: seq<seq<Row>>,
                         gamma: seq<Block>)

  // Tree k = i * t + j of n is for coefficient i of the one polynomial and j of the other: its
  // words are those of the two points, and its leaf value that of the product.
  ghost predicate PairReveals(crypto: Crypto, t: nat, n: nat, d: nat, domain: nat, rnd: Randomness, x: Block, y: Block, p: F3x32, q: F3x32,
                              words: seq<seq<Row>>, gamma: Block, k: nat)
    requires WordsFit(n, words) && 0 < |words| == d <= 32 && k < n
  {
    && GammaReveals(BlockCtx(), crypto, n, words, rnd.party0, rnd.party1, domain, p, q, k, F4Mul.F4Mul(x, y), gamma)
    && forall s :: 0 <= s < d ==> WordReveals(crypto, n, d, words, rnd.party0, rnd.party1, p, q, k, s)
  }

  // A run with trees: both parties' outputs are their own leaves.
  ghost predicate TreesOf(crypto: Crypto, c0: seq<Block>, c1: seq<Block>, p0: seq<F3x32>, p1: seq<F3x32>, d: nat, domain: nat,
                          rnd: Randomness, n: nat, tr: Trace)
    requires 0 < |c0| == |c1| == |p0| == |p1| && d <= 32
  {
    && 0 < |tr.words| == d && WordsFit(n, tr.words) && |tr.gamma| == n
    && OutputsOnPath(BlockCtx(), crypto, false, n, tr.words, rnd.party0, domain, tr.gamma, tr.out0, tr.t0)
    && OutputsOnPath(BlockCtx(), crypto, true, n, tr.words, rnd.party1, domain, tr.gamma, tr.out1, tr.t1)
    && forall k {:trigger tr.gamma[k]} :: 0 <= k < n ==>
         var t := |c0|;
         k / t < t && PairReveals(crypto, t, n, d, domain, rnd, c0[k / t], c1[k % t], p0[k / t], p1[k % t], tr.words, tr.gamma[k], k)
  }

  // A run without trees: the outputs are the drawn shares.
  ghost predicate SharesOf(c0: seq<Block>, c1: seq<Block>, rnd: Randomness, n: nat, tr: Trace)
    requires 0 < |c0| == |c1|
  {
    && |tr.out0| == |tr.out1| == 1 && |tr.out0[0]| == |tr.out1[0]| == n
    && forall k: nat {:trigger tr.out0[0][k]} {:trigger tr.out1[0][k]} :: k < n ==>
         var t := |c0|;
         k / t < t && tr.out0[0][k] == rnd.shares(k) && tr.out1[0][k] == Xor(F4Mul.F4Mul(c0[k / t], c1[k % t]), rnd.shares(k))
  }

  // The run of dpf for all pairs of coefficients.
  ghost predicate RunOf(crypto: Crypto, c0: seq<Block>, c1: seq<Block>, p0: seq<F3x32>, p1: seq<F3x32>, d: nat, rnd: Randomness,
                        tr: Trace) {
    && 0 < |c0| == |c1| == |p0| == |p1| && d <= 32
    && if d == 0 then SharesOf(c0, c1, rnd, Flat(|c0|, |c0|, 0), tr)
       else TreesOf(crypto, c0, c1, p0, p1, d, Pow3(d), rnd, Flat(|c0|, |c0|, 0), tr)
  }

  // Block m / 3^d of the result adds up the outputs of the trees (i, j) with i + j in that place,
  // each at leaf m % 3^d.
  lemma ReceivedSpelt(b: nat, d: nat, out: seq<seq<Block>>, m: nat, i: nat, j: nat)
    requires m < Pow3(b + d) && i < Pow3(b) && j < Pow3(b) && Table(Pow3(d), Flat(Pow3(b), Pow3(b), 0), out)
    ensures m % Pow3(d) < |out| && i * Pow3(b) + j < |out[m % Pow3(d)]|
    ensures Received(b, d, out, m)(i, j) == if AddIdx(b, i, j) == m / Pow3(d) then out[m % Pow3(d)][i * Pow3(b) + j] else ZERO
  {
    hide AddIdx, Pow3, Leading, Trailing, Table;
    CatSplit(b, d, m);
    CatIsOffset(b, d, Leading(b, d, m), Trailing(b, d, m));
    Fermat.RemainderUnique(m, Leading(b, d, m), Trailing(b, d, m), Pow3(d));
    FlatBound(Pow3(b), i, j, Pow3(b));
    TableRow(Pow3(d), Flat(Pow3(b), Pow3(b), 0), out, m % Pow3(d));
  }

  lemma TableRow<T>(domain: nat, n: nat, out: seq<seq<T>>, r: nat)
    requires Table(domain, n, out) && r < domain
    ensures r < |out| && |out[r]| == n
  {
  }

  lemma AloneRun(c0: seq<Block>, c1: seq<Block>, rnd: Randomness, v0: seq<Block>, v1: seq<Block>, tr: Trace)
    requires 0 < |c0| == |c1| && |v0| == |v1| == Flat(|c0|, |c0|, 0)
    requires Single(BlockCtx(), v0, rnd.party0, false, |v0|, tr.out0, tr.t0)
    requires Single(BlockCtx(), v1, rnd.party1, true, |v1|, tr.out1, tr.t1)
    requires SharedAs(c0, c1, rnd.shares, v0, v1)
    ensures SharesOf(c0, c1, rnd, |v0|, tr)
  {
    hide Xor, F4Mul.F4Mul;
    assert |v0| > 0 ==> tr.out0[0] == v0 && tr.out1[0] == v1;
  }

  lemma TreesRun(crypto: Crypto, c0: seq<Block>, c1: seq<Block>, p0: seq<F3x32>, p1: seq<F3x32>, d: nat, rnd: Randomness,
                 points0: seq<F3x32>, points1: seq<F3x32>, v0: seq<Block>, v1: seq<Block>, tr: Trace)
    requires 0 < |c0| == |c1| == |p0| == |p1| && 0 < d <= 32
    requires |v0| == |v1| == |points0| == |points1| == |tr.gamma| == Flat(|c0|, |c0|, 0) && |tr.words| == d
    requires AllReveal(crypto, |v0|, d, tr.words, rnd.party0, rnd.party1, points0, points1)
    requires OutputsOnPath(BlockCtx(), crypto, false, |v0|, tr.words, rnd.party0, Pow3(d), tr.gamma, tr.out0, tr.t0)
    requires OutputsOnPath(BlockCtx(), crypto, true, |v0|, tr.words, rnd.party1, Pow3(d), tr.gamma, tr.out1, tr.t1)
    requires forall k {:trigger tr.gamma[k]} :: 0 <= k < |tr.gamma| ==>
      GammaReveals(BlockCtx(), crypto, |v0|, tr.words, rnd.party0, rnd.party1, Pow3(d), points0[k], points1[k], k,
                   BlockCtx().plus(v0[k], v1[k]), tr.gamma[k])
    requires forall k {:trigger PairI(|p0|, k)} :: 0 <= k < |points0| ==> PairI(|p0|, k) < |p0|
    requires forall k {:trigger points0[k]} :: 0 <= k < |points0| ==> points0[k] == p0[PairI(|p0|, k)]
    requires forall k {:trigger points1[k]} :: 0 <= k < |points0| ==> points1[k] == p1[PairJ(|p0|, k)]
    requires forall k {:trigger v0[k]} :: 0 <= k < |v0| ==> Xor(v0[k], v1[k]) == Mul(c0[PairI(|c1|, k)], c1[PairJ(|c1|, k)])
    ensures TreesOf(crypto, c0, c1, p0, p1, d, Pow3(d), rnd, |v0|, tr)
  {
    hide Xor, F4Mul.F4Mul, OutputsOnPath, GammaReveals, WordReveals, Flat, Pow3;
    forall k {:trigger tr.gamma[k]} | 0 <= k < |v0|
      ensures var t := |c0|;
              k / t < t && PairReveals(crypto, t, |v0|, d, Pow3(d), rnd, c0[k / t], c1[k % t], p0[k / t], p1[k % t], tr.words,
                                       tr.gamma[k], k)
    {
      assert PairI(|p0|, k) < |p0|;
      assert points0[k] == p0[k / |c0|] && points1[k] == p1[k % |c0|] && v0[k] == v0[k];
    }
  }

  // dpf: the sum of the two vectors gains the product of the two sparse polynomials, and each
  // vector its own party's outputs.
  method Dpf(crypto: Crypto, c0: seq<Block>, c1: seq<Block>, p0: seq<F3x32>, p1: seq<F3x32>, polyA: array<Block>, polyB: array<Block>,
             domain: nat, rnd: Randomness, ghost b: nat, ghost d: nat)
    returns (ghost tr: Trace)
    requires |p0| == |p1| == |c0| == |c1| == Pow3(b) && b <= 32 && domain == Pow3(d) && PointsFit(d, p0) && PointsFit(d, p1)
    requires polyA != polyB && polyA.Length == polyB.Length == Pow3(b + d)
    modifies polyA, polyB
    ensures RunOf(crypto, c0, c1, p0, p1, d, rnd, tr)
    ensures forall m {:trigger polyA[m]} :: 0 <= m < polyA.Length ==>
      polyA[m] == Xor(old(polyA[m]), Sum2(Received(b, d, tr.out0, m), Pow3(b), Pow3(b)))
    ensures forall m {:trigger polyB[m]} :: 0 <= m < polyB.Length ==>
      polyB[m] == Xor(old(polyB[m]), Sum2(Received(b, d, tr.out1, m), Pow3(b), Pow3(b)))
    ensures forall m {:trigger polyA[m]} {:trigger polyB[m]} :: 0 <= m < polyA.Length ==>
      Xor(polyA[m], polyB[m]) == Xor(Xor(old(polyA[m]), old(polyB[m])),
                                     Sum2(ProductPair(b + d, Offsets(b, d, p0), c0, Offsets(b, d, p1), c1, m), Pow3(b), Pow3(b)))
  {
    hide Xor, Mul, Received, ProductPair, Offsets, Flat, PairI, PairJ;
    hide AllValid, OutputsOnPath, AllReveal, GammaReveals, SharedAs, TreesOf, SharesOf, Single, TransfersDrawn;
    hide OtsCorrelated, Configured, ValidShare, XorLike, BlockCtx, ShareTags, ShareRandom;
    var t := |p0|;
    var v0, v1 := GenerateAdditiveSharing(c0, c1, rnd.shares);
    var points0, points1 := PairPoints(p0, p1);
    FlatBound(t, 0, 0, t);
    FlatZero(t);
    var d0, d1 := SetUp(domain, |points0|, rnd, d);
    PairsValid(b, d, p0, points0);
    PairsValid(b, d, p1, points1);
    SharesSpelt(points0, d);
    SharesSpelt(points1, d);
    BlockCtxIsXorLike();
    var ok, out0, out1, t0, t1, words, gamma := Expand(BlockCtx(), crypto, d0, d1, points0, points1, v0, v1, rnd.party0, rnd.party1);
    assert ok;
    Accumulate(polyA, t, domain, out0, b, d);
    Accumulate(polyB, t, domain, out1, b, d);
    forall m | 0 <= m < polyA.Length
      ensures Xor(polyA[m], polyB[m]) == Xor(Xor(old(polyA[m]), old(polyB[m])),
                                             Sum2(ProductPair(b + d, Offsets(b, d, p0), c0, Offsets(b, d, p1), c1, m), Pow3(b), Pow3(b)))
    {
      GainIsProduct(b, d, p0, p1, c0, c1, points0, points1, v0, v1, out0, out1, m);
      XorSwap(old(polyA[m]), Sum2(Received(b, d, out0, m), t, t), old(polyB[m]), Sum2(Received(b, d, out1, m), t, t));
    }
    tr := Trace(out0, out1, t0, t1, words, gamma);
    if d == 0 {
      AloneRun(c0, c1, rnd, v0, v1, tr);
    } else {
      TreesRun(crypto, c0, c1, p0, p1, d, rnd, points0, points1, v0, v1, tr);
    }
  }
}

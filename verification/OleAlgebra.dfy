/**
 Why the cross terms fit together: shares of a product of polynomials become shares of
 pointwise products under the transform, and the public multipliers distribute.
 */
module OleAlgebra {
  import opened Blocks
  import opened F4Ring
  import opened TritTree
  import opened Radix3
  import opened F4Transform
  import opened TransformLaws
  import opened BlockSums
  import opened SparsePoly
  import opened OleDpf
  import opened VectorTransform

  // polyA + polyB is the product of s and t in the group algebra.
  ghost predicate SharesProduct(n: nat, a: seq<Block>, b: seq<Block>, s: seq<Block>, t: seq<Block>) {
    && |a| == |b| == |s| == |t| == Pow3(n)
    && Zip(Xor, Tree(n, a), Tree(n, b)) == Convolve(Xor, RingMul, Tree(n, s), Tree(n, t))
  }

  lemma ProductFromEntries(n: nat, a: seq<Block>, b: seq<Block>, x: seq<nat>, c: seq<Block>, y: seq<nat>, d: seq<Block>)
    requires |x| == |c| && (forall i {:trigger x[i]} :: 0 <= i < |x| ==> x[i] < Pow3(n)) && AllDistinct(x)
    requires |y| == |d| && (forall i {:trigger y[i]} :: 0 <= i < |y| ==> y[i] < Pow3(n)) && AllDistinct(y)
    requires |a| == |b| == Pow3(n)
    requires forall m {:trigger a[m]} :: 0 <= m < Pow3(n) ==> Xor(a[m], b[m]) == Sum2(ProductPair(n, x, c, y, d, m), |x|, |y|)
    ensures SharesProduct(n, a, b, Sparse(Pow3(n), x, c, |x|), Sparse(Pow3(n), y, d, |y|))
  {
    hide *;
    var s, t := Sparse(Pow3(n), x, c, |x|), Sparse(Pow3(n), y, d, |y|);
    PerfectConvolve(n, Xor, RingMul, Tree(n, s), Tree(n, t));
    forall m {:trigger a[m]} | 0 <= m < Pow3(n)
      ensures At(n, Convolve(Xor, RingMul, Tree(n, s), Tree(n, t)), m) == Xor(a[m], b[m])
    {
      assert Xor(a[m], b[m]) == Sum2(ProductPair(n, x, c, y, d, m), |x|, |y|);
      SparseConvolution(n, x, c, y, d, m);
    }
    ProductFromSums(n, a, b, s, t);
  }

  lemma ProductFromSums(n: nat, a: seq<Block>, b: seq<Block>, s: seq<Block>, t: seq<Block>)
    requires |a| == |b| == |s| == |t| == Pow3(n) && Perfect(n, Convolve(Xor, RingMul, Tree(n, s), Tree(n, t)))
    requires forall m {:trigger a[m]} :: 0 <= m < Pow3(n) ==> At(n, Convolve(Xor, RingMul, Tree(n, s), Tree(n, t)), m) == Xor(a[m], b[m])
    ensures SharesProduct(n, a, b, s, t)
  {
    hide Xor, RingMul, Convolve, Tree, Zip, At, Perfect;
    var u, v := Zip(Xor, Tree(n, a), Tree(n, b)), Convolve(Xor, RingMul, Tree(n, s), Tree(n, t));
    PerfectZip(n, Xor, Tree(n, a), Tree(n, b));
    forall m | 0 <= m < Pow3(n)
      ensures At(n, u, m) == At(n, v, m)
    {
      assert At(n, v, m) == Xor(a[m], b[m]);
      EntryOfSum(n, a, b, m);
    }
    SameTree(n, u, v);
  }

  lemma EntryOfSum(n: nat, a: seq<Block>, b: seq<Block>, m: nat)
    requires |a| == |b| == Pow3(n) && m < Pow3(n)
    ensures Perfect(n, Zip(Xor, Tree(n, a), Tree(n, b))) && At(n, Zip(Xor, Tree(n, a), Tree(n, b)), m) == Xor(a[m], b[m])
  {
    hide Xor, Tree, Zip;
    AtZip(n, Xor, Tree(n, a), Tree(n, b), m);
    TreeEntry(n, a, m);
    TreeEntry(n, b, m);
  }

  // The transformed shares add up to the pointwise product of the transformed factors.
  lemma SpectraMultiply(n: nat, a: seq<Block>, b: seq<Block>, s: seq<Block>, t: seq<Block>, i: nat)
    requires SharesProduct(n, a, b, s, t) && i < Pow3(n)
    ensures Xor(Spectrum(n, a)[i], Spectrum(n, b)[i]) == RingMul(Spectrum(n, s)[i], Spectrum(n, t)[i])
  {
    hide Xor, RingMul, Convolve, Tree, Transform, Zip;
    var ta, tb, ts, tt := Tree(n, a), Tree(n, b), Tree(n, s), Tree(n, t);
    TransformsAdd(n, ta, tb);
    ForwardConvolution(n, ts, tt);
    PerfectTransform(n, Forward, ta);
    PerfectTransform(n, Forward, tb);
    PerfectTransform(n, Forward, ts);
    PerfectTransform(n, Forward, tt);
    AtZip(n, Xor, Transform(Forward, ta), Transform(Forward, tb), i);
    AtZip(n, RingMul, Transform(Forward, ts), Transform(Forward, tt), i);
    LeavesAt(n, Transform(Forward, ta), i);
    LeavesAt(n, Transform(Forward, tb), i);
    LeavesAt(n, Transform(Forward, ts), i);
    LeavesAt(n, Transform(Forward, tt), i);
  }

  // ---------- the four cross terms of (e0 + a s0)(e1 + a s1) ----------

  lemma ScaledProduct(a: Block, b: Block, s: Block, t: Block)
    ensures RingMul(RingMul(a, b), RingMul(s, t)) == RingMul(RingMul(a, s), RingMul(b, t))
  {
    hide RingMul;
    MulAssociates(a, b, RingMul(s, t));
    MulSwap(b, s, t);
    MulAssociates(a, s, RingMul(b, t));
  }

  lemma ExpandProduct(a: Block, s0: Block, e0: Block, s1: Block, e1: Block)
    ensures RingMul(Xor(e0, RingMul(a, s0)), Xor(e1, RingMul(a, s1)))
         == Xor(Xor(Xor(RingMul(RingMul(a, a), RingMul(s0, s1)), RingMul(a, RingMul(s0, e1))), RingMul(a, RingMul(e0, s1))),
                RingMul(e0, e1))
  {
    hide RingMul, Xor;
    var x, y := RingMul(a, s0), RingMul(a, s1);
    MulDistributesLeft(e0, x, Xor(e1, y));
    MulDistributesRight(e0, e1, y);
    MulDistributesRight(x, e1, y);
    MulSwap(e0, a, s1);
    MulAssociates(a, s0, e1);
    ScaledProduct(a, a, s0, s1);
    FourReversed(RingMul(e0, e1), RingMul(e0, y), RingMul(x, e1), RingMul(x, y));
  }

  lemma FourReversed(p: Block, q: Block, r: Block, s: Block)
    ensures Xor(Xor(p, q), Xor(r, s)) == Xor(Xor(Xor(s, r), q), p)
  {
    assert Xor(Xor(p, q), Xor(r, s)).bits == Xor(Xor(Xor(s, r), q), p).bits;
  }

  // The shares of both parties at one index.
  function FourTerms(a: Block, x0: Block, x1: Block, x2: Block, x3: Block): Block {
    Xor(Xor(Xor(RingMul(RingMul(a, a), x0), RingMul(a, x1)), RingMul(a, x2)), x3)
  }

  lemma FourTermsAdd(a: Block, x0: Block, x1: Block, x2: Block, x3: Block, y0: Block, y1: Block, y2: Block, y3: Block)
    ensures Xor(FourTerms(a, x0, x1, x2, x3), FourTerms(a, y0, y1, y2, y3))
         == FourTerms(a, Xor(x0, y0), Xor(x1, y1), Xor(x2, y2), Xor(x3, y3))
  {
    hide RingMul, Xor;
    var b := RingMul(a, a);
    MulDistributesRight(b, x0, y0);
    MulDistributesRight(a, x1, y1);
    MulDistributesRight(a, x2, y2);
    var p, q, r := RingMul(b, x0), RingMul(a, x1), RingMul(a, x2);
    var p', q', r' := RingMul(b, y0), RingMul(a, y1), RingMul(a, y2);
    XorSwap(Xor(Xor(p, q), r), x3, Xor(Xor(p', q'), r'), y3);
    XorSwap(Xor(p, q), r, Xor(p', q'), r');
    XorSwap(p, q, p', q');
  }

  lemma FourTermProduct(a: Block, s0: Block, e0: Block, s1: Block, e1: Block,
                        x0: Block, x1: Block, x2: Block, x3: Block, y0: Block, y1: Block, y2: Block, y3: Block)
    requires Xor(x0, y0) == RingMul(s0, s1) && Xor(x1, y1) == RingMul(s0, e1) && Xor(x2, y2) == RingMul(e0, s1)
    requires Xor(x3, y3) == RingMul(e0, e1)
    ensures Xor(FourTerms(a, x0, x1, x2, x3), FourTerms(a, y0, y1, y2, y3)) == RingMul(Xor(e0, RingMul(a, s0)), Xor(e1, RingMul(a, s1)))
  {
    hide RingMul, Xor;
    FourTermsAdd(a, x0, x1, x2, x3, y0, y1, y2, y3);
    ExpandProduct(a, s0, e0, s1, e1);
  }

  // ---------- the c * c cross terms ----------

  // Sum of g(j / c, j % c) over j is the double sum.
  lemma {:induction false} FlatSum(g: (nat, nat) -> Block, h: nat -> Block, c: nat, i: nat, j: nat)
    requires c > 0 && j <= c && i < c
    requires forall k {:trigger h(k)} :: 0 <= k < Flat(c, c, 0) ==> h(k) == g(PairI(c, k), PairJ(c, k))
    ensures SumTo(h, Flat(c, i, j)) == Xor(Sum2(g, i, c), SumTo(RowOf(g, i), j))
    decreases i, j
  {
    hide Xor, Flat, PairI, PairJ;
    if j > 0 {
      FlatSum(g, h, c, i, j - 1);
      FlatParts(c, i, j - 1);
      FlatBound(c, i, j - 1, c);
      FlatStep(c, i, j - 1);
      assert h(Flat(c, i, j - 1)) == g(i, j - 1);
      XorAssoc(Sum2(g, i, c), SumTo(RowOf(g, i), j - 1), g(i, j - 1));
    } else {
      if i > 0 {
        FlatSum(g, h, c, i - 1, c);
        FlatNext(c, i - 1);
      } else {
        FlatZero(c);
      }
      XorZero(Sum2(g, i, c));
    }
  }

  lemma FlatSumAll(g: (nat, nat) -> Block, h: nat -> Block, c: nat)
    requires forall k {:trigger h(k)} :: 0 <= k < Flat(c, c, 0) && c > 0 ==> h(k) == g(PairI(c, k), PairJ(c, k))
    ensures SumTo(h, Flat(c, c, 0)) == Sum2(g, c, c)
  {
    hide Xor, Flat;
    if c > 0 {
      FlatSum(g, h, c, c - 1, c);
      FlatNext(c, c - 1);
    } else {
      FlatZero(0);
    }
  }

  lemma {:induction false} SumTimes(u: nat -> Block, n: nat, v: nat -> Block, m: nat, g: (nat, nat) -> Block)
    requires forall i, j {:trigger g(i, j)} :: 0 <= i < n && 0 <= j < m ==> g(i, j) == RingMul(u(i), v(j))
    ensures RingMul(SumTo(u, n), SumTo(v, m)) == Sum2(g, n, m)
  {
    hide RingMul, Xor;
    if n == 0 {
      MulZero(SumTo(v, m));
    } else {
      SumTimes(u, n - 1, v, m, g);
      MulDistributesLeft(SumTo(u, n - 1), u(n - 1), SumTo(v, m));
      forall j | 0 <= j < m
        ensures RowOf(g, n - 1)(j) == RingMul(u(n - 1), v(j))
      {
        assert g(n - 1, j) == RingMul(u(n - 1), v(j));
      }
      MulOfSum(u(n - 1), v, RowOf(g, n - 1), m);
    }
  }

  function Times2(a: nat -> Block, s: nat -> Block): nat -> Block {
    (i: nat) => RingMul(a(i), s(i))
  }

  function PairProducts(u: nat -> Block, v: nat -> Block): (nat, nat) -> Block {
    (i: nat, j: nat) => RingMul(u(i), v(j))
  }

  // x and y are the transformed cross terms of both parties, a the multipliers, s and t
  // the transformed inputs.
  lemma CrossTermsMultiply(c: nat, a: nat -> Block, s: nat -> Block, t: nat -> Block, m: nat -> Block, x: nat -> Block, y: nat -> Block)
    requires forall k {:trigger m(k)} {:trigger x(k)} :: 0 <= k < Flat(c, c, 0) && c > 0 ==>
      m(k) == RingMul(a(PairI(c, k)), a(PairJ(c, k))) && Xor(x(k), y(k)) == RingMul(s(PairI(c, k)), t(PairJ(c, k)))
    ensures Xor(SumTo(Times2(m, x), Flat(c, c, 0)), SumTo(Times2(m, y), Flat(c, c, 0)))
         == RingMul(SumTo(Times2(a, s), c), SumTo(Times2(a, t), c))
  {
    hide Xor, RingMul, Flat, PairI, PairJ;
    var n, g := Flat(c, c, 0), PairProducts(Times2(a, s), Times2(a, t));
    var z := (k: nat) => Xor(x(k), y(k));
    var h := Times2(m, z);
    forall k | 0 <= k < n
      ensures h(k) == Xor(Times2(m, x)(k), Times2(m, y)(k))
    {
      MulDistributesRight(m(k), x(k), y(k));
    }
    SumXor(Times2(m, x), Times2(m, y), h, n);
    forall k | 0 <= k < n && c > 0
      ensures h(k) == g(PairI(c, k), PairJ(c, k))
    {
      assert m(k) == RingMul(a(PairI(c, k)), a(PairJ(c, k)));
      ScaledProduct(a(PairI(c, k)), a(PairJ(c, k)), s(PairI(c, k)), t(PairJ(c, k)));
    }
    FlatSumAll(g, h, c);
    SumTimes(Times2(a, s), c, Times2(a, t), c, g);
  }
}

/**
 Polynomials with few coefficients, written entry by entry into a zero vector (OLE.h lines
 170 to 189), and their product in the group algebra.
 */
module SparsePoly {
  import opened Blocks
  import opened F4Ring
  import opened TritTree
  import opened Radix3
  import opened GroupAlgebra
  import opened BlockSums

  // The zero vector after the first n assignments at[x] := c.
  function Sparse(size: nat, x: seq<nat>, c: seq<Block>, n: nat): (s: seq<Block>)
    requires n <= |x| == |c| && forall i {:trigger x[i]} :: 0 <= i < |x| ==> x[i] < size
    ensures |s| == size
  {
    if n == 0 then seq(size, _ => ZERO) else Sparse(size, x, c, n - 1)[x[n - 1] := c[n - 1]]
  }

  ghost predicate AllDistinct(x: seq<nat>) {
    forall i, j {:trigger x[i], x[j]} :: 0 <= i < j < |x| ==> x[i] != x[j]
  }

  // What a sparse vector holds at its places and elsewhere.
  lemma {:induction false} SparseAt(size: nat, points: seq<nat>, c: seq<Block>, n: nat, q: nat)
    requires n <= |points| == |c| && (forall i {:trigger points[i]} :: 0 <= i < |points| ==> points[i] < size)
    requires AllDistinct(points) && q < |points|
    ensures Sparse(size, points, c, n)[points[q]] == if q < n then c[q] else ZERO
  {
    if n > 0 {
      SparseAt(size, points, c, n - 1, q);
      assert q != n - 1 ==> points[q] != points[n - 1];
    }
  }

  lemma {:induction false} SparseOff(size: nat, points: seq<nat>, c: seq<Block>, n: nat, j: nat)
    requires n <= |points| == |c| && forall i {:trigger points[i]} :: 0 <= i < |points| ==> points[i] < size
    requires j < size && j !in points
    ensures Sparse(size, points, c, n)[j] == ZERO
  {
    if n > 0 {
      SparseOff(size, points, c, n - 1, j);
      assert points[n - 1] in points;
    }
  }

  function Entry(c: seq<Block>, i: nat): Block {
    if i < |c| then c[i] else ZERO
  }

  // The coefficients placed at z.
  function PlacedAt(x: seq<nat>, c: seq<Block>, z: nat): nat -> Block {
    (i: nat) => if i < |x| && x[i] == z then Entry(c, i) else ZERO
  }

  lemma {:induction false} SparseEntry(size: nat, x: seq<nat>, c: seq<Block>, n: nat, z: nat)
    requires n <= |x| == |c| && (forall i {:trigger x[i]} :: 0 <= i < |x| ==> x[i] < size) && AllDistinct(x) && z < size
    ensures Sparse(size, x, c, n)[z] == SumTo(PlacedAt(x, c, z), n)
  {
    hide Xor, AllDistinct;
    if n > 0 {
      SparseEntry(size, x, c, n - 1, z);
      XorZero(Sparse(size, x, c, n - 1)[z]);
      XorZero(c[n - 1]);
      if x[n - 1] == z {
        NothingPlacedBefore(x, c, n);
      }
    }
  }

  lemma NothingPlacedBefore(x: seq<nat>, c: seq<Block>, n: nat)
    requires 0 < n <= |x| && AllDistinct(x)
    ensures SumTo(PlacedAt(x, c, x[n - 1]), n - 1) == ZERO
  {
    SumZero(PlacedAt(x, c, x[n - 1]), n - 1);
  }

  // A position that is not written stays zero.
  lemma {:induction false} SparseFree(size: nat, x: seq<nat>, c: seq<Block>, n: nat)
    requires n < |x| == |c| && (forall i {:trigger x[i]} :: 0 <= i < |x| ==> x[i] < size) && AllDistinct(x)
    ensures Sparse(size, x, c, n)[x[n]] == ZERO
  {
    SparseEntry(size, x, c, n, x[n]);
    NothingPlacedBefore(x, c, n + 1);
  }

  lemma {:induction false} XorSumUpdate(s: seq<Block>, x: nat, v: Block)
    requires x < |s| && s[x] == ZERO
    ensures XorSum(s[x := v]) == Xor(XorSum(s), v)
  {
    hide Xor;
    var t := s[x := v];
    if x == |s| - 1 {
      assert t[..|s| - 1] == s[..|s| - 1];
      XorZero(XorSum(s[..|s| - 1]));
    } else {
      assert t[..|s| - 1] == s[..|s| - 1][x := v];
      XorSumUpdate(s[..|s| - 1], x, v);
      XorAssoc(XorSum(s[..|s| - 1]), v, s[|s| - 1]);
      XorComm(v, s[|s| - 1]);
      XorAssoc(XorSum(s[..|s| - 1]), s[|s| - 1], v);
    }
  }

  // The terms of entry m of the product of two vectors.
  ghost function Terms(n: nat, s: seq<Block>, t: seq<Block>, m: nat): (r: seq<Block>)
    requires |s| == |t| == Pow3(n) && m < Pow3(n)
    ensures |r| == Pow3(n)
  {
    seq(Pow3(n), j requires 0 <= j < Pow3(n) => RingMul(s[j], t[SubIdx(n, m, j)]))
  }

  function TermOf(n: nat, x: seq<nat>, c: seq<Block>, t: seq<Block>, m: nat): nat -> Block
    requires |t| == Pow3(n) && m < Pow3(n)
  {
    (i: nat) => if i < |x| && x[i] < Pow3(n) then RingMul(Entry(c, i), t[SubIdx(n, m, x[i])]) else ZERO
  }

  lemma TermsUpdate(n: nat, s: seq<Block>, t: seq<Block>, m: nat, x: nat, v: Block)
    requires |s| == |t| == Pow3(n) && m < Pow3(n) && x < Pow3(n) && s[x] == ZERO
    ensures Terms(n, s[x := v], t, m) == Terms(n, s, t, m)[x := RingMul(v, t[SubIdx(n, m, x)])] && Terms(n, s, t, m)[x] == ZERO
  {
    hide RingMul;
    MulZero(t[SubIdx(n, m, x)]);
  }

  lemma {:induction false} SparseTimes(n: nat, x: seq<nat>, c: seq<Block>, k: nat, t: seq<Block>, m: nat)
    requires k <= |x| == |c| && (forall i {:trigger x[i]} :: 0 <= i < |x| ==> x[i] < Pow3(n)) && AllDistinct(x)
    requires |t| == Pow3(n) && m < Pow3(n)
    ensures XorSum(Terms(n, Sparse(Pow3(n), x, c, k), t, m)) == SumTo(TermOf(n, x, c, t, m), k)
  {
    hide RingMul, Xor, SubIdx, AllDistinct;
    if k == 0 {
      ZeroTerms(n, t, m);
    } else {
      SparseTimes(n, x, c, k - 1, t, m);
      SparseFree(Pow3(n), x, c, k - 1);
      TermsUpdate(n, Sparse(Pow3(n), x, c, k - 1), t, m, x[k - 1], c[k - 1]);
      XorSumUpdate(Terms(n, Sparse(Pow3(n), x, c, k - 1), t, m), x[k - 1], RingMul(c[k - 1], t[SubIdx(n, m, x[k - 1])]));
    }
  }

  lemma ZeroTerms(n: nat, t: seq<Block>, m: nat)
    requires |t| == Pow3(n) && m < Pow3(n)
    ensures XorSum(Terms(n, seq(Pow3(n), _ => ZERO), t, m)) == ZERO
  {
    hide RingMul, SubIdx;
    var r := Terms(n, seq(Pow3(n), _ => ZERO), t, m);
    forall j | 0 <= j < Pow3(n)
      ensures r[j] == ZERO
    {
      MulZero(t[SubIdx(n, m, j)]);
    }
    var zero := (i: nat) => ZERO;
    XorSumIsSum(r, zero);
    SumZero(zero, Pow3(n));
  }

  // The contribution of coefficient i of one and j of the other polynomial to entry m.
  function ProductPair(n: nat, x: seq<nat>, c: seq<Block>, y: seq<nat>, d: seq<Block>, m: nat): (nat, nat) -> Block {
    (i: nat, j: nat) =>
      if i < |x| && j < |y| && x[i] < Pow3(n) && y[j] < Pow3(n) && AddIdx(n, x[i], y[j]) == m then RingMul(Entry(c, i), Entry(d, j))
      else ZERO
  }

  lemma {:induction false} MulOfSum(u: Block, g: nat -> Block, h: nat -> Block, n: nat)
    requires forall j {:trigger g(j)} {:trigger h(j)} :: 0 <= j < n ==> h(j) == RingMul(u, g(j))
    ensures RingMul(u, SumTo(g, n)) == SumTo(h, n)
  {
    hide RingMul, Xor;
    if n == 0 {
      MulCommutes(u, ZERO);
      MulZero(u);
    } else {
      MulOfSum(u, g, h, n - 1);
      assert h(n - 1) == RingMul(u, g(n - 1));
      MulDistributesRight(u, SumTo(g, n - 1), g(n - 1));
    }
  }

  // Entry m of the product of two sparse polynomials.
  lemma SparseProductTerms(n: nat, x: seq<nat>, c: seq<Block>, y: seq<nat>, d: seq<Block>, m: nat)
    requires |x| == |c| && (forall i {:trigger x[i]} :: 0 <= i < |x| ==> x[i] < Pow3(n)) && AllDistinct(x)
    requires |y| == |d| && (forall i {:trigger y[i]} :: 0 <= i < |y| ==> y[i] < Pow3(n)) && AllDistinct(y)
    requires m < Pow3(n)
    ensures XorSum(Terms(n, Sparse(Pow3(n), x, c, |x|), Sparse(Pow3(n), y, d, |y|), m)) == Sum2(ProductPair(n, x, c, y, d, m), |x|, |y|)
  {
    hide RingMul, Xor, Sparse, SubIdx, AddIdx, AllDistinct;
    var t := Sparse(Pow3(n), y, d, |y|);
    SparseTimes(n, x, c, |x|, t, m);
    forall i | 0 <= i < |x|
      ensures TermOf(n, x, c, t, m)(i) == SumTo(RowOf(ProductPair(n, x, c, y, d, m), i), |y|)
    {
      ProductRow(n, x, c, y, d, m, i);
    }
    Sum2Rows(ProductPair(n, x, c, y, d, m), TermOf(n, x, c, t, m), |x|, |y|);
  }

  lemma ProductRow(n: nat, x: seq<nat>, c: seq<Block>, y: seq<nat>, d: seq<Block>, m: nat, i: nat)
    requires |x| == |c| && (forall i {:trigger x[i]} :: 0 <= i < |x| ==> x[i] < Pow3(n))
    requires |y| == |d| && (forall i {:trigger y[i]} :: 0 <= i < |y| ==> y[i] < Pow3(n)) && AllDistinct(y)
    requires m < Pow3(n) && i < |x|
    ensures TermOf(n, x, c, Sparse(Pow3(n), y, d, |y|), m)(i) == SumTo(RowOf(ProductPair(n, x, c, y, d, m), i), |y|)
  {
    hide RingMul, Xor, Sparse, AllDistinct, AddIdx, SubIdx;
    var z := SubIdx(n, m, x[i]);
    SparseEntry(Pow3(n), y, d, |y|, z);
    var g, h := PlacedAt(y, d, z), RowOf(ProductPair(n, x, c, y, d, m), i);
    forall j | 0 <= j < |y|
      ensures h(j) == RingMul(c[i], g(j))
    {
      AddSub(n, x[i], y[j]);
      AddSub(n, x[i], m);
      MulCommutes(c[i], ZERO);
      MulZero(c[i]);
    }
    MulOfSum(c[i], g, h, |y|);
  }

  // The same entry of the product of the two trees.
  lemma SparseConvolution(n: nat, x: seq<nat>, c: seq<Block>, y: seq<nat>, d: seq<Block>, m: nat)
    requires |x| == |c| && (forall i {:trigger x[i]} :: 0 <= i < |x| ==> x[i] < Pow3(n)) && AllDistinct(x)
    requires |y| == |d| && (forall i {:trigger y[i]} :: 0 <= i < |y| ==> y[i] < Pow3(n)) && AllDistinct(y)
    requires m < Pow3(n)
    ensures var u := Convolve(Xor, RingMul, Tree(n, Sparse(Pow3(n), x, c, |x|)), Tree(n, Sparse(Pow3(n), y, d, |y|)));
            Perfect(n, u) && At(n, u, m) == Sum2(ProductPair(n, x, c, y, d, m), |x|, |y|)
  {
    hide RingMul, Xor, Sparse, SubIdx, ProductPair, Convolve, Tree;
    var s, t := Sparse(Pow3(n), x, c, |x|), Sparse(Pow3(n), y, d, |y|);
    ConvolveAt(n, Tree(n, s), Tree(n, t), m);
    TermsOfTrees(n, s, t, m);
    SparseProductTerms(n, x, c, y, d, m);
  }

  lemma TermsOfTrees(n: nat, s: seq<Block>, t: seq<Block>, m: nat)
    requires |s| == |t| == Pow3(n) && m < Pow3(n)
    ensures ProductTerms(n, Tree(n, s), Tree(n, t), m) == Terms(n, s, t, m)
  {
    hide RingMul, SubIdx, Tree;
    forall j | 0 <= j < Pow3(n)
      ensures ProductTerms(n, Tree(n, s), Tree(n, t), m)[j] == Terms(n, s, t, m)[j]
    {
      TreeEntry(n, s, j);
      TreeEntry(n, t, SubIdx(n, m, j));
    }
  }
}

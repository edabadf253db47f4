/**
 The transform laws on vectors of 3^n blocks in memory order: what inv_foleageFft (F4.h
 lines 9 to 69) writes at every index, that it and foleageFft undo each other, and that it
 turns the product of the group algebra into pointwise products of F4_mul.
 */
module VectorLaws {
  import opened Blocks
  import opened F4Ring
  import opened TritTree
  import opened Radix3
  import opened F4Transform
  import opened TransformLaws
  import opened GroupAlgebra
  import opened VectorTransform
  import F4Mul

  // The vector after inv_foleageFft.
  function InvSpectrum(n: nat, s: seq<Block>): (r: seq<Block>)
    requires |s| == Pow3(n)
    ensures |r| == Pow3(n)
  {
    PerfectTransform(n, Inverse, Tree(n, s));
    LeafCount(n, Transform(Inverse, Tree(n, s)));
    Leaves(Transform(Inverse, Tree(n, s)))
  }

  // a^<j, k> s[j] for every index j.
  function PowerTerms(n: nat, s: seq<Block>, k: nat): (r: seq<Block>)
    requires |s| == Pow3(n) && k < Pow3(n)
    ensures |r| == Pow3(n)
  {
    seq(Pow3(n), j requires 0 <= j < Pow3(n) => Power(Dot(n, j, k), s[j]))
  }

  lemma InvSpectrumAt(n: nat, s: seq<Block>, k: nat)
    requires |s| == Pow3(n) && k < Pow3(n)
    ensures InvSpectrum(n, s)[k] == XorSum(PowerTerms(n, s, k))
  {
    hide Tree, Transform, Leaves, XorSum, Power, Dot;
    var t := Tree(n, s);
    InverseTransformAt(n, t, k);
    LeavesAt(n, Transform(Inverse, t), k);
    forall j | 0 <= j < Pow3(n)
      ensures TransformTerms(n, t, k)[j] == PowerTerms(n, s, k)[j]
    {
      TreeEntry(n, s, j);
    }
    assert TransformTerms(n, t, k) == PowerTerms(n, s, k);
  }

  // inv_foleageFft on a whole vector: output k is the sum of a^<j, k> in[j].
  method InvTransform(coeffs: array<Block>, n: nat)
    requires coeffs.Length == Pow3(n)
    modifies coeffs
    ensures coeffs[..] == InvSpectrum(n, old(coeffs[..]))
    ensures forall k {:trigger coeffs[k]} :: 0 <= k < Pow3(n) ==> coeffs[k] == XorSum(PowerTerms(n, old(coeffs[..]), k))
  {
    hide Tree, Transform, Leaves, XorSum, PowerTerms, Pow3;
    ghost var s := coeffs[..];
    LeavesOfTree(n, s);
    Unpadded(s);
    InvFoleageFft(coeffs, 0, n, Pow3(n) / 3, [], Tree(n, s), []);
    Unpadded(InvSpectrum(n, s));
    forall k {:trigger coeffs[k]} | 0 <= k < Pow3(n)
      ensures coeffs[k] == XorSum(PowerTerms(n, s, k))
    {
      InvSpectrumAt(n, s, k);
      assert coeffs[k] == coeffs[..][k];
    }
  }

  // Both transforms written out: on one entry they do nothing, and on three thirds they combine
  // the transforms of the thirds, the inverse one with the powers 1, a, a^2 and the forward one
  // with 1, a^2, a.
  lemma SpectraSplit(n: nat, a: seq<Block>, b: seq<Block>, c: seq<Block>, i: nat)
    requires |a| == |b| == |c| == Pow3(n) && i < Pow3(n)
    ensures |a + b + c| == Pow3(n + 1) && (n == 0 ==> InvSpectrum(n, a) == a == Spectrum(n, a))
    ensures var p, t, x, y, z := Pow3(n), InvSpectrum(n + 1, a + b + c), InvSpectrum(n, a)[i], InvSpectrum(n, b)[i], InvSpectrum(n, c)[i];
            && t[i] == Xor(Xor(x, y), z) && t[p + i] == Xor(Xor(x, AMul(y)), AMul(AMul(z)))
            && t[2 * p + i] == Xor(Xor(x, AMul(AMul(y))), AMul(z))
    ensures var p, t, x, y, z := Pow3(n), Spectrum(n + 1, a + b + c), Spectrum(n, a)[i], Spectrum(n, b)[i], Spectrum(n, c)[i];
            && t[i] == Xor(Xor(x, y), z) && t[p + i] == Xor(Xor(x, AMul(AMul(y))), AMul(z))
            && t[2 * p + i] == Xor(Xor(x, AMul(y)), AMul(AMul(z)))
  {
    hide Xor, AMul;
    ThirdsCombine(n, Inverse, a, b, c, i);
    ThirdsCombine(n, Forward, a, b, c, i);
  }

  lemma ThirdsCombine(n: nat, f: Butterfly<Block>, a: seq<Block>, b: seq<Block>, c: seq<Block>, i: nat)
    requires |a| == |b| == |c| == Pow3(n) && i < Pow3(n)
    ensures |a + b + c| == Pow3(n + 1)
    ensures var t, x, y, z := Leaves(Transform(f, Tree(n + 1, a + b + c))), Leaves(Transform(f, Tree(n, a))),
                              Leaves(Transform(f, Tree(n, b))), Leaves(Transform(f, Tree(n, c)));
            && |t| == 3 * Pow3(n) && |x| == |y| == |z| == Pow3(n) && t[i] == f(0, x[i], y[i], z[i])
            && t[Pow3(n) + i] == f(1, x[i], y[i], z[i]) && t[2 * Pow3(n) + i] == f(2, x[i], y[i], z[i])
  {
    var p, s := Pow3(n), a + b + c;
    assert s[..p] == a && s[p..2 * p] == b && s[2 * p..] == c;
    var x, y, z := Transform(f, Tree(n, a)), Transform(f, Tree(n, b)), Transform(f, Tree(n, c));
    PerfectTransform(n, f, Tree(n, a));
    PerfectTransform(n, f, Tree(n, b));
    PerfectTransform(n, f, Tree(n, c));
    OutputAt(n, f, 0, x, y, z, i);
    OutputAt(n, f, 1, x, y, z, i);
    OutputAt(n, f, 2, x, y, z, i);
    assert Transform(f, Tree(n + 1, s)) == Combine(f, x, y, z);
  }

  lemma OutputAt(n: nat, f: Butterfly<Block>, d: nat, x: Tri<Block>, y: Tri<Block>, z: Tri<Block>, i: nat)
    requires Perfect(n, x) && Perfect(n, y) && Perfect(n, z) && i < Pow3(n)
    ensures |Leaves(x)| == |Leaves(y)| == |Leaves(z)| == |Leaves(Zip3(Output(f, d), x, y, z))| == Pow3(n)
    ensures Leaves(Zip3(Output(f, d), x, y, z))[i] == f(d, Leaves(x)[i], Leaves(y)[i], Leaves(z)[i])
  {
    hide Leaves, Zip3, Pow3;
    AtZip3(n, Output(f, d), x, y, z, i);
    LeavesAt(n, x, i);
    LeavesAt(n, y, i);
    LeavesAt(n, z, i);
    LeavesAt(n, Zip3(Output(f, d), x, y, z), i);
  }

  // Each transform undoes the other.
  lemma SpectraInvert(n: nat, s: seq<Block>)
    requires |s| == Pow3(n)
    ensures InvSpectrum(n, Spectrum(n, s)) == s && Spectrum(n, InvSpectrum(n, s)) == s
  {
    hide Tree, Transform, Leaves, Pow3;
    var t := Tree(n, s);
    LeavesOfTree(n, s);
    InverseAfterForward(n, t);
    ForwardAfterInverse(n, t);
    PerfectTransform(n, Inverse, t);
    PerfectTransform(n, Forward, t);
    TreeOfLeaves(n, Transform(Forward, t));
    TreeOfLeaves(n, Transform(Inverse, t));
  }

  // Applied twice, every index trit is negated.
  lemma InvSpectrumTwice(n: nat, s: seq<Block>, k: nat)
    requires |s| == Pow3(n) && k < Pow3(n)
    ensures InvSpectrum(n, InvSpectrum(n, s))[k] == s[NegIdx(n, k)]
  {
    hide Tree, Transform, Leaves, Pow3, NegIdx;
    var t := Tree(n, s);
    PerfectTransform(n, Inverse, t);
    TreeOfLeaves(n, Transform(Inverse, t));
    InverseTwice(n, t);
    PerfectTransform(n, Inverse, Transform(Inverse, t));
    LeavesAt(n, Transform(Inverse, Transform(Inverse, t)), k);
    NegatedAt(n, t, k);
    TreeEntry(n, s, NegIdx(n, k));
  }

  lemma InvSpectrumFourTimes(n: nat, s: seq<Block>)
    requires |s| == Pow3(n)
    ensures InvSpectrum(n, InvSpectrum(n, InvSpectrum(n, InvSpectrum(n, s)))) == s
  {
    hide InvSpectrum, Pow3;
    var u := InvSpectrum(n, InvSpectrum(n, s));
    forall k | 0 <= k < Pow3(n)
      ensures InvSpectrum(n, InvSpectrum(n, u))[k] == s[k]
    {
      InvSpectrumTwice(n, u, k);
      InvSpectrumTwice(n, s, NegIdx(n, k));
      NegatedIndexTwice(n, k);
    }
  }

  lemma {:induction false} NegatedIndexTwice(n: nat, k: nat)
    requires k < Pow3(n)
    ensures NegIdx(n, NegIdx(n, k)) == k
  {
    if n > 0 {
      NegatedIndexTwice(n - 1, Rest(n, k));
    }
  }

  // s[j] t[m - j] for every index j: the product of the group algebra at index m.
  function GroupTerms(n: nat, s: seq<Block>, t: seq<Block>, m: nat): (r: seq<Block>)
    requires |s| == |t| == Pow3(n) && m < Pow3(n)
    ensures |r| == Pow3(n)
  {
    seq(Pow3(n), j requires 0 <= j < Pow3(n) => F4Mul.F4Mul(s[j], t[SubIdx(n, m, j)]))
  }

  ghost predicate IsGroupProduct(n: nat, s: seq<Block>, t: seq<Block>, u: seq<Block>) {
    && |s| == |t| == |u| == Pow3(n)
    && forall m {:trigger u[m]} :: 0 <= m < Pow3(n) ==> u[m] == XorSum(GroupTerms(n, s, t, m))
  }

  lemma ProductTree(n: nat, s: seq<Block>, t: seq<Block>, u: seq<Block>)
    requires IsGroupProduct(n, s, t, u)
    ensures Tree(n, u) == Convolve(Xor, RingMul, Tree(n, s), Tree(n, t))
  {
    hide Tree, Convolve, XorSum, GroupTerms, ProductTerms, F4Mul.F4Mul, RingMul, Xor;
    PerfectConvolve(n, Xor, RingMul, Tree(n, s), Tree(n, t));
    forall m {:trigger At(n, Tree(n, u), m)} | 0 <= m < Pow3(n)
      ensures At(n, Tree(n, u), m) == At(n, Convolve(Xor, RingMul, Tree(n, s), Tree(n, t)), m)
    {
      TreeEntry(n, u, m);
      ConvolveAt(n, Tree(n, s), Tree(n, t), m);
      SameTerms(n, s, t, m);
      assert u[m] == XorSum(GroupTerms(n, s, t, m));
    }
    SameTree(n, Tree(n, u), Convolve(Xor, RingMul, Tree(n, s), Tree(n, t)));
  }

  lemma SameTerms(n: nat, s: seq<Block>, t: seq<Block>, m: nat)
    requires |s| == |t| == Pow3(n) && m < Pow3(n)
    ensures ProductTerms(n, Tree(n, s), Tree(n, t), m) == GroupTerms(n, s, t, m)
  {
    hide Tree, F4Mul.F4Mul, RingMul;
    forall j | 0 <= j < Pow3(n)
      ensures ProductTerms(n, Tree(n, s), Tree(n, t), m)[j] == GroupTerms(n, s, t, m)[j]
    {
      TreeEntry(n, s, j);
      TreeEntry(n, t, SubIdx(n, m, j));
      F4Mul.F4MulIsRingMul(s[j], t[SubIdx(n, m, j)]);
    }
    assert ProductTerms(n, Tree(n, s), Tree(n, t), m) == GroupTerms(n, s, t, m);
  }

  // Both transforms of a product are the pointwise products of the transforms.
  lemma SpectraOfProduct(n: nat, s: seq<Block>, t: seq<Block>, u: seq<Block>, k: nat)
    requires IsGroupProduct(n, s, t, u) && k < Pow3(n)
    ensures InvSpectrum(n, u)[k] == F4Mul.F4Mul(InvSpectrum(n, s)[k], InvSpectrum(n, t)[k])
    ensures Spectrum(n, u)[k] == F4Mul.F4Mul(Spectrum(n, s)[k], Spectrum(n, t)[k])
  {
    ProductTree(n, s, t, u);
    var ts, tt := Tree(n, s), Tree(n, t);
    InverseConvolution(n, ts, tt);
    ForwardConvolution(n, ts, tt);
    PerfectTransform(n, Inverse, ts);
    PerfectTransform(n, Inverse, tt);
    PerfectTransform(n, Forward, ts);
    PerfectTransform(n, Forward, tt);
    hide *;
    ProductEntry(n, Transform(Inverse, ts), Transform(Inverse, tt), k);
    ProductEntry(n, Transform(Forward, ts), Transform(Forward, tt), k);
    SpectrumLeaves(n, s, k);
    SpectrumLeaves(n, t, k);
    SpectrumLeaves(n, u, k);
  }

  lemma SpectrumLeaves(n: nat, s: seq<Block>, k: nat)
    requires |s| == Pow3(n) && k < Pow3(n)
    ensures Spectrum(n, s) == Leaves(Transform(Forward, Tree(n, s))) && InvSpectrum(n, s) == Leaves(Transform(Inverse, Tree(n, s)))
  {
  }

  lemma ProductEntry(n: nat, s: Tri<Block>, t: Tri<Block>, k: nat)
    requires k < Pow3(n) && Perfect(n, s) && Perfect(n, t)
    ensures |Leaves(Zip(RingMul, s, t))| == |Leaves(s)| == |Leaves(t)| == Pow3(n)
    ensures Leaves(Zip(RingMul, s, t))[k] == F4Mul.F4Mul(Leaves(s)[k], Leaves(t)[k])
  {
    hide RingMul, F4Mul.F4Mul, Leaves, Zip;
    PerfectZip(n, RingMul, s, t);
    LeavesAt(n, s, k);
    LeavesAt(n, t, k);
    LeavesAt(n, Zip(RingMul, s, t), k);
    AtZip(n, RingMul, s, t, k);
    F4Mul.F4MulIsRingMul(Leaves(s)[k], Leaves(t)[k]);
  }
}

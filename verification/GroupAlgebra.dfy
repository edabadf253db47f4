/**
 Index-level meaning of the tree operations: indices are vectors of trits, Convolve is
 the product of the group algebra of Z_3^n, and output k of inv_foleageFft is the sum of
 a^<j, k> in[j] over all indices j.
 */
module GroupAlgebra {
  import opened Blocks
  import opened F4Ring
  import opened TritTree
  import opened Radix3
  import opened F4Transform
  import opened TransformLaws

  // ---------- tritwise index arithmetic ----------

  function MinusTrit(d: nat, e: nat): nat
    requires d < 3 && e < 3
  {
    if d >= e then d - e else d + 3 - e
  }

  function TimesTrit(d: nat, e: nat): nat
    requires d < 3 && e < 3
  {
    if d == 0 || e == 0 then 0 else if d == e then 1 else 2
  }

  function AddIdx(n: nat, j: nat, k: nat): (m: nat)
    requires j < Pow3(n) && k < Pow3(n)
    ensures m < Pow3(n)
  {
    if n == 0 then 0 else Join(n, Plus(Top(n, j), Top(n, k)), AddIdx(n - 1, Rest(n, j), Rest(n, k)))
  }

  function SubIdx(n: nat, j: nat, k: nat): (m: nat)
    requires j < Pow3(n) && k < Pow3(n)
    ensures m < Pow3(n)
  {
    if n == 0 then 0 else Join(n, MinusTrit(Top(n, j), Top(n, k)), SubIdx(n - 1, Rest(n, j), Rest(n, k)))
  }

  function NegIdx(n: nat, k: nat): (m: nat)
    requires k < Pow3(n)
    ensures m < Pow3(n)
  {
    if n == 0 then 0 else Join(n, MinusTrit(0, Top(n, k)), NegIdx(n - 1, Rest(n, k)))
  }

  // <j, k> modulo 3
  function Dot(n: nat, j: nat, k: nat): (d: nat)
    requires j < Pow3(n) && k < Pow3(n)
    ensures d < 3
  {
    if n == 0 then 0 else Plus(TimesTrit(Top(n, j), Top(n, k)), Dot(n - 1, Rest(n, j), Rest(n, k)))
  }

  lemma {:induction false} AddSub(n: nat, j: nat, k: nat)
    requires j < Pow3(n) && k < Pow3(n)
    ensures AddIdx(n, j, SubIdx(n, k, j)) == k
    ensures SubIdx(n, AddIdx(n, j, k), j) == k
  {
    if n == 0 {
    } else {
      AddSub(n - 1, Rest(n, j), Rest(n, k));
      JoinOfParts(n, k);
    }
  }

  lemma JoinOfParts(n: nat, k: nat)
    requires n > 0 && k < Pow3(n)
    ensures Join(n, Top(n, k), Rest(n, k)) == k
  {
  }

  // ---------- sums ----------

  lemma {:induction false} XorSumConcat(s: seq<Block>, t: seq<Block>)
    ensures XorSum(s + t) == Xor(XorSum(s), XorSum(t))
  {
    if |t| == 0 {
      assert s + t == s;
      XorZero(XorSum(s));
    } else {
      var t' := t[..|t| - 1];
      assert (s + t)[..|s + t| - 1] == s + t';
      XorSumConcat(s, t');
      XorAssoc(XorSum(s), XorSum(t'), t[|t| - 1]);
    }
  }

  lemma XorSumConcat3(s: seq<Block>, t: seq<Block>, u: seq<Block>)
    ensures XorSum(s + t + u) == Xor(Xor(XorSum(s), XorSum(t)), XorSum(u))
  {
    XorSumConcat(s + t, u);
    XorSumConcat(s, t);
  }

  function PowerAll(e: nat, s: seq<Block>): seq<Block> {
    seq(|s|, j requires 0 <= j < |s| => Power(e, s[j]))
  }

  lemma {:induction false} XorSumPower(e: nat, s: seq<Block>)
    ensures XorSum(PowerAll(e, s)) == Power(e, XorSum(s))
  {
    if |s| == 0 {
      ZeroImages();
    } else {
      var s' := s[..|s| - 1];
      assert PowerAll(e, s)[..|s| - 1] == PowerAll(e, s');
      XorSumPower(e, s');
      PowerAdds(e, XorSum(s'), s[|s| - 1]);
    }
  }

  // ---------- the inverse transform, index by index ----------

  ghost function TransformTerms(n: nat, t: Tri<Block>, k: nat): (s: seq<Block>)
    requires Perfect(n, t) && k < Pow3(n)
    ensures |s| == Pow3(n)
  {
    seq(Pow3(n), j requires 0 <= j < Pow3(n) => Power(Dot(n, j, k), At(n, t, j)))
  }

  lemma TermsSplit(n: nat, t: Tri<Block>, k: nat)
    requires n > 0 && Perfect(n, t) && k < Pow3(n)
    ensures var d, i := Top(n, k), Rest(n, k);
            TransformTerms(n, t, k) == TransformTerms(n - 1, t.l, i) + PowerAll(d, TransformTerms(n - 1, t.m, i))
                                       + PowerAll(Plus(d, d), TransformTerms(n - 1, t.r, i))
  {
    var d, i := Top(n, k), Rest(n, k);
    var a, b, c := TransformTerms(n - 1, t.l, i), PowerAll(d, TransformTerms(n - 1, t.m, i)),
                   PowerAll(Plus(d, d), TransformTerms(n - 1, t.r, i));
    forall j | 0 <= j < Pow3(n)
      ensures TransformTerms(n, t, k)[j] == (a + b + c)[j]
    {
      var e, j' := Top(n, j), Rest(n, j);
      RunAt(n, a, b, c, j);
      AtChild(n, t, j);
      PowerPower(TimesTrit(e, d), Dot(n - 1, j', i), At(n, t, j));
    }
  }

  lemma {:induction false} InverseTransformAt(n: nat, t: Tri<Block>, k: nat)
    requires Perfect(n, t) && k < Pow3(n)
    ensures Perfect(n, Transform(Inverse, t))
    ensures At(n, Transform(Inverse, t), k) == XorSum(TransformTerms(n, t, k))
    decreases n
  {
    PerfectTransform(n, Inverse, t);
    if n == 0 {
      assert TransformTerms(0, t, k)[..0] == [];
      XorZero(t.value);
    } else {
      var d, i := Top(n, k), Rest(n, k);
      PerfectThirds(n, Inverse, t);
      InverseTransformAt(n - 1, t.l, i);
      InverseTransformAt(n - 1, t.m, i);
      InverseTransformAt(n - 1, t.r, i);
      AtZip3(n - 1, Output(Inverse, d), Transform(Inverse, t.l), Transform(Inverse, t.m), Transform(Inverse, t.r), i);
      TermsSplit(n, t, k);
      var a, b, c := TransformTerms(n - 1, t.l, i), TransformTerms(n - 1, t.m, i), TransformTerms(n - 1, t.r, i);
      XorSumConcat3(a, PowerAll(d, b), PowerAll(Plus(d, d), c));
      XorSumPower(d, b);
      XorSumPower(Plus(d, d), c);
      InverseIsPowers(d, XorSum(a), XorSum(b), XorSum(c));
    }
  }

  // Negated moves the entry at -k to k.
  lemma {:induction false} NegatedAt(n: nat, t: Tri<Block>, k: nat)
    requires Perfect(n, t) && k < Pow3(n)
    ensures Perfect(n, Negated(t)) && At(n, Negated(t), k) == At(n, t, NegIdx(n, k))
    decreases n
  {
    PerfectNegated(n, t);
    if n > 0 {
      NegatedAt(n - 1, t.l, Rest(n, k));
      NegatedAt(n - 1, t.m, Rest(n, k));
      NegatedAt(n - 1, t.r, Rest(n, k));
    }
  }

  // ---------- the product, index by index ----------

  ghost function ProductTerms(n: nat, s: Tri<Block>, t: Tri<Block>, m: nat): (r: seq<Block>)
    requires Perfect(n, s) && Perfect(n, t) && m < Pow3(n)
    ensures |r| == Pow3(n)
  {
    seq(Pow3(n), j requires 0 <= j < Pow3(n) => RingMul(At(n, s, j), At(n, t, SubIdx(n, m, j))))
  }

  lemma ProductTermAt(n: nat, s: Tri<Block>, t: Tri<Block>, m: nat, j: nat)
    requires n > 0 && Perfect(n, s) && Perfect(n, t) && m < Pow3(n) && j < Pow3(n)
    ensures var c, e := MinusTrit(Top(n, m), Top(n, j)), Top(n, j);
            && Perfect(n - 1, Child(s, e)) && Perfect(n - 1, Child(t, c))
            && ProductTerms(n, s, t, m)[j] == ProductTerms(n - 1, Child(s, e), Child(t, c), Rest(n, m))[Rest(n, j)]
  {
    AtChild(n, s, j);
    AtChild(n, t, SubIdx(n, m, j));
  }

  lemma ProductTermsSplit(n: nat, s: Tri<Block>, t: Tri<Block>, m: nat, x: Tri<Block>, y: Tri<Block>, z: Tri<Block>)
    requires n > 0 && Perfect(n, s) && Perfect(n, t) && m < Pow3(n)
    requires x == Child(t, Top(n, m)) && y == Child(t, MinusTrit(Top(n, m), 1)) && z == Child(t, MinusTrit(Top(n, m), 2))
    ensures var i := Rest(n, m);
            ProductTerms(n, s, t, m) == ProductTerms(n - 1, s.l, x, i) + ProductTerms(n - 1, s.m, y, i) + ProductTerms(n - 1, s.r, z, i)
  {
    var i := Rest(n, m);
    var a, b, c := ProductTerms(n - 1, s.l, x, i), ProductTerms(n - 1, s.m, y, i), ProductTerms(n - 1, s.r, z, i);
    forall j | 0 <= j < Pow3(n)
      ensures ProductTerms(n, s, t, m)[j] == (a + b + c)[j]
    {
      RunAt(n, a, b, c, j);
      ProductTermAt(n, s, t, m, j);
    }
  }

  lemma ConvolveChild<T>(n: nat, add: (T, T) -> T, mul: (T, T) -> T, s: Tri<T>, t: Tri<T>, d: nat)
    requires n > 0 && Perfect(n, s) && Perfect(n, t) && d < 3
    ensures Child(Convolve(add, mul, s, t), d)
         == Zip3(Sum3(add), Convolve(add, mul, s.l, Child(t, d)), Convolve(add, mul, s.m, Child(t, MinusTrit(d, 1))),
                            Convolve(add, mul, s.r, Child(t, MinusTrit(d, 2))))
  {
  }

  // Entry m of the product is the sum of s[j] t[m - j].
  lemma {:induction false} ConvolveAt(n: nat, s: Tri<Block>, t: Tri<Block>, m: nat)
    requires Perfect(n, s) && Perfect(n, t) && m < Pow3(n)
    ensures Perfect(n, Convolve(Xor, RingMul, s, t))
    ensures At(n, Convolve(Xor, RingMul, s, t), m) == XorSum(ProductTerms(n, s, t, m))
    decreases n, 1
  {
    PerfectConvolve(n, Xor, RingMul, s, t);
    if n == 0 {
      assert ProductTerms(0, s, t, m)[..0] == [];
      XorZero(RingMul(s.value, t.value));
    } else {
      var d := Top(n, m);
      AtChild(n, Convolve(Xor, RingMul, s, t), m);
      ConvolveChild(n, Xor, RingMul, s, t, d);
      ConvolveAtNode(n, s, t, m, Child(t, d), Child(t, MinusTrit(d, 1)), Child(t, MinusTrit(d, 2)));
    }
  }

  lemma ConvolveAtNode(n: nat, s: Tri<Block>, t: Tri<Block>, m: nat, x: Tri<Block>, y: Tri<Block>, z: Tri<Block>)
    requires n > 0 && Perfect(n, s) && Perfect(n, t) && m < Pow3(n)
    requires x == Child(t, Top(n, m)) && y == Child(t, MinusTrit(Top(n, m), 1)) && z == Child(t, MinusTrit(Top(n, m), 2))
    ensures var u := Zip3(Sum3(Xor), Convolve(Xor, RingMul, s.l, x), Convolve(Xor, RingMul, s.m, y), Convolve(Xor, RingMul, s.r, z));
            Perfect(n - 1, u) && At(n - 1, u, Rest(n, m)) == XorSum(ProductTerms(n, s, t, m))
    decreases n, 0
  {
    hide Convolve, ProductTerms, XorSum, Xor, RingMul, Zip3;
    var i := Rest(n, m);
    ConvolveAt(n - 1, s.l, x, i);
    ConvolveAt(n - 1, s.m, y, i);
    ConvolveAt(n - 1, s.r, z, i);
    AtZip3(n - 1, Sum3(Xor), Convolve(Xor, RingMul, s.l, x), Convolve(Xor, RingMul, s.m, y), Convolve(Xor, RingMul, s.r, z), i);
    ProductTermsSplit(n, s, t, m, x, y, z);
    XorSumConcat3(ProductTerms(n - 1, s.l, x, i), ProductTerms(n - 1, s.m, y, i), ProductTerms(n - 1, s.r, z, i));
  }
}

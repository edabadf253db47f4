/**
 Packed arithmetic in F4[x] / (x^64 + a x^3 + a x + 1), a^2 = a + 1 (F4.h).

 A block packs 64 coefficients: coefficient i is b[2i] + a b[2i+1].  The reference
 multiplication RingMul applies the polynomial u to the operator "multiply by x and
 reduce once"; the code under study multiplies carry-lessly and folds twice.
 */
module F4Ring {
  import opened Blocks

  // ---------- the two generators of the ring, acting on packed blocks ----------

  // Multiplication of every coefficient by a: (lo, hi) becomes (hi, lo + hi).
  function AMul(b: Block): Block {
    Block(seq(128, j requires 0 <= j < 128 => if j % 2 == 0 then b.bits[j + 1] else b.bits[j - 1] != b.bits[j]))
  }

  // Multiplication by x: coefficients move up by one and the top coefficient t returns
  // as t (1 + a x + a x^3).
  function XMul(b: Block): Block {
    Block(seq(128, j requires 0 <= j < 128 =>
      if j < 2 then b.bits[126 + j]
      else if j == 2 || j == 6 then b.bits[j - 2] != b.bits[127]
      else if j == 3 || j == 7 then b.bits[j - 2] != (b.bits[126] != b.bits[127])
      else b.bits[j - 2]))
  }

  const ONE: Block := Block(Zeros(128)[0 := true])

  // p(x) w for a polynomial p with coefficients in {0, 1}.
  function Eval(p: Word, w: Block): Block {
    if |p| == 0 then ZERO else Xor(Mask(w, p[0]), XMul(Eval(p[1..], w)))
  }

  // The polynomial halves of a block: coefficients of 1 and of a.
  function OddHalf(b: Block): Word {
    seq(64, i requires 0 <= i < 64 => b.bits[2 * i])
  }

  function EvenHalf(b: Block): Word {
    seq(64, i requires 0 <= i < 64 => b.bits[2 * i + 1])
  }

  // Reference product.
  function RingMul(u: Block, v: Block): Block {
    Xor(Eval(OddHalf(u), v), AMul(Eval(EvenHalf(u), v)))
  }

  // ---------- linearity ----------

  lemma AMulLinear(a: Block, b: Block)
    ensures AMul(Xor(a, b)) == Xor(AMul(a), AMul(b))
  {
    assert AMul(Xor(a, b)).bits == Xor(AMul(a), AMul(b)).bits;
  }

  lemma AMulSquared(b: Block)
    ensures AMul(AMul(b)) == Xor(b, AMul(b))
  {
    assert AMul(AMul(b)).bits == Xor(b, AMul(b)).bits;
  }

  lemma AMulCubed(b: Block)
    ensures AMul(AMul(AMul(b))) == b
  {
    assert AMul(AMul(AMul(b))).bits == b.bits;
  }

  lemma XMulLinear(a: Block, b: Block)
    ensures XMul(Xor(a, b)) == Xor(XMul(a), XMul(b))
  {
    assert XMul(Xor(a, b)).bits == Xor(XMul(a), XMul(b)).bits;
  }

  lemma XMulAMul(b: Block)
    ensures XMul(AMul(b)) == AMul(XMul(b))
  {
    assert XMul(AMul(b)).bits == AMul(XMul(b)).bits;
  }

  lemma ZeroImages()
    ensures XMul(ZERO) == ZERO && AMul(ZERO) == ZERO
  {
    assert XMul(ZERO).bits == ZERO.bits && AMul(ZERO).bits == ZERO.bits;
  }

  lemma {:induction false} EvalLinear(p: Word, u: Block, v: Block)
    ensures Eval(p, Xor(u, v)) == Xor(Eval(p, u), Eval(p, v))
  {
    if |p| == 0 {
    } else {
      EvalLinear(p[1..], u, v);
      XMulLinear(Eval(p[1..], u), Eval(p[1..], v));
      XorSwap(Mask(u, p[0]), Mask(v, p[0]), XMul(Eval(p[1..], u)), XMul(Eval(p[1..], v)));
    }
  }

  lemma {:induction false} EvalAdd(p: Word, q: Word, w: Block)
    requires |p| == |q|
    ensures Eval(XorW(p, q), w) == Xor(Eval(p, w), Eval(q, w))
  {
    hide XMul;
    if |p| == 0 {
    } else {
      EvalAdd(p[1..], q[1..], w);
      assert XorW(p, q)[1..] == XorW(p[1..], q[1..]);
      var s, t := Eval(p[1..], w), Eval(q[1..], w);
      XMulLinear(s, t);
      assert Mask(w, XorW(p, q)[0]) == Xor(Mask(w, p[0]), Mask(w, q[0]));
      XorSwap(Mask(w, p[0]), Mask(w, q[0]), XMul(s), XMul(t));
    }
  }

  lemma {:induction false} EvalXMul(p: Word, w: Block)
    ensures Eval(p, XMul(w)) == XMul(Eval(p, w))
  {
    if |p| == 0 {
      ZeroImages();
    } else {
      EvalXMul(p[1..], w);
      ZeroImages();
      XMulLinear(Mask(w, p[0]), XMul(Eval(p[1..], w)));
    }
  }

  lemma {:induction false} EvalAMul(p: Word, w: Block)
    ensures Eval(p, AMul(w)) == AMul(Eval(p, w))
  {
    if |p| == 0 {
      ZeroImages();
    } else {
      EvalAMul(p[1..], w);
      ZeroImages();
      XMulAMul(Eval(p[1..], w));
      AMulLinear(Mask(w, p[0]), XMul(Eval(p[1..], w)));
    }
  }

  lemma {:induction false} EvalZero(p: Word)
    ensures Eval(p, ZERO) == ZERO
  {
    if |p| == 0 {
    } else {
      EvalZero(p[1..]);
      ZeroImages();
    }
  }

  lemma {:induction false} EvalOfZeros(n: nat, w: Block)
    ensures Eval(Zeros(n), w) == ZERO
  {
    if n == 0 {
    } else {
      assert Zeros(n)[1..] == Zeros(n - 1);
      EvalOfZeros(n - 1, w);
      ZeroImages();
    }
  }

  // Evaluations of two polynomials commute.
  lemma {:induction false} EvalCommute(p: Word, q: Word, w: Block)
    ensures Eval(p, Eval(q, w)) == Eval(q, Eval(p, w))
  {
    if |p| == 0 {
      EvalZero(q);
    } else {
      EvalCommute(p[1..], q, w);
      EvalXMul(q, Eval(p[1..], w));
      EvalLinear(q, Mask(w, p[0]), XMul(Eval(p[1..], w)));
      EvalZero(q);
    }
  }

  // ---------- powers of x and the modulus ----------

  function XPow(n: nat, w: Block): Block {
    if n == 0 then w else XMul(XPow(n - 1, w))
  }

  lemma {:induction false} EvalSplit(p: Word, q: Word, w: Block)
    ensures Eval(p + q, w) == Xor(Eval(p, w), XPow(|p|, Eval(q, w)))
  {
    if |p| == 0 {
      assert p + q == q;
      XorZero(Eval(q, w));
    } else {
      assert (p + q)[1..] == p[1..] + q;
      EvalSplit(p[1..], q, w);
      XMulLinear(Eval(p[1..], w), XPow(|p| - 1, Eval(q, w)));
      XorAssoc(Mask(w, p[0]), XMul(Eval(p[1..], w)), XPow(|p|, Eval(q, w)));
    }
  }

  lemma {:induction false} XPowLinear(n: nat, a: Block, b: Block)
    ensures XPow(n, Xor(a, b)) == Xor(XPow(n, a), XPow(n, b))
  {
    if n == 0 {
    } else {
      XPowLinear(n - 1, a, b);
      XMulLinear(XPow(n - 1, a), XPow(n - 1, b));
    }
  }

  lemma {:induction false} XPowEval(n: nat, p: Word, w: Block)
    ensures XPow(n, Eval(p, w)) == Eval(p, XPow(n, w))
  {
    if n == 0 {
    } else {
      XPowEval(n - 1, p, w);
      EvalXMul(p, XPow(n - 1, w));
    }
  }

  lemma {:induction false} XPowAMul(n: nat, w: Block)
    ensures XPow(n, AMul(w)) == AMul(XPow(n, w))
  {
    if n == 0 {
    } else {
      XPowAMul(n - 1, w);
      XMulAMul(XPow(n - 1, w));
    }
  }

  // x^n for n < 64 is the n-th unit coefficient.
  lemma {:induction false} XPowOne(n: nat)
    requires n < 64
    ensures XPow(n, ONE) == Block(Zeros(128)[2 * n := true])
  {
    if n == 0 {
    } else {
      XPowOne(n - 1);
    }
  }

  // A polynomial of at most 64 coefficients, applied to 1, is its own packing.
  lemma {:induction false} EvalOne(p: Word)
    requires |p| <= 64
    ensures forall j :: 0 <= j < 128 ==> (Eval(p, ONE).bits[j] <==> (j % 2 == 0 && j / 2 < |p| && p[j / 2]))
  {
    if |p| == 0 {
    } else {
      EvalOne(p[1..]);
      var e := Eval(p[1..], ONE);
      assert !e.bits[126] && !e.bits[127];
      forall j | 0 <= j < 128
        ensures Eval(p, ONE).bits[j] <==> (j % 2 == 0 && j / 2 < |p| && p[j / 2])
      {
        assert XMul(e).bits[j] == (j >= 2 && e.bits[j - 2]);
        if j >= 2 {
          assert (j - 2) / 2 == j / 2 - 1;
        }
      }
    }
  }

  // Every block is the sum of its two halves applied to 1.
  lemma Reconstruct(b: Block)
    ensures b == Xor(Eval(OddHalf(b), ONE), AMul(Eval(EvenHalf(b), ONE)))
  {
    hide Eval, XMul;
    EvalOne(OddHalf(b));
    EvalOne(EvenHalf(b));
  }

  function OneAXAXXX(w: Block): Block {
    Xor(w, AMul(Xor(XPow(1, w), XPow(3, w))))
  }

  lemma XPowThree(w: Block)
    ensures XPow(1, w) == XMul(w) && XPow(3, w) == XMul(XMul(XMul(w)))
  {
    hide XMul;
    assert XPow(0, w) == w && XPow(2, w) == XMul(XPow(1, w));
  }

  // x^64 = 1 + a x + a x^3 holds for the operator on the unit block ...
  lemma ModulusAtOne()
    ensures XPow(64, ONE) == OneAXAXXX(ONE)
  {
    XPowOne(63);
    XPowOne(1);
    XPowOne(3);
  }

  // ... and therefore on every block: the operator satisfies the modulus.
  lemma Modulus(w: Block)
    ensures XPow(64, w) == Xor(w, AMul(Xor(XMul(w), XMul(XMul(XMul(w))))))
    ensures !w.bits[126] && !w.bits[127] ==> forall j {:trigger XMul(w).bits[j]} :: 0 <= j < 128 ==>
      XMul(w).bits[j] == (j >= 2 && w.bits[j - 2])
  {
    ModulusHolds(w);
    hide XMul, XPow;
    XPowThree(w);
    ShiftedUp(w);
  }

  // Coefficients move up by one while the top one is zero.
  lemma ShiftedUp(w: Block)
    ensures !w.bits[126] && !w.bits[127] ==> forall j {:trigger XMul(w).bits[j]} :: 0 <= j < 128 ==>
      XMul(w).bits[j] == (j >= 2 && w.bits[j - 2])
  {
  }

  lemma ModulusHolds(w: Block)
    ensures XPow(64, w) == OneAXAXXX(w)
  {
    var p, q := OddHalf(w), EvenHalf(w);
    var u, v := Eval(p, ONE), Eval(q, ONE);
    Reconstruct(w);
    XPowLinear(64, u, AMul(v));
    XPowAMul(64, v);
    ModulusEval(p);
    ModulusEval(q);
    assert OneAXAXXX(Xor(u, AMul(v))) == Xor(OneAXAXXX(u), AMul(OneAXAXXX(v))) by {
      XPowLinear(1, u, AMul(v));
      XPowLinear(3, u, AMul(v));
      XPowAMul(1, v);
      XPowAMul(3, v);
      var u1, u3, v1, v3 := XPow(1, u), XPow(3, u), XPow(1, v), XPow(3, v);
      AMulLinear(v1, v3);
      XorSwap(u1, AMul(v1), u3, AMul(v3));
      AMulLinear(Xor(u1, u3), AMul(Xor(v1, v3)));
      XorSwap(u, AMul(v), AMul(Xor(u1, u3)), AMul(AMul(Xor(v1, v3))));
      AMulLinear(v, AMul(Xor(v1, v3)));
    }
  }

  lemma ModulusEval(p: Word)
    ensures XPow(64, Eval(p, ONE)) == OneAXAXXX(Eval(p, ONE))
  {
    XPowEval(64, p, ONE);
    ModulusAtOne();
    var s := Xor(XPow(1, ONE), XPow(3, ONE));
    EvalLinear(p, ONE, AMul(s));
    EvalAMul(p, s);
    EvalLinear(p, XPow(1, ONE), XPow(3, ONE));
    XPowEval(1, p, ONE);
    XPowEval(3, p, ONE);
  }

  // ---------- ring laws of the reference product ----------

  lemma MulDistributesLeft(u: Block, v: Block, w: Block)
    ensures RingMul(Xor(u, v), w) == Xor(RingMul(u, w), RingMul(v, w))
  {
    assert OddHalf(Xor(u, v)) == XorW(OddHalf(u), OddHalf(v));
    assert EvenHalf(Xor(u, v)) == XorW(EvenHalf(u), EvenHalf(v));
    EvalAdd(OddHalf(u), OddHalf(v), w);
    EvalAdd(EvenHalf(u), EvenHalf(v), w);
    AMulLinear(Eval(EvenHalf(u), w), Eval(EvenHalf(v), w));
    XorSwap(Eval(OddHalf(u), w), Eval(OddHalf(v), w), AMul(Eval(EvenHalf(u), w)), AMul(Eval(EvenHalf(v), w)));
  }

  lemma MulDistributesRight(u: Block, v: Block, w: Block)
    ensures RingMul(u, Xor(v, w)) == Xor(RingMul(u, v), RingMul(u, w))
  {
    EvalLinear(OddHalf(u), v, w);
    EvalLinear(EvenHalf(u), v, w);
    AMulLinear(Eval(EvenHalf(u), v), Eval(EvenHalf(u), w));
    XorSwap(Eval(OddHalf(u), v), Eval(OddHalf(u), w), AMul(Eval(EvenHalf(u), v)), AMul(Eval(EvenHalf(u), w)));
  }

  lemma MulOne(u: Block)
    ensures RingMul(u, ONE) == u
  {
    Reconstruct(u);
  }

  // u applied to v applied to w does not depend on the order of u and v.
  lemma MulSwap(u: Block, v: Block, w: Block)
    ensures RingMul(u, RingMul(v, w)) == RingMul(v, RingMul(u, w))
  {
    var uo, ue, vo, ve := OddHalf(u), EvenHalf(u), OddHalf(v), EvenHalf(v);
    MulExpand(u, v, w);
    MulExpand(v, u, w);
    EvalCommute(uo, vo, w);
    EvalCommute(uo, ve, w);
    EvalCommute(ue, vo, w);
    EvalCommute(ue, ve, w);
    var a, b, c, d := Eval(uo, Eval(vo, w)), Eval(uo, Eval(ve, w)), Eval(ue, Eval(vo, w)), Eval(ue, Eval(ve, w));
    XorSwap(a, AMul(b), AMul(c), AMul(AMul(d)));
  }

  lemma MulExpand(u: Block, v: Block, w: Block)
    ensures RingMul(u, RingMul(v, w)) ==
            var uo, ue, vo, ve := OddHalf(u), EvenHalf(u), OddHalf(v), EvenHalf(v);
            Xor(Xor(Eval(uo, Eval(vo, w)), AMul(Eval(uo, Eval(ve, w)))),
                Xor(AMul(Eval(ue, Eval(vo, w))), AMul(AMul(Eval(ue, Eval(ve, w))))))
  {
    var uo, ue, vo, ve := OddHalf(u), EvenHalf(u), OddHalf(v), EvenHalf(v);
    var x, y := Eval(vo, w), Eval(ve, w);
    EvalLinear(uo, x, AMul(y));
    EvalLinear(ue, x, AMul(y));
    EvalAMul(uo, y);
    EvalAMul(ue, y);
    AMulLinear(Eval(ue, x), AMul(Eval(ue, y)));
  }

  lemma MulCommutes(u: Block, v: Block)
    ensures RingMul(u, v) == RingMul(v, u)
  {
    MulSwap(u, v, ONE);
    MulOne(u);
    MulOne(v);
  }

  lemma MulAssociates(u: Block, v: Block, w: Block)
    ensures RingMul(RingMul(u, v), w) == RingMul(u, RingMul(v, w))
  {
    MulCommutes(RingMul(u, v), w);
    MulSwap(w, u, v);
    MulCommutes(w, v);
  }

  // Multiplication is F4-bilinear, and multiplication by x is what XMul says it is.
  lemma MulScalar(u: Block, v: Block)
    ensures RingMul(u, AMul(v)) == AMul(RingMul(u, v))
    ensures RingMul(AMul(u), v) == AMul(RingMul(u, v))
    ensures RingMul(XMul(u), v) == XMul(RingMul(u, v))
  {
    MulScalarRight(u, v);
    MulScalarRight(v, u);
    MulCommutes(u, v);
    MulCommutes(AMul(u), v);
    MulCommutes(XMul(u), v);
  }

  lemma MulScalarRight(u: Block, v: Block)
    ensures RingMul(u, AMul(v)) == AMul(RingMul(u, v))
    ensures RingMul(u, XMul(v)) == XMul(RingMul(u, v))
  {
    var p, q := OddHalf(u), EvenHalf(u);
    EvalAMul(p, v);
    EvalAMul(q, v);
    AMulLinear(Eval(p, v), AMul(Eval(q, v)));
    EvalXMul(p, v);
    EvalXMul(q, v);
    XMulAMul(Eval(q, v));
    XMulLinear(Eval(p, v), AMul(Eval(q, v)));
  }

  lemma MulZero(u: Block)
    ensures RingMul(u, ZERO) == ZERO && RingMul(ZERO, u) == ZERO
  {
    EvalZero(OddHalf(u));
    EvalZero(EvenHalf(u));
    ZeroImages();
    MulCommutes(u, ZERO);
  }
}

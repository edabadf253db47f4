/**
 The packed multiplication of F4.h (lines 73 to 147) on machine words: bit extraction
 and deposit, four carry-less products and two folding passes; and the proof that it is
 the ring product of module F4Ring.
 */
module F4Mul {
  import opened Blocks
  import opened F4Ring

  type U64 = w: Word | |w| == 64 witness seq(64, _ => false)

  // ---------- instructions ----------

  // _pext_u64 before zero extension: the bits of x under the mask, packed.
  function Extract(x: Word, mask: Word): (r: Word)
    requires |x| == |mask|
    ensures |r| <= |x|
  {
    if |x| == 0 then []
    else if mask[0] then [x[0]] + Extract(x[1..], mask[1..])
    else Extract(x[1..], mask[1..])
  }

  function Pext(x: U64, mask: U64): U64 {
    var r := Extract(x, mask);
    r + Zeros(64 - |r|)
  }

  // _pdep_u64: the low bits of x, placed in order under the mask.
  function Deposit(x: Word, mask: Word): (r: Word)
    ensures |r| == |mask|
  {
    if |mask| == 0 then []
    else if !mask[0] then [false] + Deposit(x, mask[1..])
    else if |x| == 0 then [false] + Deposit(x, mask[1..])
    else [x[0]] + Deposit(x[1..], mask[1..])
  }

  function Pdep(x: U64, mask: U64): U64 {
    Deposit(x, mask)
  }

  function Shl32(x: U64): U64 {
    Zeros(32) + x[..32]
  }

  function Shr32(x: U64): U64 {
    x[32..] + Zeros(32)
  }

  function OrW(a: U64, b: U64): U64 {
    seq(64, i requires 0 <= i < 64 => a[i] || b[i])
  }

  function Low(b: Block): U64 { b.bits[..64] }

  function High(b: Block): U64 { b.bits[64..] }

  function MakeBlock(high: U64, low: U64): Block { Block(low + high) }

  // A shift-and-xor product of bit polynomials, kept to n bits.
  function ShiftUp(w: Word): Word {
    if |w| == 0 then [] else [false] + w[..|w| - 1]
  }

  function CarryLess(a: Word, b: Word, n: nat): (r: Word)
    requires |b| <= n
    ensures |r| == n
  {
    if |a| == 0 then Zeros(n)
    else XorW(MaskW(b + Zeros(n - |b|), a[0]), ShiftUp(CarryLess(a[1..], b, n)))
  }

  // _mm_clmulepi64_si128
  function Clmul(a: U64, b: U64): Block {
    Block(CarryLess(a, b, 128))
  }

  // ---------- F4.h ----------

  function Alternating(phase: nat): U64 {
    seq(64, i => i % 2 == phase)
  }

  const ODD_MASK: U64 := Alternating(0)   // 0x5555555555555555
  const EVEN_MASK: U64 := Alternating(1)  // 0xAAAAAAAAAAAAAAAA

  function Interleave(a: U64, b: U64): Block {
    var low64 := OrW(Pdep(b, EVEN_MASK), Pdep(a, ODD_MASK));
    var high64 := OrW(Pdep(Shr32(b), EVEN_MASK), Pdep(Shr32(a), ODD_MASK));
    MakeBlock(high64, low64)
  }

  function OddBitExtraction(x: Block): U64 {
    var tempA := Pext(Low(x), ODD_MASK);
    var tempB := Pext(High(x), ODD_MASK);
    OrW(Shl32(tempB), tempA)
  }

  function EvenBitExtraction(x: Block): U64 {
    var tempA := Pext(Low(x), EVEN_MASK);
    var tempB := Pext(High(x), EVEN_MASK);
    OrW(Shl32(tempB), tempA)
  }

  const H1: U64 := Zeros(64)[0 := true]               // 0b1
  const H2: U64 := Zeros(64)[1 := true][3 := true]    // 0b1010

  // One pass of F4_reduce: the high halves (f, g) of the pair, times the low part
  // (H1, a H2) of the modulus.
  function FoldOdd(f: U64, g: U64): Block {
    Xor(Clmul(f, H1), Clmul(g, H2))
  }

  function FoldEven(f: U64, g: U64): Block {
    Xor(Xor(Clmul(f, H2), Clmul(g, H1)), Clmul(g, H2))
  }

  function F4Reduce(odd: Block, even: Block): Block {
    var reducedOdd := FoldOdd(High(odd), High(even));
    var reducedEven := FoldEven(High(odd), High(even));
    var finalReducedOdd := FoldOdd(High(reducedOdd), High(reducedEven));
    var finalReducedEven := FoldEven(High(reducedOdd), High(reducedEven));
    Interleave(Low(Xor(Xor(odd, finalReducedOdd), reducedOdd)),
               Low(Xor(Xor(even, finalReducedEven), reducedEven)))
  }

  function ProdOdd(xOdd: U64, xEven: U64, yOdd: U64, yEven: U64): Block {
    Xor(Clmul(xOdd, yOdd), Clmul(xEven, yEven))
  }

  function ProdEven(xOdd: U64, xEven: U64, yOdd: U64, yEven: U64): Block {
    Xor(Xor(Clmul(xOdd, yEven), Clmul(xEven, yOdd)), Clmul(xEven, yEven))
  }

  function F4Mul(x: Block, y: Block): Block {
    var xOdd := OddBitExtraction(x);
    var xEven := EvenBitExtraction(x);
    var yOdd := OddBitExtraction(y);
    var yEven := EvenBitExtraction(y);
    F4Reduce(ProdOdd(xOdd, xEven, yOdd, yEven), ProdEven(xOdd, xEven, yOdd, yEven))
  }

  // ---------- extraction and deposit are inverse packings ----------

  lemma {:induction false} ExtractAlternating(x: Word, mask: Word, phase: nat)
    requires |x| == |mask| && |x| % 2 == 0 && phase < 2
    requires forall i :: 0 <= i < |mask| ==> (mask[i] <==> i % 2 == phase)
    ensures |Extract(x, mask)| == |x| / 2
    ensures forall i :: 0 <= i < |x| / 2 ==> Extract(x, mask)[i] == x[2 * i + phase]
  {
    if |x| == 0 {
    } else {
      var x2, mask2 := x[2..], mask[2..];
      assert x[1..][1..] == x2 && mask[1..][1..] == mask2;
      ExtractAlternating(x2, mask2, phase);
      var rest := Extract(x2, mask2);
      assert mask[1..][0] == mask[1];
      assert Extract(x, mask) == [x[phase]] + rest;
      forall i | 0 <= i < |x| / 2
        ensures Extract(x, mask)[i] == x[2 * i + phase]
      {
        if i > 0 {
          assert rest[i - 1] == x2[2 * (i - 1) + phase];
        }
      }
    }
  }

  lemma DepositTwo(x: Word, mask: Word, phase: nat)
    requires |mask| >= 2 && |x| >= 1 && phase < 2
    requires mask[0] == (phase == 0) && mask[1] == (phase == 1)
    ensures Deposit(x, mask) == [phase == 0 && x[0], phase == 1 && x[0]] + Deposit(x[1..], mask[2..])
  {
    hide Deposit;
    var m1 := mask[1..];
    assert m1[0] == mask[1] && m1[1..] == mask[2..];
    DepositOne(x, mask);
    DepositOne(if phase == 0 then x[1..] else x, m1);
    TwoHeads(phase == 0 && x[0], phase == 1 && x[0], Deposit(x[1..], mask[2..]));
  }

  lemma TwoHeads<T>(a: T, b: T, rest: seq<T>)
    ensures [a] + ([b] + rest) == [a, b] + rest
  {
  }

  lemma DepositOne(x: Word, mask: Word)
    requires |mask| > 0
    ensures !mask[0] ==> Deposit(x, mask) == [false] + Deposit(x, mask[1..])
    ensures mask[0] && |x| > 0 ==> Deposit(x, mask) == [x[0]] + Deposit(x[1..], mask[1..])
  {
  }

  lemma {:induction false} DepositAlternating(x: Word, mask: Word, phase: nat)
    requires |mask| % 2 == 0 && phase < 2 && |x| >= |mask| / 2
    requires forall i :: 0 <= i < |mask| ==> (mask[i] <==> i % 2 == phase)
    ensures forall i :: 0 <= i < |mask| ==> (Deposit(x, mask)[i] <==> i % 2 == phase && x[i / 2])
  {
    if |mask| == 0 {
    } else {
      DepositTwo(x, mask, phase);
      var x1, mask2 := x[1..], mask[2..];
      DepositAlternating(x1, mask2, phase);
      var rest := Deposit(x1, mask2);
      forall i | 0 <= i < |mask|
        ensures Deposit(x, mask)[i] <==> i % 2 == phase && x[i / 2]
      {
        if i >= 2 {
          assert Deposit(x, mask)[i] == rest[i - 2];
          assert (i - 2) / 2 == i / 2 - 1;
          assert x1[(i - 2) / 2] == x[i / 2];
        }
      }
    }
  }

  lemma ExtractionIsHalf(x: Block)
    ensures OddBitExtraction(x) == OddHalf(x)
    ensures EvenBitExtraction(x) == EvenHalf(x)
  {
    ExtractAlternating(Low(x), ODD_MASK, 0);
    ExtractAlternating(High(x), ODD_MASK, 0);
    ExtractAlternating(Low(x), EVEN_MASK, 1);
    ExtractAlternating(High(x), EVEN_MASK, 1);
    forall i | 0 <= i < 64
      ensures OddBitExtraction(x)[i] == OddHalf(x)[i] && EvenBitExtraction(x)[i] == EvenHalf(x)[i]
    {
      if i >= 32 {
        assert High(x)[2 * (i - 32)] == x.bits[2 * i] && High(x)[2 * (i - 32) + 1] == x.bits[2 * i + 1];
      }
    }
  }

  lemma InterleaveBits(a: U64, b: U64)
    ensures forall i :: 0 <= i < 64 ==> Interleave(a, b).bits[2 * i] == a[i] && Interleave(a, b).bits[2 * i + 1] == b[i]
  {
    DepositAlternating(a, ODD_MASK, 0);
    DepositAlternating(b, EVEN_MASK, 1);
    DepositAlternating(Shr32(a), ODD_MASK, 0);
    DepositAlternating(Shr32(b), EVEN_MASK, 1);
  }

  // Packing and unpacking are mutual inverses.
  lemma UnpackBlock(a: U64, b: U64)
    ensures OddBitExtraction(Interleave(a, b)) == a
    ensures EvenBitExtraction(Interleave(a, b)) == b
  {
    ExtractionIsHalf(Interleave(a, b));
    InterleaveBits(a, b);
  }

  lemma PackUnpack(x: Block)
    ensures Interleave(OddBitExtraction(x), EvenBitExtraction(x)) == x
  {
    ExtractionIsHalf(x);
    InterleaveBits(OddHalf(x), EvenHalf(x));
    var y := Interleave(OddHalf(x), EvenHalf(x));
    forall j | 0 <= j < 128
      ensures y.bits[j] == x.bits[j]
    {
      var i := j / 2;
      assert y.bits[2 * i] == x.bits[2 * i] && y.bits[2 * i + 1] == x.bits[2 * i + 1];
    }
  }

  // ---------- carry-less products as polynomial products ----------

  ghost predicate ZeroFrom(w: Word, m: nat) {
    forall i :: m <= i < |w| ==> !w[i]
  }

  lemma {:induction false} CarryLessDegree(a: Word, b: Word, n: nat, da: nat, db: nat)
    requires |b| <= n
    requires da >= 1 && db >= 1 && ZeroFrom(a, da) && ZeroFrom(b, db)
    ensures ZeroFrom(CarryLess(a, b, n), da + db - 1)
  {
    if |a| == 0 {
    } else if da == 1 {
      assert ZeroFrom(a[1..], 1);
      CarryLessOfZeros(a[1..], b, n);
    } else {
      assert ZeroFrom(a[1..], da - 1);
      CarryLessDegree(a[1..], b, n, da - 1, db);
    }
  }

  lemma {:induction false} CarryLessOfZeros(a: Word, b: Word, n: nat)
    requires |b| <= n && ZeroFrom(a, 0)
    ensures ZeroFrom(CarryLess(a, b, n), 0)
  {
    if |a| == 0 {
    } else {
      CarryLessOfZeros(a[1..], b, n);
    }
  }

  lemma {:induction false} EvalPadded(p: Word, n: nat, w: Block)
    ensures Eval(p + Zeros(n), w) == Eval(p, w)
  {
    EvalSplit(p, Zeros(n), w);
    EvalOfZeros(n, w);
    XPowZero(|p|);
    XorZero(Eval(p, w));
  }

  lemma {:induction false} XPowZero(n: nat)
    ensures XPow(n, ZERO) == ZERO
  {
    hide XMul, AMul;
    if n == 0 {
    } else {
      XPowZero(n - 1);
      ZeroImages();
    }
  }

  lemma EvalShiftUp(p: Word, w: Block)
    requires |p| > 0 && !p[|p| - 1]
    ensures Eval(ShiftUp(p), w) == XMul(Eval(p, w))
  {
    var q := p[..|p| - 1];
    assert p == q + Zeros(1);
    EvalPadded(q, 1, w);
    assert ShiftUp(p)[1..] == q;
    XorZero(XMul(Eval(q, w)));
  }

  lemma TopBitClear(a: Word, b: Word, n: nat)
    requires 1 <= |b| && |a| + |b| < n
    ensures !CarryLess(a, b, n)[n - 1]
  {
    if |a| > 0 {
      CarryLessDegree(a, b, n, |a|, |b|);
    }
  }

  lemma EvalMasked(head: Word, b: Word, n: nat, t: bool, w: Block)
    requires head == MaskW(b + Zeros(n), t)
    ensures Eval(head, w) == Mask(Eval(b, w), t)
  {
    hide Xor, XMul, AMul, Eval;
    if t {
      EvalPadded(b, n, w);
    } else {
      assert head == Zeros(|b| + n);
      EvalOfZeros(|b| + n, w);
    }
  }

  lemma EvalStep(a: Word, b: Word, n: nat, w: Block, e: Block)
    requires |a| > 0 && |b| <= n
    requires Eval(ShiftUp(CarryLess(a[1..], b, n)), w) == XMul(Eval(a[1..], e))
    requires e == Eval(b, w)
    ensures Eval(CarryLess(a, b, n), w) == Eval(a, e)
  {
    var head, shifted := MaskW(b + Zeros(n - |b|), a[0]), ShiftUp(CarryLess(a[1..], b, n));
    EvalMasked(head, b, n - |b|, a[0], w);
    EvalAdd(head, shifted, w);
  }

  // The product polynomial acts as the composition of its factors.
  lemma {:induction false} EvalCarryLess(a: Word, b: Word, n: nat, w: Block)
    requires 1 <= |b| && |a| + |b| <= n
    ensures Eval(CarryLess(a, b, n), w) == Eval(a, Eval(b, w))
  {
    if |a| == 0 {
      EvalOfZeros(n, w);
    } else {
      EvalCarryLess(a[1..], b, n, w);
      TopBitClear(a[1..], b, n);
      EvalShiftUp(CarryLess(a[1..], b, n), w);
      EvalStep(a, b, n, w, Eval(b, w));
    }
  }

  // ---------- folding ----------

  // The ring element named by an unreduced pair of coefficient words.
  function Element(odd: Word, even: Word): Block {
    Xor(Eval(odd, ONE), AMul(Eval(even, ONE)))
  }

  lemma ValueAdd(a: Word, b: Word, c: Word, d: Word)
    requires |a| == |c| && |b| == |d|
    ensures Element(XorW(a, c), XorW(b, d)) == Xor(Element(a, b), Element(c, d))
  {
    EvalAdd(a, c, ONE);
    EvalAdd(b, d, ONE);
    AMulLinear(Eval(b, ONE), Eval(d, ONE));
    XorSwap(Eval(a, ONE), Eval(c, ONE), AMul(Eval(b, ONE)), AMul(Eval(d, ONE)));
  }

  lemma EvalConstants(w: Block)
    ensures Eval(H1, w) == w
    ensures Eval(H2, w) == Xor(XPow(1, w), XPow(3, w))
  {
    assert H1 == [true] + Zeros(63);
    EvalPadded([true], 63, w);
    assert Eval([], w) == ZERO;
    ZeroImages();
    XorZero(w);
    assert Eval([true], w) == w by { assert [true][1..] == []; }
    var h := [false, true, false, true];
    assert H2 == h + Zeros(60);
    EvalPadded(h, 60, w);
    assert h[1..] == [true, false, true] && h[1..][1..] == [false, true] && [false, true][1..] == [true];
    assert Eval([false, true], w) == XMul(w) by { XorZero(XMul(w)); }
    assert Eval(h[1..], w) == Xor(w, XMul(XMul(w)));
    XorZero(XMul(Xor(w, XMul(XMul(w)))));
    XMulLinear(w, XMul(XMul(w)));
    assert XPow(1, w) == XMul(w) && XPow(3, w) == XMul(XMul(XMul(w))) by {
      assert XPow(2, w) == XMul(XPow(1, w));
    }
  }

  // One folding pass: the pair produced from the high halves names x^64 times them.
  lemma FoldHigh(f: U64, g: U64)
    ensures Element(FoldOdd(f, g).bits, FoldEven(f, g).bits) == XPow(64, Element(f, g))
  {
    var t1, t2, t3, t4 := Clmul(f, H1), Clmul(f, H2), Clmul(g, H1), Clmul(g, H2);
    var u, v := Eval(f, ONE), Eval(g, ONE);
    EvalConstants(ONE);
    var s := Xor(XPow(1, ONE), XPow(3, ONE));
    EvalCarryLess(f, H1, 128, ONE);
    EvalCarryLess(f, H2, 128, ONE);
    EvalCarryLess(g, H1, 128, ONE);
    EvalCarryLess(g, H2, 128, ONE);
    var us, vs := Eval(f, s), Eval(g, s);
    EvalAdd(t1.bits, t4.bits, ONE);
    EvalAdd(XorW(t2.bits, t3.bits), t4.bits, ONE);
    EvalAdd(t2.bits, t3.bits, ONE);
    ModulusEval(f);
    ModulusEval(g);
    EvalShifts(f);
    EvalShifts(g);
    XPowLinear(64, u, AMul(v));
    XPowAMul(64, v);
    FoldAlgebra(u, us, v, vs);
    assert Element(FoldOdd(f, g).bits, FoldEven(f, g).bits) == Xor(Xor(u, vs), AMul(Xor(Xor(us, v), vs)));
    assert XPow(64, Element(f, g)) == Xor(Xor(u, AMul(us)), AMul(Xor(v, AMul(vs))));
  }

  lemma FoldAlgebra(u: Block, us: Block, v: Block, vs: Block)
    ensures Xor(Xor(u, vs), AMul(Xor(Xor(us, v), vs))) == Xor(Xor(u, AMul(us)), AMul(Xor(v, AMul(vs))))
  {
    AMulLinear(v, AMul(vs));
    AMulSquared(vs);
    AMulLinear(Xor(us, v), vs);
    AMulLinear(us, v);
    assert Xor(Xor(u, vs), AMul(Xor(Xor(us, v), vs))).bits == Xor(Xor(u, AMul(us)), AMul(Xor(v, AMul(vs)))).bits;
  }

  lemma EvalShifts(p: Word)
    ensures Eval(p, Xor(XPow(1, ONE), XPow(3, ONE))) == Xor(XPow(1, Eval(p, ONE)), XPow(3, Eval(p, ONE)))
  {
    EvalLinear(p, XPow(1, ONE), XPow(3, ONE));
    XPowEval(1, p, ONE);
    XPowEval(3, p, ONE);
  }

  lemma ValueSplit(odd: Block, even: Block)
    ensures Element(odd.bits, even.bits) == Xor(Element(Low(odd), Low(even)), XPow(64, Element(High(odd), High(even))))
  {
    assert odd.bits == Low(odd) + High(odd) && even.bits == Low(even) + High(even);
    EvalSplit(Low(odd), High(odd), ONE);
    EvalSplit(Low(even), High(even), ONE);
    var u, v := Eval(High(odd), ONE), Eval(High(even), ONE);
    XPowLinear(64, u, AMul(v));
    XPowAMul(64, v);
    var lu, lv := Eval(Low(odd), ONE), Eval(Low(even), ONE);
    AMulLinear(lv, XPow(64, v));
    XorSwap(lu, XPow(64, u), AMul(lv), AMul(XPow(64, v)));
  }

  lemma ValueOfShort(odd: Block, even: Block)
    requires ZeroFrom(odd.bits, 64) && ZeroFrom(even.bits, 64)
    ensures Element(odd.bits, even.bits) == Element(Low(odd), Low(even))
  {
    assert odd.bits == Low(odd) + Zeros(64);
    assert even.bits == Low(even) + Zeros(64);
    EvalPadded(Low(odd), 64, ONE);
    EvalPadded(Low(even), 64, ONE);
  }

  lemma ValueOfPacked(a: U64, b: U64)
    ensures Interleave(a, b) == Element(a, b)
  {
    UnpackBlock(a, b);
    ExtractionIsHalf(Interleave(a, b));
    Reconstruct(Interleave(a, b));
  }

  // Folding raises the degree of the high halves by at most three ...
  lemma FoldDegree(f: U64, g: U64, d: nat)
    requires d >= 1 && ZeroFrom(f, d) && ZeroFrom(g, d)
    ensures ZeroFrom(FoldOdd(f, g).bits, d + 3) && ZeroFrom(FoldEven(f, g).bits, d + 3)
  {
    assert ZeroFrom(H1, 4) && ZeroFrom(H2, 4);
    CarryLessDegree(f, H1, 128, d, 4);
    CarryLessDegree(f, H2, 128, d, 4);
    CarryLessDegree(g, H1, 128, d, 4);
    CarryLessDegree(g, H2, 128, d, 4);
  }

  // ... so a second pass always finishes: the reduction of any pair of 128-bit words is
  // the ring element they name.
  lemma ReduceIsExact(odd: Block, even: Block)
    ensures F4Reduce(odd, even) == Element(odd.bits, even.bits)
  {
    var f, g := High(odd), High(even);
    var ro, re := FoldOdd(f, g), FoldEven(f, g);
    var ff, gg := High(ro), High(re);
    var fo, fe := FoldOdd(ff, gg), FoldEven(ff, gg);
    FoldDegree(f, g, 64);
    assert ZeroFrom(ff, 3) && ZeroFrom(gg, 3);
    FoldDegree(ff, gg, 3);
    ValueOfShort(fo, fe);
    ValueSplit(odd, even);
    FoldHigh(f, g);
    ValueSplit(ro, re);
    FoldHigh(ff, gg);
    CombineLow(odd, even, fo, fe, ro, re);
    var a, b, c := Element(Low(odd), Low(even)), Element(Low(fo), Low(fe)), Element(Low(ro), Low(re));
    XorAssoc(a, b, c);
    XorComm(b, c);
  }

  lemma CombineLow(odd: Block, even: Block, fo: Block, fe: Block, ro: Block, re: Block)
    ensures Interleave(Low(Xor(Xor(odd, fo), ro)), Low(Xor(Xor(even, fe), re)))
         == Xor(Xor(Element(Low(odd), Low(even)), Element(Low(fo), Low(fe))), Element(Low(ro), Low(re)))
  {
    var o, e, fo0, fe0, ro0, re0 := Low(odd), Low(even), Low(fo), Low(fe), Low(ro), Low(re);
    assert Low(Xor(Xor(odd, fo), ro)) == XorW(XorW(o, fo0), ro0);
    assert Low(Xor(Xor(even, fe), re)) == XorW(XorW(e, fe0), re0);
    ValueAdd(o, e, fo0, fe0);
    ValueAdd(XorW(o, fo0), XorW(e, fe0), ro0, re0);
    ValueOfPacked(XorW(XorW(o, fo0), ro0), XorW(XorW(e, fe0), re0));
  }

  // The code's product is the ring product.
  lemma F4MulIsRingMul(x: Block, y: Block)
    ensures F4Mul(x, y) == RingMul(x, y)
  {
    ExtractionIsHalf(x);
    ExtractionIsHalf(y);
    var xo, xe, yo, ye := OddHalf(x), EvenHalf(x), OddHalf(y), EvenHalf(y);
    var t1, t2, t3, t4 := Clmul(xo, yo), Clmul(xo, ye), Clmul(xe, yo), Clmul(xe, ye);
    ReduceIsExact(ProdOdd(xo, xe, yo, ye), ProdEven(xo, xe, yo, ye));
    EvalAdd(t1.bits, t4.bits, ONE);
    EvalAdd(XorW(t2.bits, t3.bits), t4.bits, ONE);
    EvalAdd(t2.bits, t3.bits, ONE);
    EvalCarryLess(xo, yo, 128, ONE);
    EvalCarryLess(xo, ye, 128, ONE);
    EvalCarryLess(xe, yo, 128, ONE);
    EvalCarryLess(xe, ye, 128, ONE);
    var a, b, c, d := Eval(t1.bits, ONE), Eval(t2.bits, ONE), Eval(t3.bits, ONE), Eval(t4.bits, ONE);
    MulOne(y);
    MulExpand(x, y, ONE);
    ProductAlgebra(a, b, c, d);
  }

  lemma ProductAlgebra(a: Block, b: Block, c: Block, d: Block)
    ensures Xor(Xor(a, d), AMul(Xor(Xor(b, c), d))) == Xor(Xor(a, AMul(b)), Xor(AMul(c), AMul(AMul(d))))
  {
    AMulSquared(d);
    AMulLinear(Xor(b, c), d);
    AMulLinear(b, c);
    assert Xor(Xor(a, d), AMul(Xor(Xor(b, c), d))).bits == Xor(Xor(a, AMul(b)), Xor(AMul(c), AMul(AMul(d)))).bits;
  }

  // The ring laws for the code's product; AMul multiplies every coefficient by a, XMul by x.
  lemma F4MulLaws(x: Block, y: Block, z: Block)
    ensures F4Mul(x, y) == F4Mul(y, x)
    ensures F4Mul(F4Mul(x, y), z) == F4Mul(x, F4Mul(y, z))
    ensures F4Mul(x, Xor(y, z)) == Xor(F4Mul(x, y), F4Mul(x, z))
    ensures F4Mul(AMul(x), y) == AMul(F4Mul(x, y)) == F4Mul(x, AMul(y))
    ensures F4Mul(XMul(x), y) == XMul(F4Mul(x, y))
    ensures F4Mul(x, ONE) == x && F4Mul(x, ZERO) == ZERO
  {
    hide *;
    F4MulIsRingMul(x, y);
    F4MulIsRingMul(y, x);
    F4MulIsRingMul(RingMul(x, y), z);
    F4MulIsRingMul(y, z);
    F4MulIsRingMul(x, RingMul(y, z));
    F4MulIsRingMul(x, Xor(y, z));
    F4MulIsRingMul(x, z);
    F4MulIsRingMul(AMul(x), y);
    F4MulIsRingMul(x, AMul(y));
    F4MulIsRingMul(XMul(x), y);
    F4MulIsRingMul(x, ONE);
    F4MulIsRingMul(x, ZERO);
    MulCommutes(x, y);
    MulAssociates(x, y, z);
    MulDistributesRight(x, y, z);
    MulScalar(x, y);
    MulOne(x);
    MulZero(x);
  }
}

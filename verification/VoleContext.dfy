/**
 Which products the compression of silent VOLE keeps: a correlation survives foleageFft on all
 vectors exactly when the product with delta is F4-linear on the lanes.
 */
module VoleContext {
  import opened Blocks
  import opened F4Ring
  import opened TritTree
  import opened Radix3
  import opened F4Transform
  import opened TransformLaws
  import opened LinearMaps
  import opened VectorTransform
  import opened Vole

  // x at index p and nothing else.
  function UnitVector(size: nat, p: nat, x: Block): (v: seq<Block>)
    requires p < size
    ensures |v| == size
  {
    ZeroVector(size)[p := x]
  }

  function ZeroVector(size: nat): (v: seq<Block>)
    ensures |v| == size
  {
    seq(size, _ => ZERO)
  }

  lemma {:induction false} ConstantLeaves(n: nat)
    ensures Leaves(Constant(n, ZERO)) == ZeroVector(Pow3(n))
  {
    if n > 0 {
      ConstantLeaves(n - 1);
    }
  }

  lemma {:induction false} OriginLeaves(n: nat, x: Block)
    ensures Leaves(AtOrigin(n, x)) == UnitVector(Pow3(n), 0, x)
  {
    if n > 0 {
      OriginLeaves(n - 1, x);
      ConstantLeaves(n - 1);
    }
  }

  lemma MiddleLeaves(n: nat, x: Block)
    requires n > 0
    ensures Leaves(AtMiddle(n, x)) == UnitVector(Pow3(n), Pow3(n - 1), x)
  {
    OriginLeaves(n - 1, x);
    ConstantLeaves(n - 1);
  }

  lemma UnitsCorrelated(size: nat, p: nat, x: Block, times: Block -> Block)
    requires p < size && times(ZERO) == ZERO
    ensures Correlated(UnitVector(size, p, times(x)), ZeroVector(size), UnitVector(size, p, x), times)
  {
    hide Xor;
    XorZero(ZERO);
    XorZero(times(x));
    XorComm(ZERO, times(x));
  }

  lemma {:induction false} ZipZero(n: nat, u: Tri<Block>)
    requires Perfect(n, u)
    ensures Zip(Xor, Constant(n, ZERO), u) == u
    decreases n
  {
    hide Xor;
    if n == 0 {
      XorZero(u.value);
      XorComm(ZERO, u.value);
    } else {
      ZipZero(n - 1, u.l);
      ZipZero(n - 1, u.m);
      ZipZero(n - 1, u.r);
    }
  }

  // One entry is enough to show that the product does not commute with a.
  lemma UnitSeparates(k: nat, x: Block, times: Block -> Block)
    requires k > 0 && times(ZERO) == ZERO && times(AMul(x)) != AMul(times(x))
    ensures var size, p := Pow3(k), Pow3(k - 1);
            !Correlated(Spectrum(k, UnitVector(size, p, times(x))), Spectrum(k, ZeroVector(size)), Spectrum(k, UnitVector(size, p, x)),
                        times)
  {
    hide Correlated, Transform, Leaves, Tree, Xor, AMul, Zip, Map, Constant, AtMiddle, Forward;
    var ta, tb, tc := AtMiddle(k, times(x)), Constant(k, ZERO), AtMiddle(k, x);
    MiddleLeaves(k, times(x));
    ConstantLeaves(k);
    MiddleLeaves(k, x);
    SpectrumOfLeaves(k, ta);
    SpectrumOfLeaves(k, tb);
    SpectrumOfLeaves(k, tc);
    var fa, fb, fc := Transform(Forward, ta), Transform(Forward, tb), Transform(Forward, tc);
    if Correlated(Leaves(fa), Leaves(fb), Leaves(fc), times) {
      PerfectTransform(k, Forward, ta);
      PerfectTransform(k, Forward, tb);
      PerfectTransform(k, Forward, tc);
      TreesCorrelate(k, fa, fb, fc, times);
      TransformZero(k);
      PerfectMap(k, times, fc);
      ZipZero(k, Map(times, fc));
      TransformSeparates(k, times, x);
    }
  }
  lemma SpectrumOfLeaves(n: nat, t: Tri<Block>)
    requires Perfect(n, t)
    ensures |Leaves(t)| == Pow3(n) && Spectrum(n, Leaves(t)) == Leaves(Transform(Forward, t))
  {
    hide Transform, Forward;
    TreeOfLeaves(n, t);
  }

  // The correlation of all vectors survives exactly with the F4-linear products.
  lemma SpectraKeepIff(k: nat, times: Block -> Block)
    requires k > 0 && KeepsSums(times)
    ensures (forall a: seq<Block>, b: seq<Block>, c: seq<Block> {:trigger Survives(k, a, b, c, times)} :: Survives(k, a, b, c, times))
         <==> LaneLinear(times)
  {
    hide Survives, UnitVector, ZeroVector, Pow3;
    if LaneLinear(times) {
      forall a: seq<Block>, b: seq<Block>, c: seq<Block> {:trigger Survives(k, a, b, c, times)}
        ensures Survives(k, a, b, c, times)
      {
        LinearSurvives(k, a, b, c, times);
      }
    } else {
      var x: Block :| times(AMul(x)) != AMul(times(x));
      UnitFails(k, x, times);
    }
  }

  // A correlation of vectors of 3^k entries is one of their transforms as well.
  ghost predicate Survives(k: nat, a: seq<Block>, b: seq<Block>, c: seq<Block>, times: Block -> Block) {
    |a| == Pow3(k) && Correlated(a, b, c, times) ==> Correlated(Spectrum(k, a), Spectrum(k, b), Spectrum(k, c), times)
  }

  lemma LinearSurvives(k: nat, a: seq<Block>, b: seq<Block>, c: seq<Block>, times: Block -> Block)
    requires LaneLinear(times)
    ensures Survives(k, a, b, c, times)
  {
    hide Spectrum, Pow3, LaneLinear, Xor;
    if |a| == Pow3(k) && Correlated(a, b, c, times) {
      SpectraCorrelate(k, a, b, c, times);
    }
  }

  lemma UnitFails(k: nat, x: Block, times: Block -> Block)
    requires k > 0 && KeepsSums(times) && times(AMul(x)) != AMul(times(x))
    ensures Pow3(k - 1) < Pow3(k)
    ensures !Survives(k, UnitVector(Pow3(k), Pow3(k - 1), times(x)), ZeroVector(Pow3(k)), UnitVector(Pow3(k), Pow3(k - 1), x), times)
  {
    hide Spectrum, Correlated, UnitVector, ZeroVector, AMul;
    ZeroKept(times);
    UnitSeparates(k, x, times);
    UnitsCorrelated(Pow3(k), Pow3(k - 1), x, times);
  }

  // ---------- two contexts ----------

  // The product of CoeffCtxGF128_F4 with any delta.
  lemma F4ContextKeeps(k: nat, a: seq<Block>, b: seq<Block>, c: seq<Block>, delta: Block)
    ensures Survives(k, a, b, c, F4Times(delta))
  {
    hide Survives, F4Times;
    F4TimesLinear(delta);
    LinearSurvives(k, a, b, c, F4Times(delta));
  }

  // The product with X in GF(2)[X] / (X^128 + X^7 + X^2 + X + 1).
  function TimesX(x: Block): Block {
    Block(seq(128, i requires 0 <= i < 128 => (i > 0 && x.bits[i - 1]) != (x.bits[127] && (i == 0 || i == 1 || i == 2 || i == 7))))
  }

  function Bit(j: nat): Block {
    Block(seq(128, i => i == j))
  }

  // It takes 1 to X and X, which is a times 1 on the lanes, to X^2; but a times X is 1 + X.
  lemma FieldContextFails()
    ensures KeepsSums(TimesX) && TimesX(AMul(Bit(0))) != AMul(TimesX(Bit(0))) && !LaneLinear(TimesX)
  {
    forall x, y
      ensures TimesX(Xor(x, y)) == Xor(TimesX(x), TimesX(y))
    {
      assert TimesX(Xor(x, y)).bits == Xor(TimesX(x), TimesX(y)).bits;
    }
    assert AMul(Bit(0)).bits[1] && TimesX(Bit(0)).bits[1];
    assert !TimesX(AMul(Bit(0))).bits[0] && AMul(TimesX(Bit(0))).bits[0];
    assert TimesX(AMul(Bit(0))) != AMul(TimesX(Bit(0)));
  }
}

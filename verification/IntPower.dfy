/**
 Integer powers by repeated squaring: ipow (FoleageUtils.h lines 343 to 363).
 */
module IntPower {
  import opened Radix3

  function Pow(x: nat, e: nat): nat {
    if e == 0 then 1 else x * Pow(x, e - 1)
  }

  lemma {:induction false} PowSum(x: nat, d: nat, e: nat)
    ensures Pow(x, d + e) == Pow(x, d) * Pow(x, e)
  {
    if d > 0 {
      PowSum(x, d - 1, e);
      assert x * Pow(x, d - 1) * Pow(x, e) == x * (Pow(x, d - 1) * Pow(x, e));
    }
  }

  lemma {:induction false} PowOfSquare(x: nat, e: nat)
    ensures Pow(x * x, e) == Pow(x, 2 * e)
  {
    if e > 0 {
      PowOfSquare(x, e - 1);
      assert Pow(x, 2 * e) == x * (x * Pow(x, 2 * e - 2));
      assert x * (x * Pow(x, 2 * e - 2)) == (x * x) * Pow(x, 2 * e - 2);
    }
  }

  // One step of square and multiply.
  lemma SquareStep(x: nat, e: nat)
    requires e > 0
    ensures e % 2 == 0 ==> Pow(x, e) == Pow(x * x, e / 2)
    ensures e % 2 == 1 ==> Pow(x, e) == x * Pow(x * x, e / 2)
  {
    PowOfSquare(x, e / 2);
  }

  lemma {:induction false} PowersOfThree(e: nat)
    ensures Pow(3, e) == Pow3(e)
  {
    if e > 0 {
      PowersOfThree(e - 1);
    }
  }

  method Ipow(base: nat, exp: nat) returns (result: nat)
    ensures result == Pow(base, exp)
  {
    if exp == 1 {
      return base;
    }
    if exp == 0 {
      return 1;
    }
    result := 1;
    var x: nat, e: nat := base, exp;
    OneTimes(Pow(x, e));
    while true
      invariant e > 0 && result * Pow(x, e) == Pow(base, exp)
      decreases e
    {
      hide Pow;
      Absorb(result, x, e);
      if e % 2 == 1 {
        result := result * x;
      }
      e := e / 2;
      if e == 0 {
        PowZero(x * x);
        break;
      }
      x := x * x;
    }
  }

  lemma OneTimes(p: nat)
    ensures 1 * p == p
  {
  }

  lemma PowZero(x: nat)
    ensures Pow(x, 0) == 1
  {
  }

  // The invariant of square and multiply.
  lemma Absorb(r: nat, x: nat, e: nat)
    requires e > 0
    ensures r * Pow(x, e) == (if e % 2 == 1 then r * x else r) * Pow(x * x, e / 2)
  {
    SquareStep(x, e);
    if e % 2 == 1 {
      var p := Pow(x * x, e / 2);
      assert r * (x * p) == (r * x) * p;
    }
  }
}

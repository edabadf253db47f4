/**
 Residues modulo composite numbers: coprime numbers, remainders for coprime moduli, prime
 powers, and powers that are 1.
 */
module Residues {
  import opened IntPower
  import opened Fermat

  // ---------- congruences ----------

  lemma DividesThrough(x: int, n: nat, d: nat)
    requires n > 0 && d > 0 && x % n == 0 && n % d == 0
    ensures x % d == 0
  {
    var q, k := x / n, n / d;
    assert x == q * n && n == k * d;
    assert q * (k * d) == (q * k) * d;
    RemainderUnique(x, q * k, 0, d);
  }

  lemma Narrow(x: int, y: int, n: nat, d: nat)
    requires n > 0 && d > 0 && n % d == 0 && x % n == y % n
    ensures x % d == y % d
  {
    EqualRemainders(x, y, n);
    DividesThrough(x - y, n, d);
    EqualRemainders(x, y, d);
  }

  lemma ProductCong(x: int, x': int, y: int, y': int, n: nat)
    requires n > 0 && x % n == x' % n && y % n == y' % n
    ensures (x * y) % n == (x' * y') % n
  {
    ProductRemainder(x, y, n);
    ProductRemainder(x', y, n);
    ProductRemainder(x', y', n);
  }

  lemma PowerCong(x: nat, y: nat, e: nat, n: nat)
    requires n > 0 && x % n == y % n
    ensures Pow(x, e) % n == Pow(y, e) % n
  {
    PowRemainder(x, e, n);
    PowRemainder(y, e, n);
  }

  lemma {:induction false} OnePower(e: nat)
    ensures Pow(1, e) == 1
  {
    if e > 0 {
      OnePower(e - 1);
    }
  }

  lemma OnesPower(x: nat, e: nat, n: nat)
    requires n > 1 && x % n == 1
    ensures Pow(x, e) % n == 1
  {
    RemainderUnique(1, 0, 1, n);
    PowerCong(x, 1, e, n);
    OnePower(e);
  }

  lemma {:induction false} PowProduct(x: nat, d: nat, e: nat)
    ensures Pow(x, d * e) == Pow(Pow(x, d), e)
  {
    if e > 0 {
      PowProduct(x, d, e - 1);
      assert d * e == d + d * (e - 1);
      PowSum(x, d, d * (e - 1));
    } else {
      PowZero(x);
      PowZero(Pow(x, d));
    }
  }

  lemma {:induction false} PositivePower(x: nat, e: nat)
    requires x > 0
    ensures Pow(x, e) > 0 && (e > 0 ==> Pow(x, e) >= x)
  {
    if e > 0 {
      PositivePower(x, e - 1);
      Magnitude(Pow(x, e - 1), x);
      assert x * Pow(x, e - 1) == Pow(x, e - 1) * x;
    }
  }

  // A power that is 1 stays 1 at multiples of the exponent.
  lemma OnesMultiple(x: nat, d: nat, e: nat, n: nat)
    requires n > 1 && Pow(x, d) % n == 1
    ensures Pow(x, d * e) % n == 1
  {
    PowProduct(x, d, e);
    OnesPower(Pow(x, d), e, n);
  }

  // ---------- coprime numbers ----------

  lemma {:induction false} PrimeDivisor(x: nat) returns (p: nat)
    requires x > 1
    ensures Prime(p) && x % p == 0
  {
    if Prime(x) {
      RemainderUnique(x, 1, 0, x);
      p := x;
    } else {
      var a :| 1 < a < x && x % a == 0;
      p := PrimeDivisor(a);
      hide Prime;
      DividesThrough(x, a, p);
    }
  }

  ghost predicate Coprime(x: nat, y: nat) {
    forall q {:trigger Prime(q)} :: Prime(q) ==> !(x % q == 0 && y % q == 0)
  }

  // A common divisor of y and x % y divides x.
  lemma CommonDivisor(x: nat, y: nat, q: nat)
    requires q > 0 && y > 0 && y % q == 0 && x % y % q == 0
    ensures x % q == 0
  {
    var k := x / y;
    assert x == k * y + x % y;
    MultipleTimes(y, k, q);
    SumRemainder(k * y, x % y, q);
  }

  lemma {:induction false} Bezout(x: nat, y: nat) returns (u: int, v: int)
    requires Coprime(x, y)
    ensures u * x + v * y == 1
    decreases y
  {
    if y == 0 {
      assert Prime(2);
      if x > 1 {
        var p := PrimeDivisor(x);
        assert false;
      }
      u, v := 1, 0;
    } else {
      forall q {:trigger Prime(q)} | Prime(q)
        ensures !(y % q == 0 && x % y % q == 0)
      {
        if y % q == 0 && x % y % q == 0 {
          CommonDivisor(x, y, q);
        }
      }
      var a, b := Bezout(y, x % y);
      u, v := b, a - b * (x / y);
      hide *;
      Back(x, y, a, b, x / y, x % y);
    }
  }

  lemma Back(x: int, y: int, a: int, b: int, q: int, r: int)
    requires x == q * y + r && a * y + b * r == 1
    ensures b * x + (a - b * q) * y == 1
  {
    assert b * (q * y + r) == (b * q) * y + b * r;
    assert (a - b * q) * y == a * y - (b * q) * y;
  }

  // n divides x when it divides x * y and is coprime to y.
  lemma Gauss(n: nat, x: int, y: nat)
    requires n > 0 && Coprime(n, y) && (x * y) % n == 0
    ensures x % n == 0
  {
    var u, v := Bezout(n, y);
    hide *;
    var k := x * y / n;
    assert x * y == k * n;
    GaussSum(n, x, y, u, v, k);
    RemainderUnique(x, x * u + v * k, 0, n);
  }

  lemma GaussSum(n: int, x: int, y: int, u: int, v: int, k: int)
    requires u * n + v * y == 1 && x * y == k * n
    ensures x == (x * u + v * k) * n
  {
    assert x == x * (u * n + v * y) == (x * u) * n + v * (x * y);
    assert v * (k * n) == (v * k) * n;
    assert (x * u + v * k) * n == (x * u) * n + (v * k) * n;
  }

  lemma CoprimeSwap(m: nat, n: nat)
    requires Coprime(m, n)
    ensures Coprime(n, m)
  {
  }

  // ---------- remainders for coprime moduli ----------

  lemma Combine(m: nat, n: nat, x: nat, y: nat) returns (z: nat)
    requires m > 0 && n > 0 && Coprime(m, n)
    ensures z % m == x % m && z % n == y % n && z < m * n
  {
    var u, v := Bezout(m, n);
    hide *;
    var w := x * (v * n) + y * (u * m);
    assert m * n > 0;
    assert w == x + ((y - x) * u) * m && w == y + ((x - y) * v) * n by {
      CombineSum(x, y, u * m, v * n);
      assert (y - x) * (u * m) == ((y - x) * u) * m && (x - y) * (v * n) == ((x - y) * v) * n;
    }
    AddMultiple(x, (y - x) * u, m);
    AddMultiple(y, (x - y) * v, n);
    z := w % (m * n);
    RemainderUnique(z, 0, z, m * n);
    RemainderUnique(m * n, n, 0, m);
    RemainderUnique(m * n, m, 0, n);
    Narrow(z, w, m * n, m);
    Narrow(z, w, m * n, n);
  }

  lemma CombineSum(x: int, y: int, a: int, b: int)
    requires a + b == 1
    ensures x * b + y * a == x + (y - x) * a == y + (x - y) * b
  {
    assert b == 1 - a;
  }

  lemma SameForBoth(m: nat, n: nat, x: int, y: int)
    requires m > 0 && n > 0 && Coprime(m, n) && x % m == y % m && x % n == y % n
    ensures m * n > 0 && x % (m * n) == y % (m * n)
  {
    EqualRemainders(x, y, m);
    EqualRemainders(x, y, n);
    var k := (x - y) / m;
    assert x - y == k * m;
    CoprimeSwap(m, n);
    Gauss(n, k, m);
    hide *;
    var j := k / n;
    assert k == j * n;
    assert (j * n) * m == j * (m * n);
    assert m * n > 0;
    RemainderUnique(x - y, j, 0, m * n);
    EqualRemainders(x, y, m * n);
  }

  // ---------- prime powers ----------

  // The largest power of p in n.
  lemma {:induction false} SplitPower(n: nat, p: nat) returns (e: nat, m: nat)
    requires n > 0 && Prime(p)
    ensures m > 0 && n == Pow(p, e) * m && m % p != 0 && (n % p == 0 ==> e > 0 && m < n)
  {
    if n % p == 0 {
      var k := n / p;
      assert n == k * p;
      Magnitude(k, p);
      Smaller(k, p);
      e, m := SplitPower(k, p);
      PowNext(p, e);
      PositivePower(p, e);
      hide *;
      SplitStep(n, p, k, Pow(p, e), m);
      e := e + 1;
    } else {
      PowZero(p);
      e, m := 0, n;
    }
  }

  lemma PowNext(x: nat, e: nat)
    ensures Pow(x, e + 1) == x * Pow(x, e)
  {
  }

  lemma Smaller(k: nat, p: nat)
    requires k * p > 0 && p > 1
    ensures 0 < k < k * p
  {
    assert k * p == k + k * (p - 1);
  }

  lemma SplitStep(n: nat, p: nat, k: nat, w: nat, m: nat)
    requires n == k * p && k == w * m && w > 0 && m > 0 && p > 1
    ensures n == (p * w) * m && m < n
  {
    assert (w * m) * p == (p * w) * m;
    assert m <= w * m by {
      assert w * m == m + (w - 1) * m;
    }
    Smaller(k, p);
  }

  lemma {:induction false} PrimeOfPower(p: nat, e: nat, q: nat)
    requires Prime(p) && Prime(q) && Pow(p, e) % q == 0
    ensures q == p
  {
    if e == 0 {
      PowZero(p);
      RemainderUnique(1, 0, 1, q);
    } else {
      assert Pow(p, e) == p * Pow(p, e - 1);
      Euclid(q, p, Pow(p, e - 1));
      if p % q == 0 {
        if q > p {
          RemainderUnique(p, 0, p, q);
        }
      } else {
        PrimeOfPower(p, e - 1, q);
      }
    }
  }

  lemma PowerCoprime(p: nat, e: nat, m: nat)
    requires Prime(p) && m % p != 0
    ensures Coprime(Pow(p, e), m)
  {
    forall q {:trigger Prime(q)} | Prime(q)
      ensures !(Pow(p, e) % q == 0 && m % q == 0)
    {
      if Pow(p, e) % q == 0 {
        PrimeOfPower(p, e, q);
      }
    }
  }

  // ---------- differences of powers ----------

  // 1 + x + ... + x^(e - 1)
  function Geometric(x: nat, e: nat): nat {
    if e == 0 then 0 else 1 + x * Geometric(x, e - 1)
  }

  lemma {:induction false} GeometricSum(x: nat, e: nat)
    ensures (x - 1) * Geometric(x, e) == Pow(x, e) - 1
  {
    if e > 0 {
      GeometricSum(x, e - 1);
      GeometricStep(x, Geometric(x, e - 1), Pow(x, e - 1));
    }
  }

  lemma GeometricStep(x: int, g: int, w: int)
    requires (x - 1) * g == w - 1
    ensures (x - 1) * (1 + x * g) == x * w - 1
  {
    assert (x - 1) * (x * g) == x * ((x - 1) * g);
    assert (x - 1) * (1 + x * g) == x - 1 + (x - 1) * (x * g);
  }

  lemma {:induction false} GeometricRemainder(x: nat, e: nat, p: nat)
    requires p > 1 && x % p == 1
    ensures Geometric(x, e) % p == e % p
  {
    if e > 0 {
      GeometricRemainder(x, e - 1, p);
      var g := Geometric(x, e - 1);
      assert Geometric(x, e) == x * g + 1;
      hide *;
      ProductRemainder(x, g, p);
      SumRemainder(x * g, 1, p);
      SumRemainder(e - 1, 1, p);
    }
  }

  // When x is 1 modulo p, x^(p^k) is 1 modulo p^(k + 1).
  lemma {:induction false} LiftOnes(x: nat, p: nat, k: nat)
    requires p > 1 && x % p == 1
    ensures Pow(p, k + 1) > 1 && Pow(x, Pow(p, k)) % Pow(p, k + 1) == 1
  {
    PositivePower(p, k + 1);
    if k == 0 {
      PowZero(p);
      assert Pow(p, 1) == p * Pow(p, 0) == p;
      assert Pow(x, 1) == x * Pow(x, 0) == x;
    } else {
      LiftOnes(x, p, k - 1);
      PositivePower(p, k);
      PowNext(p, k);
      PowNext(p, k - 1);
      PowProduct(x, Pow(p, k - 1), p);
      hide *;
      LiftStep(Pow(x, Pow(p, k - 1)), p, Pow(p, k - 1), Pow(p, k));
      assert Pow(p, k - 1) * p == Pow(p, k);
    }
  }

  // When z is 1 modulo a multiple s of p, z^p is 1 modulo p * s.
  lemma LiftStep(z: nat, p: nat, w: nat, s: nat)
    requires p > 1 && s == p * w && s > 1 && z % s == 1
    ensures p * s > 1 && Pow(z, p) % (p * s) == 1
  {
    hide *;
    assert w * p == p * w;
    RemainderUnique(s, w, 0, p);
    RemainderUnique(1, 0, 1, s);
    RemainderUnique(1, 0, 1, p);
    Narrow(z, 1, s, p);
    EqualRemainders(z, 1, s);
    GeometricSum(z, p);
    GeometricRemainder(z, p, p);
    RemainderUnique(p, 1, 0, p);
    ProductOfMultiples(z - 1, Geometric(z, p), s, p);
    Magnitude(p, s);
    RemainderUnique(1, 0, 1, p * s);
    EqualRemainders(Pow(z, p), 1, p * s);
  }

  lemma ProductOfMultiples(x: int, y: int, s: nat, p: nat)
    requires s > 0 && p > 0 && x % s == 0 && y % p == 0
    ensures p * s > 0 && (x * y) % (p * s) == 0
  {
    var a, b := x / s, y / p;
    assert x == a * s && y == b * p;
    assert (a * s) * (b * p) == (a * b) * (p * s);
    assert p * s > 0;
    RemainderUnique(x * y, a * b, 0, p * s);
  }
}

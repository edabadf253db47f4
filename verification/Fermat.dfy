/**
 The arithmetic behind the primality test: Euclid's lemma, the vanishing binomial
 coefficients of a prime, and Fermat's little theorem.
 */
module Fermat {
  import opened IntPower

  ghost predicate Prime(p: nat) {
    p > 1 && forall a {:trigger p % a} :: 1 < a < p ==> p % a != 0
  }

  // ---------- remainders ----------

  lemma RemainderUnique(x: int, q: int, r: int, p: nat)
    requires p > 0 && x == q * p + r && 0 <= r < p
    ensures x % p == r && x / p == q
  {
    var k := x / p - q;
    assert k * p == r - x % p;
    Magnitude(k, p);
  }

  lemma Magnitude(k: int, p: int)
    requires p > 0
    ensures (k >= 1 ==> k * p >= p) && (k <= -1 ==> k * p <= 0 - p)
  {
    assert (k - 1) * p == k * p - p && (k + 1) * p == k * p + p;
  }

  lemma AddMultiple(x: int, k: int, p: nat)
    requires p > 0
    ensures (x + k * p) % p == x % p
  {
    assert x + k * p == (x / p + k) * p + x % p;
    RemainderUnique(x + k * p, x / p + k, x % p, p);
  }

  lemma ProductRemainder(x: int, y: int, p: nat)
    requires p > 0
    ensures (x * y) % p == ((x % p) * y) % p == (x * (y % p)) % p
  {
    LeftRemainder(x, y, p);
    LeftRemainder(y, x, p);
  }

  lemma LeftRemainder(x: int, y: int, p: nat)
    requires p > 0
    ensures (x * y) % p == ((x % p) * y) % p
  {
    var q, r := x / p, x % p;
    assert x == q * p + r;
    Distribute(q, p, r, y);
    AddMultiple(r * y, q * y, p);
  }

  lemma Distribute(q: int, p: int, r: int, y: int)
    ensures (q * p + r) * y == y * (q * p + r) == r * y + (q * y) * p
  {
    assert (q * p) * y == (q * y) * p;
  }

  lemma SumRemainder(x: int, y: int, p: nat)
    requires p > 0
    ensures (x + y) % p == (x % p + y) % p
  {
    AddMultiple(x % p + y, x / p, p);
  }

  lemma {:induction false} PowRemainder(x: nat, k: nat, p: nat)
    requires p > 0
    ensures Pow(x % p, k) % p == Pow(x, k) % p
  {
    if k > 0 {
      PowRemainder(x, k - 1, p);
      ProductRemainder(x, Pow(x, k - 1), p);
      ProductRemainder(x % p, Pow(x, k - 1), p);
      ProductRemainder(x % p, Pow(x % p, k - 1), p);
    }
  }

  // A multiple of p times anything.
  lemma MultipleTimes(x: int, y: int, p: nat)
    requires p > 0 && x % p == 0
    ensures (x * y) % p == 0
  {
    ProductRemainder(x, y, p);
  }

  lemma EqualRemainders(x: int, y: int, p: nat)
    requires p > 0
    ensures x % p == y % p <==> (x - y) % p == 0
  {
    var k := x / p - y / p;
    assert x - y == k * p + (x % p - y % p);
    AddMultiple(x % p - y % p, k, p);
    if (x - y) % p == 0 && x % p != y % p {
      if x % p > y % p {
        RemainderUnique(x % p - y % p, 0, x % p - y % p, p);
      } else {
        RemainderUnique(x % p - y % p, -1, x % p - y % p + p, p);
      }
    }
  }

  // ---------- primes ----------

  lemma {:induction false} EuclidBelow(p: nat, a: nat, b: int)
    requires Prime(p) && 0 < a < p && (a * b) % p == 0
    ensures b % p == 0
    decreases a
  {
    if a > 1 {
      var q, r, m := p / a, p % a, a * b / p;
      assert r * b == 0 + (b - q * m) * p by {
        assert p == q * a + r && a * b == m * p;
        assert r * b == p * b - q * (a * b);
        assert q * (m * p) == (q * m) * p;
      }
      AddMultiple(0, b - q * m, p);
      EuclidBelow(p, r, b);
    }
  }

  lemma Euclid(p: nat, a: int, b: int)
    requires Prime(p) && (a * b) % p == 0
    ensures a % p == 0 || b % p == 0
  {
    if a % p != 0 {
      ProductRemainder(a, b, p);
      EuclidBelow(p, a % p, b);
    }
  }

  // The square roots of 1 modulo a prime.
  lemma RootsOfUnity(p: nat, x: nat)
    requires Prime(p) && 0 < x < p && (x * x) % p == 1
    ensures x == 1 || x == p - 1
  {
    RemainderUnique(1, 0, 1, p);
    EqualRemainders(x * x, 1, p);
    assert (x - 1) * (x + 1) == x * x - 1;
    Euclid(p, x - 1, x + 1);
    if (x - 1) % p == 0 {
      RemainderUnique(x - 1, 0, x - 1, p);
    } else if x + 1 < p {
      RemainderUnique(x + 1, 0, x + 1, p);
    }
  }

  // ---------- binomial coefficients ----------

  function Choose(n: nat, k: nat): nat {
    if k == 0 then 1 else if n == 0 then 0 else Choose(n - 1, k - 1) + Choose(n - 1, k)
  }

  lemma {:induction false} ChooseMore(n: nat, k: nat)
    requires k > n
    ensures Choose(n, k) == 0
  {
    if n > 0 {
      ChooseMore(n - 1, k - 1);
      ChooseMore(n - 1, k);
    }
  }

  lemma {:induction false} ChooseAll(n: nat)
    ensures Choose(n, n) == 1
  {
    if n > 0 {
      ChooseAll(n - 1);
      ChooseMore(n - 1, n);
    }
  }

  lemma {:induction false} Absorption(n: nat, k: nat)
    requires n > 0 && k > 0
    ensures k * Choose(n, k) == n * Choose(n - 1, k - 1)
  {
    Pascal(n, k);
    if n == 1 {
      ChooseMore(0, k);
      SmallChoose(k);
    } else {
      Pascal(n - 1, k);
      Absorption(n - 1, k);
      if k == 1 {
        hide Choose;
        AbsorbSum(n, 1, Choose(n - 1, 0), Choose(n - 1, 1), 0, Choose(n - 2, 0));
      } else {
        Pascal(n - 1, k - 1);
        Absorption(n - 1, k - 1);
        hide Choose;
        AbsorbSum(n, k, Choose(n - 1, k - 1), Choose(n - 1, k), Choose(n - 2, k - 2), Choose(n - 2, k - 1));
      }
    }
  }

  lemma Pascal(n: nat, k: nat)
    requires n > 0
    ensures Choose(n, 0) == 1 && (k > 0 ==> Choose(n, k) == Choose(n - 1, k - 1) + Choose(n - 1, k))
    ensures n == 1 && k == 1 ==> Choose(0, 0) == 1
    ensures Choose(n - 1, 0) == 1
  {
  }

  lemma SmallChoose(k: nat)
    requires k > 0
    ensures k * Choose(1, k) == Choose(0, k - 1)
  {
    if k > 1 {
      ChooseMore(1, k);
      ChooseMore(0, k - 1);
    }
  }

  lemma AbsorbSum(n: int, k: int, c: int, d: int, x: int, y: int)
    requires c == x + y && k * d == (n - 1) * y && (k - 1) * c == (n - 1) * x
    ensures k * (c + d) == n * c
  {
    assert (n - 1) * (x + y) == (n - 1) * x + (n - 1) * y;
    assert k * (c + d) == (k - 1) * c + c + k * d;
  }

  // A prime divides its inner binomial coefficients.
  lemma PrimeDividesChoose(p: nat, k: nat)
    requires Prime(p) && 0 < k < p
    ensures Choose(p, k) % p == 0
  {
    hide Choose, Prime;
    Absorption(p, k);
    DividesFactor(p, k, Choose(p, k), Choose(p - 1, k - 1));
  }

  lemma DividesFactor(p: nat, k: nat, c: nat, d: nat)
    requires Prime(p) && 0 < k < p && k * c == p * d
    ensures c % p == 0
  {
    hide Prime;
    assert k * c == 0 + d * p;
    AddMultiple(0, d, p);
    Euclid(p, k, c);
    RemainderUnique(k, 0, k, p);
  }

  // The first m + 1 terms of (a + 1)^n.
  function Expansion(a: nat, n: nat, m: nat): nat {
    Choose(n, m) * Pow(a, m) + if m == 0 then 0 else Expansion(a, n, m - 1)
  }

  lemma {:induction false} ExpansionStep(a: nat, n: nat, m: nat)
    requires n > 0 && m > 0
    ensures Expansion(a, n, m) == Expansion(a, n - 1, m) + a * Expansion(a, n - 1, m - 1)
  {
    Pascal(n, m);
    var p := Pow(a, m - 1);
    ExpansionNext(a, n, m);
    ExpansionNext(a, n - 1, m);
    ExpansionNext(a, n - 1, m - 1);
    if m == 1 {
      ExpansionNext(a, n, 0);
      hide Choose, Expansion, Pow;
      StepSum(a, p, Choose(n - 1, 0), Choose(n - 1, 1), 0);
    } else {
      ExpansionStep(a, n, m - 1);
      hide Choose, Expansion, Pow;
      StepSum(a, p, Choose(n - 1, m - 1), Choose(n - 1, m), Expansion(a, n - 1, m - 2));
    }
  }

  lemma ExpansionNext(a: nat, n: nat, m: nat)
    ensures m > 0 ==> Expansion(a, n, m) == Choose(n, m) * (a * Pow(a, m - 1)) + Expansion(a, n, m - 1)
    ensures m == 0 ==> Expansion(a, n, m) == 1 && Pow(a, 0) == 1 && Choose(n, 0) == 1
    ensures m > 0 ==> Pow(a, m) == a * Pow(a, m - 1)
  {
  }

  lemma StepSum(a: int, p: int, c: int, d: int, e: int)
    ensures (c + d) * (a * p) + a * e == d * (a * p) + a * (c * p + e)
  {
    assert c * (a * p) == a * (c * p);
    assert a * (c * p + e) == a * (c * p) + a * e;
    assert (c + d) * (a * p) == c * (a * p) + d * (a * p);
  }

  lemma {:induction false} BinomialTheorem(a: nat, n: nat)
    ensures Pow(a + 1, n) == Expansion(a, n, n)
  {
    ExpansionNext(a, n, n);
    ExpansionNext(a + 1, n, n);
    if n > 0 {
      BinomialTheorem(a, n - 1);
      ExpansionStep(a, n, n);
      ChooseMore(n - 1, n);
      ExpansionNext(a, n - 1, n);
      hide *;
      LastTerm(a, Expansion(a, n - 1, n - 1), Choose(n - 1, n), a * Pow(a, n - 1), Expansion(a, n - 1, n));
    }
  }

  lemma LastTerm(a: int, e: int, c: int, y: int, more: int)
    requires c == 0 && more == c * y + e
    ensures more + a * e == (a + 1) * e
  {
  }

  // Below the top only the first term survives.
  lemma {:induction false} ExpansionVanishes(a: nat, p: nat, m: nat)
    requires Prime(p) && m < p
    ensures Expansion(a, p, m) % p == 1
  {
    if m > 0 {
      ExpansionVanishes(a, p, m - 1);
      PrimeDividesChoose(p, m);
      MultipleTimes(Choose(p, m), Pow(a, m), p);
      SumRemainder(Choose(p, m) * Pow(a, m), Expansion(a, p, m - 1), p);
    } else {
      RemainderUnique(1, 0, 1, p);
      assert Pow(a, 0) == 1;
    }
  }

  // Fermat's little theorem.
  lemma {:induction false} Fermat(a: nat, p: nat)
    requires Prime(p)
    ensures Pow(a, p) % p == a % p
  {
    if a == 0 {
      assert Pow(0, p) == 0 * Pow(0, p - 1);
    } else {
      Fermat(a - 1, p);
      BinomialTheorem(a - 1, p);
      ExpansionVanishes(a - 1, p, p - 1);
      ChooseAll(p);
      var top, rest := Pow(a - 1, p), Expansion(a - 1, p, p - 1);
      assert Pow(a, p) == top + rest;
      SumRemainder(top, rest, p);
      SumRemainder(rest, (a - 1) % p, p);
      SumRemainder(a - 1, 1, p);
    }
  }

  lemma FermatUnit(a: nat, p: nat)
    requires Prime(p) && 0 < a < p
    ensures Pow(a, p - 1) % p == 1
  {
    Fermat(a, p);
    var u := Pow(a, p - 1);
    EqualRemainders(Pow(a, p), a, p);
    assert a * (u - 1) == Pow(a, p) - a;
    Euclid(p, a, u - 1);
    RemainderUnique(a, 0, a, p);
    EqualRemainders(u, 1, p);
    RemainderUnique(1, 0, 1, p);
  }
}

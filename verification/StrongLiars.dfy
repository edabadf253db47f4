/**
 Which numbers the test of Tools.cpp never accepts: exactly those without a base in the
 range it draws from that they pass, which shows in their prime factors.
 */
module StrongLiars {
  import opened IntPower
  import opened Fermat
  import opened PowerSums
  import opened Residues
  import opened Primes

  // An odd prime dividing both n - 1 and p - 1 for a prime factor p of n.
  ghost predicate Shared(n: nat, p: nat, q: nat)
    requires n > 0
  {
    Prime(p) && n % p == 0 && Prime(q) && q % 2 == 1 && (n - 1) % q == 0 && (p - 1) % q == 0
  }

  ghost predicate FactorThree(n: nat, p: nat) {
    Prime(p) && n % p == 0 && p % 4 == 3
  }

  // The condition on the prime factors of n.
  ghost predicate NoLiars(n: nat)
    requires n > 0
  {
    && (forall p, q {:trigger Shared(n, p, q)} :: !Shared(n, p, q))
    && (n % 2 == 0 || exists p {:trigger FactorThree(n, p)} :: FactorThree(n, p))
  }

  // ---------- negation ----------

  lemma {:induction false} NegatedPower(a: nat, e: nat, n: nat)
    requires a <= n && n > 0
    ensures Pow(n - a, e) % n == (if e % 2 == 0 then Pow(a, e) else 0 - Pow(a, e)) % n
  {
    if e == 0 {
      PowZero(a);
      PowZero(n - a);
    } else {
      NegatedPower(a, e - 1, n);
      PowNext(a, e - 1);
      PowNext(n - a, e - 1);
      var w: int := Pow(a, e - 1);
      var s: int := if e % 2 == 1 then w else 0 - w;
      AddMultiple(0 - a, 1, n);
      ProductCong(n - a, 0 - a, Pow(n - a, e - 1), s, n);
      hide *;
      NegatedProducts(a, w);
    }
  }

  lemma NegatedProducts(a: int, w: int)
    ensures (0 - a) * w == 0 - a * w && (0 - a) * (0 - w) == a * w
  {
  }

  lemma NegatedOne(a: nat, e: nat, n: nat)
    requires a <= n && n > 1 && e % 2 == 1
    ensures Pow(a, e) % n == 1 ==> Pow(n - a, e) % n == n - 1
    ensures Pow(a, e) % n == n - 1 ==> Pow(n - a, e) % n == 1
  {
    hide Pow;
    NegatedPower(a, e, n);
    var w := Pow(a, e);
    var k := w / n;
    assert w == k * n + w % n;
    assert (0 - k - 1) * n == 0 - k * n - n;
    if w % n == 1 {
      RemainderUnique(0 - w, 0 - k - 1, n - 1, n);
    } else if w % n == n - 1 {
      RemainderUnique(0 - w, 0 - k - 1, 1, n);
    }
  }

  // ---------- an element of odd order ----------

  lemma {:induction false} FermatPower(x: nat, p: nat, k: nat)
    requires Prime(p)
    ensures Pow(x, Pow(p, k)) % p == x % p
  {
    if k == 0 {
      PowZero(p);
      PowOne(x);
    } else {
      FermatPower(x, p, k - 1);
      PowNext(p, k - 1);
      hide *;
      PowProduct(x, Pow(p, k - 1), p);
      assert Pow(p, k - 1) * p == Pow(p, k);
      Fermat.Fermat(Pow(x, Pow(p, k - 1)), p);
    }
  }

  // h^(p^(e - 1)) is congruent to h modulo p, and a root of 1 modulo p^e if h is one modulo p.
  lemma LiftRoot(h: nat, p: nat, e: nat, q: nat) returns (b: nat)
    requires Prime(p) && e > 0 && Pow(h, q) % p == 1
    ensures Pow(p, e) > 1 && Pow(b, q) % Pow(p, e) == 1 && b % p == h % p
  {
    AtLeastTwo(p);
    hide Pow, Prime;
    var s := Pow(p, e - 1);
    b := Pow(h, s);
    FermatPower(h, p, e - 1);
    LiftOnes(Pow(h, q), p, e - 1);
    PowProduct(h, s, q);
    PowProduct(h, q, s);
    assert s * q == q * s;
  }

  lemma AtLeastTwo(p: nat)
    requires Prime(p)
    ensures p > 1
  {
  }

  lemma PrimeOrder(p: nat, q: nat) returns (h: nat)
    requires Prime(p) && q > 1 && p > 2 && (p - 1) % q == 0
    ensures Pow(h, q) % p == 1 && h % p != 1
  {
    hide Pow, Prime;
    var e := (p - 1) / q;
    assert e * q == p - 1;
    Smaller(e, q);
    var g := NotAllOnes(p, e);
    h := Pow(g, e);
    PowProduct(g, e, q);
    FermatUnit(g, p);
  }

  // A root of 1 modulo n that is not 1.
  lemma RootOfOne(n: nat, p: nat, q: nat) returns (a: nat)
    requires n > 1 && Shared(n, p, q)
    ensures a < n && a != 1 && Pow(a, q) % n == 1
  {
    var e, m := SplitPower(n, p);
    PowerCoprime(p, e, m);
    OddFactor(p, q);
    var h := PrimeOrder(p, q);
    hide Pow, Prime, Coprime, Shared;
    var b := LiftRoot(h, p, e, q);
    var w := Pow(p, e);
    a := Combine(w, m, b, 1);
    PowerCong(a, b, q, w);
    PowerCong(a, 1, q, m);
    OnePower(q);
    RemainderUnique(1, 0, 1, w);
    SameForBoth(w, m, Pow(a, q), 1);
    RemainderUnique(1, 0, 1, n);
    RemainderUnique(1, 0, 1, p);
    PowerDivisible(p, e);
    Narrow(a, b, w, p);
  }

  lemma OddFactor(p: nat, q: nat)
    requires Prime(p) && Prime(q) && q % 2 == 1 && (p - 1) % q == 0
    ensures p > 2
  {
    if p == 2 {
      RemainderUnique(1, 0, 1, q);
    }
  }

  lemma PowerDivisible(p: nat, e: nat)
    requires p > 0 && e > 0
    ensures Pow(p, e) % p == 0
  {
    PowNext(p, e - 1);
    RemainderUnique(Pow(p, e), Pow(p, e - 1), 0, p);
  }

  // An odd prime factor of m divides the odd part of m.
  lemma InOddPart(m: nat, q: nat)
    requires m > 0 && Prime(q) && q % 2 == 1 && m % q == 0
    ensures OddPart(m) % q == 0
  {
    OddTimesTwos(m);
    Euclid(q, OddPart(m), Pow(2, Twos(m)));
    if OddPart(m) % q != 0 {
      assert Prime(2);
      PrimeOfPower(2, Twos(m), q);
    }
  }

  // n passes to one of the bases the code draws.
  ghost predicate HasLiar(n: nat)
    requires n > 4
  {
    exists a {:trigger Passes(n, a)} :: 2 <= a <= n - 3 && Passes(n, a)
  }

  lemma SharedGivesLiar(n: nat, p: nat, q: nat)
    requires n > 4 && Shared(n, p, q)
    ensures HasLiar(n)
  {
    var a := RootOfOne(n, p, q);
    InOddPart(n - 1, q);
    var d := OddPart(n - 1);
    hide Pow, Prime, OddPart, Twos, Shared, Passes;
    SharedIsPrime(n, p, q);
    assert q * (d / q) == d by { DivisorOf(d, d / q, q); }
    OnesMultiple(a, q, d / q, n);
    LiarInRange(n, a);
  }

  lemma SharedIsPrime(n: nat, p: nat, q: nat)
    requires n > 0 && Shared(n, p, q)
    ensures q > 1
  {
  }

  // A root of 1 other than 1, or its negation, is a base in the range.
  lemma LiarInRange(n: nat, a: nat)
    requires n > 4 && a < n && a != 1 && Pow(a, OddPart(n - 1)) % n == 1
    ensures HasLiar(n)
  {
    var d := OddPart(n - 1);
    hide Pow, OddPart;
    if a == 0 {
      ZeroPower(d);
      RemainderUnique(0, 0, 0, n);
    }
    NegatedOne(a, d, n);
    if a == n - 1 {
      OnePower(d);
      RemainderUnique(1, 0, 1, n);
    }
    SquaredZero(n, a);
    SquaredZero(n, n - a);
    assert Passes(n, a);
    assert Squared(n, n - a, 0) == n - 1;
    assert Passes(n, n - a);
    if a == n - 2 {
      assert 2 <= n - a <= n - 3;
    }
  }

  lemma ZeroPower(d: nat)
    requires d > 0
    ensures Pow(0, d) == 0
  {
  }

  // ---------- square roots of -1 ----------

  // Modulo a power of a prime that is 1 modulo 4.
  lemma RootOfMinusOne(p: nat, e: nat) returns (b: nat)
    requires Prime(p) && p % 4 == 1 && e > 0
    ensures Pow(p, e) > 0 && (b * b + 1) % Pow(p, e) == 0
  {
    var i := QuarterPower(p);
    hide Prime, Pow;
    RemainderUnique(p, 1, 0, p);
    FourthPower(i);
    FourthIsOne(i, p);
    b := LiftRoot(i, p, e, 4);
    FourthPower(b);
    var w, x := Pow(p, e), b * b;
    ProductCong(b, i, b, i, p);
    SumRemainder(x, 1, p);
    SumRemainder(i * i, 1, p);
    NotMinusOne(x, p);
    assert x > 0;
    PowerCoprime(p, e, x - 1);
    assert (x + 1) * (x - 1) == x * x - 1;
    RemainderUnique(1, 0, 1, w);
    EqualRemainders(x * x, 1, w);
    Gauss(w, x + 1, x - 1);
  }

  lemma FourthPower(x: nat)
    ensures Pow(x, 4) == (x * x) * (x * x)
  {
    hide Pow;
    PowSum(x, 2, 2);
    PowSum(x, 1, 1);
    PowOne(x);
  }

  lemma FourthIsOne(i: nat, p: nat)
    requires p > 1 && (i * i + 1) % p == 0
    ensures ((i * i) * (i * i)) % p == 1
  {
    var x := i * i;
    assert (x + 1) * (x - 1) == x * x - 1;
    MultipleTimes(x + 1, x - 1, p);
    EqualRemainders(x * x, 1, p);
    RemainderUnique(1, 0, 1, p);
  }

  lemma NotMinusOne(x: nat, p: nat)
    requires p > 2 && (x + 1) % p == 0
    ensures x > 0 && (x - 1) % p != 0
  {
    if x == 0 {
      RemainderUnique(1, 0, 1, p);
    }
    if (x - 1) % p == 0 {
      EqualRemainders(x + 1, x - 1, p);
      RemainderUnique(2, 0, 2, p);
    }
  }

  lemma QuarterPower(p: nat) returns (i: nat)
    requires Prime(p) && p % 4 == 1
    ensures (i * i + 1) % p == 0
  {
    hide Prime, Pow;
    AtLeastFive(p);
    var e, f := (p - 1) / 2, (p - 1) / 4;
    assert e == f + f && p - 1 == e + e;
    var g := NotAllOnes(p, e);
    i := Pow(g, f);
    PowSum(g, f, f);
    PowSum(g, e, e);
    FermatUnit(g, p);
    RootOfSquare(i * i, p);
  }

  // Modulo a prime, a square root of 1 other than 1 is -1.
  lemma RootOfSquare(h: nat, p: nat)
    requires Prime(p) && (h * h) % p == 1 && h % p != 1
    ensures (h + 1) % p == 0
  {
    AtLeastTwo(p);
    hide Prime;
    var r := h % p;
    RemainderUnique(r, 0, r, p);
    ProductCong(h, r, h, r, p);
    RemainderUnique(0, 0, 0, p);
    RootsOfUnity(p, r);
    SumRemainder(h, 1, p);
    RemainderUnique(p, 1, 0, p);
  }

  lemma AtLeastFive(p: nat)
    requires Prime(p) && p % 4 == 1
    ensures p > 4
  {
  }

  lemma {:induction false} MinusOneIsSquare(n: nat) returns (y: nat)
    requires n > 0 && forall p {:trigger Prime(p)} :: Prime(p) && n % p == 0 ==> p % 4 == 1
    ensures (y * y + 1) % n == 0
    decreases n
  {
    if n == 1 {
      y := 0;
    } else {
      var p := PrimeDivisor(n);
      var e, m := SplitPower(n, p);
      FactorsOf(n, Pow(p, e), m);
      var y' := MinusOneIsSquare(m);
      PowerCoprime(p, e, m);
      hide *;
      var b := RootOfMinusOne(p, e);
      var w := Pow(p, e);
      y := Combine(w, m, b, y');
      ProductCong(y, b, y, b, w);
      ProductCong(y, y', y, y', m);
      SumRemainder(y * y, 1, w);
      SumRemainder(b * b, 1, w);
      SumRemainder(y * y, 1, m);
      SumRemainder(y' * y', 1, m);
      RemainderUnique(0, 0, 0, w);
      RemainderUnique(0, 0, 0, m);
      SameForBoth(w, m, y * y + 1, 0);
      RemainderUnique(0, 0, 0, n);
    }
  }

  lemma FactorsOf(n: nat, w: nat, m: nat)
    requires m > 0 && n == w * m && forall p {:trigger Prime(p)} :: Prime(p) && n % p == 0 ==> p % 4 == 1
    ensures forall p {:trigger Prime(p)} :: Prime(p) && m % p == 0 ==> p % 4 == 1
  {
    forall p {:trigger Prime(p)} | Prime(p) && m % p == 0
      ensures p % 4 == 1
    {
      assert w * m == m * w;
      MultipleTimes(m, w, p);
    }
  }

  lemma OddDivisor(n: nat, p: nat)
    requires n % 2 == 1 && p > 0 && n % p == 0
    ensures p % 2 == 1
  {
    DivisorOf(n, n / p, p);
    OddProduct(n / p, p);
  }

  lemma OddProduct(k: nat, p: nat)
    requires k * p % 2 == 1
    ensures p % 2 == 1
  {
    if p % 2 == 0 {
      TwiceProduct(k, p / 2);
    }
  }

  lemma TwiceProduct(k: nat, h: nat)
    ensures k * (2 * h) == 2 * (k * h)
  {
  }

  lemma RootGivesLiar(n: nat)
    requires n > 4 && n % 2 == 1 && forall p {:trigger FactorThree(n, p)} :: !FactorThree(n, p)
    ensures HasLiar(n)
  {
    forall p {:trigger Prime(p)} | Prime(p) && n % p == 0
      ensures p % 4 == 1
    {
      assert !FactorThree(n, p);
      OddDivisor(n, p);
    }
    var y := MinusOneIsSquare(n);
    hide *;
    var a := RootInRange(n, y);
    RootPasses(n, a);
    LiarFound(n, a);
  }

  lemma LiarFound(n: nat, a: nat)
    requires n > 4 && 2 <= a <= n - 3 && Passes(n, a)
    ensures HasLiar(n)
  {
  }

  lemma RootInRange(n: nat, y: nat) returns (a: nat)
    requires n > 4 && (y * y + 1) % n == 0
    ensures 2 <= a <= n - 3 && (a * a + 1) % n == 0
  {
    a := y % n;
    RemainderUnique(a, 0, a, n);
    ProductCong(a, y, a, y, n);
    SumRemainder(a * a, 1, n);
    SumRemainder(y * y, 1, n);
    if a <= 1 {
      RemainderUnique(a * a + 1, 0, a * a + 1, n);
    }
    var k := n - a;
    assert a * a + 1 == (n - 2 * k) * n + (k * k + 1) by { Complement(n, k); }
    AddMultiple(k * k + 1, n - 2 * k, n);
    if k <= 1 {
      RemainderUnique(k * k + 1, 0, k * k + 1, n);
    } else if k == 2 {
      a := 2;
    }
  }

  lemma Complement(n: int, k: int)
    ensures (n - k) * (n - k) + 1 == (n - 2 * k) * n + (k * k + 1)
  {
  }

  lemma RootPasses(n: nat, a: nat)
    requires n > 4 && n % 2 == 1 && (a * a + 1) % n == 0
    ensures Passes(n, a)
  {
    var d := OddPart(n - 1);
    assert Twos(n - 1) >= 1;
    assert Squared(n, a, 1) == Pow(a, d * Pow(2, 1)) % n;
    hide OddPart, Twos, Squared, Pow;
    PowOne(2);
    PowOfSquare(a, d);
    assert d * Pow(2, 1) == 2 * d;
    EqualRemainders(a * a + 1, 0, n);
    EqualRemainders(a * a, n - 1, n);
    AddMultiple(a * a + 1, -1, n);
    RemainderUnique(0, 0, 0, n);
    PowerCong(a * a, n - 1, d, n);
    OnePower(d);
    RemainderUnique(1, 0, 1, n);
    NegatedOne(1, d, n);
  }

  // ---------- no liars ----------

  // x is 1 when two of its powers with coprime exponents are.
  lemma CoprimePowers(x: nat, d: nat, e: nat, p: nat)
    requires p > 1 && Coprime(d, e) && Pow(x, d) % p == 1 && Pow(x, e) % p == 1
    ensures x % p == 1
  {
    var u, v := Bezout(d, e);
    hide *;
    Signs(d, e, u, v);
    if v <= 0 {
      assert (0 - v) * e == 0 - v * e;
      NextPower(x, d, u, e, 0 - v, p);
    } else if u <= 0 {
      assert (0 - u) * d == 0 - u * d;
      NextPower(x, e, v, d, 0 - u, p);
    } else if u * d == 0 {
      NextPower(x, e, v, d, 0, p);
    } else {
      NextPower(x, d, u, e, 0, p);
    }
  }

  lemma Signs(d: nat, e: nat, u: int, v: int)
    requires u * d + v * e == 1
    ensures (v <= 0 ==> u > 0) && (u <= 0 ==> v > 0) && (u > 0 && v > 0 ==> u * d == 0 || v * e == 0)
  {
    if u <= 0 {
      assert u * d <= 0;
    } else {
      assert u * d >= 0;
    }
    if v <= 0 {
      assert v * e <= 0;
    } else {
      assert v * e >= 0;
    }
  }

  lemma NextPower(x: nat, d: nat, u: nat, e: nat, v: nat, p: nat)
    requires p > 1 && Pow(x, d) % p == 1 && Pow(x, e) % p == 1 && u * d == v * e + 1
    ensures x % p == 1
  {
    OnesMultiple(x, d, u, p);
    OnesMultiple(x, e, v, p);
    assert d * u == u * d && e * v == v * e;
    PowNext(x, e * v);
    hide *;
    ProductRemainder(x, Pow(x, e * v), p);
  }

  // Without shared primes a root of 1 of odd order dividing n - 1 is 1 modulo each prime factor.
  lemma OneAtPrime(n: nat, d: nat, a: nat, p: nat)
    requires n > 1 && d > 0 && d % 2 == 1 && (n - 1) % d == 0 && Pow(a, d) % n == 1 && Prime(p) && n % p == 0
    requires forall q {:trigger Shared(n, p, q)} :: !Shared(n, p, q)
    ensures a % p == 1
  {
    AtLeastTwo(p);
    forall q {:trigger Prime(q)} | Prime(q)
      ensures !(d % q == 0 && (p - 1) % q == 0)
    {
      assert !Shared(n, p, q);
      if d % q == 0 && (p - 1) % q == 0 {
        OddDivisor(d, q);
        DividesThrough(n - 1, d, q);
      }
    }
    hide Pow, Prime;
    RemainderUnique(1, 0, 1, n);
    RemainderUnique(1, 0, 1, p);
    Narrow(Pow(a, d), 1, n, p);
    var r := a % p;
    RemainderUnique(r, 0, r, p);
    PowerCong(a, r, d, p);
    if r == 0 {
      ZeroPower(d);
    }
    FermatUnit(r, p);
    CoprimePowers(r, d, p - 1, p);
  }

  lemma TrivialRoot(n: nat, d: nat, a: nat)
    requires n > 1 && d > 0 && d % 2 == 1 && (n - 1) % d == 0 && 0 < a < n && Pow(a, d) % n == 1
    requires forall p, q {:trigger Shared(n, p, q)} :: !Shared(n, p, q)
    ensures a == 1
  {
    var g := Geometric(a, d);
    forall p {:trigger Prime(p)} | Prime(p)
      ensures !(n % p == 0 && g % p == 0)
    {
      if n % p == 0 && g % p == 0 {
        AtLeastTwo(p);
        hide Pow, Prime;
        OneAtPrime(n, d, a, p);
        GeometricRemainder(a, d, p);
        DividesThrough(n - 1, d, p);
        EqualRemainders(n, n - 1, p);
        RemainderUnique(1, 0, 1, p);
      }
    }
    hide Pow, Prime, Shared;
    GeometricSum(a, d);
    RemainderUnique(1, 0, 1, n);
    EqualRemainders(Pow(a, d), 1, n);
    Gauss(n, a - 1, g);
    RemainderUnique(a - 1, 0, a - 1, n);
  }

  // -1 is no square modulo a prime that is 3 modulo 4.
  lemma NoSquareRoot(p: nat, w: nat)
    requires Prime(p) && p % 4 == 3
    ensures (w * w) % p != p - 1
  {
    if (w * w) % p == p - 1 {
      hide *;
      SquareRootPower(p, w % p, w);
      assert false;
    }
  }

  lemma SquareRootPower(p: nat, r: nat, w: nat)
    requires Prime(p) && p % 4 == 3 && r == w % p
    ensures (w * w) % p != p - 1
  {
    hide Prime, Pow;
    if (w * w) % p == p - 1 {
      RemainderUnique(r, 0, r, p);
      ProductCong(w, r, w, r, p);
      RemainderUnique(0, 0, 0, p);
      FermatUnit(r, p);
      PowOfSquare(r, (p - 1) / 2);
      MinusOnePower(r * r, (p - 1) / 2, p);
      assert false;
    }
  }

  lemma MinusOnePower(x: nat, e: nat, p: nat)
    requires p > 2 && x % p == p - 1 && e % 2 == 1
    ensures Pow(x, e) % p == p - 1
  {
    hide Pow;
    RemainderUnique(p - 1, 0, p - 1, p);
    PowerCong(x, p - 1, e, p);
    OnePower(e);
    RemainderUnique(1, 0, 1, p);
    NegatedOne(1, e, p);
  }

  lemma NotSquared(n: nat, a: nat, j: nat, p: nat)
    requires n > 1 && FactorThree(n, p) && j > 0
    ensures Squared(n, a, j) != n - 1
  {
    hide Squared, Prime;
    var w := Squared(n, a, j - 1);
    SquaredNext(n, a, j - 1);
    if Squared(n, a, j) == n - 1 {
      RemainderUnique(n - 1, 0, n - 1, n);
      Narrow(w * w, n - 1, n, p);
      NoSquareRoot(p, w);
      AddMultiple(-1, n / p, p);
      assert n == (n / p) * p;
      RemainderUnique(-1, -1, p - 1, p);
      assert false;
    }
  }

  lemma OnlyTrivialBases(n: nat, a: nat)
    requires n > 4 && NoLiars(n) && 0 < a < n && Passes(n, a)
    ensures a == 1 || a == n - 1
  {
    if Squared(n, a, 0) == 1 || Squared(n, a, 0) == n - 1 {
      hide *;
      FirstPower(n, a);
    } else {
      var j :| 0 <= j <= Twos(n - 1) && Squared(n, a, j) == n - 1;
      var p :| FactorThree(n, p);
      hide *;
      NotSquared(n, a, j, p);
      assert false;
    }
  }

  // The odd part of n - 1 as an exponent.
  lemma FirstPower(n: nat, a: nat)
    requires n > 4 && NoLiars(n) && 0 < a < n && (Squared(n, a, 0) == 1 || Squared(n, a, 0) == n - 1)
    ensures a == 1 || a == n - 1
  {
    hide Squared, OddPart, Twos, Shared, Pow;
    var d := OddPart(n - 1);
    OddTimesTwos(n - 1);
    assert n - 1 == Pow(2, Twos(n - 1)) * d;
    RemainderUnique(n - 1, Pow(2, Twos(n - 1)), 0, d);
    SquaredZero(n, a);
    if Squared(n, a, 0) == 1 {
      TrivialRoot(n, d, a);
    } else {
      NegatedOne(a, d, n);
      TrivialRoot(n, d, n - a);
    }
  }

  // ---------- the condition ----------

  // No base the code can draw is passed exactly when the prime factors say so.
  lemma LiarsIff(n: nat)
    requires n > 4
    ensures !HasLiar(n) <==> NoLiars(n)
  {
    hide Passes, Shared, FactorThree;
    if NoLiars(n) {
      forall a {:trigger Passes(n, a)} | 2 <= a <= n - 3
        ensures !Passes(n, a)
      {
        if Passes(n, a) {
          OnlyTrivialBases(n, a);
        }
      }
    } else if p, q :| Shared(n, p, q) {
      SharedGivesLiar(n, p, q);
    } else {
      RootGivesLiar(n);
    }
  }

  // Rejected whatever words are drawn are exactly these numbers.
  lemma NeverAcceptedIff(n: nat, k: nat)
    requires n <= TWO32 && k > 0
    ensures (forall rand: nat -> U64 {:trigger Accepted(n, rand, 0, k)} :: !Accepted(n, rand, 0, k))
       <==> n < 2 || n == 4 || (n > 4 && NoLiars(n))
  {
    hide NoLiars;
    if n > 4 {
      LiarsIff(n);
      hide Passes, Tested;
      if HasLiar(n) {
        var a :| 2 <= a <= n - 3 && Passes(n, a);
        Accepting(n, a, k);
      } else {
        forall rand: nat -> U64 {:trigger Accepted(n, rand, 0, k)}
          ensures !Accepted(n, rand, 0, k)
        {
          TestedExact(n, 2 + rand(0) % (n - 4));
          assert !Tested(n, 2 + rand(0) % (n - 4));
        }
      }
    } else {
      var rand: nat -> U64 := (_: nat) => 0 as U64;
      assert Accepted(n, rand, 0, k) <==> n == 2 || n == 3;
    }
  }

  lemma Accepting(n: nat, a: nat, k: nat)
    requires 4 < n <= TWO32 && 2 <= a <= n - 3 && Passes(n, a)
    ensures exists rand: nat -> U64 {:trigger Accepted(n, rand, 0, k)} :: Accepted(n, rand, 0, k)
  {
    TestedExact(n, a);
    hide Passes, Tested;
    var r: U64 := a - 2;
    RemainderUnique(r, 0, r, n - 4);
    var rand: nat -> U64 := (_: nat) => r;
    assert forall j {:trigger rand(j)} :: 0 <= j < k ==> Tested(n, 2 + rand(j) % (n - 4));
    assert Accepted(n, rand, 0, k);
  }

  lemma CubeOfNine()
    ensures Pow(9, 3) == 729
  {
    assert Pow(9, 3) == 9 * (9 * (9 * Pow(9, 0)));
  }

  lemma NinePasses()
    ensures Passes(28, 9)
  {
    assert OddPart(27) == 27;
    CubeOfNine();
    hide Pow, OddPart;
    OnesMultiple(9, 3, 9, 28);
    SquaredZero(28, 9);
  }

  lemma SharedBySeven()
    ensures Shared(28, 7, 3) && !Prime(28)
  {
    assert 28 % 2 == 0 && 28 % 7 == 0 && 27 % 3 == 0 && 6 % 3 == 0;
    assert Prime(3) && Prime(7);
  }

  // An even number that fails the condition: 28 passes to base 9, for 3 divides 27 and 7 - 1.
  lemma EvenMayPass(k: nat, rand: nat -> U64)
    requires forall i {:trigger rand(i)} :: 0 <= i < k ==> rand(i) == 7
    ensures Accepted(28, rand, 0, k) && !Prime(28) && Shared(28, 7, 3)
  {
    hide Passes, Tested, OddPart, Pow;
    NinePasses();
    SharedBySeven();
    TestedExact(28, 9);
    forall j {:trigger rand(j)} | 0 <= j < k
      ensures Tested(28, 2 + rand(j) % 24)
    {
      assert rand(j) == 7;
    }
  }
}

/**
 The primality test of Tools.cpp (lines 27 to 116) on 64-bit words: power, millerTest,
 isPrime and nextPrime.  A word product wraps around before the remainder is taken.
 */
module Primes {
  import opened IntPower
  import opened Fermat

  const TWO32: nat := 0x1_0000_0000
  const TWO64: nat := 0x1_0000_0000_0000_0000

  type U64 = x: nat | x < 0x1_0000_0000_0000_0000

  // (a * b) % p on words
  function MulMod(a: nat, b: nat, p: nat): (r: nat)
    requires p > 0
    ensures r < p
  {
    (a * b) % TWO64 % p
  }

  // ---------- power ----------

  // What the loop of power computes from its variables.
  function PowerFrom(res: nat, x: nat, y: nat, p: nat): nat
    requires p > 0
    decreases y
  {
    if y == 0 then res else PowerFrom(if y % 2 == 1 then MulMod(res, x, p) else res, MulMod(x, x, p), y / 2, p)
  }

  // The moduli for which no product that matters wraps around.
  predicate Exact(p: nat) {
    p > 1 && (p <= TWO32 || TWO64 % p == 0)
  }

  method Power(x: U64, y: U64, p: U64) returns (res: U64)
    requires p > 0
    ensures res == PowerFrom(1, x % p, y, p)
    ensures Exact(p) ==> res == Pow(x, y) % p
  {
    hide Pow, MulMod;
    res := 1;
    var x': nat, y': nat := x % p, y;
    while y' > 0
      invariant PowerFrom(res, x', y', p) == PowerFrom(1, x % p, y, p)
    {
      if y' % 2 == 1 {
        res := MulMod(res, x', p);
      }
      y' := y' / 2;
      x' := MulMod(x', x', p);
    }
    if Exact(p) {
      PowerIsExact(x, y, p);
    }
  }

  lemma ProductsExact(a: nat, b: nat, p: nat)
    requires Exact(p) && a < p && b < p
    ensures MulMod(a, b, p) == a * b % p
  {
    hide MulMod;
    if p <= TWO32 {
      NoWrap(a, b, p);
    } else {
      Wraps(a, b, p);
    }
  }

  lemma NoWrap(a: nat, b: nat, p: nat)
    requires a < p <= TWO32 && b < p
    ensures MulMod(a, b, p) == a * b % p
  {
    Bounded(a, b, TWO32);
    var x := a * b;
    RemainderUnique(x, 0, x, TWO64);
  }

  lemma Wraps(a: nat, b: nat, p: nat)
    requires p > 0 && TWO64 % p == 0
    ensures MulMod(a, b, p) == a * b % p
  {
    WrapIsMultiple(a * b, p);
  }

  // Dropping multiples of 2^64 keeps the remainder modulo its divisors.
  lemma WrapIsMultiple(x: nat, p: nat)
    requires p > 0 && TWO64 % p == 0
    ensures x % TWO64 % p == x % p
  {
    var q, r, m := x / TWO64, x % TWO64, TWO64 / p;
    assert x == q * TWO64 + r;
    DivisorOf(TWO64, m, p);
    assert q * (m * p) == (q * m) * p;
    AddMultiple(r, q * m, p);
  }

  lemma DivisorOf(x: nat, m: nat, p: nat)
    requires p > 0 && x % p == 0 && m == x / p
    ensures x == m * p
  {
  }

  lemma Bounded(a: nat, b: nat, m: nat)
    requires a < m && b < m
    ensures a * b < m * m
  {
    assert a * b <= a * m && (m - a) * m > 0;
  }

  lemma {:induction false} PowerFromExact(res: nat, x: nat, y: nat, p: nat)
    requires Exact(p) && res < p && x < p
    ensures PowerFrom(res, x, y, p) == res * Pow(x, y) % p
    decreases y
  {
    if y == 0 {
      RemainderUnique(res, 0, res, p);
      PowZero(x);
    } else {
      hide Pow;
      var res', x', k := if y % 2 == 1 then MulMod(res, x, p) else res, MulMod(x, x, p), y / 2;
      ProductsExact(res, x, p);
      ProductsExact(x, x, p);
      PowerFromExact(res', x', k, p);
      Absorb(res, x, y);
      PowRemainder(x * x, k, p);
      var full := if y % 2 == 1 then res * x else res;
      RemainderUnique(res, 0, res, p);
      ProductRemainder(full, Pow(x', k), p);
      ProductRemainder(full, Pow(x * x, k), p);
    }
  }

  lemma PowerIsExact(x: nat, y: nat, p: nat)
    requires Exact(p)
    ensures PowerFrom(1, x % p, y, p) == Pow(x, y) % p
  {
    PowerFromExact(1, x % p, y, p);
    PowRemainder(x, y, p);
    OneTimes(Pow(x % p, y));
  }

  // power is exact on all inputs for exactly these moduli.
  lemma PowerExactIff(p: U64)
    requires p > 0
    ensures (forall x: U64, y: U64 {:trigger PowerFrom(1, x % p, y, p)} :: PowerFrom(1, x % p, y, p) == Pow(x, y) % p) <==> Exact(p)
  {
    hide PowerFrom, Pow;
    if Exact(p) {
      forall x: U64, y: U64 {:trigger PowerFrom(1, x % p, y, p)}
        ensures PowerFrom(1, x % p, y, p) == Pow(x, y) % p
      {
        PowerIsExact(x, y, p);
      }
    } else {
      var x: U64, y: U64 := if p == 1 then 0 else TWO32, if p == 1 then 0 else 2;
      PowerFails(p, x, y);
    }
  }

  lemma PowerFails(p: U64, x: U64, y: U64)
    requires p > 0 && !Exact(p)
    requires if p == 1 then x == y == 0 else x == TWO32 && y == 2
    ensures PowerFrom(1, x % p, y, p) != Pow(x, y) % p
  {
    if p > 1 {
      RemainderUnique(TWO32, 0, TWO32, p);
      assert MulMod(TWO32, TWO32, p) == 0 by {
        RemainderUnique(0, 0, 0, p);
      }
      assert PowerFrom(1, TWO32, 2, p) == PowerFrom(1, 0, 1, p) == PowerFrom(MulMod(1, 0, p), MulMod(0, 0, p), 0, p);
      RemainderUnique(0, 0, 0, p);
      assert Pow(TWO32, 2) == TWO32 * (TWO32 * Pow(TWO32, 0)) == TWO64;
    } else {
      assert Pow(0, 0) == 1;
    }
  }

  // ---------- the test of Miller and Rabin ----------

  // The odd part of m, and how often 2 divides it.
  function OddPart(m: nat): (d: nat)
    requires m > 0
    ensures d > 0 && d % 2 == 1
  {
    if m % 2 == 0 then OddPart(m / 2) else m
  }

  function Twos(m: nat): nat
    requires m > 0
  {
    if m % 2 == 0 then 1 + Twos(m / 2) else 0
  }

  lemma {:induction false} OddTimesTwos(m: nat)
    requires m > 0
    ensures m == OddPart(m) * Pow(2, Twos(m))
  {
    if m % 2 == 0 {
      OddTimesTwos(m / 2);
      assert m == 2 * (OddPart(m) * Pow(2, Twos(m / 2)));
    } else {
      assert Pow(2, 0) == 1;
    }
  }

  // a^(d * 2^j) % n for the odd part d of n - 1.
  function Squared(n: nat, a: nat, j: nat): nat
    requires n > 1
  {
    Pow(a, OddPart(n - 1) * Pow(2, j)) % n
  }

  // n passes the test to base a.
  ghost predicate Passes(n: nat, a: nat)
    requires n > 1
  {
    Squared(n, a, 0) == 1 || exists j {:trigger Squared(n, a, j)} :: 0 <= j <= Twos(n - 1) && Squared(n, a, j) == n - 1
  }

  lemma SquaredNext(n: nat, a: nat, j: nat)
    requires n > 1
    ensures Squared(n, a, j + 1) == Squared(n, a, j) * Squared(n, a, j) % n
  {
    hide Pow, OddPart;
    var e := OddPart(n - 1) * Pow(2, j);
    assert OddPart(n - 1) * Pow(2, j + 1) == e + e by {
      PowSum(2, j, 1);
      PowOne(2);
      assert OddPart(n - 1) * (Pow(2, j) * 2) == OddPart(n - 1) * Pow(2, j) * 2;
    }
    PowSum(a, e, e);
    ProductRemainder(Pow(a, e), Pow(a, e), n);
    ProductRemainder(Pow(a, e) % n, Pow(a, e), n);
  }

  lemma PowOne(x: nat)
    ensures Pow(x, 1) == x
  {
    assert Pow(x, 1) == x * Pow(x, 0);
  }

  // What the words of the test hold after j squarings: with every product wrapped.
  function Chain(n: nat, a: nat, j: nat): (x: nat)
    requires n > 1
  {
    if j == 0 then PowerFrom(1, a % n, OddPart(n - 1), n) else MulMod(Chain(n, a, j - 1), Chain(n, a, j - 1), n)
  }

  // The code's answer for base a.
  ghost predicate Tested(n: nat, a: nat)
    requires n > 1
  {
    Chain(n, a, 0) == 1 || exists j {:trigger Chain(n, a, j)} :: 0 <= j <= Twos(n - 1) && Chain(n, a, j) == n - 1
  }

  // Once 1, always 1.
  lemma {:induction false} OnesStay(n: nat, a: nat, i: nat, j: nat)
    requires n > 1 && i <= j && Chain(n, a, i) == 1
    ensures Chain(n, a, j) == 1
    decreases j
  {
    if i < j {
      OnesStay(n, a, i, j - 1);
      RemainderUnique(1, 0, 1, n);
    }
  }

  method MillerTest(d: U64, r: U64, n: U64) returns (ok: bool)
    requires n > 4 && d == OddPart(n - 1)
    ensures ok <==> Tested(n, 2 + r % (n - 4))
  {
    hide Pow, OddPart, Twos, MulMod, PowerFrom;
    var a: nat := 2 + r % (n - 4);
    OddTimesTwos(n - 1);
    var x := Power(a, d, n);
    if x == 1 || x == n - 1 {
      return true;
    }
    var d', x' := d, x;
    ghost var j, s := 0, Twos(n - 1);
    DoublingStart(d, s, n - 1);
    while d' != n - 1
      invariant j <= s && Doubled(d', s - j, n - 1)
      invariant x' == Chain(n, a, j) != 1 && Chain(n, a, 0) != 1
      invariant forall i {:trigger Chain(n, a, i)} :: 0 <= i <= j ==> Chain(n, a, i) != n - 1
      decreases s - j
    {
      DoublingStep(d', s - j, n - 1);
      x' := MulMod(x', x', n);
      d' := d' * 2;
      j := j + 1;
      if x' == 1 {
        NoneAfterOne(n, a, j);
        return false;
      }
      if x' == n - 1 {
        return true;
      }
    }
    DoublingEnd(s - j, n - 1);
    return false;
  }

  lemma NoneAfterOne(n: nat, a: nat, j: nat)
    requires n > 4 && Chain(n, a, j) == 1 && Chain(n, a, 0) != 1
    requires forall i {:trigger Chain(n, a, i)} :: 0 <= i < j ==> Chain(n, a, i) != n - 1
    ensures !Tested(n, a)
  {
    hide Chain;
    forall i {:trigger Chain(n, a, i)} | 0 <= i <= Twos(n - 1)
      ensures Chain(n, a, i) != n - 1
    {
      if i >= j {
        OnesStay(n, a, j, i);
      }
    }
  }

  // Where no product wraps the words are the powers.
  lemma {:induction false} ChainExact(n: nat, a: nat, j: nat)
    requires 1 < n <= TWO32
    ensures Chain(n, a, j) == Squared(n, a, j)
  {
    hide Pow, OddPart, PowerFrom, MulMod;
    if j == 0 {
      PowerIsExact(a, OddPart(n - 1), n);
      SquaredZero(n, a);
    } else {
      ChainExact(n, a, j - 1);
      SquaredBelow(n, a, j - 1);
      ProductsExact(Squared(n, a, j - 1), Squared(n, a, j - 1), n);
      SquaredNext(n, a, j - 1);
    }
  }

  lemma TestedExact(n: nat, a: nat)
    requires 1 < n <= TWO32
    ensures Tested(n, a) <==> Passes(n, a)
  {
    hide Chain, Squared;
    forall j {:trigger Chain(n, a, j)} {:trigger Squared(n, a, j)} | 0 <= j
      ensures Chain(n, a, j) == Squared(n, a, j)
    {
      ChainExact(n, a, j);
    }
  }

  lemma SquaredZero(n: nat, a: nat)
    requires n > 1
    ensures Squared(n, a, 0) == Pow(a, OddPart(n - 1)) % n
  {
    assert OddPart(n - 1) * Pow(2, 0) == OddPart(n - 1);
  }

  lemma SquaredBelow(n: nat, a: nat, j: nat)
    requires n > 1
    ensures Squared(n, a, j) < n
  {
    hide Pow, OddPart;
  }

  // d * 2^k == m
  ghost predicate Doubled(d: nat, k: nat, m: nat) {
    d * Pow(2, k) == m
  }

  lemma DoublingStart(d: nat, k: nat, m: nat)
    requires d * Pow(2, k) == m
    ensures Doubled(d, k, m)
  {
  }

  lemma {:induction false} PowPositive(k: nat)
    ensures Pow(2, k) > 0
  {
    if k > 0 {
      PowPositive(k - 1);
    }
  }

  lemma DoublingStep(d: nat, k: nat, m: nat)
    requires Doubled(d, k, m) && d != m
    ensures k > 0 && Doubled(2 * d, k - 1, m) && 2 * d <= m
  {
    PowZero(2);
    if k > 0 {
      PowPositive(k - 1);
      assert d * (2 * Pow(2, k - 1)) == (2 * d) * Pow(2, k - 1);
      Magnified(2 * d, Pow(2, k - 1));
    }
  }

  lemma Magnified(x: nat, y: nat)
    requires y > 0
    ensures x <= x * y
  {
    assert x * y == x * (y - 1) + x;
  }

  lemma DoublingEnd(k: nat, m: nat)
    requires Doubled(m, k, m) && m > 0
    ensures k == 0
  {
    PowPositive(k);
    OneFactor(m, Pow(2, k));
    PowPositive(if k > 0 then k - 1 else 0);
  }

  lemma OneFactor(m: nat, p: nat)
    requires m > 0 && m * p == m
    ensures p == 1
  {
    assert m * p == m * (p - 1) + m;
  }

  // ---------- what the test decides ----------

  lemma {:induction false} Descend(n: nat, a: nat, j: nat)
    requires Prime(n) && 0 < a < n && Squared(n, a, j) == 1
    ensures Squared(n, a, 0) == 1 || exists i {:trigger Squared(n, a, i)} :: 0 <= i < j && Squared(n, a, i) == n - 1
  {
    if j > 0 {
      hide Squared, Prime;
      SquaredNext(n, a, j - 1);
      var y := Squared(n, a, j - 1);
      SquaredBelow(n, a, j - 1);
      if y == 0 {
        RemainderUnique(0, 0, 0, n);
      }
      RootsOfUnity(n, y);
      if y == 1 {
        Descend(n, a, j - 1);
      }
    }
  }

  lemma PrimePasses(n: nat, a: nat)
    requires Prime(n) && 0 < a < n
    ensures Passes(n, a)
  {
    FermatUnit(a, n);
    OddTimesTwos(n - 1);
    Descend(n, a, Twos(n - 1));
  }

  // A power of a divisor of n is divisible by it.
  lemma DivisorFails(n: nat, a: nat, e: nat)
    requires 1 < a < n && n % a == 0 && e > 0
    ensures Pow(a, e) % n != 1 && Pow(a, e) % n != n - 1
  {
    var x, y := Pow(a, e), Pow(a, e - 1);
    assert x == a * y;
    hide Pow;
    RemainderOfMultiple(a, y, n);
    RemainderUnique(1, 0, 1, a);
    DivisorOf(n, n / a, a);
    RemainderUnique(n - 1, n / a - 1, a - 1, a);
  }

  lemma RemainderOfMultiple(a: nat, y: nat, n: nat)
    requires a > 0 && n > 0 && n % a == 0
    ensures (a * y) % n % a == 0
  {
    var q, k, r := a * y / n, n / a, (a * y) % n;
    DivisorOf(n, k, a);
    assert a * y == q * n + r;
    assert q * (k * a) == (q * k) * a;
    assert r == 0 + (y - q * k) * a;
    AddMultiple(0, y - q * k, a);
  }

  lemma DivisorIsWitness(n: nat, a: nat)
    requires 1 < a < n && n % a == 0
    ensures !Passes(n, a)
  {
    hide Pow;
    forall j {:trigger Squared(n, a, j)} | 0 <= j
      ensures Squared(n, a, j) != 1 && Squared(n, a, j) != n - 1
    {
      PowPositive(j);
      Magnified(OddPart(n - 1), Pow(2, j));
      DivisorFails(n, a, OddPart(n - 1) * Pow(2, j));
    }
  }

  // Bases outside [2, n - 3] are never tried, and none is needed.
  lemma SmallDivisor(n: nat, a: nat)
    requires n > 4 && 1 < a < n && n % a == 0
    ensures a <= n - 3
  {
    var k := n / a;
    DivisorOf(n, k, a);
    Magnitude(k - 2, a);
    Magnitude(k - 1, a);
    assert (k - 1) * a == n - a && (k - 2) * a == n - 2 * a;
  }

  lemma PrimeIffAllPass(n: nat)
    requires n > 4
    ensures Prime(n) <==> forall a {:trigger Passes(n, a)} :: 2 <= a <= n - 3 ==> Passes(n, a)
  {
    hide Passes;
    if Prime(n) {
      forall a {:trigger Passes(n, a)} | 2 <= a <= n - 3
        ensures Passes(n, a)
      {
        PrimePasses(n, a);
      }
    } else {
      var a :| 1 < a < n && n % a == 0;
      SmallDivisor(n, a);
      DivisorIsWitness(n, a);
    }
  }

  // ---------- isPrime and nextPrime ----------

  // What isPrime answers when its k words from the stream start at position at.
  ghost predicate Accepted(n: nat, rand: nat -> U64, at: nat, k: nat) {
    n == 2 || n == 3 || (n > 4 && forall j {:trigger rand(j)} :: at <= j < at + k ==> Tested(n, 2 + rand(j) % (n - 4)))
  }

  // Round i tests the base made of word i.  Up to 2^32 the answer is yes exactly if n passes to
  // all k bases; the words after the first base that fails are left in the stream.
  method IsPrime(n: U64, rand: nat -> U64, at: nat, k: nat) returns (ok: bool, next: nat)
    ensures ok <==> Accepted(n, rand, at, k)
    ensures n <= 4 ==> next == at && (ok <==> n == 2 || n == 3)
    ensures 4 < n <= TWO32 ==> (ok <==> forall j {:trigger rand(j)} :: at <= j < at + k ==> Passes(n, 2 + rand(j) % (n - 4)))
    ensures n > 4 && ok ==> next == at + k
    ensures n > 4 && !ok ==> at < next <= at + k && !Tested(n, 2 + rand(next - 1) % (n - 4))
    ensures n > 4 && !ok ==> forall j {:trigger rand(j)} :: at <= j < next - 1 ==> Tested(n, 2 + rand(j) % (n - 4))
  {
    hide Tested, OddPart, Passes;
    next := at;
    if n <= 1 || n == 4 {
      return false, next;
    }
    if n <= 3 {
      return true, next;
    }
    var d: nat := n - 1;
    while d % 2 == 0
      invariant 0 < d <= n - 1 && OddPart(d) == OddPart(n - 1)
      decreases d
    {
      OddHalf(d);
      d := d / 2;
    }
    OddHalf(d);
    ok, next := Trials(n, d, rand, at, k);
    if n <= TWO32 {
      RoundsExact(n, rand, at, k);
    }
  }

  // No product of a round wraps up to 2^32.
  lemma RoundsExact(n: nat, rand: nat -> U64, at: nat, k: nat)
    requires 4 < n <= TWO32
    ensures Accepted(n, rand, at, k) <==> forall j {:trigger rand(j)} :: at <= j < at + k ==> Passes(n, 2 + rand(j) % (n - 4))
  {
    hide Tested, Passes;
    forall j: nat {:trigger rand(j)}
      ensures Tested(n, 2 + rand(j) % (n - 4)) <==> Passes(n, 2 + rand(j) % (n - 4))
    {
      TestedExact(n, 2 + rand(j) % (n - 4));
    }
  }

  method Trials(n: U64, d: U64, rand: nat -> U64, at: nat, k: nat) returns (ok: bool, next: nat)
    requires n > 4 && d == OddPart(n - 1)
    ensures ok <==> forall j {:trigger rand(j)} :: at <= j < at + k ==> Tested(n, 2 + rand(j) % (n - 4))
    ensures ok ==> next == at + k
    ensures !ok ==> at < next <= at + k && !Tested(n, 2 + rand(next - 1) % (n - 4))
    ensures !ok ==> forall j {:trigger rand(j)} :: at <= j < next - 1 ==> Tested(n, 2 + rand(j) % (n - 4))
  {
    hide Tested, OddPart;
    var i := 0;
    while i < k
      invariant i <= k
      invariant forall j {:trigger rand(j)} :: at <= j < at + i ==> Tested(n, 2 + rand(j) % (n - 4))
    {
      var pass := MillerTest(d, rand(at + i), n);
      if !pass {
        return false, at + i + 1;
      }
      i := i + 1;
    }
    return true, at + i;
  }

  lemma OddHalf(d: nat)
    requires d > 0
    ensures d % 2 == 0 ==> OddPart(d) == OddPart(d / 2)
    ensures d % 2 == 1 ==> OddPart(d) == d
  {
  }

  // A base that fails rejects.
  lemma Rejecting(n: nat, a: nat, k: nat)
    requires 4 < n < TWO64 && 2 <= a <= n - 3 && !Tested(n, a) && k > 0
    ensures exists rand: nat -> U64 {:trigger Accepted(n, rand, 0, k)} :: !Accepted(n, rand, 0, k)
  {
    hide Tested;
    var r: U64 := a - 2;
    RemainderUnique(r, 0, r, n - 4);
    var rand: nat -> U64 := (_: nat) => r;
    assert rand(0) == r;
    assert !Accepted(n, rand, 0, k);
  }

  // ---------- past the last exact modulus ----------

  lemma {:induction false} ZeroStays(res: nat, y: nat, p: nat)
    requires p > 0 && y > 0
    ensures PowerFrom(res, 0, y, p) == 0
    decreases y
  {
    RemainderUnique(0, 0, 0, p);
    var res' := if y % 2 == 1 then MulMod(res, 0, p) else res;
    assert PowerFrom(res, 0, y, p) == PowerFrom(res', 0, y / 2, p);
    if y > 1 {
      ZeroStays(res', y / 2, p);
    }
  }

  // Base 2^32, whose square wraps around to 0.
  lemma {:induction false} LargeChain(n: nat, j: nat)
    requires TWO32 + 3 <= n
    ensures Chain(n, TWO32, j) == 0 || (j == 0 && Chain(n, TWO32, j) == TWO32)
  {
    RemainderUnique(0, 0, 0, n);
    assert MulMod(TWO32, TWO32, n) == 0;
    if j == 0 {
      RemainderUnique(TWO32, 0, TWO32, n);
      var d := OddPart(n - 1);
      hide OddPart;
      assert PowerFrom(1, TWO32, d, n) == PowerFrom(TWO32, 0, d / 2, n);
      if d > 1 {
        ZeroStays(TWO32, d / 2, n);
      }
    } else {
      LargeChain(n, j - 1);
    }
  }

  lemma LargeFails(n: nat)
    requires TWO32 + 3 <= n
    ensures !Tested(n, TWO32)
  {
    hide Chain;
    forall j {:trigger Chain(n, TWO32, j)} | 0 <= j
      ensures Chain(n, TWO32, j) == 0 || Chain(n, TWO32, j) == TWO32
    {
      LargeChain(n, j);
    }
  }

  // A divisor g of n divides a product with a multiple of g, if the wrap-around spares it.
  lemma DivisorKept(g: nat, x: nat, y: nat, n: nat)
    requires g > 0 && n > 0 && n % g == 0 && x % g == 0 && (TWO64 % g == 0 || x * y < TWO64)
    ensures MulMod(x, y, n) % g == 0
  {
    MultipleTimes(x, y, g);
    var w := x * y;
    if TWO64 % g == 0 {
      WrapIsMultiple(w, g);
    } else {
      RemainderUnique(w, 0, w, TWO64);
    }
    var v := w % TWO64;
    var q, k := v / n, n / g;
    DivisorOf(n, k, g);
    assert v == q * n + v % n && q * (k * g) == (q * k) * g;
    AddMultiple(v % n, q * k, g);
  }

  // The words are below n, and a multiple of g is below n - 1.
  ghost predicate Spared(g: nat, n: nat) {
    g > 1 && n > 1 && n % g == 0 && (TWO64 % g == 0 || (n == TWO32 + 1 && g == 641))
  }

  lemma SparedKept(g: nat, x: nat, y: nat, n: nat)
    requires Spared(g, n) && x % g == 0 && x < n && y < n
    ensures MulMod(x, y, n) % g == 0
  {
    if TWO64 % g != 0 {
      assert x != TWO32;
      SmallProduct(x, y);
    }
    DivisorKept(g, x, y, n);
  }

  lemma SmallProduct(x: nat, y: nat)
    requires x < TWO32 && y <= TWO32
    ensures x * y < TWO64
  {
    assert x * y <= x * TWO32 < TWO32 * TWO32;
  }

  lemma {:induction false} SparedPower(g: nat, res: nat, x: nat, y: nat, n: nat)
    requires Spared(g, n) && x % g == 0 && x < n && res < n && (y > 0 || res % g == 0)
    ensures PowerFrom(res, x, y, n) % g == 0
    decreases y
  {
    if y > 0 {
      SparedKept(g, x, x, n);
      MulCommutes(res, x, n);
      SparedKept(g, x, res, n);
      hide MulMod;
      SparedPower(g, if y % 2 == 1 then MulMod(res, x, n) else res, MulMod(x, x, n), y / 2, n);
    }
  }

  lemma MulCommutes(x: nat, y: nat, n: nat)
    requires n > 0
    ensures MulMod(x, y, n) == MulMod(y, x, n)
  {
    assert x * y == y * x;
  }

  lemma {:induction false} SparedChain(g: nat, n: nat, j: nat)
    requires Spared(g, n) && g < n
    ensures Chain(n, g, j) % g == 0 && Chain(n, g, j) < n
  {
    hide OddPart, MulMod;
    if j == 0 {
      RemainderUnique(g, 0, g, n);
      RemainderUnique(g, 1, 0, g);
      SparedPower(g, 1, g, OddPart(n - 1), n);
      PowerBelow(1, g, OddPart(n - 1), n);
    } else {
      SparedChain(g, n, j - 1);
      SparedKept(g, Chain(n, g, j - 1), Chain(n, g, j - 1), n);
    }
  }

  lemma {:induction false} PowerBelow(res: nat, x: nat, y: nat, p: nat)
    requires res < p
    ensures PowerFrom(res, x, y, p) < p
    decreases y
  {
    hide MulMod;
    if y > 0 {
      PowerBelow(if y % 2 == 1 then MulMod(res, x, p) else res, MulMod(x, x, p), y / 2, p);
    }
  }

  lemma SparedFails(g: nat, n: nat)
    requires Spared(g, n) && 1 < g < n
    ensures !Tested(n, g)
  {
    hide Chain, Spared;
    RemainderUnique(1, 0, 1, g);
    LastRemainder(n, g);
    forall j {:trigger Chain(n, g, j)} | 0 <= j
      ensures Chain(n, g, j) % g == 0
    {
      SparedChain(g, n, j);
    }
  }

  lemma LastRemainder(n: nat, g: nat)
    requires Spared(g, n)
    ensures (n - 1) % g != 0
  {
    DivisorOf(n, n / g, g);
    RemainderUnique(n - 1, n / g - 1, g - 1, g);
  }

  // Past 2^32 some base fails, whether n is prime or not.
  lemma SomeBaseFails(n: nat) returns (a: nat)
    requires n > TWO32
    ensures 2 <= a <= n - 3 && !Tested(n, a)
  {
    if n == TWO32 + 1 {
      a := 641;
      SparedFails(641, n);
    } else if n == TWO32 + 2 {
      a := 2;
      SparedFails(2, n);
    } else {
      a := TWO32;
      LargeFails(n);
    }
  }

  // Over all 64-bit numbers: accepted whatever the bases are exactly the primes up to 2^32.
  // A larger prime is rejected for some bases, a smaller composite number for some.
  lemma AcceptedIffPrime(n: nat, k: nat)
    requires k > 0 && n < TWO64
    ensures (forall rand: nat -> U64 {:trigger Accepted(n, rand, 0, k)} :: Accepted(n, rand, 0, k)) <==> Prime(n) && n <= TWO32
  {
    hide Passes, Tested, Prime;
    if n > TWO32 {
      var a := SomeBaseFails(n);
      Rejecting(n, a, k);
    } else if n > 4 {
      PrimeIffAllPass(n);
      if Prime(n) {
        forall rand: nat -> U64 {:trigger Accepted(n, rand, 0, k)}
          ensures Accepted(n, rand, 0, k)
        {
          PrimeAccepted(n, rand, 0, k);
        }
      } else {
        var a :| 2 <= a <= n - 3 && !Passes(n, a);
        TestedExact(n, a);
        Rejecting(n, a, k);
      }
    } else {
      SmallPrimes(n);
      assert forall rand: nat -> U64 {:trigger Accepted(n, rand, 0, k)} :: Accepted(n, rand, 0, k) <==> n == 2 || n == 3;
      var rand: nat -> U64 := (_: nat) => 0 as U64;
      assert Accepted(n, rand, 0, k) <==> n == 2 || n == 3;
    }
  }

  lemma SmallPrimes(n: nat)
    requires n <= 4
    ensures Prime(n) <==> n == 2 || n == 3
  {
    if n == 4 {
      assert n % 2 == 0;
    }
  }

  lemma PrimeAccepted(n: nat, rand: nat -> U64, at: nat, k: nat)
    requires Prime(n) && n <= TWO32
    ensures Accepted(n, rand, at, k)
  {
    hide Passes, Tested;
    if n <= 4 {
      SmallPrimes(n);
    } else {
      PrimeIffAllPass(n);
      forall j {:trigger rand(j)} | at <= j < at + k
        ensures Tested(n, 2 + rand(j) % (n - 4))
      {
        assert Passes(n, 2 + rand(j) % (n - 4));
        TestedExact(n, 2 + rand(j) % (n - 4));
      }
    }
  }

  // A composite number may be accepted whatever the number of rounds: 25 passes to base 7.
  lemma CompositeMayPass(k: nat, rand: nat -> U64)
    requires forall i {:trigger rand(i)} :: 0 <= i < k ==> rand(i) == 5
    ensures Accepted(25, rand, 0, k) && !Prime(25)
  {
    Squares25();
    hide Pow, Squared;
    assert 25 % 5 == 0 && Twos(24) == 3;
    assert Passes(25, 7);
    TestedExact(25, 7);
    hide Passes, Tested;
    forall j {:trigger rand(j)} | 0 <= j < k
      ensures Tested(25, 2 + rand(j) % 21)
    {
      assert rand(j) == 5;
    }
  }

  lemma Squares25()
    ensures Squared(25, 7, 1) == 24
  {
    SquaredNext(25, 7, 0);
    SquaredZero(25, 7);
    assert OddPart(24) == 3;
    hide Squared;
    assert Pow(7, 3) == 7 * Pow(7, 2) && Pow(7, 2) == 7 * Pow(7, 1);
    PowOne(7);
    assert Squared(25, 7, 0) == 18;
  }

  // The distance to 2, counting upwards with wrap-around.
  function ToTwo(n: nat): nat
    requires n < TWO64
  {
    if n <= 2 then 2 - n else TWO64 + 2 - n
  }

  // No prime below 2^32 is skipped; past the last word the search goes on from 0.  at[j] is
  // the position of the stream when candidate n + j is tested: each test goes on where the
  // one before it stopped.
  method NextPrime(n: U64, rand: nat -> U64) returns (r: U64, ghost at: seq<nat>)
    ensures forall q {:trigger Prime(q)} :: n <= q <= TWO32 && Prime(q) ==> n <= r <= q
    ensures Searched(n, rand, at) && r == (n + |at| - 1) % TWO64 && Accepted(r, rand, at[|at| - 1], 20)
  {
    hide Prime, Accepted, Tested, Passes, Searched, Rejected;
    SearchStart(n, rand);
    r, at := n, [0];
    RemainderUnique(n, 0, n, TWO64);
    var pos := 0;
    while true
      invariant forall q {:trigger Prime(q)} :: n <= q <= TWO32 && Prime(q) ==> n <= r <= q
      invariant |at| > 0 && at[|at| - 1] == pos && r == (n + |at| - 1) % TWO64 && Searched(n, rand, at)
      decreases ToTwo(r)
    {
      var ok, next := IsPrime(r, rand, pos, 20);
      if ok {
        return;
      }
      NotAccepted(r, rand, pos, 20);
      NextWord(n + |at| - 1);
      SearchStep(n, rand, at, r, next);
      pos := next;
      r := (r + 1) % TWO64;
      at := at + [pos];
    }
  }

  // n is rejected by the words from position at on, the last of which is before position next.
  ghost predicate Rejected(n: nat, rand: nat -> U64, at: nat, next: nat) {
    if n <= 4 then n != 2 && n != 3 && next == at
    else
      && at < next <= at + 20 && !Tested(n, 2 + rand(next - 1) % (n - 4))
      && forall j {:trigger rand(j)} :: at <= j < next - 1 ==> Tested(n, 2 + rand(j) % (n - 4))
  }

  // Every candidate but the last is rejected, and the next test starts where it ended.
  ghost predicate Searched(n: nat, rand: nat -> U64, at: seq<nat>) {
    |at| > 0 && at[0] == 0 && forall j {:trigger at[j]} :: 0 < j < |at| ==> Rejected((n + j - 1) % TWO64, rand, at[j - 1], at[j])
  }

  lemma SearchStart(n: nat, rand: nat -> U64)
    ensures Searched(n, rand, [0])
  {
  }

  // What isPrime leaves behind when it rejects r.
  lemma SearchStep(n: nat, rand: nat -> U64, at: seq<nat>, r: nat, next: nat)
    requires Searched(n, rand, at) && r == (n + |at| - 1) % TWO64
    requires r <= 4 ==> next == at[|at| - 1] && r != 2 && r != 3
    requires r > 4 ==> at[|at| - 1] < next <= at[|at| - 1] + 20 && !Tested(r, 2 + rand(next - 1) % (r - 4))
    requires r > 4 ==> forall j {:trigger rand(j)} :: at[|at| - 1] <= j < next - 1 ==> Tested(r, 2 + rand(j) % (r - 4))
    ensures Searched(n, rand, at + [next])
  {
    hide Tested;
  }

  lemma NextWord(m: nat)
    ensures (m % TWO64 + 1) % TWO64 == (m + 1) % TWO64
  {
    SumRemainder(m, 1, TWO64);
    RemainderUnique(1, 0, 1, TWO64);
  }

  lemma NotAccepted(n: nat, rand: nat -> U64, at: nat, k: nat)
    requires !Accepted(n, rand, at, k)
    ensures n <= TWO32 ==> !Prime(n) && n != 2
  {
    hide Prime;
    if n <= TWO32 && Prime(n) {
      PrimeAccepted(n, rand, at, k);
    }
  }
}

/**
 The length to which silent VOLE resizes its vectors: the power of three nearest on the
 logarithmic scale (SilentWalshVoleReceiver.h lines 523 to 529), on integers.
 */
module VoleLength {
  import opened Radix3
  import opened PprfPoints

  // k is log3(n) rounded: 3^(k - 1/2) <= n < 3^(k + 1/2), squared.
  predicate Rounds(n: nat, k: nat) {
    Pow3(2 * k) <= 3 * (n * n) && n * n < Pow3(2 * k + 1)
  }

  function RoundedLog3(n: nat): (k: nat)
    requires n > 0
    ensures Rounds(n, k)
  {
    assert n * n >= 1;
    RoundedFrom(n, 0)
  }

  function RoundedFrom(n: nat, k: nat): (r: nat)
    requires Pow3(2 * k) <= 3 * (n * n)
    ensures Rounds(n, r)
    decreases 3 * (n * n) - Pow3(2 * k)
  {
    if n * n < Pow3(2 * k + 1) then k
    else
      assert Pow3(2 * (k + 1)) == 3 * Pow3(2 * k + 1) == 9 * Pow3(2 * k);
      RoundedFrom(n, k + 1)
  }

  lemma {:induction false} Pow3Grows(j: nat, k: nat)
    requires j < k
    ensures Pow3(j) < Pow3(k)
  {
    if j < k - 1 {
      Pow3Grows(j, k - 1);
    }
  }

  // No other power is as near.
  lemma RoundsUnique(n: nat, j: nat, k: nat)
    requires n > 0 && Rounds(n, j) && Rounds(n, k)
    ensures j == k
  {
    if j != k {
      var lo, hi := if j < k then j else k, if j < k then k else j;
      assert Pow3(2 * lo + 2) == 3 * Pow3(2 * lo + 1);
      if lo + 1 < hi {
        Pow3Grows(2 * lo + 2, 2 * hi);
      }
    }
  }

  // The vector is cut and not grown: a power of three up to n that is within a factor of
  // the square root of three.
  ghost predicate SafeLength(n: nat) {
    exists m {:trigger Pow3(m)} :: 0 <= m && Pow3(m) <= n && n * n < Pow3(2 * m + 1)
  }

  lemma SafeLengthIff(n: nat)
    requires n > 0
    ensures SafeLength(n) <==> Pow3(RoundedLog3(n)) <= n
  {
    var k := RoundedLog3(n);
    if m :| 0 <= m && Pow3(m) <= n && n * n < Pow3(2 * m + 1) {
      SquareOfPower(m);
      Squares(Pow3(m), n);
      RoundsUnique(n, m, k);
    }
  }

  lemma {:induction false} SquareOfPower(m: nat)
    ensures Pow3(2 * m) == Pow3(m) * Pow3(m)
  {
    if m > 0 {
      SquareOfPower(m - 1);
      var p := Pow3(m - 1);
      assert Pow3(2 * m) == 3 * (3 * Pow3(2 * m - 2));
      assert (3 * p) * (3 * p) == 9 * (p * p);
    } else {
      assert Pow3(0) == 1;
    }
  }

  lemma Squares(x: nat, y: nat)
    requires x <= y
    ensures x * x <= y * y
  {
    assert x * x <= x * y <= y * y;
  }

  // The request sizes that both a configuration and the expansion let through.
  predicate Admissible(requestSize: nat) {
    requestSize > 0 && requestSize % 128 == 0
  }

  lemma AdmissibleDomain(requestSize: nat, g: Generator)
    requires Sound(g) && (Accepts(requestSize / PARTITIONS) ==> g.domain == requestSize / PARTITIONS && g.points == PARTITIONS)
    ensures Admissible(requestSize) <==> g.points == PARTITIONS && ExpandAccepts(g, requestSize)
  {
  }

  lemma AdmissibleAccepts(requestSize: nat)
    requires Admissible(requestSize)
    ensures Accepts(requestSize / PARTITIONS) && requestSize == (requestSize / PARTITIONS) * PARTITIONS && requestSize / PARTITIONS > 0
  {
  }

  lemma {:induction false} PowersOdd(m: nat)
    ensures Pow3(m) % 2 == 1
  {
    if m > 0 {
      PowersOdd(m - 1);
    }
  }

  // No admissible length is kept: the vector is either cut or grown.
  lemma NeverKept(n: nat)
    requires Admissible(n)
    ensures Pow3(RoundedLog3(n)) != n
  {
    PowersOdd(RoundedLog3(n));
  }

  // 640 entries grow to 729, 128 are cut to 81.
  lemma SmallLengths()
    ensures Admissible(640) && RoundedLog3(640) == 6 && Pow3(6) == 729 && !SafeLength(640)
    ensures Admissible(128) && RoundedLog3(128) == 4 && Pow3(4) == 81 && SafeLength(128)
  {
    SmallPowers();
    RoundsUnique(640, 6, RoundedLog3(640));
    RoundsUnique(128, 4, RoundedLog3(128));
    SafeLengthIff(640);
    SafeLengthIff(128);
  }

  lemma SmallPowers()
    ensures Pow3(4) == 81 && Pow3(6) == 729 && Pow3(8) == 6561 && Pow3(9) == 19683 && Pow3(12) == 531441 && Pow3(13) == 1594323
  {
    assert Pow3(2) == 9;
    assert Pow3(4) == 81;
    assert Pow3(6) == 729;
    assert Pow3(8) == 6561;
    assert Pow3(10) == 59049;
    assert Pow3(12) == 531441;
  }
}

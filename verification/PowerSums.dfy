/**
 Sums of equal powers modulo a prime, and why x^e == 1 cannot hold for every unit when
 0 < e < p - 1.
 */
module PowerSums {
  import opened IntPower
  import opened Fermat

  // 0^k + 1^k + ... + (m - 1)^k
  function PowerSum(k: nat, m: nat): nat {
    if m == 0 then 0 else PowerSum(k, m - 1) + Pow(m - 1, k)
  }

  // The first t + 1 terms of (x + 1)^n, summed over x < m.
  function ExpansionSum(n: nat, t: nat, m: nat): nat {
    if m == 0 then 0 else ExpansionSum(n, t, m - 1) + Expansion(m - 1, n, t)
  }

  lemma {:induction false} TermSum(n: nat, t: nat, m: nat)
    ensures ExpansionSum(n, t, m) == Choose(n, t) * PowerSum(t, m) + if t == 0 then 0 else ExpansionSum(n, t - 1, m)
  {
    SumNext(n, t, m);
    if t > 0 {
      SumNext(n, t - 1, m);
    }
    if m > 0 {
      TermSum(n, t, m - 1);
      ExpansionNext(m - 1, n, t);
      PowZero(m - 1);
      hide *;
      TermAdded(Choose(n, t), PowerSum(t, m - 1), Pow(m - 1, t));
    }
  }

  lemma SumNext(n: nat, t: nat, m: nat)
    ensures m > 0 ==> ExpansionSum(n, t, m) == ExpansionSum(n, t, m - 1) + Expansion(m - 1, n, t)
    ensures m > 0 ==> PowerSum(t, m) == PowerSum(t, m - 1) + Pow(m - 1, t)
    ensures ExpansionSum(n, t, 0) == PowerSum(t, 0) == 0
  {
  }

  lemma TermAdded(c: nat, s: nat, q: nat)
    ensures c * (s + q) == c * s + c * q
  {
  }

  // (x + 1)^n - x^n telescopes.
  lemma {:induction false} Telescope(n: nat, m: nat)
    requires n > 0
    ensures ExpansionSum(n, n - 1, m) == Pow(m, n)
  {
    if m > 0 {
      Telescope(n, m - 1);
      BinomialTheorem(m - 1, n);
      ChooseAll(n);
      ExpansionNext(m - 1, n, n);
    } else {
      assert Pow(0, n) == 0 * Pow(0, n - 1);
    }
  }

  lemma {:induction false} ChooseLast(k: nat)
    ensures Choose(k + 1, k) == k + 1
  {
    if k > 0 {
      ChooseLast(k - 1);
      ChooseAll(k);
    }
  }

  // Terms whose power sums vanish add up to nothing.
  lemma {:induction false} LowerTerms(p: nat, n: nat, t: nat)
    requires p > 0 && forall i {:trigger PowerSum(i, p)} :: 0 <= i <= t ==> PowerSum(i, p) % p == 0
    ensures ExpansionSum(n, t, p) % p == 0
  {
    hide Choose, PowerSum, ExpansionSum;
    TermSum(n, t, p);
    MultipleTimes(PowerSum(t, p), Choose(n, t), p);
    if t > 0 {
      LowerTerms(p, n, t - 1);
      SumRemainder(Choose(n, t) * PowerSum(t, p), ExpansionSum(n, t - 1, p), p);
    }
  }

  lemma {:induction false} SumsVanish(p: nat, k: nat)
    requires Prime(p) && k < p - 1
    ensures PowerSum(k, p) % p == 0
    decreases k
  {
    forall i {:trigger PowerSum(i, p)} | 0 <= i < k
      ensures PowerSum(i, p) % p == 0
    {
      SumsVanish(p, i);
    }
    TermSum(k + 1, k, p);
    Telescope(k + 1, p);
    ChooseLast(k);
    var lower := if k == 0 then 0 else ExpansionSum(k + 1, k - 1, p);
    if k > 0 {
      LowerTerms(p, k + 1, k - 1);
    } else {
      RemainderUnique(0, 0, 0, p);
    }
    LastSum(p, k, PowerSum(k, p), lower, Pow(p, k));
  }

  lemma LastSum(p: nat, k: nat, s: nat, lower: nat, top: nat)
    requires Prime(p) && k < p - 1 && lower % p == 0 && (k + 1) * s + lower == p * top
    ensures s % p == 0
  {
    AddMultiple(0 - lower, top, p);
    EqualRemainders(0, lower, p);
    RemainderUnique(0, 0, 0, p);
    assert (k + 1) * s == 0 - lower + top * p;
    Euclid(p, k + 1, s);
    RemainderUnique(k + 1, 0, k + 1, p);
  }

  // The residues whose power is 1, counted by their sum.
  lemma {:induction false} OnesCount(p: nat, e: nat, m: nat)
    requires 0 < m <= p && e > 0 && p > 1 && forall x {:trigger Pow(x, e)} :: 0 < x < p ==> Pow(x, e) % p == 1
    ensures PowerSum(e, m) % p == m - 1
  {
    if m == 1 {
      assert Pow(0, e) == 0 * Pow(0, e - 1);
      assert PowerSum(e, 0) == 0;
      RemainderUnique(0, 0, 0, p);
    } else {
      OnesCount(p, e, m - 1);
      hide Pow;
      var s, x := PowerSum(e, m - 1), Pow(m - 1, e);
      SumRemainder(s, x, p);
      SumRemainder(x, m - 2, p);
      RemainderUnique(m - 1, 0, m - 1, p);
    }
  }

  // Some unit has a power other than 1.
  lemma NotAllOnes(p: nat, e: nat) returns (g: nat)
    requires Prime(p) && 0 < e < p - 1
    ensures 0 < g < p && Pow(g, e) % p != 1
  {
    hide Pow, PowerSum, Prime;
    if forall x {:trigger Pow(x, e)} :: 0 < x < p ==> Pow(x, e) % p == 1 {
      OnesCount(p, e, p);
      SumsVanish(p, e);
      assert false;
    } else {
      g :| 0 < g < p && Pow(g, e) % p != 1;
    }
  }
}

/**
 F3x32 (FoleageUtils.h lines 29 to 121): 32 elements of Z_3 in two bits each, converted to
 and from integers in base 3, least significant trit first.
 */
module Trits {
  import opened Radix3
  import opened TransformLaws
  import opened GroupAlgebra
  import Fermat

  // The 32 two-bit fields of mVal.
  type F3x32 = d: seq<nat> | |d| == 32 && forall i :: 0 <= i < 32 ==> d[i] < 4 witness seq(32, _ => 0)

  // Every field is an element of Z_3.
  ghost predicate Proper(d: F3x32) {
    forall i {:trigger d[i]} :: 0 <= i < 32 ==> d[i] < 3
  }

  // The fields from n on are zero.
  ghost predicate Below(d: F3x32, n: nat) {
    forall i {:trigger d[i]} :: n <= i < 32 ==> d[i] == 0
  }

  // The value of the fields lo to hi - 1.
  function Value(d: F3x32, lo: nat, hi: nat): nat
    requires lo <= hi <= 32
    decreases hi - lo
  {
    if lo == hi then 0 else d[lo] + 3 * Value(d, lo + 1, hi)
  }

  method ToInt(d: F3x32) returns (r: nat)
    ensures r == Value(d, 0, 32)
    ensures Proper(d) ==> r < Pow3(32) && forall i {:trigger d[i]} :: 0 <= i < 32 ==> r / Pow3(i) % 3 == d[i]
  {
    r := 0;
    var i := 32;
    while i > 0
      invariant i <= 32 && r == Value(d, i, 32)
    {
      i := i - 1;
      r := r * 3;
      r := r + d[i];
    }
    if Proper(d) {
      hide Pow3, Value;
      ValueParts(d, 32);
      forall i: nat {:trigger d[i]} | i < 32
        ensures r / Pow3(i) % 3 == d[i]
      {
        DigitOfValue(d, 0, i);
        DropIs(r, i);
      }
    }
  }

  // v / 3^i
  function Drop(v: nat, i: nat): nat {
    if i == 0 then v else Drop(v, i - 1) / 3
  }

  function Digits(v: nat): (d: F3x32) {
    seq(32, i requires 0 <= i < 32 => Drop(v, i) % 3)
  }

  // Field i of the conversion is digit i in base 3.
  lemma {:induction false} DropIs(v: nat, i: nat)
    ensures Drop(v, i) == v / Pow3(i)
  {
    if i > 0 {
      DropIs(v, i - 1);
      ThirdOf(v, Pow3(i - 1));
    }
  }

  lemma ThirdOf(v: nat, p: nat)
    requires p > 0
    ensures v / p / 3 == v / (3 * p)
  {
    var q, r, t := v / p / 3, v / p % 3, v % p;
    assert v == v / p * p + t;
    TwoDigits(q, r, t, p);
    Fermat.RemainderUnique(v, q, r * p + t, 3 * p);
  }

  lemma TwoDigits(q: nat, r: nat, t: nat, p: nat)
    requires r < 3 && t < p
    ensures (3 * q + r) * p + t == q * (3 * p) + (r * p + t) && 0 <= r * p + t < 3 * p
  {
    assert r == 0 || r == 1 || r == 2;
  }

  method FromInt(v: nat) returns (d: F3x32)
    ensures d == Digits(v) && forall i {:trigger d[i]} :: 0 <= i < 32 ==> d[i] == v / Pow3(i) % 3
  {
    var digits := seq(32, _ => 0);
    var rest := v;
    var i := 0;
    while i < 32
      invariant i <= 32 && |digits| == 32 && rest == Drop(v, i)
      invariant forall q {:trigger digits[q]} :: 0 <= q < i ==> digits[q] == Drop(v, q) % 3
    {
      digits := digits[i := rest % 3];
      rest := rest / 3;
      i := i + 1;
    }
    assert digits == Digits(v);
    d := digits;
    forall i | 0 <= i < 32
      ensures d[i] == v / Pow3(i) % 3
    {
      DropIs(v, i);
    }
  }

  function Sum(t: F3x32, u: F3x32): F3x32 {
    seq(32, i requires 0 <= i < 32 => (t[i] + u[i]) % 3)
  }

  method Add(t: F3x32, u: F3x32) returns (r: F3x32)
    ensures r == Sum(t, u) && forall i {:trigger r[i]} :: 0 <= i < 32 ==> r[i] == (t[i] + u[i]) % 3
  {
    var digits := seq(32, _ => 0);
    var i := 0;
    while i < 32
      invariant i <= 32 && |digits| == 32
      invariant forall q {:trigger digits[q]} :: 0 <= q < i ==> digits[q] == (t[q] + u[q]) % 3
    {
      digits := digits[i := (t[i] + u[i]) % 3];
      i := i + 1;
    }
    assert digits == Sum(t, u);
    r := digits;
  }

  // ---------- conversions are inverse ----------

  lemma {:induction false} DropBound(v: nat, n: nat, i: nat)
    requires v < Pow3(n) && i <= n
    ensures Drop(v, i) < Pow3(n - i)
  {
    if i > 0 {
      DropBound(v, n, i - 1);
    }
  }

  lemma {:induction false} DropZero(v: nat, i: nat, j: nat)
    requires Drop(v, i) == 0 && i <= j
    ensures Drop(v, j) == 0
  {
    if i < j {
      DropZero(v, i, j - 1);
    }
  }

  lemma {:induction false} ValueOfDigits(v: nat, n: nat, lo: nat)
    requires v < Pow3(n) && lo <= n <= 32
    ensures Value(Digits(v), lo, n) == Drop(v, lo)
    decreases n - lo
  {
    DropBound(v, n, lo);
    if lo < n {
      ValueOfDigits(v, n, lo + 1);
    }
  }

  // An index below 3^n occupies the first n trits and converts back to itself.
  lemma FromIntToInt(v: nat, n: nat)
    requires v < Pow3(n) && n <= 32
    ensures Proper(Digits(v)) && Below(Digits(v), n) && Value(Digits(v), 0, n) == Value(Digits(v), 0, 32) == v
  {
    ValueOfDigits(v, n, 0);
    DropBound(v, n, n);
    forall i | n <= i < 32
      ensures Digits(v)[i] == 0
    {
      DropZero(v, n, i);
    }
    ValueBelow(Digits(v), 0, n, 32);
  }

  lemma {:induction false} ValueBelow(d: F3x32, lo: nat, n: nat, hi: nat)
    requires lo <= n <= hi <= 32 && Below(d, n)
    ensures Value(d, lo, hi) == Value(d, lo, n)
    decreases hi - lo
  {
    if lo < n {
      ValueBelow(d, lo + 1, n, hi);
    } else if lo < hi {
      ValueBelow(d, lo + 1, lo + 1, hi);
    }
  }

  // ---------- agreement with tritwise index arithmetic ----------

  // t * p for a trit t
  function Scaled(t: nat, p: nat): nat {
    if t == 0 then 0 else if t == 1 then p else if t == 2 then 2 * p else 3 * p
  }

  lemma {:induction false} ValueTop(d: F3x32, lo: nat, hi: nat)
    requires lo <= hi < 32
    ensures Value(d, lo, hi + 1) == Value(d, lo, hi) + Scaled(d[hi], Pow3(hi - lo))
    decreases hi - lo
  {
    if lo < hi {
      ValueTop(d, lo + 1, hi);
    }
  }

  lemma {:induction false} ValueParts(d: F3x32, n: nat)
    requires Proper(d) && n <= 32
    ensures Value(d, 0, n) < Pow3(n)
    ensures n > 0 ==> Top(n, Value(d, 0, n)) == d[n - 1] && Rest(n, Value(d, 0, n)) == Value(d, 0, n - 1)
  {
    if n > 0 {
      ValueParts(d, n - 1);
      ValueTop(d, 0, n - 1);
    }
  }

  // Every field is a digit of the value.
  lemma {:induction false} DigitOfValue(d: F3x32, lo: nat, i: nat)
    requires Proper(d) && lo + i < 32
    ensures Drop(Value(d, lo, 32), i) % 3 == d[lo + i]
    decreases i
  {
    if i > 0 {
      DigitOfValue(d, lo + 1, i - 1);
      DropFirst(Value(d, lo, 32), i);
    }
  }

  lemma {:induction false} DropFirst(v: nat, i: nat)
    requires i > 0
    ensures Drop(v, i) == Drop(v / 3, i - 1)
  {
    if i > 1 {
      DropFirst(v, i - 1);
    }
  }

  // Addition of F3x32 values is tritwise addition of their indices.
  lemma {:induction false} SumIsAddIdx(t: F3x32, u: F3x32, n: nat)
    requires Proper(t) && Proper(u) && n <= 32
    ensures Value(t, 0, n) < Pow3(n) && Value(u, 0, n) < Pow3(n)
    ensures Proper(Sum(t, u)) && Value(Sum(t, u), 0, n) == AddIdx(n, Value(t, 0, n), Value(u, 0, n))
  {
    ValueParts(t, n);
    ValueParts(u, n);
    if n > 0 {
      hide Top, Rest, Join, Value, Scaled;
      SumIsAddIdx(t, u, n - 1);
      SumParts(t, u, n);
    }
  }

  lemma SumParts(t: F3x32, u: F3x32, n: nat)
    requires Proper(t) && Proper(u) && 0 < n <= 32 && Value(Sum(t, u), 0, n - 1) < Pow3(n - 1)
    ensures Value(Sum(t, u), 0, n) == Join(n, Plus(t[n - 1], u[n - 1]), Value(Sum(t, u), 0, n - 1))
  {
    ValueTop(Sum(t, u), 0, n - 1);
  }
}

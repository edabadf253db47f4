/**
 An index of b + d trits as b leading and d trailing trits: block i of 3^d entries and
 position p in it.
 */
module IndexSplit {
  import opened Radix3
  import opened GroupAlgebra

  function Cat(b: nat, d: nat, i: nat, p: nat): (m: nat)
    requires i < Pow3(b) && p < Pow3(d)
    ensures m < Pow3(b + d)
  {
    if b == 0 then p else Join(b + d, Top(b, i), Cat(b - 1, d, Rest(b, i), p))
  }

  function Leading(b: nat, d: nat, m: nat): (i: nat)
    requires m < Pow3(b + d)
    ensures i < Pow3(b)
  {
    if b == 0 then 0 else Join(b, Top(b + d, m), Leading(b - 1, d, Rest(b + d, m)))
  }

  function Trailing(b: nat, d: nat, m: nat): (p: nat)
    requires m < Pow3(b + d)
    ensures p < Pow3(d)
  {
    if b == 0 then m else Trailing(b - 1, d, Rest(b + d, m))
  }

  lemma {:induction false} SplitCat(b: nat, d: nat, i: nat, p: nat)
    requires i < Pow3(b) && p < Pow3(d)
    ensures Leading(b, d, Cat(b, d, i, p)) == i && Trailing(b, d, Cat(b, d, i, p)) == p
  {
    if b > 0 {
      hide Join, Top, Rest;
      SplitCat(b - 1, d, Rest(b, i), p);
      JoinOfParts(b, i);
    }
  }

  lemma {:induction false} CatSplit(b: nat, d: nat, m: nat)
    requires m < Pow3(b + d)
    ensures Cat(b, d, Leading(b, d, m), Trailing(b, d, m)) == m
  {
    if b > 0 {
      hide Join, Top, Rest;
      CatSplit(b - 1, d, Rest(b + d, m));
      JoinOfParts(b + d, m);
    }
  }

  // Tritwise addition works on both parts separately.
  lemma {:induction false} AddCat(b: nat, d: nat, i: nat, p: nat, j: nat, q: nat)
    requires i < Pow3(b) && p < Pow3(d) && j < Pow3(b) && q < Pow3(d)
    ensures AddIdx(b + d, Cat(b, d, i, p), Cat(b, d, j, q)) == Cat(b, d, AddIdx(b, i, j), AddIdx(d, p, q))
  {
    if b > 0 {
      hide Join, Top, Rest;
      AddCat(b - 1, d, Rest(b, i), p, Rest(b, j), q);
    }
  }

  lemma {:induction false} PowersMultiply(b: nat, d: nat)
    ensures Pow3(b + d) == Pow3(b) * Pow3(d)
  {
    if b > 0 {
      PowersMultiply(b - 1, d);
      assert 3 * Pow3(b - 1) * Pow3(d) == 3 * (Pow3(b - 1) * Pow3(d));
    }
  }

  // The index the source computes.
  lemma {:induction false} CatIsOffset(b: nat, d: nat, i: nat, p: nat)
    requires i < Pow3(b) && p < Pow3(d)
    ensures Cat(b, d, i, p) == i * Pow3(d) + p
  {
    if b > 0 {
      CatIsOffset(b - 1, d, Rest(b, i), p);
      PowersMultiply(b - 1, d);
      var e, r, w := Top(b, i), Rest(b, i), Pow3(d);
      Distribute(e, Pow3(b - 1), r, w);
    }
  }

  lemma Distribute(e: nat, x: nat, r: nat, w: nat)
    requires e < 3
    ensures e == 0 ==> r * w == r * w
    ensures e == 1 ==> (x + r) * w == x * w + r * w
    ensures e == 2 ==> (2 * x + r) * w == 2 * (x * w) + r * w
  {
  }

  lemma {:induction false} PowersGrow(n: nat, m: nat)
    requires n < m
    ensures Pow3(n) < Pow3(m)
  {
    if n < m - 1 {
      PowersGrow(n, m - 1);
    }
  }

  // The depth of a domain of 3^d elements is d.
  lemma DepthOfPower(d: nat, depth: nat)
    requires Pow3(d) <= Pow3(depth) && (depth > 0 ==> Pow3(depth - 1) < Pow3(d))
    ensures depth == d
  {
    if depth < d {
      PowersGrow(depth, d);
    } else if d < depth - 1 {
      PowersGrow(d, depth - 1);
    }
  }
}

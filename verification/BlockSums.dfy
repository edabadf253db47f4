/**
 Exclusive-or sums over ranges and over pairs.
 */
module BlockSums {
  import opened Blocks

  ghost function SumTo(g: nat -> Block, n: nat): Block {
    if n == 0 then ZERO else Xor(SumTo(g, n - 1), g(n - 1))
  }

  function RowOf(g: (nat, nat) -> Block, i: nat): nat -> Block {
    (j: nat) => g(i, j)
  }

  ghost function Sum2(g: (nat, nat) -> Block, n: nat, m: nat): Block {
    if n == 0 then ZERO else Xor(Sum2(g, n - 1, m), SumTo(RowOf(g, n - 1), m))
  }

  lemma {:induction false} SumZero(g: nat -> Block, n: nat)
    requires forall i {:trigger g(i)} :: 0 <= i < n ==> g(i) == ZERO
    ensures SumTo(g, n) == ZERO
  {
    hide Xor;
    if n > 0 {
      SumZero(g, n - 1);
      XorZero(ZERO);
    }
  }

  lemma {:induction false} SumSame(g: nat -> Block, h: nat -> Block, n: nat)
    requires forall i {:trigger g(i)} {:trigger h(i)} :: 0 <= i < n ==> g(i) == h(i)
    ensures SumTo(g, n) == SumTo(h, n)
  {
    hide Xor;
    if n > 0 {
      SumSame(g, h, n - 1);
      assert g(n - 1) == h(n - 1);
    }
  }

  lemma {:induction false} SumXor(g: nat -> Block, h: nat -> Block, f: nat -> Block, n: nat)
    requires forall i {:trigger f(i)} :: 0 <= i < n ==> f(i) == Xor(g(i), h(i))
    ensures SumTo(f, n) == Xor(SumTo(g, n), SumTo(h, n))
  {
    hide Xor;
    if n == 0 {
      XorZero(ZERO);
    } else {
      SumXor(g, h, f, n - 1);
      XorSwap(SumTo(g, n - 1), SumTo(h, n - 1), g(n - 1), h(n - 1));
      assert f(n - 1) == Xor(g(n - 1), h(n - 1));
    }
  }

  lemma {:induction false} Sum2Xor(g: (nat, nat) -> Block, h: (nat, nat) -> Block, f: (nat, nat) -> Block, n: nat, m: nat)
    requires forall i, j {:trigger f(i, j)} :: 0 <= i < n && 0 <= j < m ==> f(i, j) == Xor(g(i, j), h(i, j))
    ensures Sum2(f, n, m) == Xor(Sum2(g, n, m), Sum2(h, n, m))
  {
    hide Xor;
    if n == 0 {
      XorZero(ZERO);
    } else {
      Sum2Xor(g, h, f, n - 1, m);
      SumXor(RowOf(g, n - 1), RowOf(h, n - 1), RowOf(f, n - 1), m);
      XorSwap(Sum2(g, n - 1, m), Sum2(h, n - 1, m), SumTo(RowOf(g, n - 1), m), SumTo(RowOf(h, n - 1), m));
    }
  }

  // A double sum row by row.
  lemma {:induction false} Sum2Rows(g: (nat, nat) -> Block, h: nat -> Block, n: nat, m: nat)
    requires forall i {:trigger h(i)} :: 0 <= i < n ==> h(i) == SumTo(RowOf(g, i), m)
    ensures Sum2(g, n, m) == SumTo(h, n)
  {
    if n > 0 {
      Sum2Rows(g, h, n - 1, m);
      assert h(n - 1) == SumTo(RowOf(g, n - 1), m);
    }
  }

  // XorSum of a sequence is the sum of its entries.
  lemma {:induction false} XorSumIsSum(s: seq<Block>, g: nat -> Block)
    requires forall i {:trigger s[i]} :: 0 <= i < |s| ==> s[i] == g(i)
    ensures XorSum(s) == SumTo(g, |s|)
  {
    if |s| > 0 {
      XorSumIsSum(s[..|s| - 1], g);
      assert s[|s| - 1] == g(|s| - 1);
    }
  }
}

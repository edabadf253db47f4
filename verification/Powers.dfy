/**
 Powers of two.
 */
module Powers {

  // 2^h, or 1 << h
  function Pow2(h: nat): (p: nat)
    ensures p > 0
  {
    if h == 0 then 1 else 2 * Pow2(h - 1)
  }

  lemma {:induction false} PowersAdd(a: nat, b: nat)
    ensures Pow2(a + b) == Pow2(a) * Pow2(b)
  {
    if a > 0 {
      PowersAdd(a - 1, b);
      assert 2 * Pow2(a - 1) * Pow2(b) == 2 * (Pow2(a - 1) * Pow2(b));
    }
  }
}

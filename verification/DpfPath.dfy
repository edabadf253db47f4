/**
 The two parties' trees side by side.  Off the secret path both hold the same seeds and
 tags; at the active node the tags are complementary.  A correction word that cancels
 the inactive children and flips the low bit of the active one carries this from level
 to level, and at the leaves it makes the outputs share the point function.
 */
module DpfPath {
  import opened Blocks
  import opened DpfLevels

  function TagBit(b: Block): Block {
    Saturate(Lsb(b))
  }

  // The operations of one tree; prf gives the children of a seed.
  function BlockOps(prf: (nat, Block) -> Block): Ops<Block> {
    Ops((x, t, s) => Xor(x, And(t, s)), TagBit, prf, Xor, ZERO)
  }

  ghost predicate Opposite(t: Block, u: Block) {
    (t == Saturate(true) && u == Saturate(false)) || (t == Saturate(false) && u == Saturate(true))
  }

  ghost predicate OnPath(a: Arity, l0: Level<Block>, l1: Level<Block>, pos: nat) {
    && Shaped(a, l0) && Shaped(a, l1) && |l0.tags| == |l1.tags| && pos < |l0.tags|
    && Opposite(l0.tags[pos], l1.tags[pos])
    && (forall p {:trigger l0.tags[p]} {:trigger l1.tags[p]} :: 0 <= p < |l0.tags| && p != pos ==> l0.tags[p] == l1.tags[p])
    && (forall r {:trigger l0.seeds[r]} {:trigger l1.seeds[r]} :: 0 <= r < |l0.seeds| && Parent(a, r) != pos ==> l0.seeds[r] == l1.seeds[r])
  }

  // What the correction word of a level must be, given the shared sums and the active slot.
  ghost predicate GoodSigma(a: Arity, sum: seq<Block>, sigma: seq<Block>, c: nat) {
    && |sum| == |sigma| == Width(a) && c < Width(a)
    && (forall j :: 0 <= j < Width(a) && j != c ==> sigma[j] == sum[j])
    && Lsb(sigma[c]) != Lsb(sum[c])
  }

  ghost function SharedSums(a: Arity, prf: (nat, Block) -> Block, l0: Level<Block>, l1: Level<Block>): (s: seq<Block>)
    requires Shaped(a, l0) && Shaped(a, l1) && |l0.tags| == |l1.tags|
    ensures |s| == Width(a)
  {
    seq(Width(a), c requires 0 <= c < Width(a) =>
      Xor(SlotSum(a, BlockOps(prf), l0.seeds, c, |l0.tags|), SlotSum(a, BlockOps(prf), l1.seeds, c, |l1.tags|)))
  }

  // Off the path the sums cancel: only the active pair of siblings remains.
  lemma {:induction false} SumsCancel(a: Arity, o: Ops<Block>, l0: Level<Block>, l1: Level<Block>, pos: nat, c: nat, n: nat)
    requires OnPath(a, l0, l1, pos) && c < Width(a) && n <= |l0.tags| && o.add == Xor && o.zero == ZERO
    ensures Child(a, pos, c) < |l0.seeds|
    ensures Xor(SlotSum(a, o, l0.seeds, c, n), SlotSum(a, o, l1.seeds, c, n))
         == if pos < n then Xor(l0.seeds[Child(a, pos, c)], l1.seeds[Child(a, pos, c)]) else ZERO
  {
    hide Xor, Lsb, Saturate;
    if n == 0 {
      XorSelf(ZERO);
    } else {
      SumsCancel(a, o, l0, l1, pos, c, n - 1);
      ChildParent(a, n - 1, c);
      var s0, s1 := SlotSum(a, o, l0.seeds, c, n - 1), SlotSum(a, o, l1.seeds, c, n - 1);
      var x0, x1 := l0.seeds[Child(a, n - 1, c)], l1.seeds[Child(a, n - 1, c)];
      XorSwap(s0, x0, s1, x1);
      XorSelf(x0);
      XorZero(Xor(s0, s1));
      XorZero(Xor(x0, x1));
    }
  }

  // ---------- one corrected pair of seeds ----------

  lemma CorrectInactive(x: Block, y: Block, t: Block, u: Block, s: Block)
    requires Opposite(t, u) && s == Xor(x, y)
    ensures Xor(x, And(t, s)) == Xor(y, And(u, s))
  {
    AndSaturate(s, true);
    AndSaturate(s, false);
    assert Xor(x, s).bits == y.bits;
    assert Xor(y, s).bits == x.bits;
    XorZero(x);
    XorZero(y);
  }

  lemma CorrectActive(x: Block, y: Block, t: Block, u: Block, s: Block)
    requires Opposite(t, u) && Lsb(s) != Lsb(Xor(x, y))
    ensures Lsb(Xor(x, And(t, s))) != Lsb(Xor(y, And(u, s)))
  {
  }

  // ---------- the step ----------

  lemma CorrectedPair(a: Arity, prf: (nat, Block) -> Block, l0: Level<Block>, l1: Level<Block>, sigma: seq<Block>, pos: nat, c: nat, r: nat)
    requires OnPath(a, l0, l1, pos) && GoodSigma(a, SharedSums(a, prf, l0, l1), sigma, c) && r < |l0.seeds|
    ensures var x0, x1 := Corrected(a, BlockOps(prf), l0, sigma)[r], Corrected(a, BlockOps(prf), l1, sigma)[r];
            if r == Child(a, pos, c) then Lsb(x0) != Lsb(x1) else x0 == x1
  {
    var j, p := Slot(a, r), Parent(a, r);
    ParentChild(a, r);
    ParentBound(a, r, |l0.tags|);
    if p == pos {
      SumsCancel(a, BlockOps(prf), l0, l1, pos, j, |l0.tags|);
      if j == c {
        CorrectActive(l0.seeds[r], l1.seeds[r], l0.tags[p], l1.tags[p], sigma[j]);
      } else {
        CorrectInactive(l0.seeds[r], l1.seeds[r], l0.tags[p], l1.tags[p], sigma[j]);
      }
    } else {
      ChildParent(a, pos, c);
    }
  }

  lemma StepKeepsPath(a: Arity, prf: (nat, Block) -> Block, l0: Level<Block>, l1: Level<Block>, sigma: seq<Block>, pos: nat, c: nat)
    requires OnPath(a, l0, l1, pos) && GoodSigma(a, SharedSums(a, prf, l0, l1), sigma, c)
    ensures OnPath(a, Step(a, BlockOps(prf), l0, sigma), Step(a, BlockOps(prf), l1, sigma), Child(a, pos, c))
  {
    var o := BlockOps(prf);
    var c0, c1 := Corrected(a, o, l0, sigma), Corrected(a, o, l1, sigma);
    var n0, n1 := Step(a, o, l0, sigma), Step(a, o, l1, sigma);
    ChildBound(a, pos, c, |l0.tags|);
    CorrectedPair(a, prf, l0, l1, sigma, pos, c, Child(a, pos, c));
    forall p | 0 <= p < |n0.tags| && p != Child(a, pos, c)
      ensures c0[p] == c1[p]
    {
      CorrectedPair(a, prf, l0, l1, sigma, pos, c, p);
    }
    forall r | 0 <= r < |n0.seeds| && Parent(a, r) != Child(a, pos, c)
      ensures n0.seeds[r] == n1.seeds[r]
    {
      ParentBound(a, r, |n0.tags|);
    }
  }
}

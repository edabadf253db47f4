/**
 The last layer of a distributed point function: leaf values, the revealed difference
 gamma, and the outputs.  F is the type of a leaf value and may be any coefficient
 context whose addition is an exclusive or.
 */
module DpfLeaves {
  import opened Blocks

  datatype CoeffCtx<!F> = CoeffCtx(fromBlock: Block -> F, plus: (F, F) -> F, zero: F, mask: (F, bool) -> F)

  // Always true; mentioning it instantiates the laws below.
  ghost predicate Use<F>(x: F, y: F, z: F) {
    true
  }

  // Addition is an abelian group in which every element is its own inverse.
  ghost predicate XorLike<F(!new)>(ctx: CoeffCtx<F>) {
    forall x, y, z {:trigger Use(x, y, z)} :: Use(x, y, z) ==>
      && ctx.plus(x, y) == ctx.plus(y, x)
      && ctx.plus(ctx.plus(x, y), z) == ctx.plus(x, ctx.plus(y, z))
      && ctx.plus(x, x) == ctx.zero
      && ctx.plus(x, ctx.zero) == x
      && ctx.mask(x, true) == x && ctx.mask(x, false) == ctx.zero
  }

  // The sum of the first n leaves.
  ghost function LeafSum<F>(ctx: CoeffCtx<F>, leaves: seq<F>, n: nat): F
    requires n <= |leaves|
  {
    if n == 0 then ctx.zero else ctx.plus(LeafSum(ctx, leaves, n - 1), leaves[n - 1])
  }

  // What a party computes from the other party's message diff' = value' + sum'.
  function Gamma<F>(ctx: CoeffCtx<F>, diff': F, sum: F, value: F): F {
    ctx.plus(ctx.plus(diff', sum), value)
  }

  function LeafOutput<F>(ctx: CoeffCtx<F>, gamma: F, tag: bool, leaf: F): F {
    ctx.plus(ctx.mask(gamma, tag), leaf)
  }

  // ---------- laws, one at a time ----------

  lemma PlusComm<F(!new)>(ctx: CoeffCtx<F>, x: F, y: F)
    requires XorLike(ctx)
    ensures ctx.plus(x, y) == ctx.plus(y, x)
  {
    assert Use(x, y, y);
  }

  lemma PlusAssoc<F(!new)>(ctx: CoeffCtx<F>, x: F, y: F, z: F)
    requires XorLike(ctx)
    ensures ctx.plus(ctx.plus(x, y), z) == ctx.plus(x, ctx.plus(y, z))
  {
    assert Use(x, y, z);
  }

  lemma PlusSwap<F(!new)>(ctx: CoeffCtx<F>, w: F, x: F, y: F, z: F)
    requires XorLike(ctx)
    ensures ctx.plus(ctx.plus(w, x), ctx.plus(y, z)) == ctx.plus(ctx.plus(w, y), ctx.plus(x, z))
  {
    PlusAssoc(ctx, w, x, ctx.plus(y, z));
    PlusAssoc(ctx, x, y, z);
    PlusComm(ctx, x, y);
    PlusAssoc(ctx, y, x, z);
    PlusAssoc(ctx, w, y, ctx.plus(x, z));
  }

  lemma PlusCancel<F(!new)>(ctx: CoeffCtx<F>, x: F, y: F)
    requires XorLike(ctx)
    ensures ctx.plus(x, x) == ctx.zero && ctx.plus(x, ctx.zero) == x && ctx.plus(ctx.zero, x) == x
    ensures ctx.plus(ctx.plus(x, y), y) == x
  {
    assert Use(x, ctx.zero, y);
    assert Use(y, y, y);
    PlusAssoc(ctx, x, y, y);
  }

  lemma MaskCases<F(!new)>(ctx: CoeffCtx<F>, x: F)
    requires XorLike(ctx)
    ensures ctx.mask(x, true) == x && ctx.mask(x, false) == ctx.zero
  {
    assert Use(x, x, x);
  }

  // ---------- reconstruction ----------

  ghost predicate SameBut<T>(s: seq<T>, t: seq<T>, pos: nat) {
    |s| == |t| && forall r {:trigger s[r]} {:trigger t[r]} :: 0 <= r < |s| && r != pos ==> s[r] == t[r]
  }

  lemma {:induction false} LeafSumsCancel<F(!new)>(ctx: CoeffCtx<F>, l0: seq<F>, l1: seq<F>, pos: nat, n: nat)
    requires XorLike(ctx) && SameBut(l0, l1, pos) && n <= |l0|
    ensures ctx.plus(LeafSum(ctx, l0, n), LeafSum(ctx, l1, n)) == if pos < n then ctx.plus(l0[pos], l1[pos]) else ctx.zero
  {
    PlusCancel(ctx, ctx.zero, ctx.zero);
    if n == 0 {
    } else {
      LeafSumsCancel(ctx, l0, l1, pos, n - 1);
      var s0, s1 := LeafSum(ctx, l0, n - 1), LeafSum(ctx, l1, n - 1);
      PlusSwap(ctx, s0, l0[n - 1], s1, l1[n - 1]);
      PlusCancel(ctx, l0[n - 1], ctx.zero);
      PlusCancel(ctx, ctx.plus(s0, s1), ctx.zero);
      PlusCancel(ctx, ctx.plus(l0[n - 1], l1[n - 1]), ctx.zero);
    }
  }

  // Both parties obtain the same gamma: the shared value plus both sums.
  lemma GammasAgree<F(!new)>(ctx: CoeffCtx<F>, v0: F, v1: F, s0: F, s1: F)
    requires XorLike(ctx)
    ensures Gamma(ctx, ctx.plus(v1, s1), s0, v0) == ctx.plus(ctx.plus(v0, v1), ctx.plus(s0, s1))
    ensures Gamma(ctx, ctx.plus(v0, s0), s1, v1) == ctx.plus(ctx.plus(v0, v1), ctx.plus(s0, s1))
  {
    GammaExpand(ctx, v0, v1, s0, s1);
    GammaExpand(ctx, v1, v0, s1, s0);
    PlusComm(ctx, v0, v1);
    PlusComm(ctx, s0, s1);
  }

  lemma GammaExpand<F(!new)>(ctx: CoeffCtx<F>, v0: F, v1: F, s0: F, s1: F)
    requires XorLike(ctx)
    ensures Gamma(ctx, ctx.plus(v1, s1), s0, v0) == ctx.plus(ctx.plus(v0, v1), ctx.plus(s0, s1))
  {
    PlusAssoc(ctx, v1, s1, s0);
    PlusComm(ctx, s1, s0);
    PlusComm(ctx, ctx.plus(v1, ctx.plus(s0, s1)), v0);
    PlusAssoc(ctx, v0, v1, ctx.plus(s0, s1));
  }

  // The outputs of two parties at one leaf.
  lemma LeafReconstructs<F(!new)>(ctx: CoeffCtx<F>, v: F, s: F, x0: F, x1: F, t0: bool, t1: bool, active: bool)
    requires XorLike(ctx)
    requires if active then t0 != t1 && s == ctx.plus(x0, x1) else t0 == t1 && x0 == x1
    ensures var gamma := ctx.plus(v, s);
            ctx.plus(LeafOutput(ctx, gamma, t0, x0), LeafOutput(ctx, gamma, t1, x1)) == if active then v else ctx.zero
  {
    var gamma := ctx.plus(v, s);
    var m0, m1 := ctx.mask(gamma, t0), ctx.mask(gamma, t1);
    MaskCases(ctx, gamma);
    PlusSwap(ctx, m0, x0, m1, x1);
    PlusCancel(ctx, x0, x1);
    PlusCancel(ctx, gamma, gamma);
    PlusCancel(ctx, ctx.zero, gamma);
    PlusCancel(ctx, v, s);
  }

  // Blocks under exclusive or, the context of the binary protocol and of the OLE.
  function BlockCtx(): CoeffCtx<Block> {
    CoeffCtx(b => b, Xor, ZERO, Mask)
  }

  lemma BlockCtxIsXorLike()
    ensures XorLike(BlockCtx())
  {
    forall x: Block, y: Block, z: Block {:trigger Use(x, y, z)} | Use(x, y, z)
      ensures Xor(x, y) == Xor(y, x) && Xor(Xor(x, y), z) == Xor(x, Xor(y, z)) && Xor(x, x) == ZERO && Xor(x, ZERO) == x
    {
      XorComm(x, y);
      XorAssoc(x, y, z);
      XorSelf(x);
      XorZero(x);
    }
  }
}

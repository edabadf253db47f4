/**
 Silent VOLE with compression by the transform (SilentWalshVoleReceiver.h lines 219 to 245,
 405 to 530 and SilentWalshVoleSender.h lines 215 to 285, 320 to 386): a short correlation
 is planted in a long one, and both parties compress their vectors.  The product with delta is
 any additive map: the coefficient context is a parameter of both classes.
 */
module Vole {
  import opened Blocks
  import opened F4Ring
  import opened TritTree
  import opened Radix3
  import opened F4Transform
  import opened TransformLaws
  import opened VectorTransform
  import F4Mul

  // a = b + c * delta, entry by entry, for the product with delta.
  ghost predicate Correlated(a: seq<Block>, b: seq<Block>, c: seq<Block>, times: Block -> Block) {
    |a| == |b| == |c| && forall i {:trigger a[i]} {:trigger b[i]} {:trigger c[i]} :: 0 <= i < |a| ==> a[i] == Xor(b[i], times(c[i]))
  }

  // The product of the context CoeffCtxGF128_F4.
  function F4Times(delta: Block): Block -> Block {
    x => F4Mul.F4Mul(x, delta)
  }

  lemma F4TimesLinear(delta: Block)
    ensures LaneLinear(F4Times(delta))
  {
    hide F4Mul.F4Mul, RingMul, Xor, AMul;
    TimesIsLinear(delta);
    forall x
      ensures F4Mul.F4Mul(x, delta) == Times(delta)(x)
    {
      F4Mul.F4MulIsRingMul(x, delta);
      MulCommutes(x, delta);
    }
    assert forall x {:trigger F4Times(delta)(x)} :: F4Times(delta)(x) == Times(delta)(x);
  }

  // The same in terms of trees.
  ghost predicate CorrelatedTrees(a: Tri<Block>, b: Tri<Block>, c: Tri<Block>, times: Block -> Block) {
    a == Scaled(b, c, times)
  }

  ghost function Scaled(b: Tri<Block>, c: Tri<Block>, times: Block -> Block): Tri<Block> {
    Zip(Xor, b, Map(times, c))
  }

  lemma EntryCorrelated(n: nat, a: Tri<Block>, b: Tri<Block>, c: Tri<Block>, times: Block -> Block, k: nat)
    requires Perfect(n, a) && Perfect(n, b) && Perfect(n, c) && k < Pow3(n)
    ensures |Leaves(a)| == |Leaves(b)| == |Leaves(c)| == Pow3(n) && Perfect(n, Scaled(b, c, times)) && Leaves(a)[k] == At(n, a, k)
    ensures At(n, Scaled(b, c, times), k) == Xor(Leaves(b)[k], times(Leaves(c)[k]))
  {
    hide Xor;
    LeavesAt(n, a, k);
    LeavesAt(n, b, k);
    LeavesAt(n, c, k);
    PerfectMap(n, times, c);
    AtMap(n, times, c, k);
    AtZip(n, Xor, b, Map(times, c), k);
  }

  // Vectors are correlated exactly when their trees are.
  lemma TreesCorrelate(n: nat, a: Tri<Block>, b: Tri<Block>, c: Tri<Block>, times: Block -> Block)
    requires Perfect(n, a) && Perfect(n, b) && Perfect(n, c) && Correlated(Leaves(a), Leaves(b), Leaves(c), times)
    ensures CorrelatedTrees(a, b, c, times)
  {
    hide Xor, Leaves, Scaled, At, Perfect, Pow3;
    EntryCorrelated(n, a, b, c, times, 0);
    forall k {:trigger At(n, a, k)} | 0 <= k < Pow3(n)
      ensures At(n, a, k) == At(n, Scaled(b, c, times), k)
    {
      EntryCorrelated(n, a, b, c, times, k);
      assert Leaves(a)[k] == Xor(Leaves(b)[k], times(Leaves(c)[k]));
    }
    SameTree(n, a, Scaled(b, c, times));
  }

  lemma LeavesCorrelate(n: nat, a: Tri<Block>, b: Tri<Block>, c: Tri<Block>, times: Block -> Block)
    requires Perfect(n, a) && Perfect(n, b) && Perfect(n, c) && CorrelatedTrees(a, b, c, times)
    ensures Correlated(Leaves(a), Leaves(b), Leaves(c), times)
  {
    hide Xor, Leaves, Scaled, At, Perfect;
    EntryCorrelated(n, a, b, c, times, 0);
    forall k {:trigger Leaves(a)[k]} {:trigger Leaves(b)[k]} {:trigger Leaves(c)[k]} | 0 <= k < Pow3(n)
      ensures Leaves(a)[k] == Xor(Leaves(b)[k], times(Leaves(c)[k]))
    {
      EntryCorrelated(n, a, b, c, times, k);
    }
  }

  // The transform keeps the correlation ...
  lemma TransformKeepsTrees(n: nat, f: Butterfly<Block>, a: Tri<Block>, b: Tri<Block>, c: Tri<Block>, times: Block -> Block)
    requires Perfect(n, a) && Perfect(n, b) && Perfect(n, c) && CorrelatedTrees(a, b, c, times)
    requires (f == Forward || f == Inverse) && LaneLinear(times)
    ensures CorrelatedTrees(Transform(f, a), Transform(f, b), Transform(f, c), times)
  {
    hide Xor, Transform, Forward, Inverse, Zip, Map, LaneLinear;
    TransformsMap(n, times, c);
    PerfectMap(n, times, c);
    TransformsAdd(n, b, Map(times, c));
  }

  lemma {:induction false} PerfectMap<T>(n: nat, h: T -> T, t: Tri<T>)
    requires Perfect(n, t)
    ensures Perfect(n, Map(h, t))
    decreases t
  {
    match t
    case Leaf(_) =>
    case Node(l, m, r) =>
      PerfectMap(n - 1, h, l);
      PerfectMap(n - 1, h, m);
      PerfectMap(n - 1, h, r);
  }

  lemma SpectraCorrelate(n: nat, a: seq<Block>, b: seq<Block>, c: seq<Block>, times: Block -> Block)
    requires |a| == |b| == |c| == Pow3(n) && Correlated(a, b, c, times) && LaneLinear(times)
    ensures Correlated(Spectrum(n, a), Spectrum(n, b), Spectrum(n, c), times)
  {
    hide Correlated, CorrelatedTrees, Transform, Tree, Leaves, Forward, Inverse, Pow3, LaneLinear;
    var ta, tb, tc := Tree(n, a), Tree(n, b), Tree(n, c);
    LeavesOfTree(n, a);
    LeavesOfTree(n, b);
    LeavesOfTree(n, c);
    TreesCorrelate(n, ta, tb, tc, times);
    TransformKeepsTrees(n, Forward, ta, tb, tc, times);
    PerfectTransform(n, Forward, ta);
    PerfectTransform(n, Forward, tb);
    PerfectTransform(n, Forward, tc);
    LeavesCorrelate(n, Transform(Forward, ta), Transform(Forward, tb), Transform(Forward, tc), times);
  }

  // ... and shows it: correlated spectra come from correlated vectors only.
  lemma SpectraReveal(n: nat, a: seq<Block>, b: seq<Block>, c: seq<Block>, times: Block -> Block)
    requires |a| == |b| == |c| == Pow3(n) && Correlated(Spectrum(n, a), Spectrum(n, b), Spectrum(n, c), times) && LaneLinear(times)
    ensures Correlated(a, b, c, times)
  {
    hide Correlated, CorrelatedTrees, Transform, Tree, Leaves, Forward, Inverse, Pow3, LaneLinear;
    var ta, tb, tc := Tree(n, a), Tree(n, b), Tree(n, c);
    PerfectTransform(n, Forward, ta);
    PerfectTransform(n, Forward, tb);
    PerfectTransform(n, Forward, tc);
    TreesCorrelate(n, Transform(Forward, ta), Transform(Forward, tb), Transform(Forward, tc), times);
    TransformKeepsTrees(n, Inverse, Transform(Forward, ta), Transform(Forward, tb), Transform(Forward, tc), times);
    InverseAfterForward(n, ta);
    InverseAfterForward(n, tb);
    InverseAfterForward(n, tc);
    LeavesCorrelate(n, ta, tb, tc, times);
    LeavesOfTree(n, a);
    LeavesOfTree(n, b);
    LeavesOfTree(n, c);
  }
}

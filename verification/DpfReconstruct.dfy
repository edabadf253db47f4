/**
 What the two parties' outputs share: the value at the secret point and zero elsewhere.
 */
module DpfReconstruct {
  import opened Blocks
  import opened DpfLevels
  import opened DpfLeaves
  import opened DpfRows
  import opened DpfBuffers
  import opened DpfBatch
  import opened DpfLastLayer

  // Two parties at the last level: their levels, sums, the common correction word, the
  // active parents and the active slots.
  ghost predicate Ready(a: Arity, n: nat, prf: (nat, Block) -> Block, l0: Level<Row>, l1: Level<Row>, z0: seq<Row>, z1: seq<Row>,
                        sigma: seq<Row>, pos: seq<nat>, c: seq<nat>) {
    && BatchLevel(a, n, l0) && BatchLevel(a, n, l1) && |l0.tags| == |l1.tags| && |pos| == |c| == n
    && HoldsSums(a, RowOps(n, prf), z0, l0) && HoldsSums(a, RowOps(n, prf), z1, l1)
    && BatchOnPath(a, l0, l1, pos) && BatchGood(a, z0, z1, sigma, c)
    && (forall k {:trigger c[k]} :: 0 <= k < n ==> c[k] < Width(a))
  }

  lemma LeafPair<F>(ctx: CoeffCtx<F>, roundFn: (Block, Block) -> Block, a: Arity, n: nat, prf: (nat, Block) -> Block,
                    l0: Level<Row>, l1: Level<Row>, z0: seq<Row>, z1: seq<Row>, sigma: seq<Row>, pos: seq<nat>, c: seq<nat>,
                    leaf0: seq<seq<F>>, leaf1: seq<seq<F>>, t0: seq<seq<bool>>, t1: seq<seq<bool>>, rows: nat, k: nat, r: nat)
    requires Ready(a, n, prf, l0, l1, z0, z1, sigma, pos, c) && k < n && r < rows && c[k] < Width(a)
    requires LeavesDone(ctx, roundFn, a, n, l0, sigma, leaf0, t0, rows) && LeavesDone(ctx, roundFn, a, n, l1, sigma, leaf1, t1, rows)
    ensures |leaf0[r]| == |leaf1[r]| == |t0[r]| == |t1[r]| == n
    ensures r != Child(a, pos[k], c[k]) ==> leaf0[r][k] == leaf1[r][k]
    ensures t0[r][k] != t1[r][k] <==> r == Child(a, pos[k], c[k])
  {
    hide BatchOnPath, BatchGood, HoldsSums, RowOps, Xor, And, Lsb;
    BatchLeaf(a, n, prf, l0, l1, z0, z1, sigma, pos, c, k, r);
    assert leaf0[r] == LeafRow(ctx, roundFn, SeedRowAt(a, n, l0, sigma, r));
    assert leaf1[r] == LeafRow(ctx, roundFn, SeedRowAt(a, n, l1, sigma, r));
    assert t0[r] == TagRow(SeedRowAt(a, n, l0, sigma, r)) && t1[r] == TagRow(SeedRowAt(a, n, l1, sigma, r));
    assert SeedRowAt(a, n, l0, sigma, r)[k] == LeafSeed(a, l0, sigma, r, k);
    assert SeedRowAt(a, n, l1, sigma, r)[k] == LeafSeed(a, l1, sigma, r, k);
  }

  // The sums of two columns that agree except at target.
  lemma SumsPair<F(!new)>(ctx: CoeffCtx<F>, n: nat, leaf0: seq<seq<F>>, leaf1: seq<seq<F>>, rows: nat, k: nat, target: nat)
    requires XorLike(ctx) && Table(rows, n, leaf0) && Table(rows, n, leaf1) && k < n
    requires forall r {:trigger leaf0[r]} :: 0 <= r < rows && r != target ==> leaf0[r][k] == leaf1[r][k]
    ensures ctx.plus(RowSums(ctx, n, leaf0, rows)[k], RowSums(ctx, n, leaf1, rows)[k])
         == if target < rows then ctx.plus(leaf0[target][k], leaf1[target][k]) else ctx.zero
  {
    RowSumsColumn(ctx, n, leaf0, rows, k);
    RowSumsColumn(ctx, n, leaf1, rows, k);
    LeafSumsCancel(ctx, LeafColumn(leaf0, k), LeafColumn(leaf1, k), target, rows);
  }

  // The outputs of both parties for tree k at leaf r, when values are programmed.
  lemma OutputPair<F(!new)>(ctx: CoeffCtx<F>, roundFn: (Block, Block) -> Block, a: Arity, n: nat, prf: (nat, Block) -> Block,
                            l0: Level<Row>, l1: Level<Row>, z0: seq<Row>, z1: seq<Row>, sigma: seq<Row>, pos: seq<nat>, c: seq<nat>,
                            leaf0: seq<seq<F>>, leaf1: seq<seq<F>>, t0: seq<seq<bool>>, t1: seq<seq<bool>>, s0: seq<F>, s1: seq<F>,
                            rows: nat, v0: F, v1: F, k: nat, r: nat)
    requires Ready(a, n, prf, l0, l1, z0, z1, sigma, pos, c) && XorLike(ctx) && k < n && r < rows && |s0| == |s1| == n
    requires Layer(ctx, roundFn, a, n, l0, sigma, leaf0, t0, s0, rows) && Layer(ctx, roundFn, a, n, l1, sigma, leaf1, t1, s1, rows)
    ensures |leaf0[r]| == |leaf1[r]| == |t0[r]| == |t1[r]| == n
    ensures ctx.plus(LeafOutput(ctx, Gamma(ctx, ctx.plus(v1, s1[k]), s0[k], v0), t0[r][k], leaf0[r][k]),
                     LeafOutput(ctx, Gamma(ctx, ctx.plus(v0, s0[k]), s1[k], v1), t1[r][k], leaf1[r][k]))
         == if r == Child(a, pos[k], c[k]) then ctx.plus(v0, v1) else ctx.zero
  {
    hide BatchOnPath, BatchGood, HoldsSums, RowOps, LeafRow, TagRow, SeedRowAt, XorLike, LeafOutput, Gamma, RowSums;
    var target := Child(a, pos[k], c[k]);
    forall q | 0 <= q < rows
      ensures |leaf0[q]| == |leaf1[q]| == |t0[q]| == |t1[q]| == n
           && (q != target ==> leaf0[q][k] == leaf1[q][k]) && (t0[q][k] != t1[q][k] <==> q == target)
    {
      LeafPair(ctx, roundFn, a, n, prf, l0, l1, z0, z1, sigma, pos, c, leaf0, leaf1, t0, t1, rows, k, q);
    }
    SumsPair(ctx, n, leaf0, leaf1, rows, k, target);
    GammasAgree(ctx, v0, v1, s0[k], s1[k]);
    if r == target {
      LeafReconstructs(ctx, ctx.plus(v0, v1), ctx.plus(s0[k], s1[k]), leaf0[r][k], leaf1[r][k], t0[r][k], t1[r][k], true);
    } else {
      OffPath(ctx, ctx.plus(ctx.plus(v0, v1), ctx.plus(s0[k], s1[k])), leaf0[r][k], t0[r][k]);
    }
  }

  // Equal tags and leaves cancel whatever gamma is.
  lemma OffPath<F(!new)>(ctx: CoeffCtx<F>, gamma: F, x: F, t: bool)
    requires XorLike(ctx)
    ensures ctx.plus(LeafOutput(ctx, gamma, t, x), LeafOutput(ctx, gamma, t, x)) == ctx.zero
  {
    PlusCancel(ctx, LeafOutput(ctx, gamma, t, x), gamma);
  }

  // ---------- all outputs ----------

  // The outputs of both parties share the point function ...
  ghost predicate ShareValues<F>(ctx: CoeffCtx<F>, n: nat, domain: nat, target: seq<nat>, values0: seq<F>, values1: seq<F>,
                                 out0: seq<seq<F>>, out1: seq<seq<F>>) {
    && |target| == |values0| == |values1| == n && Table(domain, n, out0) && Table(domain, n, out1)
    && forall r, k {:trigger out0[r][k]} {:trigger out1[r][k]} :: 0 <= r < domain && 0 <= k < n ==>
         ctx.plus(out0[r][k], out1[r][k]) == if r == target[k] then ctx.plus(values0[k], values1[k]) else ctx.zero
  }

  // ... which is random at the points when no values are given ...
  ghost predicate ShareRandom<F>(ctx: CoeffCtx<F>, n: nat, domain: nat, target: seq<nat>, out0: seq<seq<F>>, out1: seq<seq<F>>) {
    && |target| == n && Table(domain, n, out0) && Table(domain, n, out1)
    && forall r, k {:trigger out0[r][k]} {:trigger out1[r][k]} :: 0 <= r < domain && 0 <= k < n && r != target[k] ==>
         ctx.plus(out0[r][k], out1[r][k]) == ctx.zero
  }

  // ... and the tags share its indicator.
  ghost predicate ShareTags(n: nat, domain: nat, target: seq<nat>, t0: seq<seq<bool>>, t1: seq<seq<bool>>) {
    && |target| == n && Table(domain, n, t0) && Table(domain, n, t1)
    && forall r, k {:trigger t0[r][k]} {:trigger t1[r][k]} :: 0 <= r < domain && 0 <= k < n ==> (t0[r][k] != t1[r][k] <==> r == target[k])
  }


  lemma LeavesShare<F(!new)>(ctx: CoeffCtx<F>, roundFn: (Block, Block) -> Block, a: Arity, n: nat, prf: (nat, Block) -> Block,
                             l0: Level<Row>, l1: Level<Row>, z0: seq<Row>, z1: seq<Row>, sigma: seq<Row>, pos: seq<nat>, c: seq<nat>,
                             leaf0: seq<seq<F>>, leaf1: seq<seq<F>>, t0: seq<seq<bool>>, t1: seq<seq<bool>>,
                             s0: seq<F>, s1: seq<F>, rows: nat)
    requires Ready(a, n, prf, l0, l1, z0, z1, sigma, pos, c) && XorLike(ctx)
    requires Layer(ctx, roundFn, a, n, l0, sigma, leaf0, t0, s0, rows) && Layer(ctx, roundFn, a, n, l1, sigma, leaf1, t1, s1, rows)
    ensures ShareTags(n, rows, Deeper(a, pos, c), t0, t1) && ShareRandom(ctx, n, rows, Deeper(a, pos, c), leaf0, leaf1)
  {
    hide BatchOnPath, BatchGood, HoldsSums, RowOps, LeafRow, TagRow, SeedRowAt, XorLike, RowSums;
    forall r, k | 0 <= r < rows && 0 <= k < n
      ensures |leaf0[r]| == |leaf1[r]| == |t0[r]| == |t1[r]| == n
           && (r != Deeper(a, pos, c)[k] ==> ctx.plus(leaf0[r][k], leaf1[r][k]) == ctx.zero)
           && (t0[r][k] != t1[r][k] <==> r == Deeper(a, pos, c)[k])
    {
      LeafPair(ctx, roundFn, a, n, prf, l0, l1, z0, z1, sigma, pos, c, leaf0, leaf1, t0, t1, rows, k, r);
      PlusCancel(ctx, leaf0[r][k], leaf1[r][k]);
    }
    forall r | 0 <= r < rows
      ensures |t0[r]| == |t1[r]| == n
    {
      assert |t0[r]| == |SeedRowAt(a, n, l0, sigma, r)|;
    }
  }

  // gamma is added to the leaves whose tag is set.
  ghost predicate Applied<F>(ctx: CoeffCtx<F>, n: nat, m: nat, gamma: seq<F>, leaf: seq<seq<F>>, t: seq<seq<bool>>, out: seq<seq<F>>) {
    && m <= |leaf| && m <= |t| && |gamma| == n && Table(m, n, out)
    && forall r, k {:trigger out[r][k]} :: 0 <= r < m && 0 <= k < n ==>
         k < |leaf[r]| && k < |t[r]| && out[r][k] == ctx.plus(ctx.mask(gamma[k], t[r][k]), leaf[r][k])
  }

  lemma OutputsApplied<F>(ctx: CoeffCtx<F>, n: nat, m: nat, gamma: seq<F>, leaf: seq<seq<F>>, t: seq<seq<bool>>, out: seq<seq<F>>)
    requires m <= |leaf| && m <= |t| && |gamma| == n && Table(m, n, out)
    requires forall r {:trigger leaf[r]} {:trigger t[r]} :: 0 <= r < m ==> |leaf[r]| == |t[r]| == n
    requires forall r, k {:trigger out[r][k]} :: 0 <= r < m && 0 <= k < n ==> out[r][k] == LeafOutput(ctx, gamma[k], t[r][k], leaf[r][k])
    ensures Applied(ctx, n, m, gamma, leaf, t, out)
  {
  }

  method Differences<F>(ctx: CoeffCtx<F>, values: seq<F>, sums: seq<F>) returns (diff: seq<F>)
    requires |values| == |sums|
    ensures |diff| == |sums| && forall k {:trigger diff[k]} :: 0 <= k < |diff| ==> diff[k] == ctx.plus(values[k], sums[k])
  {
    diff := [];
    var k := 0;
    while k < |sums|
      invariant k <= |sums| && |diff| == k
      invariant forall q {:trigger diff[q]} :: 0 <= q < k ==> diff[q] == ctx.plus(values[q], sums[q])
    {
      diff := diff + [ctx.plus(values[k], sums[k])];
      k := k + 1;
    }
  }

  // Both parties exchange their differences and output the first m leaves.
  method Program<F(!new)>(ctx: CoeffCtx<F>, roundFn: (Block, Block) -> Block, ghost a: Arity, n: nat, ghost prf: (nat, Block) -> Block,
                          ghost l0: Level<Row>, ghost l1: Level<Row>, ghost z0: seq<Row>, ghost z1: seq<Row>, ghost sigma: seq<Row>,
                          ghost pos: seq<nat>, ghost c: seq<nat>, leaf0: seq<seq<F>>, leaf1: seq<seq<F>>,
                          t0: seq<seq<bool>>, t1: seq<seq<bool>>, s0: seq<F>, s1: seq<F>, ghost rows: nat, m: nat,
                          values0: seq<F>, values1: seq<F>) returns (out0: seq<seq<F>>, out1: seq<seq<F>>, ghost gamma: seq<F>)
    requires Ready(a, n, prf, l0, l1, z0, z1, sigma, pos, c) && XorLike(ctx) && m <= rows && |s0| == |s1| == |values0| == |values1| == n
    requires Layer(ctx, roundFn, a, n, l0, sigma, leaf0, t0, s0, rows) && Layer(ctx, roundFn, a, n, l1, sigma, leaf1, t1, s1, rows)
    ensures ShareValues(ctx, n, m, Deeper(a, pos, c), values0, values1, out0, out1)
    ensures |gamma| == n && forall k {:trigger gamma[k]} :: 0 <= k < n ==>
      gamma[k] == ctx.plus(ctx.plus(values0[k], values1[k]), ctx.plus(s0[k], s1[k]))
    ensures Applied(ctx, n, m, gamma, leaf0, t0, out0) && Applied(ctx, n, m, gamma, leaf1, t1, out1)
  {
    hide BatchOnPath, BatchGood, HoldsSums, RowOps, BatchLevel, XorLike, LeafOutput, Gamma, RowSums, LeavesDone, Applied;
    LeavesShare(ctx, roundFn, a, n, prf, l0, l1, z0, z1, sigma, pos, c, leaf0, leaf1, t0, t1, s0, s1, rows);
    var diff0 := Differences(ctx, values0, s0);
    var diff1 := Differences(ctx, values1, s1);
    var gamma0 := Gammas(ctx, diff1, s0, values0);
    var gamma1 := Gammas(ctx, diff0, s1, values1);
    out0 := Outputs(ctx, n, m, leaf0, t0, gamma0);
    out1 := Outputs(ctx, n, m, leaf1, t1, gamma1);
    gamma := gamma0;
    forall k {:trigger gamma0[k]} | 0 <= k < n
      ensures gamma0[k] == gamma1[k] == ctx.plus(ctx.plus(values0[k], values1[k]), ctx.plus(s0[k], s1[k]))
    {
      GammasAgree(ctx, values0[k], values1[k], s0[k], s1[k]);
    }
    assert gamma1 == gamma0;
    OutputsApplied(ctx, n, m, gamma, leaf0, t0, out0);
    OutputsApplied(ctx, n, m, gamma, leaf1, t1, out1);
    forall r, k | 0 <= r < m && 0 <= k < n
      ensures ctx.plus(out0[r][k], out1[r][k]) == if r == Deeper(a, pos, c)[k] then ctx.plus(values0[k], values1[k]) else ctx.zero
    {
      OutputPair(ctx, roundFn, a, n, prf, l0, l1, z0, z1, sigma, pos, c, leaf0, leaf1, t0, t1, s0, s1, rows, values0[k], values1[k], k, r);
    }
  }
}

/**
 The outputs of one row of the sparse protocol (SparseDpf.h lines 471 to 515): what they
 share, for points in the trees and points whose leaf the dense tree has set.
 */
module SparseLeaves {
  import opened Blocks
  import opened SparseTree
  import opened SparsePair
  import opened SparseRow
  import opened SparseDpf

  // The leaves of one party's row, as LeafRow leaves them.
  ghost predicate LeavesHeld(row: seq<nat>, depth: nat, t: Tree, value: Block, preset: seq<Block>, presetTags: seq<bool>,
                             loc: seq<(nat, nat)>, leaf: seq<Block>, tags: seq<bool>, gamma: Block) {
    && |leaf| == |tags| == |row| == |loc| && |t.levels| > 0 && |t.sigma| == |t.tau|
    && (forall i {:trigger t.levels[0][i]} :: 0 <= i < |t.levels[0]| ==> t.levels[0][i].parent < |t.sigma|)
    && gamma == Xor(value, LeafSum(t, |t.levels[0]|))
    && (forall x {:trigger leaf[x]} {:trigger tags[x]} :: 0 <= x < |row| ==>
          LeafHeld(t, preset, presetTags, depth, loc, x, leaf[x], tags[x]))
  }

  // What the points outside the trees are preset with.
  ghost predicate PresetOk(row: seq<nat>, depth: nat, a: nat, p0: seq<Block>, p1: seq<Block>, q0: seq<bool>, q1: seq<bool>,
                           loc: seq<(nat, nat)>) {
    && |row| == |p0| == |p1| == |q0| == |q1| == |loc|
    && (forall x {:trigger p0[x]} {:trigger p1[x]} :: 0 <= x < |row| && loc[x].0 > depth && x != a ==> p0[x] == p1[x])
    && (forall x {:trigger q0[x]} {:trigger q1[x]} :: 0 <= x < |row| && loc[x].0 > depth ==> (q0[x] != q1[x] <==> x == a))
  }

  // Both parties' leaves of one row.
  method LeafPairs(row: seq<nat>, depth: nat, ghost a: nat, t0: Tree, t1: Tree, v0: Block, v1: Block, ghost loc: seq<(nat, nat)>,
                   p0: seq<Block>, p1: seq<Block>, q0: seq<bool>, q1: seq<bool>)
    returns (leaf0: seq<Block>, tags0: seq<bool>, gamma0: Block, leaf1: seq<Block>, tags1: seq<bool>, gamma1: Block)
    requires RowTogether(row, depth, a, t0, t1, 0, false, loc) && |p0| == |p1| == |q0| == |q1| == |row|
    ensures LeavesHeld(row, depth, t0, v0, p0, q0, loc, leaf0, tags0, gamma0)
    ensures LeavesHeld(row, depth, t1, v1, p1, q1, loc, leaf1, tags1, gamma1)
  {
    hide Together, CorrectedSeed, CorrectedTag, Xor, NodeOk, Covers, LeafHeld;
    BothLeaves(row, depth, a, t0, t1, loc);
    AllPlaced(row, depth, t0, loc);
    leaf0, tags0, gamma0 := LeafRow(row, depth, t0, v0, p0, q0, loc);
    leaf1, tags1, gamma1 := LeafRow(row, depth, t1, v1, p1, q1, loc);
  }

  // One party's outputs of one row.
  method OutputRow(leaf: seq<Block>, tags: seq<bool>, gamma: Block) returns (out: seq<Block>)
    requires |leaf| == |tags|
    ensures |out| == |leaf| && forall x {:trigger out[x]} :: 0 <= x < |leaf| ==> out[x] == Xor(leaf[x], And(gamma, Saturate(tags[x])))
  {
    hide Xor, And, Saturate;
    out := [];
    var x := 0;
    while x < |leaf|
      invariant x <= |leaf| && |out| == x
      invariant forall q {:trigger out[q]} :: 0 <= q < x ==> out[q] == Xor(leaf[q], And(gamma, Saturate(tags[q])))
    {
      out := out + [Xor(leaf[x], And(gamma, Saturate(tags[x])))];
      x := x + 1;
    }
  }

  // Outputs that share v0 ^ v1 at point a of the row, and tags that share the indicator.
  ghost predicate RowShares(size: nat, a: nat, v: Block, out0: seq<Block>, out1: seq<Block>, tags0: seq<bool>, tags1: seq<bool>) {
    && |out0| == |out1| == |tags0| == |tags1| == size
    && (forall x {:trigger out0[x]} {:trigger out1[x]} :: 0 <= x < size ==> Xor(out0[x], out1[x]) == if x == a then v else ZERO)
    && (forall x {:trigger tags0[x]} {:trigger tags1[x]} :: 0 <= x < size ==> (tags0[x] != tags1[x] <==> x == a))
  }

  // The value that is shared at the secret point: gamma lacks the leaf of a point outside the tree.
  function SharedValue(v0: Block, v1: Block, outside: bool, x: Block, y: Block): Block {
    if outside then Xor(Xor(x, y), Xor(v0, v1)) else Xor(v0, v1)
  }

  lemma PointReconstructs(row: seq<nat>, depth: nat, a: nat, t0: Tree, t1: Tree, v0: Block, v1: Block, loc: seq<(nat, nat)>,
                          p0: seq<Block>, p1: seq<Block>, q0: seq<bool>, q1: seq<bool>,
                          leaf0: seq<Block>, tags0: seq<bool>, gamma0: Block, leaf1: seq<Block>, tags1: seq<bool>, gamma1: Block, x: nat)
    requires RowTogether(row, depth, a, t0, t1, 0, false, loc) && a < |row| && x < |row| && PresetOk(row, depth, a, p0, p1, q0, q1, loc)
    requires LeavesHeld(row, depth, t0, v0, p0, q0, loc, leaf0, tags0, gamma0)
    requires LeavesHeld(row, depth, t1, v1, p1, q1, loc, leaf1, tags1, gamma1)
    ensures Xor(Xor(leaf0[x], And(Xor(gamma0, gamma1), Saturate(tags0[x]))), Xor(leaf1[x], And(Xor(gamma0, gamma1), Saturate(tags1[x]))))
         == if x == a then SharedValue(v0, v1, loc[a].0 > depth, p0[a], p1[a]) else ZERO
    ensures tags0[x] != tags1[x] <==> x == a
  {
    BothLeaves(row, depth, a, t0, t1, loc);
    AllPlaced(row, depth, t0, loc);
    hide Together, CorrectedSeed, CorrectedTag, Xor, NodeOk, Covers, And, Saturate;
    assert LeafHeld(t0, p0, q0, depth, loc, x, leaf0[x], tags0[x]) && LeafHeld(t1, p1, q1, depth, loc, x, leaf1[x], tags1[x]);
    var g, sum0, sum1 := Xor(gamma0, gamma1), LeafSum(t0, |t0.levels[0]|), LeafSum(t1, |t1.levels[0]|);
    if loc[x].0 <= depth {
      assert loc[a].0 <= depth ==> t0.levels[0][loc[a].1].lo == a && t0.levels[0][loc[x].1].lo == x;
      LeafPair(row, depth, a, t0, t1, loc, loc[x].1);
    }
    if x == a {
      LeafSumsCancel(row, depth, a, t0, t1, loc, |t0.levels[0]|);
      XorSwap(v0, sum0, v1, sum1);
      XorZero(Xor(v0, v1));
      Selects(leaf0[x], leaf1[x], tags0[x], tags1[x], g);
      if loc[a].0 <= depth {
        Cancels(Xor(leaf0[x], leaf1[x]), Xor(v0, v1));
      }
    } else {
      XorSelf(Xor(leaf0[x], And(g, Saturate(tags0[x]))));
    }
  }

  lemma Selects(x: Block, y: Block, t: bool, u: bool, g: Block)
    requires t != u
    ensures Xor(Xor(x, And(g, Saturate(t))), Xor(y, And(g, Saturate(u)))) == Xor(Xor(x, y), g)
  {
    AndSaturate(g, t);
    AndSaturate(g, u);
    hide Xor;
    XorSwap(x, Mask(g, t), y, Mask(g, u));
    XorZero(g);
    XorComm(ZERO, g);
  }

  lemma Cancels(d: Block, v: Block)
    ensures Xor(d, Xor(v, d)) == v
  {
    hide Xor;
    XorComm(d, Xor(v, d));
    XorAssoc(v, d, d);
    XorSelf(d);
    XorZero(v);
  }

  lemma RowReconstructs(row: seq<nat>, depth: nat, a: nat, t0: Tree, t1: Tree, v0: Block, v1: Block, loc: seq<(nat, nat)>,
                        p0: seq<Block>, p1: seq<Block>, q0: seq<bool>, q1: seq<bool>,
                        leaf0: seq<Block>, tags0: seq<bool>, gamma0: Block, leaf1: seq<Block>, tags1: seq<bool>, gamma1: Block,
                        out0: seq<Block>, out1: seq<Block>)
    requires RowTogether(row, depth, a, t0, t1, 0, false, loc) && a < |row| && |out0| == |out1| == |row|
    requires PresetOk(row, depth, a, p0, p1, q0, q1, loc)
    requires LeavesHeld(row, depth, t0, v0, p0, q0, loc, leaf0, tags0, gamma0)
    requires LeavesHeld(row, depth, t1, v1, p1, q1, loc, leaf1, tags1, gamma1)
    requires |leaf0| == |tags0| == |leaf1| == |tags1| == |row| == |p0| == |p1| == |loc|
    requires forall x {:trigger out0[x]} :: 0 <= x < |row| ==> out0[x] == Xor(leaf0[x], And(Xor(gamma0, gamma1), Saturate(tags0[x])))
    requires forall x {:trigger out1[x]} :: 0 <= x < |row| ==> out1[x] == Xor(leaf1[x], And(Xor(gamma1, gamma0), Saturate(tags1[x])))
    ensures RowShares(|row|, a, SharedValue(v0, v1, loc[a].0 > depth, p0[a], p1[a]), out0, out1, tags0, tags1)
  {
    hide RowTogether, LeavesHeld, PresetOk, SharedValue, Xor, And, Saturate;
    XorComm(gamma0, gamma1);
    var v := SharedValue(v0, v1, loc[a].0 > depth, p0[a], p1[a]);
    forall x {:trigger out0[x]} {:trigger out1[x]} {:trigger tags0[x]} {:trigger tags1[x]} | 0 <= x < |row|
      ensures Xor(out0[x], out1[x]) == if x == a then v else ZERO
      ensures tags0[x] != tags1[x] <==> x == a
    {
      PointReconstructs(row, depth, a, t0, t1, v0, v1, loc, p0, p1, q0, q1, leaf0, tags0, gamma0, leaf1, tags1, gamma1, x);
    }
  }

  method FinishRow(row: seq<nat>, depth: nat, ghost a: nat, t0: Tree, t1: Tree, v0: Block, v1: Block, ghost loc: seq<(nat, nat)>,
                   p0: seq<Block>, p1: seq<Block>, q0: seq<bool>, q1: seq<bool>)
    returns (out0: seq<Block>, tags0: seq<bool>, out1: seq<Block>, tags1: seq<bool>, ghost leaf0: seq<Block>, ghost leaf1: seq<Block>,
             ghost gamma: Block)
    requires RowTogether(row, depth, a, t0, t1, 0, false, loc) && a < |row| && PresetOk(row, depth, a, p0, p1, q0, q1, loc)
    requires |row| == |p0| == |p1| == |q0| == |q1| == |loc|
    ensures RowShares(|row|, a, SharedValue(v0, v1, loc[a].0 > depth, p0[a], p1[a]), out0, out1, tags0, tags1)
    ensures AllHeld(row, depth, t0, p0, q0, loc, leaf0, tags0) && AllHeld(row, depth, t1, p1, q1, loc, leaf1, tags1)
    ensures Masked(leaf0, tags0, gamma, out0) && Masked(leaf1, tags1, gamma, out1)
  {
    hide RowTogether, LeavesHeld, RowShares, PresetOk, SharedValue, Xor, And, Saturate, AllHeld, Masked;
    var x0, x1, gamma0, gamma1;
    x0, tags0, gamma0, x1, tags1, gamma1 := LeafPairs(row, depth, a, t0, t1, v0, v1, loc, p0, p1, q0, q1);
    HeldSizes(row, depth, t0, v0, p0, q0, loc, x0, tags0, gamma0);
    HeldSizes(row, depth, t1, v1, p1, q1, loc, x1, tags1, gamma1);
    out0 := OutputRow(x0, tags0, Xor(gamma0, gamma1));
    out1 := OutputRow(x1, tags1, Xor(gamma1, gamma0));
    RowReconstructs(row, depth, a, t0, t1, v0, v1, loc, p0, p1, q0, q1, x0, tags0, gamma0, x1, tags1, gamma1, out0, out1);
    leaf0, leaf1, gamma := x0, x1, Xor(gamma0, gamma1);
    XorComm(gamma0, gamma1);
    RowMasked(leaf0, tags0, gamma, out0);
    RowMasked(leaf1, tags1, gamma, out1);
  }

  // The leaves and tags of all points of a row.
  ghost predicate AllHeld(row: seq<nat>, depth: nat, t: Tree, preset: seq<Block>, presetTags: seq<bool>, loc: seq<(nat, nat)>,
                          leaf: seq<Block>, tags: seq<bool>) {
    && |leaf| == |tags| == |row|
    && forall x {:trigger leaf[x]} {:trigger tags[x]} :: 0 <= x < |row| ==>
         LeafHeld(t, preset, presetTags, depth, loc, x, leaf[x], tags[x])
  }

  // gamma is added to the leaves whose tag is set.
  ghost predicate Masked(leaf: seq<Block>, tags: seq<bool>, gamma: Block, out: seq<Block>) {
    && |leaf| == |tags| == |out|
    && forall x {:trigger out[x]} :: 0 <= x < |out| ==> out[x] == if tags[x] then Xor(leaf[x], gamma) else leaf[x]
  }

  lemma RowMasked(leaf: seq<Block>, tags: seq<bool>, gamma: Block, out: seq<Block>)
    requires |leaf| == |tags| == |out|
    requires forall x {:trigger out[x]} :: 0 <= x < |leaf| ==> out[x] == Xor(leaf[x], And(gamma, Saturate(tags[x])))
    ensures Masked(leaf, tags, gamma, out)
  {
    hide Xor, And, Saturate;
    forall x {:trigger out[x]} | 0 <= x < |out|
      ensures out[x] == if tags[x] then Xor(leaf[x], gamma) else leaf[x]
    {
      AndSaturate(gamma, tags[x]);
      XorZero(leaf[x]);
    }
  }

  lemma HeldSizes(row: seq<nat>, depth: nat, t: Tree, value: Block, preset: seq<Block>, presetTags: seq<bool>, loc: seq<(nat, nat)>,
                  leaf: seq<Block>, tags: seq<bool>, gamma: Block)
    requires LeavesHeld(row, depth, t, value, preset, presetTags, loc, leaf, tags, gamma)
    ensures |leaf| == |tags| == |row| && AllHeld(row, depth, t, preset, presetTags, loc, leaf, tags)
  {
    hide Xor, CorrectedSeed, CorrectedTag;
  }
}

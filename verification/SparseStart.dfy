/**
 All rows of both parties at the start of the sparse protocol (SparseDpf.h lines 221 to 360).
 */
module SparseStart {
  import opened Blocks
  import opened SparseSplit
  import opened SparseTree
  import opened SparsePair
  import opened SparseLevels
  import opened SparsePath
  import opened SparsePlant
  import opened SparseDpf
  import opened SparseLeaves

  // All rows of both parties before the first level is closed.
  ghost predicate Started(rows: seq<seq<nat>>, depth: nat, secret: seq<nat>, trees0: seq<Tree>, trees1: seq<Tree>,
                          locs: seq<seq<(nat, nat)>>, p0: seq<seq<Block>>, p1: seq<seq<Block>>, q0: seq<seq<bool>>, q1: seq<seq<bool>>) {
    && |rows| == |secret| == |trees0| == |trees1| == |locs| == |p0| == |p1| == |q0| == |q1|
    && forall r {:trigger rows[r]} {:trigger locs[r]} :: 0 <= r < |rows| ==>
         RowStarted(rows[r], depth, secret[r], trees0[r], trees1[r], locs[r], p0[r], p1[r], q0[r], q1[r])
  }

  // One row: exactly the lone points are outside the trees.
  ghost predicate RowStarted(row: seq<nat>, depth: nat, a: nat, t0: Tree, t1: Tree, loc: seq<(nat, nat)>,
                             p0: seq<Block>, p1: seq<Block>, q0: seq<bool>, q1: seq<bool>) {
    && a < |row| && Planted(row, depth, a, t0, t1, loc) && PresetOk(row, depth, a, p0, p1, q0, q1, loc)
    && (loc[a].0 > depth <==> Lone(row, depth, a)) && Tracked(row, depth, |row|, t0.used, loc)
  }

  lemma StartedTogether(rows: seq<seq<nat>>, depth: nat, secret: seq<nat>, trees0: seq<Tree>, trees1: seq<Tree>, locs: seq<seq<(nat, nat)>>,
                        p0: seq<seq<Block>>, p1: seq<seq<Block>>, q0: seq<seq<bool>>, q1: seq<seq<bool>>, done: bool)
    requires Started(rows, depth, secret, trees0, trees1, locs, p0, p1, q0, q1)
    ensures AllTogether(rows, depth, secret, trees0, trees1, depth, done, locs)
  {
    hide Together, Lone, PresetOk, Tracked;
    forall r {:trigger rows[r]} {:trigger trees0[r]} {:trigger trees1[r]} {:trigger locs[r]} | 0 <= r < |rows|
      ensures RowTogether(rows[r], depth, secret[r], trees0[r], trees1[r], depth, done, locs[r])
    {
      assert RowStarted(rows[r], depth, secret[r], trees0[r], trees1[r], locs[r], p0[r], p1[r], q0[r], q1[r]);
    }
  }

  // A row below one root.
  lemma OneRootStarts(row: seq<nat>, depth: nat, a: nat, t0: Tree, t1: Tree, loc: seq<(nat, nat)>)
    requires Planted(row, depth, a, t0, t1, loc) && GoodRow(row, depth) && a < |row| && Tracked(row, depth, |row|, t0.used, loc)
    requires forall x {:trigger loc[x]} :: 0 <= x < |row| ==> loc[x].0 <= depth
    ensures RowStarted(row, depth, a, t0, t1, loc, seq(|row|, _ => ZERO), seq(|row|, _ => ZERO), seq(|row|, _ => false),
                       seq(|row|, _ => false))
  {
    hide Together, High, Increasing, Tracked;
    var y := if a == 0 then 1 else 0;
    assert High(row[y], depth) == High(row[a], depth);
  }

  // The two halves of row r have blocks 2r and 2r + 1 of the stream as seeds, and the party as tag.
  ghost predicate AllRooted(rows: seq<seq<nat>>, trees: seq<Tree>, locs: seq<seq<(nat, nat)>>, rand: nat -> Block, party: bool) {
    && |rows| == |trees| == |locs|
    && forall r {:trigger trees[r]} :: 0 <= r < |rows| ==>
         Rooted(rows[r], trees[r], locs[r], 0, |rows[r]|, (rand(2 * r), rand(2 * r + 1)), party)
  }

  // Two blocks of the stream for every row.
  method PlantRows(rows: seq<seq<nat>>, depth: nat, rand0: nat -> Block, rand1: nat -> Block, ghost secret: seq<nat>)
    returns (trees0: seq<Tree>, trees1: seq<Tree>, p: seq<seq<Block>>, q: seq<seq<bool>>, next: nat, ghost locs: seq<seq<(nat, nat)>>)
    requires |rows| == |secret| && forall r {:trigger rows[r]} :: 0 <= r < |rows| ==> GoodRow(rows[r], depth)
    requires forall r {:trigger secret[r]} :: 0 <= r < |rows| ==> secret[r] < |rows[r]|
    ensures Started(rows, depth, secret, trees0, trees1, locs, p, p, q, q)
    ensures AllRooted(rows, trees0, locs, rand0, false) && AllRooted(rows, trees1, locs, rand1, true)
  {
    hide RowStarted, GoodRow, Planted, Tracked, Rooted;
    trees0, trees1, p, q, next, locs := [], [], [], [], 0, [];
    var r := 0;
    while r < |rows|
      invariant r <= |rows| && |trees0| == |trees1| == |locs| == |p| == |q| == r
      invariant forall k {:trigger trees0[k]} {:trigger locs[k]} :: 0 <= k < r ==>
        RowStarted(rows[k], depth, secret[k], trees0[k], trees1[k], locs[k], p[k], p[k], q[k], q[k])
      invariant next == 2 * r
      invariant forall k {:trigger trees0[k]} :: 0 <= k < r ==>
        Rooted(rows[k], trees0[k], locs[k], 0, |rows[k]|, (rand0(2 * k), rand0(2 * k + 1)), false)
      invariant forall k {:trigger trees1[k]} :: 0 <= k < r ==>
        Rooted(rows[k], trees1[k], locs[k], 0, |rows[k]|, (rand1(2 * k), rand1(2 * k + 1)), true)
    {
      assert GoodRow(rows[r], depth) && secret[r] < |rows[r]|;
      var t0, t1;
      ghost var loc;
      t0, t1, loc := PlantPair(rows[r], depth, secret[r], rand0(next), rand0(next + 1), rand1(next), rand1(next + 1));
      PlantedSize(rows[r], depth, secret[r], t0, t1, loc);
      OneRootStarts(rows[r], depth, secret[r], t0, t1, loc);
      p, q := p + [seq(|rows[r]|, _ => ZERO)], q + [seq(|rows[r]|, _ => false)];
      trees0, trees1, locs, next := trees0 + [t0], trees1 + [t1], locs + [loc], next + 2;
      r := r + 1;
    }
  }

  // A row with a root for each bin.
  lemma BinsStart(row: seq<nat>, depth: nat, a: nat, s0: seq<Block>, s1: seq<Block>, u0: seq<bool>, u1: seq<bool>, t0: Tree, t1: Tree,
                  p0: seq<Block>, p1: seq<Block>, q0: seq<bool>, q1: seq<bool>, loc: seq<(nat, nat)>)
    requires DenseShared(row, depth, a, s0, s1, u0, u1) && Planted(row, depth, a, t0, t1, loc) && Tracked(row, depth, |row|, t0.used, loc)
    requires PresetTo(row, depth, |row|, s0, u0, p0, q0, loc) && PresetTo(row, depth, |row|, s1, u1, p1, q1, loc)
    ensures RowStarted(row, depth, a, t0, t1, loc, p0, p1, q0, q1)
    ensures Lone(row, depth, a) ==> p0[a] == s0[High(row[a], depth)] && p1[a] == s1[High(row[a], depth)]
  {
    hide Planted, High, Tracked;
    forall x {:trigger p0[x]} {:trigger q0[x]} | 0 <= x < |row| && loc[x].0 > depth
      ensures (x != a ==> p0[x] == p1[x]) && (q0[x] != q1[x] <==> x == a)
    {
      assert Lone(row, depth, x);
      assert x != a ==> High(row[a], depth) != High(row[x], depth);
      assert FromBin(High(row[x], depth), s0, u0, p0[x], q0[x]) && FromBin(High(row[x], depth), s1, u1, p1[x], q1[x]);
    }
  }

  method PlantDense(hash: Block -> Block, rows: seq<seq<nat>>, depth: nat, ghost secret: seq<nat>,
                    s0: seq<seq<Block>>, s1: seq<seq<Block>>, u0: seq<seq<bool>>, u1: seq<seq<bool>>)
    returns (trees0: seq<Tree>, trees1: seq<Tree>, p0: seq<seq<Block>>, p1: seq<seq<Block>>, q0: seq<seq<bool>>, q1: seq<seq<bool>>,
             ghost locs: seq<seq<(nat, nat)>>)
    requires |rows| == |secret| == |s0| == |s1| == |u0| == |u1|
    requires forall r {:trigger rows[r]} :: 0 <= r < |rows| ==> Increasing(rows[r])
    requires forall r {:trigger s0[r]} :: 0 <= r < |rows| ==> DenseShared(rows[r], depth, secret[r], s0[r], s1[r], u0[r], u1[r])
    ensures Started(rows, depth, secret, trees0, trees1, locs, p0, p1, q0, q1)
    ensures forall r {:trigger p0[r]} :: 0 <= r < |rows| ==> PresetSecret(rows[r], depth, secret[r], s0[r], s1[r], p0[r], p1[r])
    ensures forall r {:trigger p0[r]} :: 0 <= r < |rows| ==> FromBins(hash, rows[r], depth, trees0[r], locs[r], s0[r], u0[r], p0[r], q0[r])
    ensures forall r {:trigger p1[r]} :: 0 <= r < |rows| ==> FromBins(hash, rows[r], depth, trees1[r], locs[r], s1[r], u1[r], p1[r], q1[r])
  {
    hide RowStarted, Planted, DenseShared, Increasing, PresetTo, PresetSecret, Tracked, BinsRooted;
    trees0, trees1, p0, p1, q0, q1, locs := [], [], [], [], [], [], [];
    var r := 0;
    while r < |rows|
      invariant r <= |rows| && |trees0| == |trees1| == |locs| == |p0| == |p1| == |q0| == |q1| == r
      invariant forall k {:trigger trees0[k]} {:trigger locs[k]} :: 0 <= k < r ==>
        RowStarted(rows[k], depth, secret[k], trees0[k], trees1[k], locs[k], p0[k], p1[k], q0[k], q1[k])
      invariant forall k {:trigger p0[k]} :: 0 <= k < r ==> PresetSecret(rows[k], depth, secret[k], s0[k], s1[k], p0[k], p1[k])
      invariant forall k {:trigger p0[k]} :: 0 <= k < r ==>
        FromBins(hash, rows[k], depth, trees0[k], locs[k], s0[k], u0[k], p0[k], q0[k])
      invariant forall k {:trigger p1[k]} :: 0 <= k < r ==>
        FromBins(hash, rows[k], depth, trees1[k], locs[k], s1[k], u1[k], p1[k], q1[k])
    {
      assert Increasing(rows[r]) && DenseShared(rows[r], depth, secret[r], s0[r], s1[r], u0[r], u1[r]);
      var t0, t1, x0, x1, y0, y1;
      ghost var loc;
      t0, t1, x0, x1, y0, y1, loc := PlantBins(hash, rows[r], depth, secret[r], s0[r], s1[r], u0[r], u1[r]);
      BinsStart(rows[r], depth, secret[r], s0[r], s1[r], u0[r], u1[r], t0, t1, x0, x1, y0, y1, loc);
      SecretPreset(rows[r], depth, secret[r], s0[r], s1[r], u0[r], u1[r], t0, t1, x0, x1, y0, y1, loc);
      p0, p1, q0, q1 := p0 + [x0], p1 + [x1], q0 + [y0], q1 + [y1];
      trees0, trees1, locs := trees0 + [t0], trees1 + [t1], locs + [loc];
      r := r + 1;
    }
  }

  // A row below the bins of a dense tree: larger bins root halves, lone points are preset.
  ghost predicate FromBins(hash: Block -> Block, row: seq<nat>, depth: nat, t: Tree, loc: seq<(nat, nat)>, s: seq<Block>, u: seq<bool>,
                           p: seq<Block>, q: seq<bool>) {
    BinsRooted(hash, row, depth, t, loc, s, u, |row|) && PresetTo(row, depth, |row|, s, u, p, q, loc)
  }

  // A lone secret point is preset with the leaves of its bin.
  ghost predicate PresetSecret(row: seq<nat>, depth: nat, a: nat, s0: seq<Block>, s1: seq<Block>, p0: seq<Block>, p1: seq<Block>) {
    && a < |row| == |p0| == |p1|
    && (Lone(row, depth, a) ==> High(row[a], depth) < |s0| == |s1| && p0[a] == s0[High(row[a], depth)] && p1[a] == s1[High(row[a], depth)])
  }

  lemma SecretPreset(row: seq<nat>, depth: nat, a: nat, s0: seq<Block>, s1: seq<Block>, u0: seq<bool>, u1: seq<bool>, t0: Tree, t1: Tree,
                     p0: seq<Block>, p1: seq<Block>, q0: seq<bool>, q1: seq<bool>, loc: seq<(nat, nat)>)
    requires DenseShared(row, depth, a, s0, s1, u0, u1) && Planted(row, depth, a, t0, t1, loc) && Tracked(row, depth, |row|, t0.used, loc)
    requires PresetTo(row, depth, |row|, s0, u0, p0, q0, loc) && PresetTo(row, depth, |row|, s1, u1, p1, q1, loc)
    ensures PresetSecret(row, depth, a, s0, s1, p0, p1)
  {
    BinsStart(row, depth, a, s0, s1, u0, u1, t0, t1, p0, p1, q0, q1, loc);
    hide Planted, High, Lone, Tracked;
  }
}

/**
 The outputs of a row of the sparse protocol, point by point, from the seeds its roots start
 with (SparseDpf.h lines 290 to 358 and 471 to 515).
 */
module SparseEnds {
  import opened Blocks
  import opened DpfBuffers
  import opened RegularJoint
  import opened RegularKey
  import opened RegularPath
  import opened SparseSplit
  import opened SparseTree
  import opened SparsePair
  import opened SparsePath
  import opened SparseRow
  import opened SparsePlant
  import opened SparseDpf
  import opened SparseLeaves
  import opened SparseStart
  import opened SparseDense

  // An output and its tag from the leaf and tag e of its point: gamma is added where the tag is set.
  ghost predicate Ends(e: (Block, bool), gamma: Block, out: Block, tag: bool) {
    tag == e.1 && out == if e.1 then Xor(e.0, gamma) else e.0
  }

  // All outputs of a row below one root.
  ghost predicate RowFromRoot(hash: Block -> Block, row: seq<nat>, w: Words, c: (Block, Block), party: bool, gamma: Block, out: seq<Block>,
                              tags: seq<bool>) {
    && |out| == |tags| == |row| && |w.sigma| == |w.tau|
    && forall x {:trigger out[x]} {:trigger tags[x]} :: 0 <= x < |row| ==>
         Ends(FromRoot(hash, row, w, 0, |row|, c, party, x), gamma, out[x], tags[x])
  }

  // Leaf and tag of a point in the bin [lo, hi): those of the bin in the dense tree of the party's
  // key if it is alone there; otherwise the bin roots the points with two hashes of its leaf.
  ghost function FromBinOf(hash: Block -> Block, crypto: Crypto, i: Inputs, party: bool, k: nat, row: seq<nat>, depth: nat, w: Words,
                           lo: nat, hi: nat, x: nat): (Block, bool)
    requires WellFormed(i) && k < i.n && lo < |row| && |w.sigma| == |w.tau|
  {
    var y := NodeSeed(crypto, party, i.n, i.depth, JointKey(crypto, i, party, []), k, i.depth, High(row[lo], depth));
    var s := crypto.roundEnc(y, y);
    if hi - lo == 1 then (s, y.bits[0])
    else FromRoot(hash, row, w, lo, hi, (hash(s), hash(Xor(s, LowBit(true)))), y.bits[0], x)
  }

  // All outputs of a row below the bins of dense tree k.
  ghost predicate RowFromBins(hash: Block -> Block, crypto: Crypto, i: Inputs, party: bool, k: nat, row: seq<nat>, depth: nat, w: Words,
                              gamma: Block, out: seq<Block>, tags: seq<bool>) {
    && WellFormed(i) && k < i.n && |out| == |tags| == |row| && |w.sigma| == |w.tau|
    && forall lo: nat, hi: nat, x: nat {:trigger IsBin(row, depth, lo, hi), out[x]} {:trigger IsBin(row, depth, lo, hi), tags[x]} ::
         IsBin(row, depth, lo, hi) && lo <= x < hi && hi <= |row| ==>
           Ends(FromBinOf(hash, crypto, i, party, k, row, depth, w, lo, hi, x), gamma, out[x], tags[x])
  }

  // Every point of a row is in a bin.
  lemma BinOf(row: seq<nat>, depth: nat, x: nat) returns (lo: nat, hi: nat)
    requires Increasing(row) && x < |row|
    ensures IsBin(row, depth, lo, hi) && lo <= x < hi <= |row|
  {
    hide High, Increasing;
    lo, hi := x, x + 1;
    while lo > 0 && High(row[lo - 1], depth) == High(row[x], depth)
      invariant lo <= x && forall y {:trigger row[y]} :: lo <= y <= x ==> High(row[y], depth) == High(row[x], depth)
    {
      lo := lo - 1;
    }
    while hi < |row| && High(row[hi], depth) == High(row[x], depth)
      invariant x < hi <= |row| && forall y {:trigger row[y]} :: lo <= y < hi ==> High(row[y], depth) == High(row[x], depth)
    {
      hi := hi + 1;
    }
    assert High(row[lo], depth) == High(row[x], depth);
  }

  // ---------- one point ----------

  lemma PointEnd(hash: Block -> Block, row: seq<nat>, depth: nat, t: Tree, loc: seq<(nat, nat)>, t': Tree, loc': seq<(nat, nat)>,
                 p: seq<Block>, q: seq<bool>, x: nat, leaf: Block, tag: bool)
    requires Traces(hash, row, t, loc, t', loc', 0) && AllLeaves(row, depth, t', loc') && LeafHeld(t', p, q, depth, loc', x, leaf, tag)
    requires x < |row| && loc[x].0 <= depth && |t.levels| == depth + 1
    ensures PlaceFits(t, loc[x]) && |t.levels| == |t'.sigma| == |t'.tau|
    ensures FromPlace(hash, row, Words(t'.sigma, t'.tau), t, loc[x], x) == (leaf, tag)
  {
    LeafPlace(row, depth, t', loc', x);
    var n := t'.levels[0][loc'[x].1];
    assert NodeOk(row, t', 0, n);
    hide Descend, CorrectedSeed, CorrectedTag, AllLeaves, IsSplit;
    LeafEnds(hash, row, t', loc'[x], x);
    assert SameEnd(hash, row, t, loc[x], t', loc'[x], 0, x);
    assert Agrees(Words(t'.sigma, t'.tau), t', 0);
  }

  // ---------- one row ----------

  // One party's row at the start and at the end of a run.
  ghost predicate RowRun(hash: Block -> Block, row: seq<nat>, depth: nat, t: Tree, loc: seq<(nat, nat)>, t': Tree, loc': seq<(nat, nat)>,
                         p: seq<Block>, q: seq<bool>, gamma: Block, leaf: seq<Block>, out: seq<Block>, tags: seq<bool>) {
    && Traces(hash, row, t, loc, t', loc', 0) && AllLeaves(row, depth, t', loc') && |t.levels| == depth + 1
    && AllHeld(row, depth, t', p, q, loc', leaf, tags) && Masked(leaf, tags, gamma, out) && SameInside(depth, loc, loc')
  }

  lemma RootRow(hash: Block -> Block, row: seq<nat>, depth: nat, t: Tree, loc: seq<(nat, nat)>, t': Tree, loc': seq<(nat, nat)>,
                p: seq<Block>, q: seq<bool>, gamma: Block, leaf: seq<Block>, out: seq<Block>, tags: seq<bool>, c: (Block, Block),
                party: bool)
    requires RowRun(hash, row, depth, t, loc, t', loc', p, q, gamma, leaf, out, tags) && Rooted(row, t, loc, 0, |row|, c, party)
    ensures RowFromRoot(hash, row, Words(t'.sigma, t'.tau), c, party, gamma, out, tags)
  {
    hide Traces, AllLeaves, FromRoot, Rooted, LeafHeld, Xor;
    var w := Words(t'.sigma, t'.tau);
    RootedRange(row, t, loc, 0, |row|, c, party);
    LeavesSized(row, depth, t', loc');
    forall x {:trigger out[x]} {:trigger tags[x]} | 0 <= x < |row|
      ensures Ends(FromRoot(hash, row, w, 0, |row|, c, party, x), gamma, out[x], tags[x])
    {
      RootedPlace(row, t, loc, 0, |row|, c, party, x);
      PointEnd(hash, row, depth, t, loc, t', loc', p, q, x, leaf[x], tags[x]);
      RootDescends(hash, row, w, t, loc, 0, |row|, c, party, x);
    }
  }

  lemma LeavesSized(row: seq<nat>, depth: nat, t: Tree, loc: seq<(nat, nat)>)
    requires AllLeaves(row, depth, t, loc)
    ensures Sized(t, depth)
  {
    hide Covers;
  }

  lemma RootedRange(row: seq<nat>, t: Tree, loc: seq<(nat, nat)>, lo: nat, hi: nat, c: (Block, Block), tag: bool)
    requires Rooted(row, t, loc, lo, hi, c, tag)
    ensures lo < hi <= |loc|
  {
  }

  lemma RootedPlace(row: seq<nat>, t: Tree, loc: seq<(nat, nat)>, lo: nat, hi: nat, c: (Block, Block), tag: bool, x: nat)
    requires Rooted(row, t, loc, lo, hi, c, tag) && lo <= x < hi
    ensures x < |loc| && loc[x].0 < |t.levels|
  {
    hide SplitOf, HalfAt;
    assert PlaceFits(t, loc[x]);
  }

  // A bin of one point holds a lone point.
  lemma SingleBin(row: seq<nat>, depth: nat, lo: nat)
    requires Increasing(row) && IsBin(row, depth, lo, lo + 1)
    ensures lo < |row| && Lone(row, depth, lo)
  {
    hide High;
    forall y {:trigger row[y]} | 0 <= y < |row| && y != lo
      ensures High(row[y], depth) != High(row[lo], depth)
    {
      if y < lo {
        HighMonotone(row[y], row[lo - 1], depth);
        HighMonotone(row[lo - 1], row[lo], depth);
      } else {
        HighMonotone(row[lo], row[lo + 1], depth);
        HighMonotone(row[lo + 1], row[y], depth);
      }
    }
  }

  lemma BinPoint(hash: Block -> Block, crypto: Crypto, i: Inputs, party: bool, k: nat, row: seq<nat>, depth: nat, t: Tree,
                 loc: seq<(nat, nat)>, t': Tree, loc': seq<(nat, nat)>, s: seq<Block>, u: seq<bool>, p: seq<Block>, q: seq<bool>,
                 gamma: Block, leaf: seq<Block>, out: seq<Block>, tags: seq<bool>, lo: nat, hi: nat, x: nat)
    requires RowRun(hash, row, depth, t, loc, t', loc', p, q, gamma, leaf, out, tags) && FromBins(hash, row, depth, t, loc, s, u, p, q)
    requires OfKey(crypto, i, party, k, s, u) && Increasing(row) && IsBin(row, depth, lo, hi) && lo <= x < hi <= |row|
    ensures WellFormed(i) && k < i.n && |t'.sigma| == |t'.tau|
    ensures (leaf[x], tags[x]) == FromBinOf(hash, crypto, i, party, k, row, depth, Words(t'.sigma, t'.tau), lo, hi, x)
  {
    hide Traces, AllLeaves, FromRoot, Rooted, Xor, High, NodeSeed, JointKey, Nodes, IsBin, Increasing;
    var w, b := Words(t'.sigma, t'.tau), High(row[lo], depth);
    assert LeafHeld(t', p, q, depth, loc', x, leaf[x], tags[x]);
    var y := NodeSeed(crypto, party, i.n, i.depth, JointKey(crypto, i, party, []), k, i.depth, b);
    assert b < |s|;
    assert s[b] == crypto.roundEnc(y, y) && u[b] == y.bits[0];
    if hi - lo == 1 {
      SingleBin(row, depth, lo);
      assert loc[x].0 > depth;
      assert FromBin(High(row[x], depth), s, u, p[x], q[x]);
    } else {
      RootedPlace(row, t, loc, lo, hi, (hash(s[b]), hash(Xor(s[b], LowBit(true)))), u[b], x);
      PointEnd(hash, row, depth, t, loc, t', loc', p, q, x, leaf[x], tags[x]);
      RootDescends(hash, row, w, t, loc, lo, hi, (hash(s[b]), hash(Xor(s[b], LowBit(true)))), u[b], x);
    }
  }

  lemma BinsRow(hash: Block -> Block, crypto: Crypto, i: Inputs, party: bool, k: nat, row: seq<nat>, depth: nat, t: Tree,
                loc: seq<(nat, nat)>, t': Tree, loc': seq<(nat, nat)>, s: seq<Block>, u: seq<bool>, p: seq<Block>, q: seq<bool>,
                gamma: Block, leaf: seq<Block>, out: seq<Block>, tags: seq<bool>)
    requires RowRun(hash, row, depth, t, loc, t', loc', p, q, gamma, leaf, out, tags) && FromBins(hash, row, depth, t, loc, s, u, p, q)
    requires OfKey(crypto, i, party, k, s, u) && Increasing(row)
    ensures RowFromBins(hash, crypto, i, party, k, row, depth, Words(t'.sigma, t'.tau), gamma, out, tags)
  {
    hide Traces, AllLeaves, FromBinOf, FromBins, OfKey, IsBin, Increasing, Xor, LeafHeld, SameInside;
    OfKeyFits(crypto, i, party, k, s, u);
    LeavesSized(row, depth, t', loc');
    var w := Words(t'.sigma, t'.tau);
    forall lo: nat, hi: nat, x: nat {:trigger IsBin(row, depth, lo, hi), out[x]} {:trigger IsBin(row, depth, lo, hi), tags[x]} |
        IsBin(row, depth, lo, hi) && lo <= x < hi && hi <= |row|
      ensures Ends(FromBinOf(hash, crypto, i, party, k, row, depth, w, lo, hi, x), gamma, out[x], tags[x])
    {
      BinPoint(hash, crypto, i, party, k, row, depth, t, loc, t', loc', s, u, p, q, gamma, leaf, out, tags, lo, hi, x);
    }
  }

  // ---------- all rows ----------

  // The leaves and outputs of one party's row.
  ghost predicate EndsOfRow(row: seq<nat>, depth: nat, t: Tree, p: seq<Block>, q: seq<bool>, loc: seq<(nat, nat)>, leaf: seq<Block>,
                            gamma: Block, out: seq<Block>, tags: seq<bool>) {
    AllHeld(row, depth, t, p, q, loc, leaf, tags) && Masked(leaf, tags, gamma, out)
  }

  ghost predicate AllRun(hash: Block -> Block, rows: seq<seq<nat>>, depth: nat, trees: seq<Tree>, locs: seq<seq<(nat, nat)>>,
                         trees': seq<Tree>, locs': seq<seq<(nat, nat)>>, p: seq<seq<Block>>, q: seq<seq<bool>>, leaf: seq<seq<Block>>,
                         gamma: seq<Block>, out: seq<seq<Block>>, tags: seq<seq<bool>>) {
    && |rows| == |trees| == |locs| == |trees'| == |locs'| == |p| == |q| == |leaf| == |gamma| == |out| == |tags|
    && forall r {:trigger out[r]} :: 0 <= r < |rows| ==>
         RowRun(hash, rows[r], depth, trees[r], locs[r], trees'[r], locs'[r], p[r], q[r], gamma[r], leaf[r], out[r], tags[r])
  }

  // One party's rows at the end of a run.
  lemma RowsRun(hash: Block -> Block, rows: seq<seq<nat>>, depth: nat, secret: seq<nat>, trees: seq<Tree>, locs: seq<seq<(nat, nat)>>,
                trees0: seq<Tree>, trees1: seq<Tree>, locs': seq<seq<(nat, nat)>>, p: seq<seq<Block>>, q: seq<seq<bool>>,
                leaf: seq<seq<Block>>, gamma: seq<Block>, out: seq<seq<Block>>, tags: seq<seq<bool>>, party: bool)
    requires AllTogether(rows, depth, secret, trees0, trees1, 0, false, locs') && AllInside(depth, locs, locs')
    requires AllTraced(hash, rows, trees, locs, if party then trees1 else trees0, locs', 0)
    requires |rows| == |p| == |q| == |leaf| == |gamma| == |out| == |tags|
    requires forall r {:trigger out[r]} :: 0 <= r < |rows| ==>
      EndsOfRow(rows[r], depth, (if party then trees1 else trees0)[r], p[r], q[r], locs'[r], leaf[r], gamma[r], out[r], tags[r])
    ensures AllRun(hash, rows, depth, trees, locs, if party then trees1 else trees0, locs', p, q, leaf, gamma, out, tags)
  {
    hide Traces, AllFit, RowTogether, SameInside, RowRun, EndsOfRow;
    var trees' := if party then trees1 else trees0;
    forall r {:trigger out[r]} | 0 <= r < |rows|
      ensures RowRun(hash, rows[r], depth, trees[r], locs[r], trees'[r], locs'[r], p[r], q[r], gamma[r], leaf[r], out[r], tags[r])
    {
      assert RowTogether(rows[r], depth, secret[r], trees0[r], trees1[r], 0, false, locs'[r]);
      assert SameInside(depth, locs[r], locs'[r]);
      RowAtLeaves(rows[r], depth, secret[r], trees0[r], trees1[r], locs'[r]);
      RowRuns(hash, rows[r], depth, trees[r], locs[r], trees'[r], locs'[r], p[r], q[r], gamma[r], leaf[r], out[r], tags[r]);
    }
  }

  lemma RowAtLeaves(row: seq<nat>, depth: nat, a: nat, t0: Tree, t1: Tree, loc: seq<(nat, nat)>)
    requires RowTogether(row, depth, a, t0, t1, 0, false, loc)
    ensures AllLeaves(row, depth, t0, loc) && AllLeaves(row, depth, t1, loc) && Sized(t0, depth) && Sized(t1, depth)
  {
    hide Together, AllLeaves;
    BothLeaves(row, depth, a, t0, t1, loc);
  }

  lemma RowRuns(hash: Block -> Block, row: seq<nat>, depth: nat, t: Tree, loc: seq<(nat, nat)>, t': Tree, loc': seq<(nat, nat)>,
                p: seq<Block>, q: seq<bool>, gamma: Block, leaf: seq<Block>, out: seq<Block>, tags: seq<bool>)
    requires Traces(hash, row, t, loc, t', loc', 0) && AllLeaves(row, depth, t', loc') && Sized(t', depth)
    requires EndsOfRow(row, depth, t', p, q, loc', leaf, gamma, out, tags) && SameInside(depth, loc, loc')
    ensures RowRun(hash, row, depth, t, loc, t', loc', p, q, gamma, leaf, out, tags)
  {
    hide SameEnd, AllLeaves, AllHeld, Masked;
  }

  // The correction words of every row.
  ghost function WordsOf(trees: seq<Tree>): (w: seq<Words>)
    ensures |w| == |trees|
  {
    seq(|trees|, r requires 0 <= r < |trees| => Words(trees[r].sigma, trees[r].tau))
  }

  lemma RowsFromRoots(hash: Block -> Block, rows: seq<seq<nat>>, depth: nat, trees: seq<Tree>, locs: seq<seq<(nat, nat)>>,
                      trees': seq<Tree>, locs': seq<seq<(nat, nat)>>, p: seq<seq<Block>>, q: seq<seq<bool>>, leaf: seq<seq<Block>>,
                      gamma: seq<Block>, out: seq<seq<Block>>, tags: seq<seq<bool>>, rand: nat -> Block, party: bool)
    requires AllRun(hash, rows, depth, trees, locs, trees', locs', p, q, leaf, gamma, out, tags)
    requires AllRooted(rows, trees, locs, rand, party)
    ensures forall r {:trigger out[r]} :: 0 <= r < |rows| ==>
      RowFromRoot(hash, rows[r], WordsOf(trees')[r], (rand(2 * r), rand(2 * r + 1)), party, gamma[r], out[r], tags[r])
  {
    hide RowRun, Rooted, RowFromRoot;
    forall r {:trigger out[r]} | 0 <= r < |rows|
      ensures RowFromRoot(hash, rows[r], WordsOf(trees')[r], (rand(2 * r), rand(2 * r + 1)), party, gamma[r], out[r], tags[r])
    {
      assert Rooted(rows[r], trees[r], locs[r], 0, |rows[r]|, (rand(2 * r), rand(2 * r + 1)), party);
      RootRow(hash, rows[r], depth, trees[r], locs[r], trees'[r], locs'[r], p[r], q[r], gamma[r], leaf[r], out[r], tags[r],
              (rand(2 * r), rand(2 * r + 1)), party);
    }
  }

  // Every row starts below the bins of its dense tree.
  ghost predicate AllFromBins(hash: Block -> Block, crypto: Crypto, i: Inputs, rows: seq<seq<nat>>, depth: nat, trees: seq<Tree>,
                              locs: seq<seq<(nat, nat)>>, s: seq<seq<Block>>, u: seq<seq<bool>>, p: seq<seq<Block>>, q: seq<seq<bool>>,
                              party: bool) {
    && |rows| == |trees| == |locs| == |s| == |u| == |p| == |q|
    && forall r {:trigger p[r]} :: 0 <= r < |rows| ==>
         FromBins(hash, rows[r], depth, trees[r], locs[r], s[r], u[r], p[r], q[r]) && OfKey(crypto, i, party, r, s[r], u[r])
  }

  lemma StartsFromBins(hash: Block -> Block, crypto: Crypto, i: Inputs, rows: seq<seq<nat>>, depth: nat, trees: seq<Tree>,
                       locs: seq<seq<(nat, nat)>>, s: seq<seq<Block>>, u: seq<seq<bool>>, p: seq<seq<Block>>, q: seq<seq<bool>>,
                       party: bool)
    requires |rows| == |trees| == |locs| == |s| == |u| == |p| == |q|
    requires forall r {:trigger p[r]} :: 0 <= r < |rows| ==> FromBins(hash, rows[r], depth, trees[r], locs[r], s[r], u[r], p[r], q[r])
    requires forall r {:trigger s[r]} :: 0 <= r < |rows| ==> OfKey(crypto, i, party, r, s[r], u[r])
    ensures AllFromBins(hash, crypto, i, rows, depth, trees, locs, s, u, p, q, party)
  {
    hide FromBins, OfKey;
  }

  lemma RowsFromBins(hash: Block -> Block, crypto: Crypto, i: Inputs, rows: seq<seq<nat>>, depth: nat, trees: seq<Tree>,
                     locs: seq<seq<(nat, nat)>>, trees': seq<Tree>, locs': seq<seq<(nat, nat)>>, s: seq<seq<Block>>, u: seq<seq<bool>>,
                     p: seq<seq<Block>>, q: seq<seq<bool>>, leaf: seq<seq<Block>>, gamma: seq<Block>, out: seq<seq<Block>>,
                     tags: seq<seq<bool>>, party: bool)
    requires AllRun(hash, rows, depth, trees, locs, trees', locs', p, q, leaf, gamma, out, tags)
    requires AllFromBins(hash, crypto, i, rows, depth, trees, locs, s, u, p, q, party)
    requires forall r {:trigger rows[r]} :: 0 <= r < |rows| ==> Increasing(rows[r])
    ensures forall r {:trigger out[r]} :: 0 <= r < |rows| ==>
      RowFromBins(hash, crypto, i, party, r, rows[r], depth, WordsOf(trees')[r], gamma[r], out[r], tags[r])
  {
    hide RowRun, FromBins, OfKey, RowFromBins, Increasing;
    forall r {:trigger out[r]} | 0 <= r < |rows|
      ensures RowFromBins(hash, crypto, i, party, r, rows[r], depth, WordsOf(trees')[r], gamma[r], out[r], tags[r])
    {
      assert FromBins(hash, rows[r], depth, trees[r], locs[r], s[r], u[r], p[r], q[r]) && Increasing(rows[r]);
      BinsRow(hash, crypto, i, party, r, rows[r], depth, trees[r], locs[r], trees'[r], locs'[r], s[r], u[r], p[r], q[r], gamma[r], leaf[r],
              out[r], tags[r]);
    }
  }

  lemma OfKeyFits(crypto: Crypto, i: Inputs, party: bool, k: nat, s: seq<Block>, u: seq<bool>)
    requires OfKey(crypto, i, party, k, s, u)
    ensures WellFormed(i) && k < i.n
  {
    hide NodeSeed, Nodes;
  }
}

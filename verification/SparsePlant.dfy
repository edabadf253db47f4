/**
 How the trees of the sparse protocol start (SparseDpf.h lines 265 to 360): a row below one
 random root, or one root for each bin of a row, taken from the expansion of a dense tree.
 */
module SparsePlant {
  import opened Blocks
  import opened SparseSplit
  import opened SparseTree
  import opened SparsePair
  import opened SparseLevels
  import opened SparsePath
  import opened SparseRow

  // Both parties' trees of one row before the first level is closed.
  ghost predicate Planted(row: seq<nat>, depth: nat, a: nat, t0: Tree, t1: Tree, loc: seq<(nat, nat)>) {
    && Sized(t0, depth) && Sized(t1, depth) && |t0.levels[depth]| == 0 && |loc| == |row|
    && Together(row, depth, a, t0, t1, depth, 0, loc)
  }

  lemma EmptyPlanted(row: seq<nat>, depth: nat, a: nat)
    requires Increasing(row) && a < |row|
    ensures Planted(row, depth, a, EmptyTree(depth), EmptyTree(depth), Nowhere(|row|, depth))
  {
    EmptyTogether(row, depth, a);
  }

  // The points of a bin that separate at its top are those around its middle.
  lemma TrackedGraft(row: seq<nat>, depth: nat, t: Tree, b: Bin, loc: seq<(nat, nat)>)
    requires BinOk(row, depth, b) && Sized(t, depth) && Outside(t, b, loc) && Tracked(row, depth, b.lo, t.used, loc)
    requires b.hi < |row| ==> High(row[b.hi - 1], depth) != High(row[b.hi], depth)
    ensures Tracked(row, depth, b.hi, t.used[b.top.0 := true], GraftLoc(t, b, loc))
  {
    hide SplitPair, IsSplit, High;
    var mid, loc' := b.top.1, GraftLoc(t, b, loc);
    MiddleSplits(row, b.lo, mid, b.hi, b.top.0);
    forall x: nat, p: nat {:trigger SplitPair(row, x, p)} | x < b.hi && p <= depth && SplitPair(row, x, p)
      ensures t.used[b.top.0 := true][p] || WaitTogether(depth, loc', x)
    {
      PairInRow(row, x, p);
      BinsSplitAbove(row, depth, x, p);
      if x + 1 == mid {
        SplitOnce(row, x, p, b.top.0);
      } else if x < b.lo {
        assert t.used[p] || (WaitTogether(depth, loc, x) && loc'[x] == loc[x] && (x + 1 < b.lo ==> loc'[x + 1] == loc[x + 1]));
      }
    }
  }

  // The bins before lo keep their roots.
  ghost predicate RootsKept(row: seq<nat>, t: Tree, loc: seq<(nat, nat)>, t': Tree, loc': seq<(nat, nat)>, lo: nat) {
    forall l: nat, h: nat, c: (Block, Block), g: bool
        {:trigger Rooted(row, t, loc, l, h, c, g)} {:trigger Rooted(row, t', loc', l, h, c, g)} ::
      h <= lo && Rooted(row, t, loc, l, h, c, g) ==> Rooted(row, t', loc', l, h, c, g)
  }

  lemma GraftKeepsRoots(row: seq<nat>, depth: nat, t: Tree, b: Bin, c: (Block, Block), tag: bool, loc: seq<(nat, nat)>)
    requires Sized(t, depth) && BinOk(row, depth, b)
    ensures RootsKept(row, t, loc, Grafted(t, b, c, tag), GraftLoc(t, b, loc), b.lo)
  {
    hide Rooted, Grafted, GraftLoc, IsSplit;
    forall l: nat, h: nat, c': (Block, Block), g: bool {:trigger Rooted(row, t, loc, l, h, c', g)}
      | h <= b.lo && Rooted(row, t, loc, l, h, c', g)
      ensures Rooted(row, Grafted(t, b, c, tag), GraftLoc(t, b, loc), l, h, c', g)
    {
      RootedKept(row, depth, t, b, c, tag, loc, l, h, c', g);
    }
  }

  lemma PlantedCounts(row: seq<nat>, depth: nat, a: nat, t0: Tree, t1: Tree, loc: seq<(nat, nat)>)
    requires Planted(row, depth, a, t0, t1, loc)
    ensures SameCounts(depth, t0, t1) && |loc| == |row|
  {
    hide Covers, PairsOk, LevelsOk, NodesOk;
  }

  // The next bin of both parties.
  method GraftBoth(row: seq<nat>, depth: nat, ghost a: nat, t0: Tree, t1: Tree, ghost loc: seq<(nat, nat)>, lo: nat, hi: nat,
                   c0: (Block, Block), c1: (Block, Block), g0: bool, g1: bool)
    returns (r0: Tree, r1: Tree, ghost loc': seq<(nat, nat)>)
    requires Planted(row, depth, a, t0, t1, loc) && Increasing(row) && SameHigh(row, lo, hi, depth) && hi - lo > 1
    requires forall x {:trigger loc[x]} :: lo <= x < hi ==> loc[x].0 > depth
    requires if lo <= a < hi then g0 != g1 else g0 == g1 && c0 == c1
    requires Tracked(row, depth, lo, t0.used, loc) && (hi < |row| ==> High(row[hi - 1], depth) != High(row[hi], depth))
    ensures Planted(row, depth, a, r0, r1, loc') && Tracked(row, depth, hi, r0.used, loc')
    ensures forall x {:trigger loc'[x]} :: 0 <= x < |row| ==> if lo <= x < hi then loc'[x].0 <= depth else loc'[x] == loc[x]
    ensures Rooted(row, r0, loc', lo, hi, c0, g0) && Rooted(row, r1, loc', lo, hi, c1, g1)
    ensures RootsKept(row, t0, loc, r0, loc', lo) && RootsKept(row, t1, loc, r1, loc', lo)
  {
    hide Together, Grafted, High, Increasing, IsSplit, Tracked, Rooted, RootsKept;
    ghost var b0, b1;
    r0, b0 := Graft(row, depth, t0, lo, hi, c0, g0);
    r1, b1 := Graft(row, depth, t1, lo, hi, c1, g1);
    BinUnique(row, depth, b0, b1);
    GraftTogether(row, depth, a, t0, t1, loc, b0, c0, c1, g0, g1);
    TrackedGraft(row, depth, t0, b0, loc);
    GraftedNodes(t0, depth, b0, c0, g0);
    loc' := GraftLoc(t0, b0, loc);
    PlantedCounts(row, depth, a, t0, t1, loc);
    SameGraftLoc(row, depth, t0, t1, b0, loc);
    GraftRooted(row, depth, t0, b0, c0, g0, loc);
    GraftRooted(row, depth, t1, b0, c1, g1, loc);
    GraftKeepsRoots(row, depth, t0, b0, c0, g0, loc);
    GraftKeepsRoots(row, depth, t1, b0, c1, g1, loc);
  }

  // ---------- one root ----------

  // The points are at least two, increasing, and below 2^depth.
  ghost predicate GoodRow(points: seq<nat>, depth: nat) {
    Increasing(points) && |points| > 1 && forall i {:trigger points[i]} :: 0 <= i < |points| ==> High(points[i], depth) == 0
  }

  method PlantPair(row: seq<nat>, depth: nat, ghost a: nat, x0: Block, x1: Block, y0: Block, y1: Block)
    returns (t0: Tree, t1: Tree, ghost loc: seq<(nat, nat)>)
    requires GoodRow(row, depth) && a < |row|
    ensures Planted(row, depth, a, t0, t1, loc) && forall x {:trigger loc[x]} :: 0 <= x < |row| ==> loc[x].0 <= depth
    ensures Tracked(row, depth, |row|, t0.used, loc)
    ensures Rooted(row, t0, loc, 0, |row|, (x0, x1), false) && Rooted(row, t1, loc, 0, |row|, (y0, y1), true)
  {
    hide Planted, High, Increasing, Tracked, Rooted;
    EmptyPlanted(row, depth, a);
    NoneTracked(row, depth, Nowhere(|row|, depth));
    t0, t1, loc := GraftBoth(row, depth, a, EmptyTree(depth), EmptyTree(depth), Nowhere(|row|, depth), 0, |row|, (x0, x1), (y0, y1), false,
                             true);
    PlantedSize(row, depth, a, t0, t1, loc);
  }

  lemma PlantedSize(row: seq<nat>, depth: nat, a: nat, t0: Tree, t1: Tree, loc: seq<(nat, nat)>)
    requires Planted(row, depth, a, t0, t1, loc)
    ensures |loc| == |row| && Sized(t0, depth) && Sized(t1, depth)
  {
  }

  // ---------- one root for each bin ----------

  // No other listed point shares the bin of point x.
  ghost predicate Lone(row: seq<nat>, depth: nat, x: nat)
    requires x < |row|
  {
    forall y {:trigger row[y]} :: 0 <= y < |row| && y != x ==> High(row[y], depth) != High(row[x], depth)
  }

  // Every bin before lo ends before lo.
  ghost predicate Separated(row: seq<nat>, depth: nat, lo: nat) {
    lo <= |row| && forall x, y {:trigger row[x], row[y]} :: 0 <= x < lo <= y < |row| ==> High(row[x], depth) < High(row[y], depth)
  }

  // std::find_if: the end of the bin that starts at lo.
  method BinEnd(row: seq<nat>, depth: nat, lo: nat) returns (e: nat)
    requires Increasing(row) && lo < |row| && Separated(row, depth, lo)
    ensures lo < e && SameHigh(row, lo, e, depth) && Separated(row, depth, e)
  {
    hide High, Increasing;
    e := lo + 1;
    while e < |row| && High(row[e], depth) == High(row[lo], depth)
      invariant lo < e <= |row| && SameHigh(row, lo, e, depth)
    {
      e := e + 1;
    }
    forall x, y {:trigger row[x], row[y]} | 0 <= x < e <= y < |row|
      ensures High(row[x], depth) < High(row[y], depth)
    {
      if x >= lo {
        Above(row, depth, lo, e, y);
      }
    }
  }

  lemma Above(row: seq<nat>, depth: nat, lo: nat, e: nat, y: nat)
    requires Increasing(row) && lo < e <= y < |row| && High(row[e], depth) != High(row[lo], depth)
    ensures High(row[lo], depth) < High(row[y], depth)
  {
    assert row[lo] < row[e] && (e < y ==> row[e] < row[y]);
    hide High, Increasing;
    HighMonotone(row[lo], row[e], depth);
    HighMonotone(row[e], row[y], depth);
  }

  // A bin of one point is a lone point, a larger one has none.
  lemma BinLone(row: seq<nat>, depth: nat, lo: nat, e: nat, x: nat)
    requires lo <= x < e && Separated(row, depth, lo) && SameHigh(row, lo, e, depth) && Separated(row, depth, e)
    ensures Lone(row, depth, x) <==> e - lo == 1
  {
    hide High;
    if e - lo == 1 {
      forall y {:trigger row[y]} | 0 <= y < |row| && y != x
        ensures High(row[y], depth) != High(row[x], depth)
      {
        assert y < lo ==> High(row[y], depth) < High(row[x], depth);
        assert y >= e ==> High(row[x], depth) < High(row[y], depth);
      }
    } else {
      var y := if x == lo then lo + 1 else lo;
      assert High(row[y], depth) == High(row[lo], depth) == High(row[x], depth);
    }
  }

  // The dense trees of one row: both parties hold the same seeds and tags, except that the
  // tags differ in the bin of the secret point.
  ghost predicate DenseShared(row: seq<nat>, depth: nat, a: nat, s0: seq<Block>, s1: seq<Block>, u0: seq<bool>, u1: seq<bool>) {
    && a < |row| && |s0| == |s1| == |u0| == |u1|
    && (forall x {:trigger row[x]} :: 0 <= x < |row| ==> High(row[x], depth) < |s0|)
    && (forall b {:trigger s0[b]} {:trigger s1[b]} :: 0 <= b < |s0| && b != High(row[a], depth) ==> s0[b] == s1[b])
    && (forall b {:trigger u0[b]} {:trigger u1[b]} :: 0 <= b < |s0| ==> (u0[b] != u1[b] <==> b == High(row[a], depth)))
  }

  // Before position lo: lone points have their leaves, the others are in the trees.
  ghost predicate PresetTo(row: seq<nat>, depth: nat, lo: nat, s: seq<Block>, u: seq<bool>, leaf: seq<Block>, tags: seq<bool>,
                           loc: seq<(nat, nat)>) {
    && lo <= |row| == |leaf| == |tags| == |loc| && |s| == |u|
    && (forall x {:trigger loc[x]} :: 0 <= x < |row| ==> (loc[x].0 > depth <==> x >= lo || Lone(row, depth, x)))
    && (forall x {:trigger leaf[x]} {:trigger tags[x]} :: 0 <= x < lo && Lone(row, depth, x) ==>
          FromBin(High(row[x], depth), s, u, leaf[x], tags[x]))
  }

  // The leaf and tag of a bin.
  ghost predicate FromBin(b: nat, s: seq<Block>, u: seq<bool>, leaf: Block, tag: bool) {
    b < |s| == |u| && leaf == s[b] && tag == u[b]
  }

  lemma PresetLone(row: seq<nat>, depth: nat, lo: nat, s: seq<Block>, u: seq<bool>, leaf: seq<Block>, tags: seq<bool>, loc: seq<(nat, nat)>)
    requires PresetTo(row, depth, lo, s, u, leaf, tags, loc) && lo < |row| && Separated(row, depth, lo) && SameHigh(row, lo, lo + 1, depth)
    requires Separated(row, depth, lo + 1) && High(row[lo], depth) < |s|
    ensures PresetTo(row, depth, lo + 1, s, u, leaf[lo := s[High(row[lo], depth)]], tags[lo := u[High(row[lo], depth)]], loc)
  {
    hide High, Lone, Separated, SameHigh;
    BinLone(row, depth, lo, lo + 1, lo);
    var b := High(row[lo], depth);
    var leaf', tags' := leaf[lo := s[b]], tags[lo := u[b]];
    forall x {:trigger leaf'[x]} {:trigger tags'[x]} | 0 <= x < lo + 1 && Lone(row, depth, x)
      ensures FromBin(High(row[x], depth), s, u, leaf'[x], tags'[x])
    {
      if x < lo {
        assert leaf'[x] == leaf[x];
      }
    }
  }

  lemma PresetBin(row: seq<nat>, depth: nat, lo: nat, e: nat, s: seq<Block>, u: seq<bool>, leaf: seq<Block>, tags: seq<bool>,
                  loc: seq<(nat, nat)>, loc': seq<(nat, nat)>)
    requires PresetTo(row, depth, lo, s, u, leaf, tags, loc) && Separated(row, depth, lo) && SameHigh(row, lo, e, depth)
    requires Separated(row, depth, e) && e - lo > 1
    requires |loc'| == |row|
    requires forall x {:trigger loc'[x]} :: 0 <= x < |row| ==> if lo <= x < e then loc'[x].0 <= depth else loc'[x] == loc[x]
    ensures PresetTo(row, depth, e, s, u, leaf, tags, loc')
  {
    assert e <= |row|;
    hide High, Lone, Separated, SameHigh;
    forall x {:trigger Lone(row, depth, x)} | lo <= x < e
      ensures !Lone(row, depth, x)
    {
      BinLone(row, depth, lo, e, x);
    }
    forall x {:trigger loc'[x]} | 0 <= x < |row|
      ensures loc'[x].0 > depth <==> x >= e || Lone(row, depth, x)
    {
      if !(lo <= x < e) {
        assert loc[x].0 > depth <==> x >= lo || Lone(row, depth, x);
      }
    }
    forall x {:trigger leaf[x]} {:trigger tags[x]} | 0 <= x < e && Lone(row, depth, x)
      ensures FromBin(High(row[x], depth), s, u, leaf[x], tags[x])
    {
      assert x < lo;
    }
  }

  // A maximal range of points with the same high bits.
  ghost predicate IsBin(row: seq<nat>, depth: nat, lo: nat, hi: nat) {
    && SameHigh(row, lo, hi, depth) && (lo > 0 ==> High(row[lo - 1], depth) != High(row[lo], depth))
    && (hi < |row| ==> High(row[hi], depth) != High(row[lo], depth))
  }

  // The bins of two or more points that end before lo: their roots have the two hashes of the
  // seed of the bin in s, and the tag of the bin in u.
  ghost predicate BinsRooted(hash: Block -> Block, row: seq<nat>, depth: nat, t: Tree, loc: seq<(nat, nat)>, s: seq<Block>, u: seq<bool>,
                             lo: nat) {
    && |s| == |u| && (forall x {:trigger row[x]} :: 0 <= x < |row| ==> High(row[x], depth) < |s|)
    && forall l: nat, h: nat {:trigger IsBin(row, depth, l, h)} :: IsBin(row, depth, l, h) && h <= lo && h - l > 1 ==>
         && l < |row| && High(row[l], depth) < |s|
         && var b := High(row[l], depth);
            Rooted(row, t, loc, l, h, (hash(s[b]), hash(Xor(s[b], LowBit(true)))), u[b])
  }

  // The bin that is planted next is the only one that ends in its range.
  lemma NextBin(row: seq<nat>, depth: nat, lo: nat, e: nat, l: nat, h: nat)
    requires Separated(row, depth, lo) && SameHigh(row, lo, e, depth) && Separated(row, depth, e) && IsBin(row, depth, l, h)
    requires lo < h <= e
    ensures l == lo && h == e
  {
    hide High;
    assert High(row[h - 1], depth) == High(row[l], depth) == High(row[lo], depth);
  }

  lemma RootsPlanted(hash: Block -> Block, row: seq<nat>, depth: nat, t: Tree, loc: seq<(nat, nat)>, t': Tree, loc': seq<(nat, nat)>,
                     s: seq<Block>, u: seq<bool>, lo: nat, e: nat)
    requires BinsRooted(hash, row, depth, t, loc, s, u, lo) && RootsKept(row, t, loc, t', loc', lo)
    requires Separated(row, depth, lo) && SameHigh(row, lo, e, depth) && Separated(row, depth, e)
    requires var b := High(row[lo], depth);
             Rooted(row, t', loc', lo, e, (hash(s[b]), hash(Xor(s[b], LowBit(true)))), u[b])
    ensures BinsRooted(hash, row, depth, t', loc', s, u, e)
  {
    hide Rooted, High, Xor, Separated, SameHigh;
    forall l: nat, h: nat {:trigger IsBin(row, depth, l, h)} | IsBin(row, depth, l, h) && h <= e && h - l > 1
      ensures l < |row| && High(row[l], depth) < |s|
      ensures var b := High(row[l], depth);
              Rooted(row, t', loc', l, h, (hash(s[b]), hash(Xor(s[b], LowBit(true)))), u[b])
    {
      BinInRow(row, depth, l, h);
      if h > lo {
        NextBin(row, depth, lo, e, l, h);
      }
    }
  }

  lemma BinInRow(row: seq<nat>, depth: nat, l: nat, h: nat)
    requires IsBin(row, depth, l, h)
    ensures l < h <= |row|
  {
    hide High;
  }

  // A lone point roots nothing.
  lemma RootsSkip(hash: Block -> Block, row: seq<nat>, depth: nat, t: Tree, loc: seq<(nat, nat)>, s: seq<Block>, u: seq<bool>, lo: nat)
    requires BinsRooted(hash, row, depth, t, loc, s, u, lo)
    requires Separated(row, depth, lo) && SameHigh(row, lo, lo + 1, depth) && Separated(row, depth, lo + 1)
    ensures BinsRooted(hash, row, depth, t, loc, s, u, lo + 1)
  {
    hide Rooted, High, Xor, Separated, SameHigh;
    forall l: nat, h: nat {:trigger IsBin(row, depth, l, h)} | IsBin(row, depth, l, h) && h <= lo + 1 && h - l > 1
      ensures h <= lo
    {
      if h > lo {
        NextBin(row, depth, lo, lo + 1, l, h);
      }
    }
  }

  lemma NoRoots(hash: Block -> Block, row: seq<nat>, depth: nat, t: Tree, loc: seq<(nat, nat)>, s: seq<Block>, u: seq<bool>)
    requires |s| == |u| && forall x {:trigger row[x]} :: 0 <= x < |row| ==> High(row[x], depth) < |s|
    ensures BinsRooted(hash, row, depth, t, loc, s, u, 0)
  {
    hide Rooted, High, Xor;
  }

  lemma HashesOfBin(hash: Block -> Block, s: Block)
    ensures ChildSeeds(hash, s) == (hash(s), hash(Xor(s, LowBit(true))))
  {
    hide Xor;
    XorZero(s);
  }

  // The loop over the bins of one row, for both parties.
  method PlantBins(hash: Block -> Block, row: seq<nat>, depth: nat, ghost a: nat, s0: seq<Block>, s1: seq<Block>, u0: seq<bool>,
                   u1: seq<bool>)
    returns (t0: Tree, t1: Tree, leaf0: seq<Block>, leaf1: seq<Block>, tags0: seq<bool>, tags1: seq<bool>, ghost loc: seq<(nat, nat)>)
    requires Increasing(row) && DenseShared(row, depth, a, s0, s1, u0, u1)
    ensures Planted(row, depth, a, t0, t1, loc) && Tracked(row, depth, |row|, t0.used, loc)
    ensures PresetTo(row, depth, |row|, s0, u0, leaf0, tags0, loc) && PresetTo(row, depth, |row|, s1, u1, leaf1, tags1, loc)
    ensures BinsRooted(hash, row, depth, t0, loc, s0, u0, |row|) && BinsRooted(hash, row, depth, t1, loc, s1, u1, |row|)
  {
    hide High, Increasing, Planted, PresetTo, Separated, SameHigh, ChildSeeds, Tracked, BinsRooted, Rooted, RootsKept, Xor;
    t0, t1, loc := EmptyTree(depth), EmptyTree(depth), Nowhere(|row|, depth);
    leaf0, leaf1 := seq(|row|, _ => ZERO), seq(|row|, _ => ZERO);
    tags0, tags1 := seq(|row|, _ => false), seq(|row|, _ => false);
    EmptyPlanted(row, depth, a);
    NoneTracked(row, depth, loc);
    PresetStart(row, depth, s0, u0, leaf0, tags0);
    PresetStart(row, depth, s1, u1, leaf1, tags1);
    NoRoots(hash, row, depth, t0, loc, s0, u0);
    NoRoots(hash, row, depth, t1, loc, s1, u1);
    var lo := 0;
    while lo < |row|
      invariant lo <= |row| && Separated(row, depth, lo) && Planted(row, depth, a, t0, t1, loc) && Tracked(row, depth, lo, t0.used, loc)
      invariant PresetTo(row, depth, lo, s0, u0, leaf0, tags0, loc) && PresetTo(row, depth, lo, s1, u1, leaf1, tags1, loc)
      invariant BinsRooted(hash, row, depth, t0, loc, s0, u0, lo) && BinsRooted(hash, row, depth, t1, loc, s1, u1, lo)
      decreases |row| - lo
    {
      var bin := High(row[lo], depth);
      var e := BinEnd(row, depth, lo);
      BinBounds(row, depth, lo, e, a);
      BinCloses(row, depth, lo, e);
      PresetSizes(row, depth, lo, s0, u0, leaf0, tags0, loc);
      PresetSizes(row, depth, lo, s1, u1, leaf1, tags1, loc);
      if e - lo == 1 {
        RootsSkip(hash, row, depth, t0, loc, s0, u0, lo);
        RootsSkip(hash, row, depth, t1, loc, s1, u1, lo);
        TrackedLone(row, depth, lo, t0.used, loc);
        PresetLone(row, depth, lo, s0, u0, leaf0, tags0, loc);
        PresetLone(row, depth, lo, s1, u1, leaf1, tags1, loc);
        leaf0, tags0 := leaf0[lo := s0[bin]], tags0[lo := u0[bin]];
        leaf1, tags1 := leaf1[lo := s1[bin]], tags1[lo := u1[bin]];
      } else {
        ghost var before, before0, before1 := loc, t0, t1;
        HashesOfBin(hash, s0[bin]);
        HashesOfBin(hash, s1[bin]);
        t0, t1, loc := GraftBoth(row, depth, a, t0, t1, loc, lo, e, ChildSeeds(hash, s0[bin]), ChildSeeds(hash, s1[bin]), u0[bin], u1[bin]);
        PlantedSize(row, depth, a, t0, t1, loc);
        RootsPlanted(hash, row, depth, before0, before, t0, loc, s0, u0, lo, e);
        RootsPlanted(hash, row, depth, before1, before, t1, loc, s1, u1, lo, e);
        PresetBin(row, depth, lo, e, s0, u0, leaf0, tags0, before, loc);
        PresetBin(row, depth, lo, e, s1, u1, leaf1, tags1, before, loc);
      }
      lo := e;
    }
  }

  lemma BinCloses(row: seq<nat>, depth: nat, lo: nat, e: nat)
    requires lo < e && Separated(row, depth, e)
    ensures e <= |row| && (e < |row| ==> High(row[e - 1], depth) != High(row[e], depth))
  {
    hide High;
  }

  // A lone point and the next one do not separate within the levels.
  lemma TrackedLone(row: seq<nat>, depth: nat, lo: nat, used: seq<bool>, loc: seq<(nat, nat)>)
    requires Tracked(row, depth, lo, used, loc) && (lo + 1 < |row| ==> High(row[lo], depth) != High(row[lo + 1], depth))
    ensures Tracked(row, depth, lo + 1, used, loc)
  {
    hide SplitPair, High;
    forall x: nat, p: nat {:trigger SplitPair(row, x, p)} | x < lo + 1 && p <= depth && SplitPair(row, x, p)
      ensures used[p] || WaitTogether(depth, loc, x)
    {
      PairInRow(row, x, p);
      BinsSplitAbove(row, depth, x, p);
    }
  }

  lemma PresetStart(row: seq<nat>, depth: nat, s: seq<Block>, u: seq<bool>, leaf: seq<Block>, tags: seq<bool>)
    requires |leaf| == |tags| == |row| && |s| == |u|
    ensures PresetTo(row, depth, 0, s, u, leaf, tags, Nowhere(|row|, depth)) && Separated(row, depth, 0)
  {
    hide High;
  }

  lemma PresetSizes(row: seq<nat>, depth: nat, lo: nat, s: seq<Block>, u: seq<bool>, leaf: seq<Block>, tags: seq<bool>,
                    loc: seq<(nat, nat)>)
    requires PresetTo(row, depth, lo, s, u, leaf, tags, loc)
    ensures |leaf| == |tags| == |loc| == |row| && forall x {:trigger loc[x]} :: lo <= x < |row| ==> loc[x].0 > depth
  {
    hide High;
  }

  // A bin holds the secret point exactly when it is the secret point's bin.
  lemma BinBounds(row: seq<nat>, depth: nat, lo: nat, e: nat, a: nat)
    requires a < |row| && lo < e && Separated(row, depth, lo) && SameHigh(row, lo, e, depth) && Separated(row, depth, e)
    ensures e <= |row| && (lo <= a < e <==> High(row[lo], depth) == High(row[a], depth))
  {
    hide High;
    assert a < lo ==> High(row[a], depth) < High(row[lo], depth);
    assert a >= e ==> High(row[lo], depth) < High(row[a], depth);
  }
}

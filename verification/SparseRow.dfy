/**
 One row of the sparse protocol for both parties: the root, the correction words of a
 level, the expansion of a level, and the leaves (SparseDpf.h lines 330 to 358, 361 to 469
 and 471 to 515).
 */
module SparseRow {
  import opened Blocks
  import opened SparseSplit
  import opened SparseTree
  import opened SparsePair
  import opened SparseLevels
  import opened SparsePath

  // ---------- the roots ----------

  function EmptyTree(depth: nat): (t: Tree)
    ensures |t.levels| == |t.z| == |t.used| == |t.tau| == |t.sigma| == depth + 1
  {
    var n := depth + 1;
    Tree(seq(n, _ => []), seq(n, _ => (ZERO, ZERO)), seq(n, _ => false), seq(n, _ => (false, false)), seq(n, _ => ZERO))
  }

  // A range of points that share a root, with its split and those of its two halves.
  datatype Bin = Bin(lo: nat, hi: nat, top: (nat, nat), left: (nat, nat), right: (nat, nat))

  ghost predicate BinFits(depth: nat, b: Bin) {
    b.top.0 <= depth && b.left.0 < b.top.0 && b.right.0 < b.top.0
  }

  // The two nodes of a bin.
  function LeftNode(b: Bin, c: (Block, Block), tag: bool): Node {
    Node(b.lo, b.left.1, b.top.1, c.0, tag, false, b.top.0)
  }

  function RightNode(b: Bin, c: (Block, Block), tag: bool): Node {
    Node(b.top.1, b.right.1, b.hi, c.1, tag, true, b.top.0)
  }

  ghost predicate BinOk(points: seq<nat>, depth: nat, b: Bin) {
    && b.lo < b.top.1 < b.hi <= |points| && 0 < b.top.0 && BinFits(depth, b)
    && IsSplit(points, b.lo, b.hi, b.top.0, b.top.1)
    && IsSplit(points, b.lo, b.top.1, b.left.0, b.left.1)
    && IsSplit(points, b.top.1, b.hi, b.right.0, b.right.1)
  }

  // The tree with the two halves of one more bin, whose seeds are c.
  function Grafted(t: Tree, b: Bin, c: (Block, Block), tag: bool): (r: Tree)
    requires |t.levels| == |t.z| == |t.used| && b.top.0 < |t.levels| && b.left.0 < |t.levels| && b.right.0 < |t.levels|
    ensures |r.levels| == |r.z| == |r.used| == |t.levels| && r.tau == t.tau && r.sigma == t.sigma
  {
    var t' := t.(z := t.z[b.top.0 := (Xor(t.z[b.top.0].0, c.0), Xor(t.z[b.top.0].1, c.1))], used := t.used[b.top.0 := true]);
    PushBack(PushBack(t', b.left.0, LeftNode(b, c, tag)), b.right.0, RightNode(b, c, tag))
  }

  method Graft(points: seq<nat>, depth: nat, t: Tree, lo: nat, hi: nat, c: (Block, Block), tag: bool) returns (r: Tree, ghost b: Bin)
    requires Increasing(points) && SameHigh(points, lo, hi, depth) && hi - lo > 1 && Sized(t, depth)
    ensures BinOk(points, depth, b) && b.lo == lo && b.hi == hi && r == Grafted(t, b, c, tag)
  {
    hide IsSplit, High, BitOf, Xor;
    var delta, mid := Partition(points, lo, hi, depth);
    TopSplit(points, lo, hi, delta, mid);
    r := t.(z := t.z[delta := (Xor(t.z[delta].0, c.0), Xor(t.z[delta].1, c.1))], used := t.used[delta := true]);
    HalvesAgree(points, lo, hi, delta, mid);
    var level, m := Partition(points, lo, mid, delta);
    LowerLevel(points, lo, mid, delta, level, m);
    ghost var left := (level, m);
    r := PushBack(r, level, Node(lo, m, mid, c.0, tag, false, delta));
    level, m := Partition(points, mid, hi, delta);
    LowerLevel(points, mid, hi, delta, level, m);
    r := PushBack(r, level, Node(mid, m, hi, c.1, tag, true, delta));
    b := Bin(lo, hi, (delta, mid), left, (level, m));
  }

  lemma TopSplit(points: seq<nat>, lo: nat, hi: nat, level: nat, mid: nat)
    requires hi - lo > 1 && hi <= |points| && IsSplit(points, lo, hi, level, mid)
    ensures lo < mid < hi && level > 0 && SameHigh(points, lo, mid, level) && SameHigh(points, mid, hi, level)
  {
    hide High, BitOf;
    assert High(points[mid], level) == High(points[lo], level);
  }

  lemma BinUnique(points: seq<nat>, depth: nat, b: Bin, b': Bin)
    requires BinOk(points, depth, b) && BinOk(points, depth, b') && b.lo == b'.lo && b.hi == b'.hi
    ensures b == b'
  {
    hide IsSplit;
    SplitUnique(points, b.lo, b.hi, b.top.0, b.top.1, b'.top.0, b'.top.1);
    SplitUnique(points, b.lo, b.top.1, b.left.0, b.left.1, b'.left.0, b'.left.1);
    SplitUnique(points, b.top.1, b.hi, b.right.0, b.right.1, b'.right.0, b'.right.1);
  }

  lemma GraftedNodes(t: Tree, depth: nat, b: Bin, c: (Block, Block), tag: bool)
    requires Sized(t, depth) && BinFits(depth, b)
    ensures var r := Grafted(t, b, c, tag);
            && Sized(r, depth) && r.levels[depth] == t.levels[depth]
            && (forall l {:trigger r.levels[l]} :: 0 <= l <= depth ==> |r.levels[l]| == CountAfter(t, b.left.0, b.right.0, l))
            && (forall l: nat, k: nat {:trigger r.levels[l][k]} {:trigger t.levels[l][k]} ::
                  l <= depth && k < |t.levels[l]| ==> r.levels[l][k] == t.levels[l][k])
            && r.levels[b.left.0][|t.levels[b.left.0]|] == LeftNode(b, c, tag)
            && r.levels[b.right.0][RightPlace(t, b.left.0, b.right.0)] == RightNode(b, c, tag)
            && r.z == t.z[b.top.0 := (Xor(t.z[b.top.0].0, c.0), Xor(t.z[b.top.0].1, c.1))] && r.used == t.used[b.top.0 := true]
  {
    hide Xor;
  }

  // Where the points wait once bin b is planted.
  function PlaceIn(t: Tree, b: Bin, x: nat, before: (nat, nat)): (nat, nat)
    requires b.left.0 < |t.levels| && b.right.0 < |t.levels|
  {
    if b.lo <= x < b.top.1 then (b.left.0, |t.levels[b.left.0]|)
    else if b.top.1 <= x < b.hi then (b.right.0, RightPlace(t, b.left.0, b.right.0))
    else before
  }

  function GraftLoc(t: Tree, b: Bin, loc: seq<(nat, nat)>): (r: seq<(nat, nat)>)
    requires b.left.0 < |t.levels| && b.right.0 < |t.levels|
    ensures |r| == |loc|
  {
    seq(|loc|, x requires 0 <= x < |loc| => PlaceIn(t, b, x, loc[x]))
  }

  // All points wait outside the tree.
  function Nowhere(size: nat, depth: nat): (loc: seq<(nat, nat)>)
    ensures |loc| == size
  {
    seq(size, _ => (depth + 1, 0))
  }

  lemma EmptyTogether(points: seq<nat>, depth: nat, a: nat)
    requires Increasing(points) && a < |points|
    ensures Together(points, depth, a, EmptyTree(depth), EmptyTree(depth), depth, 0, Nowhere(|points|, depth))
    ensures |EmptyTree(depth).levels[depth]| == 0
  {
    hide Increasing, IsSplit, Xor;
    XorZero(ZERO);
  }

  // The places of the pending nodes after grafting.
  lemma GraftedPending(t: Tree, depth: nat, b: Bin, c: (Block, Block), tag: bool, l: nat, k: nat)
    requires Sized(t, depth) && BinFits(depth, b)
    requires Pending(Grafted(t, b, c, tag), depth, 0, l, k)
    ensures || (l, k) == (b.left.0, |t.levels[b.left.0]|)
            || (l, k) == (b.right.0, RightPlace(t, b.left.0, b.right.0))
            || (Pending(t, depth, 0, l, k) && Grafted(t, b, c, tag).levels[l][k] == t.levels[l][k])
  {
    GraftedNodes(t, depth, b, c, tag);
    hide Grafted;
    assert |Grafted(t, b, c, tag).levels[l]| == CountAfter(t, b.left.0, b.right.0, l);
  }

  lemma GraftNodesOk(points: seq<nat>, depth: nat, t: Tree, b: Bin, c: (Block, Block), tag: bool)
    requires NodesOk(points, depth, t) && BinOk(points, depth, b)
    ensures NodesOk(points, depth, Grafted(t, b, c, tag))
  {
    GraftedNodes(t, depth, b, c, tag);
    hide Grafted, IsSplit, Xor;
    var r := Grafted(t, b, c, tag);
    forall l, k {:trigger r.levels[l][k]} | 0 <= l <= depth && 0 <= k < |r.levels[l]|
      ensures NodeOk(points, r, l, r.levels[l][k])
    {
      if k < |t.levels[l]| {
        assert NodeOk(points, t, l, t.levels[l][k]);
      } else {
        assert |r.levels[l]| == CountAfter(t, b.left.0, b.right.0, l);
      }
    }
  }

  lemma GraftFrame(points: seq<nat>, depth: nat, a: nat, t0: Tree, t1: Tree, b: Bin, c0: (Block, Block), c1: (Block, Block), g0: bool,
                   g1: bool)
    requires Frame(points, depth, a, t0, t1, depth, 0) && BinOk(points, depth, b)
    ensures Frame(points, depth, a, Grafted(t0, b, c0, g0), Grafted(t1, b, c1, g1), depth, 0)
  {
    GraftNodesOk(points, depth, t0, b, c0, g0);
    GraftNodesOk(points, depth, t1, b, c1, g1);
    GraftedNodes(t0, depth, b, c0, g0);
    GraftedNodes(t1, depth, b, c1, g1);
    hide Grafted, IsSplit, NodesOk, Increasing;
  }

  // No point of bin b is in the tree yet.
  ghost predicate Outside(t: Tree, b: Bin, loc: seq<(nat, nat)>) {
    b.hi <= |loc| && forall x {:trigger loc[x]} :: b.lo <= x < b.hi ==> loc[x].0 >= |t.levels|
  }

  lemma GraftCovers(points: seq<nat>, depth: nat, t: Tree, b: Bin, c: (Block, Block), tag: bool, loc: seq<(nat, nat)>, a: nat)
    requires Sized(t, depth) && BinOk(points, depth, b) && Covers(points, t, depth, 0, loc) && Outside(t, b, loc) && a < |points|
    ensures var r, loc' := Grafted(t, b, c, tag), GraftLoc(t, b, loc);
            && Covers(points, r, depth, 0, loc')
            && ActiveLevel(points, r, depth, 0, loc', a) == if b.lo <= a < b.hi then b.top.0 else ActiveLevel(points, t, depth, 0, loc, a)
  {
    GraftedNodes(t, depth, b, c, tag);
    hide Grafted, IsSplit, Xor;
    var r, loc' := Grafted(t, b, c, tag), GraftLoc(t, b, loc);
    assert |r.levels[b.left.0]| > |t.levels[b.left.0]| && |r.levels[b.right.0]| > RightPlace(t, b.left.0, b.right.0);
    forall x {:trigger loc'[x]} | 0 <= x < |loc'| && loc'[x].0 < |r.levels|
      ensures Pending(r, depth, 0, loc'[x].0, loc'[x].1) && r.levels[loc'[x].0][loc'[x].1].lo <= x < r.levels[loc'[x].0][loc'[x].1].hi
    {
      if !(b.lo <= x < b.hi) {
        assert loc'[x] == loc[x] && Pending(t, depth, 0, loc[x].0, loc[x].1);
        assert r.levels[loc[x].0][loc[x].1] == t.levels[loc[x].0][loc[x].1] && |r.levels[loc[x].0]| >= |t.levels[loc[x].0]|;
      }
    }
    forall l, k, x {:trigger r.levels[l][k], loc'[x]} |
        0 <= l && 0 <= k && Pending(r, depth, 0, l, k) && 0 <= x < |loc'| && r.levels[l][k].lo <= x < r.levels[l][k].hi
      ensures loc'[x] == (l, k)
    {
      GraftedPending(t, depth, b, c, tag, l, k);
      if (l, k) != (b.left.0, |t.levels[b.left.0]|) && (l, k) != (b.right.0, RightPlace(t, b.left.0, b.right.0)) {
        assert t.levels[l][k].lo <= x < t.levels[l][k].hi && loc[x] == (l, k);
      }
    }
    assert loc'[a] == loc[a] || b.lo <= a < b.hi;
    assert loc[a].0 < |t.levels| ==> Pending(t, depth, 0, loc[a].0, loc[a].1);
  }

  // What both parties graft: equal seeds and tags off the path, opposite tags on it.
  ghost predicate GraftPaired(a: nat, b: Bin, c0: (Block, Block), c1: (Block, Block), g0: bool, g1: bool) {
    if b.lo <= a < b.hi then g0 != g1 else g0 == g1 && c0 == c1
  }

  lemma GraftSums(depth: nat, a: nat, t0: Tree, t1: Tree, b: Bin, c0: (Block, Block), c1: (Block, Block), g0: bool, g1: bool)
    requires Sized(t0, depth) && Sized(t1, depth) && BinFits(depth, b) && GraftPaired(a, b, c0, c1, g0, g1)
    ensures var r0, r1 := Grafted(t0, b, c0, g0), Grafted(t1, b, c1, g1);
            && (forall p {:trigger JointZ(r0, r1, p)} :: 0 <= p <= depth && (p != b.top.0 || !(b.lo <= a < b.hi)) ==>
                  JointZ(r0, r1, p) == JointZ(t0, t1, p))
            && (JointZ(t0, t1, b.top.0) == (ZERO, ZERO) ==> JointZ(r0, r1, b.top.0) == (Xor(c0.0, c1.0), Xor(c0.1, c1.1)))
  {
    GraftedNodes(t0, depth, b, c0, g0);
    GraftedNodes(t1, depth, b, c1, g1);
    hide Grafted, Xor;
    SumsAdd(t0.z[b.top.0].0, t1.z[b.top.0].0, c0.0, c1.0);
    SumsAdd(t0.z[b.top.0].1, t1.z[b.top.0].1, c0.1, c1.1);
  }

  lemma NewPaired(points: seq<nat>, depth: nat, a: nat, t0: Tree, t1: Tree, b: Bin, c0: (Block, Block), c1: (Block, Block), g0: bool,
                  g1: bool, right: bool)
    requires Sized(t0, depth) && Sized(t1, depth) && BinOk(points, depth, b) && GraftPaired(a, b, c0, c1, g0, g1) && a < |points|
    requires b.lo <= a < b.hi ==> JointZ(t0, t1, b.top.0) == (ZERO, ZERO)
    ensures var r0, r1 := Grafted(t0, b, c0, g0), Grafted(t1, b, c1, g1);
            if right then Paired(points, a, r0, r1, RightNode(b, c0, g0), RightNode(b, c1, g1))
            else Paired(points, a, r0, r1, LeftNode(b, c0, g0), LeftNode(b, c1, g1))
  {
    GraftSums(depth, a, t0, t1, b, c0, c1, g0, g1);
    AlphaSide(points, a, b.top.0, Node(b.lo, b.top.1, b.hi, ZERO, false, false, 0));
    hide Grafted, IsSplit, Xor, Alpha;
  }

  // The sums and pairs of the trees before a bin is planted: the secret point of a bin that
  // holds it is not in the trees yet.
  ghost predicate GraftReady(points: seq<nat>, depth: nat, a: nat, t0: Tree, t1: Tree, b: Bin, active: nat)
    requires a < |points| && Sized(t0, depth) && Sized(t1, depth)
  {
    && PairsOk(points, a, t0, t1, depth, 0, active) && LevelsOk(points, depth, a, t0, t1, depth, active)
    && (b.lo <= a < b.hi ==> active > depth)
  }

  lemma GraftPair(points: seq<nat>, depth: nat, a: nat, t0: Tree, t1: Tree, b: Bin, c0: (Block, Block), c1: (Block, Block), g0: bool,
                  g1: bool, active: nat, l: nat, k: nat)
    requires Frame(points, depth, a, t0, t1, depth, 0) && BinOk(points, depth, b) && GraftPaired(a, b, c0, c1, g0, g1)
    requires GraftReady(points, depth, a, t0, t1, b, active)
    requires Pending(Grafted(t0, b, c0, g0), depth, 0, l, k)
    ensures var r0, r1, active' := Grafted(t0, b, c0, g0), Grafted(t1, b, c1, g1), if b.lo <= a < b.hi then b.top.0 else active;
            && l < |r1.levels| && k < |r1.levels[l]| && Paired(points, a, r0, r1, r0.levels[l][k], r1.levels[l][k])
            && (r0.levels[l][k].tag != r1.levels[l][k].tag ==> r0.levels[l][k].parent >= active')
  {
    GraftedPending(t0, depth, b, c0, g0, l, k);
    GraftedNodes(t0, depth, b, c0, g0);
    GraftedNodes(t1, depth, b, c1, g1);
    hide Grafted, IsSplit, Xor, Increasing, NodesOk, Alpha;
    assert |t1.levels[b.left.0]| == |t0.levels[b.left.0]| && |t1.levels[b.right.0]| == |t0.levels[b.right.0]|;
    assert |t1.levels[l]| == |t0.levels[l]|;
    assert |Grafted(t1, b, c1, g1).levels[l]| == CountAfter(t1, b.left.0, b.right.0, l);
    assert LevelOk(points, a, t0, t1, depth, active, b.top.0);
    if (l, k) == (b.left.0, |t0.levels[b.left.0]|) {
      NewPaired(points, depth, a, t0, t1, b, c0, c1, g0, g1, false);
    } else if (l, k) == (b.right.0, RightPlace(t0, b.left.0, b.right.0)) {
      NewPaired(points, depth, a, t0, t1, b, c0, c1, g0, g1, true);
    } else {
      assert Grafted(t1, b, c1, g1).levels[l][k] == t1.levels[l][k];
      GraftSums(depth, a, t0, t1, b, c0, c1, g0, g1);
      assert Paired(points, a, t0, t1, t0.levels[l][k], t1.levels[l][k]);
    }
  }

  lemma GraftPairs(points: seq<nat>, depth: nat, a: nat, t0: Tree, t1: Tree, b: Bin, c0: (Block, Block), c1: (Block, Block), g0: bool,
                   g1: bool, active: nat)
    requires Frame(points, depth, a, t0, t1, depth, 0) && BinOk(points, depth, b) && GraftPaired(a, b, c0, c1, g0, g1)
    requires GraftReady(points, depth, a, t0, t1, b, active)
    ensures PairsOk(points, a, Grafted(t0, b, c0, g0), Grafted(t1, b, c1, g1), depth, 0, if b.lo <= a < b.hi then b.top.0 else active)
  {
    hide Grafted, IsSplit, Paired, PairsOk, LevelsOk;
    var r0, r1 := Grafted(t0, b, c0, g0), Grafted(t1, b, c1, g1);
    forall l, k {:trigger Pending(r0, depth, 0, l, k)} | 0 <= l && 0 <= k && Pending(r0, depth, 0, l, k)
      ensures k < |r1.levels[l]| && Paired(points, a, r0, r1, r0.levels[l][k], r1.levels[l][k])
           && (r0.levels[l][k].tag != r1.levels[l][k].tag ==> r0.levels[l][k].parent >= if b.lo <= a < b.hi then b.top.0 else active)
    {
      GraftPair(points, depth, a, t0, t1, b, c0, c1, g0, g1, active, l, k);
    }
    PairsFold(points, a, r0, r1, depth, if b.lo <= a < b.hi then b.top.0 else active);
  }

  lemma PairsFold(points: seq<nat>, a: nat, t0: Tree, t1: Tree, d: nat, active: nat)
    requires a < |points| && |t0.z| == |t1.z| && |t0.levels| == |t1.levels|
    requires forall l, k {:trigger Pending(t0, d, 0, l, k)} :: 0 <= l && 0 <= k && Pending(t0, d, 0, l, k) ==>
      && k < |t1.levels[l]| && Paired(points, a, t0, t1, t0.levels[l][k], t1.levels[l][k])
      && (t0.levels[l][k].tag != t1.levels[l][k].tag ==> t0.levels[l][k].parent >= active)
    ensures PairsOk(points, a, t0, t1, d, 0, active)
  {
    hide Paired;
  }

  lemma GraftLevels(points: seq<nat>, depth: nat, a: nat, t0: Tree, t1: Tree, b: Bin, c0: (Block, Block), c1: (Block, Block), g0: bool,
                    g1: bool, active: nat)
    requires Sized(t0, depth) && Sized(t1, depth) && a < |points| && BinOk(points, depth, b) && GraftPaired(a, b, c0, c1, g0, g1)
    requires LevelsOk(points, depth, a, t0, t1, depth, active) && (b.lo <= a < b.hi ==> active > depth)
    ensures Sized(Grafted(t0, b, c0, g0), depth) && Sized(Grafted(t1, b, c1, g1), depth)
    ensures LevelsOk(points, depth, a, Grafted(t0, b, c0, g0), Grafted(t1, b, c1, g1), depth, if b.lo <= a < b.hi then b.top.0 else active)
  {
    GraftedNodes(t0, depth, b, c0, g0);
    GraftedNodes(t1, depth, b, c1, g1);
    GraftSums(depth, a, t0, t1, b, c0, c1, g0, g1);
    hide Grafted, IsSplit, Xor, Alpha, Closed, JointZ;
    var r0, r1, active' := Grafted(t0, b, c0, g0), Grafted(t1, b, c1, g1), if b.lo <= a < b.hi then b.top.0 else active;
    forall p {:trigger LevelOk(points, a, r0, r1, depth, active', p)} | 0 < p <= depth
      ensures LevelOk(points, a, r0, r1, depth, active', p)
    {
      assert LevelOk(points, a, t0, t1, depth, active, p);
      assert JointZ(r0, r1, p) == JointZ(t0, t1, p) || (p == b.top.0 && b.lo <= a < b.hi);
    }
  }

  // The points of a bin wait at its two nodes.
  lemma GraftRooted(points: seq<nat>, depth: nat, t: Tree, b: Bin, c: (Block, Block), tag: bool, loc: seq<(nat, nat)>)
    requires Sized(t, depth) && BinOk(points, depth, b) && |loc| == |points|
    ensures Rooted(points, Grafted(t, b, c, tag), GraftLoc(t, b, loc), b.lo, b.hi, c, tag)
  {
    GraftedNodes(t, depth, b, c, tag);
    hide Grafted, Xor;
    SplitIs(points, b.lo, b.hi, b.top.0, b.top.1);
    hide IsSplit, SplitOf;
    var r, loc' := Grafted(t, b, c, tag), GraftLoc(t, b, loc);
    assert |r.levels[b.left.0]| == CountAfter(t, b.left.0, b.right.0, b.left.0);
    assert |r.levels[b.right.0]| == CountAfter(t, b.left.0, b.right.0, b.right.0);
    forall x {:trigger loc'[x]} | b.lo <= x < b.hi
      ensures PlaceFits(r, loc'[x])
      ensures HalfAt(r.levels[loc'[x].0][loc'[x].1], b.lo, b.top.1, b.hi, b.top.0, c, tag, x < b.top.1)
    {
      assert loc'[x] == PlaceIn(t, b, x, loc[x]);
    }
  }

  // ... and the points of other bins stay where they are.
  lemma RootedKept(points: seq<nat>, depth: nat, t: Tree, b: Bin, c: (Block, Block), tag: bool, loc: seq<(nat, nat)>, lo: nat, hi: nat,
                   c': (Block, Block), tag': bool)
    requires Sized(t, depth) && BinOk(points, depth, b) && Rooted(points, t, loc, lo, hi, c', tag') && hi <= b.lo
    ensures Rooted(points, Grafted(t, b, c, tag), GraftLoc(t, b, loc), lo, hi, c', tag')
  {
    GraftedNodes(t, depth, b, c, tag);
    hide Grafted, Xor, IsSplit, SplitOf, HalfAt;
    var r, loc' := Grafted(t, b, c, tag), GraftLoc(t, b, loc);
    forall x {:trigger loc'[x]} | lo <= x < hi
      ensures loc'[x] == loc[x] && PlaceFits(r, loc[x]) && r.levels[loc[x].0][loc[x].1] == t.levels[loc[x].0][loc[x].1]
    {
      assert loc'[x] == PlaceIn(t, b, x, loc[x]);
      assert PlaceFits(t, loc[x]);
      assert |r.levels[loc[x].0]| == CountAfter(t, b.left.0, b.right.0, loc[x].0);
    }
  }

  // Both parties place the points in the same way.
  lemma SameGraftLoc(points: seq<nat>, depth: nat, t0: Tree, t1: Tree, b: Bin, loc: seq<(nat, nat)>)
    requires SameCounts(depth, t0, t1) && BinFits(depth, b)
    ensures GraftLoc(t0, b, loc) == GraftLoc(t1, b, loc)
  {
    assert |t0.levels[b.left.0]| == |t1.levels[b.left.0]| && |t0.levels[b.right.0]| == |t1.levels[b.right.0]|;
    forall x | 0 <= x < |loc|
      ensures PlaceIn(t0, b, x, loc[x]) == PlaceIn(t1, b, x, loc[x])
    {
    }
  }

  // Planting one more bin keeps the two parties together.
  lemma GraftTogether(points: seq<nat>, depth: nat, a: nat, t0: Tree, t1: Tree, loc: seq<(nat, nat)>, b: Bin,
                      c0: (Block, Block), c1: (Block, Block), g0: bool, g1: bool)
    requires Together(points, depth, a, t0, t1, depth, 0, loc) && Sized(t0, depth) && Sized(t1, depth) && |t0.levels[depth]| == 0
    requires BinOk(points, depth, b) && Outside(t0, b, loc) && GraftPaired(a, b, c0, c1, g0, g1)
    ensures var r0, r1 := Grafted(t0, b, c0, g0), Grafted(t1, b, c1, g1);
            && Together(points, depth, a, r0, r1, depth, 0, GraftLoc(t0, b, loc))
            && Sized(r0, depth) && Sized(r1, depth) && |r0.levels[depth]| == 0
  {
    hide Grafted, IsSplit, Increasing, PairsOk, LevelsOk, Frame;
    GraftedSize(t0, depth, b, c0, g0);
    GraftedSize(t1, depth, b, c1, g1);
    FrameSized(points, depth, a, t0, t1, depth, 0);
    var active := ActiveLevel(points, t0, depth, 0, loc, a);
    GraftFrame(points, depth, a, t0, t1, b, c0, c1, g0, g1);
    GraftCovers(points, depth, t0, b, c0, g0, loc, a);
    assert b.lo <= a < b.hi ==> loc[a].0 >= |t0.levels|;
    GraftPairs(points, depth, a, t0, t1, b, c0, c1, g0, g1, active);
    GraftLevels(points, depth, a, t0, t1, b, c0, c1, g0, g1, active);
  }

  lemma GraftedSize(t: Tree, depth: nat, b: Bin, c: (Block, Block), tag: bool)
    requires Sized(t, depth) && BinFits(depth, b)
    ensures Sized(Grafted(t, b, c, tag), depth) && |Grafted(t, b, c, tag).levels[depth]| == |t.levels[depth]|
  {
  }

  // ---------- one level ----------

  // The points keep their ends, and the words of the tree are unchanged.
  ghost predicate Follows(hash: Block -> Block, points: seq<nat>, t: Tree, loc: seq<(nat, nat)>, t': Tree, loc': seq<(nat, nat)>, d: nat) {
    Traces(hash, points, t, loc, t', loc', d) && AllFit(t', loc') && t'.sigma == t.sigma && t'.tau == t.tau
    && |t.levels| == |t'.levels| == |t.sigma| == |t.tau|
  }

  lemma FollowsFirst(hash: Block -> Block, points: seq<nat>, depth: nat, a: nat, t0: Tree, t1: Tree, d: nat, loc: seq<(nat, nat)>)
    requires Together(points, depth, a, t0, t1, d, 0, loc)
    ensures Follows(hash, points, t0, loc, t0, loc, d) && Follows(hash, points, t1, loc, t1, loc, d)
  {
    AllPlacesFit(points, depth, a, t0, t1, d, loc);
    hide Covers, PairsOk, LevelsOk, Traces, AllFit;
    TracesSame(hash, points, t0, t0, loc, d);
    TracesSame(hash, points, t1, t1, loc, d);
  }

  lemma AllPlacesFit(points: seq<nat>, depth: nat, a: nat, t0: Tree, t1: Tree, d: nat, loc: seq<(nat, nat)>)
    requires Together(points, depth, a, t0, t1, d, 0, loc)
    ensures AllFit(t0, loc) && AllFit(t1, loc) && |loc| == |points|
  {
    hide PairsOk, LevelsOk, NodesOk, PlaceFits;
    forall x {:trigger loc[x]} | 0 <= x < |loc| && loc[x].0 < |t0.levels|
      ensures PlaceFits(t0, loc[x]) && PlaceFits(t1, loc[x])
    {
      PlacesFit(points, depth, a, t0, t1, d, 0, loc, x);
    }
  }

  lemma FollowsTrans(hash: Block -> Block, points: seq<nat>, t: Tree, loc: seq<(nat, nat)>, t': Tree, loc': seq<(nat, nat)>, t'': Tree,
                     loc'': seq<(nat, nat)>, d: nat)
    requires Follows(hash, points, t, loc, t', loc', d) && Follows(hash, points, t', loc', t'', loc'', d)
    ensures Follows(hash, points, t, loc, t'', loc'', d)
  {
    hide Traces, AllFit;
    TracesTrans(hash, points, t, loc, t', loc', t'', loc'', d, d);
  }

  // Both parties expand all nodes of level d, one after the other.
  method ExpandLevel(hash: Block -> Block, points: seq<nat>, depth: nat, ghost a: nat, t0: Tree, t1: Tree, d: nat,
                     ghost loc: seq<(nat, nat)>)
    returns (r0: Tree, r1: Tree, ghost loc': seq<(nat, nat)>)
    requires 0 < d <= depth && Together(points, depth, a, t0, t1, d, 0, loc) && Tracked(points, depth, |points|, t0.used, loc)
    ensures Sized(r0, depth) && Sized(r1, depth) && Together(points, depth, a, r0, r1, d, |r0.levels[d]|, loc')
    ensures SameInside(depth, loc, loc')
    ensures Tracked(points, depth, |points|, r0.used, loc')
    ensures Follows(hash, points, t0, loc, r0, loc', d) && Follows(hash, points, t1, loc, r1, loc', d)
  {
    hide Covers, PairsOk, LevelsOk, IsSplit, Increasing, High, ActiveLevel, Moved, Expanded, NodeOk, Tracked, Traces, AllFit;
    r0, r1, loc' := t0, t1, loc;
    FollowsFirst(hash, points, depth, a, t0, t1, d, loc);
    var size := |t0.levels[d]|;
    var i := 0;
    while i < size
      invariant SameInside(depth, loc, loc') && Tracked(points, depth, |points|, r0.used, loc')
      invariant i <= size && Together(points, depth, a, r0, r1, d, i, loc') && Sized(r0, depth) && Sized(r1, depth)
      invariant |r0.levels[d]| == size
      invariant Follows(hash, points, t0, loc, r0, loc', d) && Follows(hash, points, t1, loc, r1, loc', d)
    {
      ghost var before0, before1, before := r0, r1, loc';
      r0, r1, loc' := ExpandPair(hash, points, depth, a, r0, r1, d, i, loc');
      FollowsTrans(hash, points, t0, loc, before0, before, r0, loc', d);
      FollowsTrans(hash, points, t1, loc, before1, before, r1, loc', d);
      i := i + 1;
    }
  }

  method ExpandPair(hash: Block -> Block, points: seq<nat>, depth: nat, ghost a: nat, t0: Tree, t1: Tree, d: nat, i: nat,
                    ghost loc: seq<(nat, nat)>)
    returns (r0: Tree, r1: Tree, ghost loc': seq<(nat, nat)>)
    requires 0 < d <= depth && Together(points, depth, a, t0, t1, d, i, loc) && Sized(t0, depth) && i < |t0.levels[d]|
    requires Tracked(points, depth, |points|, t0.used, loc)
    ensures Together(points, depth, a, r0, r1, d, i + 1, loc') && Sized(r0, depth) && Sized(r1, depth) && |r0.levels[d]| == |t0.levels[d]|
    ensures SameInside(depth, loc, loc') && Tracked(points, depth, |points|, r0.used, loc')
    ensures Follows(hash, points, t0, loc, r0, loc', d) && Follows(hash, points, t1, loc, r1, loc', d)
  {
    hide Covers, PairsOk, LevelsOk, IsSplit, Increasing, High, ActiveLevel, Moved, Expanded, Tracked, Traces, AllFit, StepPlaces;
    ghost var left0, right0, left1, right1;
    assert |t1.levels[d]| == |t0.levels[d]|;
    assert NodeOk(points, t0, d, t0.levels[d][i]);
    r0, left0, right0 := ExpandNode(hash, points, depth, t0, d, i);
    r1, left1, right1 := ExpandNode(hash, points, depth, t1, d, i);
    ghost var s := Step(d, i, left0, right0);
    StepDetermined(points, depth, a, t0, t1, s, loc, left1, right1);
    StepTogether(hash, points, depth, a, t0, t1, s, loc);
    PlacesOfStep(points, depth, a, t0, t1, s, loc);
    SameMoved(points, depth, a, t0, t1, s, loc);
    StepTraces(hash, points, depth, t0, s, loc);
    StepTraces(hash, points, depth, t1, s, loc);
    MovedInside(points, depth, t0, s, loc);
    TrackedStep(points, depth, t0, s, loc);
    loc' := Moved(t0, d, i, left0, right0, loc);
    ExpandedNodes(hash, t0, depth, d, i, left0, right0);
  }

  // Both parties split the node in the same way.
  lemma StepDetermined(points: seq<nat>, depth: nat, a: nat, t0: Tree, t1: Tree, s: Step, loc: seq<(nat, nat)>, left: (nat, nat),
                       right: (nat, nat))
    requires Together(points, depth, a, t0, t1, s.d, s.i, loc) && StepOk(points, depth, t0, s) && s.i < |t1.levels[s.d]|
    requires var n := t1.levels[s.d][s.i];
             Halves(points, n, left, right)
    ensures left == s.left && right == s.right
  {
    NodeFacts(points, depth, a, t0, t1, s, loc);
    hide IsSplit, Closed, Increasing, Covers, PairsOk, LevelsOk;
    var n := t1.levels[s.d][s.i];
    SplitUnique(points, n.lo, n.mid, left.0, left.1, s.left.0, s.left.1);
    SplitUnique(points, n.mid, n.hi, right.0, right.1, s.right.0, s.right.1);
  }

  // The inputs of a level from one tree: unused levels get random sums.
  function Filled(t: Tree, d: nat, fill: (Block, Block)): (r: Tree)
    requires d < |t.z| == |t.used|
    ensures |r.z| == |t.z|
  {
    if t.used[d] then t else t.(z := t.z[d := fill])
  }

  // The tree with the correction words of level d.
  function WithWords(t: Tree, d: nat, sigma: Block, tau: (bool, bool)): Tree
    requires d < |t.sigma| && d < |t.tau|
  {
    t.(sigma := t.sigma[d := sigma], tau := t.tau[d := tau])
  }

  // A party's share of the low bits.
  function TauShare(party: bool, alpha: bool, z: (Block, Block)): (bool, bool) {
    ((Lsb(z.0) != alpha) != party, Lsb(z.1) != alpha)
  }

  function XorBits2(x: (bool, bool), y: (bool, bool)): (bool, bool) {
    (x.0 != y.0, x.1 != y.1)
  }

  // What the two parties reveal.
  lemma RevealedWords(z0: (Block, Block), z1: (Block, Block), alpha0: bool, alpha1: bool, p0: Block, p1: Block)
    requires Xor(p0, p1) == Mask(Xor(Xor(z0.0, z0.1), Xor(z1.0, z1.1)), (alpha0 != false) != (alpha1 != true))
    ensures var zz, alpha := (Xor(z0.0, z1.0), Xor(z0.1, z1.1)), alpha0 != alpha1;
            && Xor(Xor(p0, z0.0), Xor(p1, z1.0)) == Side(zz, !alpha)
            && XorBits2(TauShare(false, alpha0, z0), TauShare(true, alpha1, z1)) == (Lsb(zz.0) != !alpha, Lsb(zz.1) != alpha)
  {
    var zz, alpha := (Xor(z0.0, z1.0), Xor(z0.1, z1.1)), alpha0 != alpha1;
    assert Lsb(zz.0) == (Lsb(z0.0) != Lsb(z1.0)) && Lsb(zz.1) == (Lsb(z0.1) != Lsb(z1.1));
    hide Xor, Lsb;
    XorSwap(p0, z0.0, p1, z1.0);
    XorSwap(z0.0, z0.1, z1.0, z1.1);
    if alpha {
      XorZero(zz.0);
    } else {
      XorComm(zz.0, zz.1);
      XorAssoc(zz.1, zz.0, zz.0);
      XorSelf(zz.0);
      XorZero(zz.1);
    }
  }

  // ---------- the leaves ----------

  // The sum of the first k leaves.
  ghost function LeafSum(t: Tree, k: nat): Block
    requires |t.levels| > 0 && k <= |t.levels[0]|
    requires forall i {:trigger t.levels[0][i]} :: 0 <= i < |t.levels[0]| ==> t.levels[0][i].parent < |t.sigma|
  {
    if k == 0 then ZERO else Xor(LeafSum(t, k - 1), CorrectedSeed(t, t.levels[0][k - 1]))
  }

  // All points in the tree wait on level 0, one in each node.
  ghost predicate AllLeaves(points: seq<nat>, depth: nat, t: Tree, loc: seq<(nat, nat)>) {
    NodesOk(points, depth, t) && Covers(points, t, 0, 0, loc)
  }

  lemma LeafPlace(points: seq<nat>, depth: nat, t: Tree, loc: seq<(nat, nat)>, x: nat)
    requires AllLeaves(points, depth, t, loc) && x < |points| && loc[x].0 <= depth
    ensures loc[x].0 == 0 && loc[x].1 < |t.levels[0]| && t.levels[0][loc[x].1].lo == x && t.levels[0][loc[x].1].hi == x + 1
  {
    assert Pending(t, 0, 0, loc[x].0, loc[x].1);
    assert NodeOk(points, t, 0, t.levels[0][loc[x].1]);
  }

  lemma LeafAt(points: seq<nat>, depth: nat, t: Tree, loc: seq<(nat, nat)>, k: nat)
    requires AllLeaves(points, depth, t, loc) && k < |t.levels[0]|
    ensures var n := t.levels[0][k]; n.lo < |points| && n.hi == n.lo + 1 && loc[n.lo] == (0, k) && n.parent < |t.sigma|
  {
    assert NodeOk(points, t, 0, t.levels[0][k]);
    assert Pending(t, 0, 0, 0, k);
  }

  // The leaves of one party, and its share of gamma; points outside the tree keep what they
  // were preset with.
  method LeafRow(points: seq<nat>, depth: nat, t: Tree, value: Block, preset: seq<Block>, presetTags: seq<bool>, ghost loc: seq<(nat, nat)>)
    returns (leaf: seq<Block>, tags: seq<bool>, gamma: Block)
    requires AllLeaves(points, depth, t, loc) && |preset| == |presetTags| == |points|
    requires forall i {:trigger t.levels[0][i]} :: 0 <= i < |t.levels[0]| ==> t.levels[0][i].parent < |t.sigma|
    ensures |leaf| == |tags| == |points| && gamma == Xor(value, LeafSum(t, |t.levels[0]|))
    ensures forall x {:trigger leaf[x]} {:trigger tags[x]} :: 0 <= x < |points| ==>
      LeafHeld(t, preset, presetTags, depth, loc, x, leaf[x], tags[x])
  {
    hide CorrectedSeed, CorrectedTag, Xor, Covers, NodeOk;
    leaf, tags, gamma := preset, presetTags, value;
    AllPlaced(points, depth, t, loc);
    XorZero(value);
    var i := 0;
    while i < |t.levels[0]|
      invariant i <= |t.levels[0]| && |leaf| == |tags| == |points| && gamma == Xor(value, LeafSum(t, i))
      invariant forall x {:trigger leaf[x]} {:trigger tags[x]} :: 0 <= x < |points| && (loc[x].0 > depth || loc[x].1 < i) ==>
        LeafHeld(t, preset, presetTags, depth, loc, x, leaf[x], tags[x])
    {
      var n := t.levels[0][i];
      LeafAt(points, depth, t, loc, i);
      var b := n.lo;
      XorAssoc(value, LeafSum(t, i), CorrectedSeed(t, n));
      tags := tags[b := CorrectedTag(t, n)];
      leaf := leaf[b := CorrectedSeed(t, n)];
      gamma := Xor(gamma, leaf[b]);
      i := i + 1;
    }
  }

  // The leaf and tag of point x: those of its node, or the preset ones.
  ghost predicate LeafHeld(t: Tree, preset: seq<Block>, presetTags: seq<bool>, depth: nat, loc: seq<(nat, nat)>, x: nat, leaf: Block,
                           tag: bool) {
    && x < |loc| == |preset| == |presetTags| && |t.levels| > 0 && |t.sigma| == |t.tau|
    && if loc[x].0 > depth then leaf == preset[x] && tag == presetTags[x]
       else loc[x].1 < |t.levels[0]| && t.levels[0][loc[x].1].parent < |t.sigma|
            && leaf == CorrectedSeed(t, t.levels[0][loc[x].1]) && tag == CorrectedTag(t, t.levels[0][loc[x].1])
  }

  lemma AllPlaced(points: seq<nat>, depth: nat, t: Tree, loc: seq<(nat, nat)>)
    requires AllLeaves(points, depth, t, loc)
    ensures |loc| == |points|
    ensures forall x {:trigger loc[x]} ::
      0 <= x < |points| && loc[x].0 <= depth ==> loc[x].0 == 0 && loc[x].1 < |t.levels[0]| && t.levels[0][loc[x].1].lo == x
  {
    forall x {:trigger loc[x]} | 0 <= x < |points| && loc[x].0 <= depth
      ensures loc[x].0 == 0 && loc[x].1 < |t.levels[0]| && t.levels[0][loc[x].1].lo == x
    {
      LeafPlace(points, depth, t, loc, x);
    }
  }

  // Both parties' trees are full of leaves at the same places.
  lemma BothLeaves(points: seq<nat>, depth: nat, a: nat, t0: Tree, t1: Tree, loc: seq<(nat, nat)>)
    requires Together(points, depth, a, t0, t1, 0, 0, loc)
    ensures AllLeaves(points, depth, t0, loc) && AllLeaves(points, depth, t1, loc) && |t0.levels[0]| == |t1.levels[0]|
    ensures forall i {:trigger t0.levels[0][i]} :: 0 <= i < |t0.levels[0]| ==> t0.levels[0][i].parent < |t0.sigma|
    ensures forall i {:trigger t1.levels[0][i]} :: 0 <= i < |t1.levels[0]| ==> t1.levels[0][i].parent < |t1.sigma|
  {
    hide IsSplit, LevelsOk, Increasing;
    forall l, k {:trigger t1.levels[l][k]} {:trigger Pending(t1, 0, 0, l, k)} | 0 <= l && 0 <= k && Pending(t1, 0, 0, l, k)
      ensures Pending(t0, 0, 0, l, k) && SameShape(t0.levels[l][k], t1.levels[l][k])
    {
      assert |t0.levels[l]| == |t1.levels[l]|;
      assert Pending(t0, 0, 0, l, k);
    }
    forall x {:trigger loc[x]} | 0 <= x < |loc| && loc[x].0 <= depth
      ensures Pending(t1, 0, 0, loc[x].0, loc[x].1)
    {
      assert Pending(t0, 0, 0, loc[x].0, loc[x].1);
      assert |t0.levels[loc[x].0]| == |t1.levels[loc[x].0]|;
    }
    assert forall i {:trigger t0.levels[0][i]} :: 0 <= i < |t0.levels[0]| ==> NodeOk(points, t0, 0, t0.levels[0][i]);
    assert forall i {:trigger t1.levels[0][i]} :: 0 <= i < |t1.levels[0]| ==> NodeOk(points, t1, 0, t1.levels[0][i]);
  }

  // Leaf k of both parties.
  lemma LeafPair(points: seq<nat>, depth: nat, a: nat, t0: Tree, t1: Tree, loc: seq<(nat, nat)>, k: nat)
    requires Together(points, depth, a, t0, t1, 0, 0, loc) && Sized(t0, depth) && Sized(t1, depth) && k < |t0.levels[0]| == |t1.levels[0]|
    requires t0.levels[0][k].parent < |t0.sigma| && t1.levels[0][k].parent < |t1.sigma|
    ensures var m, n := t0.levels[0][k], t1.levels[0][k];
            if loc[a] == (0, k) then CorrectedTag(t0, m) != CorrectedTag(t1, n)
            else CorrectedSeed(t0, m) == CorrectedSeed(t1, n) && CorrectedTag(t0, m) == CorrectedTag(t1, n)
  {
    hide IsSplit, Increasing, CorrectedSeed, CorrectedTag, Closed, Alpha, Xor, High;
    var m, n := t0.levels[0][k], t1.levels[0][k];
    assert Pending(t0, 0, 0, 0, k);
    assert NodeOk(points, t0, 0, m);
    assert LevelOk(points, a, t0, t1, 0, ActiveLevel(points, t0, 0, 0, loc, a), m.parent);
    NodeCorrected(points, a, t0, t1, m, n);
    assert m.lo <= a < m.hi ==> loc[a] == (0, k);
    assert loc[a].0 <= depth ==> t0.levels[loc[a].0][loc[a].1].lo <= a < t0.levels[loc[a].0][loc[a].1].hi;
  }

  lemma {:induction false} LeafSumsCancel(points: seq<nat>, depth: nat, a: nat, t0: Tree, t1: Tree, loc: seq<(nat, nat)>, k: nat)
    requires Together(points, depth, a, t0, t1, 0, 0, loc) && Sized(t0, depth) && Sized(t1, depth) && k <= |t0.levels[0]| == |t1.levels[0]|
    requires forall i {:trigger t0.levels[0][i]} :: 0 <= i < |t0.levels[0]| ==> t0.levels[0][i].parent < |t0.sigma|
    requires forall i {:trigger t1.levels[0][i]} :: 0 <= i < |t1.levels[0]| ==> t1.levels[0][i].parent < |t1.sigma|
    requires a < |loc| && (loc[a].0 == 0 ==> loc[a].1 < |t0.levels[0]|)
    ensures Xor(LeafSum(t0, k), LeafSum(t1, k))
         == if loc[a].0 == 0 && loc[a].1 < k then Xor(CorrectedSeed(t0, t0.levels[0][loc[a].1]), CorrectedSeed(t1, t1.levels[0][loc[a].1]))
            else ZERO
  {
    hide Together, CorrectedSeed, CorrectedTag, Xor;
    if k == 0 {
      XorZero(ZERO);
    } else {
      LeafSumsCancel(points, depth, a, t0, t1, loc, k - 1);
      LeafPair(points, depth, a, t0, t1, loc, k - 1);
      var x0, x1 := CorrectedSeed(t0, t0.levels[0][k - 1]), CorrectedSeed(t1, t1.levels[0][k - 1]);
      XorSwap(LeafSum(t0, k - 1), x0, LeafSum(t1, k - 1), x1);
      XorSelf(x0);
      XorZero(Xor(LeafSum(t0, k - 1), LeafSum(t1, k - 1)));
      XorZero(Xor(x0, x1));
    }
  }
}

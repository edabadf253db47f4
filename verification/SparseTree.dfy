/**
 The path-compressed tree of the sparse protocol (SparseDpf.h lines 166 to 219 and 422 to
 469): nodes wait on the level of the bit that splits them until that level is expanded.
 */
module SparseTree {
  import opened Blocks
  import opened SparseSplit

  // One entry of the vectors that push_back fills together: the range [lo, hi) with its
  // middle, the seed, the parent's tag, the side (0 or 1) and the parent's level.
  datatype Node = Node(lo: nat, mid: nat, hi: nat, seed: Block, tag: bool, child: bool, parent: nat)

  // Per level: the nodes, the sums z of the expanded children, whether any node was expanded,
  // and the correction words.
  datatype Tree = Tree(levels: seq<seq<Node>>, z: seq<(Block, Block)>, used: seq<bool>, tau: seq<(bool, bool)>, sigma: seq<Block>)

  ghost predicate Sized(t: Tree, depth: nat) {
    |t.levels| == |t.z| == |t.used| == |t.tau| == |t.sigma| == depth + 1
  }

  function Side<T>(x: (T, T), b: bool): T {
    if b then x.1 else x.0
  }

  function PushBack(t: Tree, level: nat, n: Node): (r: Tree)
    requires level < |t.levels|
    ensures |r.levels| == |t.levels|
  {
    t.(levels := t.levels[level := t.levels[level] + [n]])
  }

  // The corrected seed and tag of a node.
  function CorrectedSeed(t: Tree, n: Node): Block
    requires n.parent < |t.sigma|
  {
    Xor(n.seed, And(t.sigma[n.parent], Saturate(n.tag)))
  }

  function CorrectedTag(t: Tree, n: Node): bool
    requires n.parent < |t.tau|
  {
    Lsb(n.seed) != (n.tag && Side(t.tau[n.parent], n.child))
  }

  function ChildSeeds(hash: Block -> Block, s: Block): (Block, Block) {
    (hash(Xor(s, ZERO)), hash(Xor(s, LowBit(true))))
  }

  // Node i of level d expanded; left and right are level and middle of the two halves.
  function Expanded(hash: Block -> Block, t: Tree, d: nat, i: nat, left: (nat, nat), right: (nat, nat)): (r: Tree)
    requires |t.levels| == |t.z| == |t.used| == |t.tau| == |t.sigma| && d < |t.levels| && i < |t.levels[d]|
    requires left.0 < d && right.0 < d && t.levels[d][i].parent < |t.sigma|
    ensures |r.levels| == |r.z| == |r.used| == |r.tau| == |r.sigma| == |t.levels|
  {
    var n := t.levels[d][i];
    var s, cTag := CorrectedSeed(t, n), CorrectedTag(t, n);
    var c := ChildSeeds(hash, s);
    var t' := t.(levels := t.levels[d := t.levels[d][i := n.(seed := s)]],
                 z := t.z[d := (Xor(t.z[d].0, c.0), Xor(t.z[d].1, c.1))],
                 used := t.used[d := true]);
    PushBack(PushBack(t', left.0, Node(n.lo, left.1, n.mid, c.0, cTag, false, d)), right.0, Node(n.mid, right.1, n.hi, c.1, cTag, true, d))
  }

  // A node is well placed: a proper range on its own level, below its parent.
  ghost predicate NodeOk(points: seq<nat>, t: Tree, level: nat, n: Node) {
    && n.lo < n.hi <= |points| && IsSplit(points, n.lo, n.hi, level, n.mid)
    && level < n.parent < |t.used| && t.used[n.parent]
  }

  ghost predicate NodesOk(points: seq<nat>, depth: nat, t: Tree) {
    && Sized(t, depth)
    && forall l, k {:trigger t.levels[l][k]} :: 0 <= l <= depth && 0 <= k < |t.levels[l]| ==> NodeOk(points, t, l, t.levels[l][k])
  }

  // Level and middle of the two halves of a node.
  ghost predicate Halves(points: seq<nat>, n: Node, left: (nat, nat), right: (nat, nat)) {
    && n.lo < n.mid < n.hi <= |points|
    && IsSplit(points, n.lo, n.mid, left.0, left.1) && IsSplit(points, n.mid, n.hi, right.0, right.1)
  }

  // One iteration of the inner loop.
  method ExpandNode(hash: Block -> Block, points: seq<nat>, depth: nat, t: Tree, d: nat, i: nat)
    returns (t': Tree, ghost left: (nat, nat), ghost right: (nat, nat))
    requires Increasing(points) && NodesOk(points, depth, t) && 0 < d <= depth && i < |t.levels[d]|
    ensures left.0 < d && right.0 < d && t' == Expanded(hash, t, d, i, left, right)
    ensures var n := t.levels[d][i];
            Halves(points, n, left, right)
  {
    hide IsSplit, Xor, And, Saturate, Lsb, Increasing;
    var n := t.levels[d][i];
    InnerNode(points, t, d, n);
    HalvesAgree(points, n.lo, n.hi, d, n.mid);
    var cTag := Lsb(n.seed) != (n.tag && Side(t.tau[n.parent], n.child));
    var seed := Xor(n.seed, And(t.sigma[n.parent], Saturate(n.tag)));
    t' := t.(levels := t.levels[d := t.levels[d][i := n.(seed := seed)]]);
    var cSeed0, cSeed1 := hash(Xor(seed, ZERO)), hash(Xor(seed, LowBit(true)));
    t' := t'.(z := t'.z[d := (Xor(t'.z[d].0, cSeed0), Xor(t'.z[d].1, cSeed1))], used := t'.used[d := true]);
    var level, mid := Partition(points, n.lo, n.mid, d);
    LowerLevel(points, n.lo, n.mid, d, level, mid);
    left := (level, mid);
    t' := PushBack(t', level, Node(n.lo, mid, n.mid, cSeed0, cTag, false, d));
    level, mid := Partition(points, n.mid, n.hi, d);
    LowerLevel(points, n.mid, n.hi, d, level, mid);
    right := (level, mid);
    t' := PushBack(t', level, Node(n.mid, mid, n.hi, cSeed1, cTag, true, d));
  }

  lemma InnerNode(points: seq<nat>, t: Tree, d: nat, n: Node)
    requires NodeOk(points, t, d, n) && d > 0
    ensures n.lo < n.mid < n.hi <= |points| && n.hi - n.lo > 1 && IsSplit(points, n.lo, n.hi, d, n.mid)
    ensures SameHigh(points, n.lo, n.mid, d) && SameHigh(points, n.mid, n.hi, d)
  {
    hide High, BitOf;
    forall i {:trigger points[i]} | n.lo <= i < n.hi
      ensures High(points[i], d) == High(points[n.lo], d) && High(points[n.mid], d) == High(points[n.lo], d)
    {
    }
  }

  // The halves of a node on level d go to lower levels.
  lemma LowerLevel(points: seq<nat>, lo: nat, hi: nat, d: nat, level: nat, mid: nat)
    requires d > 0 && SameHigh(points, lo, hi, d - 1) && IsSplit(points, lo, hi, level, mid)
    ensures level < d
  {
    hide High, BitOf;
    if hi - lo > 1 {
      assert !BitOf(points[lo], level - 1) && BitOf(points[hi - 1], level - 1);
      if level >= d {
        HighBits(points[lo], points[hi - 1], d - 1, level - 1);
      }
    }
  }

  // ---------- two parties ----------

  ghost predicate SameShape(m: Node, n: Node) {
    m.lo == n.lo && m.mid == n.mid && m.hi == n.hi && m.child == n.child && m.parent == n.parent
  }

  // A node still to be expanded after node i - 1 of level d.
  ghost predicate Pending(t: Tree, d: nat, i: nat, l: nat, k: nat) {
    l <= d && l < |t.levels| && k < |t.levels[l]| && (l == d ==> i <= k)
  }

  // The sums of both parties on level p.
  ghost function JointZ(t0: Tree, t1: Tree, p: nat): (Block, Block)
    requires p < |t0.z| && p < |t1.z|
  {
    (Xor(t0.z[p].0, t1.z[p].0), Xor(t0.z[p].1, t1.z[p].1))
  }

  // Bit p - 1 of the secret point.
  predicate Alpha(points: seq<nat>, a: nat, p: nat)
    requires a < |points| && p > 0
  {
    BitOf(points[a], p - 1)
  }

  // The correction words of level p.
  ghost predicate Closed(points: seq<nat>, a: nat, t0: Tree, t1: Tree, p: nat)
    requires a < |points| && 0 < p < |t0.z| == |t1.z| == |t0.tau| == |t1.tau| == |t0.sigma| == |t1.sigma|
  {
    var zz, alpha := JointZ(t0, t1, p), Alpha(points, a, p);
    && t0.sigma[p] == t1.sigma[p] == Side(zz, !alpha)
    && t0.tau[p] == t1.tau[p] == (Lsb(zz.0) != !alpha, Lsb(zz.1) != alpha)
  }

  // Two nodes at the same place: equal off the path; otherwise with opposite tags, and
  // seeds that differ by the sums of the parent's level.
  ghost predicate Paired(points: seq<nat>, a: nat, t0: Tree, t1: Tree, m: Node, n: Node)
    requires a < |points| && |t0.z| == |t1.z|
  {
    && SameShape(m, n) && 0 < m.parent < |t0.z|
    && (m.tag == n.tag ==> m.seed == n.seed && !(m.lo <= a < m.hi))
    && (m.tag != n.tag ==> Xor(m.seed, n.seed) == Side(JointZ(t0, t1, m.parent), m.child))
    && (m.tag != n.tag ==> (m.lo <= a < m.hi <==> m.child == Alpha(points, a, m.parent)))
  }

  // loc says where each point waits: ranges of pending nodes are disjoint.  A point outside
  // the tree waits above all levels.
  ghost predicate Covers(points: seq<nat>, t: Tree, d: nat, i: nat, loc: seq<(nat, nat)>) {
    && |loc| == |points|
    && (forall x {:trigger loc[x]} :: 0 <= x < |loc| && loc[x].0 < |t.levels| ==>
          Pending(t, d, i, loc[x].0, loc[x].1) && t.levels[loc[x].0][loc[x].1].lo <= x < t.levels[loc[x].0][loc[x].1].hi)
    && (forall l, k, x {:trigger t.levels[l][k], loc[x]} ::
          0 <= l && 0 <= k && Pending(t, d, i, l, k) && 0 <= x < |loc| && t.levels[l][k].lo <= x < t.levels[l][k].hi ==> loc[x] == (l, k))
  }
}

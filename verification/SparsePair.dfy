/**
 The two parties' sparse trees side by side: off the path to the secret point both hold
 the same seeds and tags, and this survives every step of the expansion.
 */
module SparsePair {
  import opened Blocks
  import opened DpfPath
  import opened SparseSplit
  import opened SparseTree

  // ---------- one node ----------

  // After the correction the nodes agree, unless the point is below them.
  lemma NodeCorrected(points: seq<nat>, a: nat, t0: Tree, t1: Tree, m: Node, n: Node)
    requires a < |points| && |t0.z| == |t1.z| == |t0.tau| == |t1.tau| == |t0.sigma| == |t1.sigma|
    requires Paired(points, a, t0, t1, m, n) && Closed(points, a, t0, t1, m.parent)
    ensures m.lo <= a < m.hi ==> m.tag != n.tag && CorrectedTag(t0, m) != CorrectedTag(t1, n)
    ensures !(m.lo <= a < m.hi) ==> CorrectedSeed(t0, m) == CorrectedSeed(t1, n) && CorrectedTag(t0, m) == CorrectedTag(t1, n)
  {
    hide Alpha, Saturate, And;
    if m.tag != n.tag {
      var diff := Xor(m.seed, n.seed);
      assert Lsb(diff) == (Lsb(m.seed) != Lsb(n.seed));
      if !(m.lo <= a < m.hi) {
        InactiveSeeds(m.seed, n.seed, m.tag, n.tag, diff);
      }
    }
  }

  lemma InactiveSeeds(x: Block, y: Block, t: bool, u: bool, s: Block)
    requires t != u && s == Xor(x, y)
    ensures Xor(x, And(s, Saturate(t))) == Xor(y, And(s, Saturate(u)))
  {
    CorrectInactive(x, y, Saturate(t), Saturate(u), s);
    AndSaturate(s, t);
    AndSaturate(s, u);
  }

  // The sums after both parties have added children c to theirs.
  lemma SumsAdd(z0: Block, z1: Block, c0: Block, c1: Block)
    ensures Xor(Xor(z0, c0), Xor(z1, c1)) == Xor(Xor(z0, z1), Xor(c0, c1))
    ensures c0 == c1 ==> Xor(Xor(z0, c0), Xor(z1, c1)) == Xor(z0, z1)
    ensures Xor(z0, z1) == ZERO ==> Xor(Xor(z0, c0), Xor(z1, c1)) == Xor(c0, c1)
  {
    hide Xor;
    XorSwap(z0, c0, z1, c1);
    XorSelf(c0);
    XorZero(Xor(z0, z1));
    XorZero(Xor(c0, c1));
  }

  // ---------- where the nodes are after a step ----------

  // The place of the right half, pushed after the left half.
  function RightPlace(t: Tree, left: nat, right: nat): nat
    requires right < |t.levels|
  {
    |t.levels[right]| + if left == right then 1 else 0
  }

  // The nodes of level l after both halves have been pushed.
  function CountAfter(t: Tree, left: nat, right: nat, l: nat): nat
    requires l < |t.levels|
  {
    |t.levels[l]| + (if l == left then 1 else 0) + (if l == right then 1 else 0)
  }

  // Node i of level d can be expanded, with halves on lower levels.
  ghost predicate CanExpand(t: Tree, depth: nat, d: nat, i: nat, left: (nat, nat), right: (nat, nat)) {
    Sized(t, depth) && d <= depth && i < |t.levels[d]| && left.0 < d && right.0 < d && t.levels[d][i].parent <= depth
  }

  lemma ExpandedNodes(hash: Block -> Block, t: Tree, depth: nat, d: nat, i: nat, left: (nat, nat), right: (nat, nat))
    requires CanExpand(t, depth, d, i, left, right)
    ensures var r, n := Expanded(hash, t, d, i, left, right), t.levels[d][i];
            && Sized(r, depth) && |r.levels[d]| == |t.levels[d]|
            && (forall l {:trigger r.levels[l]} :: 0 <= l <= depth ==> |r.levels[l]| == CountAfter(t, left.0, right.0, l))
            && (forall l: nat, k: nat {:trigger r.levels[l][k]} {:trigger t.levels[l][k]} ::
                  l <= depth && k < |t.levels[l]| && !(l == d && k == i) ==> r.levels[l][k] == t.levels[l][k])
    ensures var r, n, s, g := Expanded(hash, t, d, i, left, right), t.levels[d][i], CorrectedSeed(t, t.levels[d][i]),
                              CorrectedTag(t, t.levels[d][i]);
            && r.levels[left.0][|t.levels[left.0]|] == Node(n.lo, left.1, n.mid, ChildSeeds(hash, s).0, g, false, d)
            && r.levels[right.0][RightPlace(t, left.0, right.0)] == Node(n.mid, right.1, n.hi, ChildSeeds(hash, s).1, g, true, d)
            && r.levels[d][i] == n.(seed := s)
            && r.z == t.z[d := (Xor(t.z[d].0, ChildSeeds(hash, s).0), Xor(t.z[d].1, ChildSeeds(hash, s).1))]
            && r.used == t.used[d := true] && r.tau == t.tau && r.sigma == t.sigma
  {
    hide CorrectedSeed, CorrectedTag, ChildSeeds;
  }

  // ---------- the invariant ----------

  ghost predicate SameCounts(depth: nat, t0: Tree, t1: Tree) {
    Sized(t0, depth) && Sized(t1, depth) && t0.used == t1.used
    && forall l {:trigger t0.levels[l]} {:trigger t1.levels[l]} :: 0 <= l <= depth ==> |t0.levels[l]| == |t1.levels[l]|
  }

  ghost function NodeOf(t: Tree, p: (nat, nat)): Node
    requires p.0 < |t.levels| && p.1 < |t.levels[p.0]|
  {
    t.levels[p.0][p.1]
  }

  ghost predicate Frame(points: seq<nat>, depth: nat, a: nat, t0: Tree, t1: Tree, d: nat, i: nat) {
    && Increasing(points) && a < |points| && d <= depth
    && NodesOk(points, depth, t0) && NodesOk(points, depth, t1) && SameCounts(depth, t0, t1) && i <= |t0.levels[d]|
  }

  // All pending nodes are paired; tags differ on and beside the path only, which has come
  // down to the level `active`.
  ghost predicate PairsOk(points: seq<nat>, a: nat, t0: Tree, t1: Tree, d: nat, i: nat, active: nat)
    requires a < |points| && |t0.z| == |t1.z| && |t0.levels| == |t1.levels|
  {
    forall l, k {:trigger t0.levels[l][k]} {:trigger t1.levels[l][k]} {:trigger Pending(t0, d, i, l, k)} ::
      0 <= l && 0 <= k && Pending(t0, d, i, l, k) ==>
      && k < |t1.levels[l]| && Paired(points, a, t0, t1, t0.levels[l][k], t1.levels[l][k])
      && (t0.levels[l][k].tag != t1.levels[l][k].tag ==> t0.levels[l][k].parent >= active)
  }

  // The levels above d are closed; on the others only the level `active` has sums.
  ghost predicate LevelOk(points: seq<nat>, a: nat, t0: Tree, t1: Tree, d: nat, active: nat, p: nat)
    requires a < |points| && 0 < p < |t0.z| == |t1.z| == |t0.tau| == |t1.tau| == |t0.sigma| == |t1.sigma| == |t0.used|
  {
    && (p > d && t0.used[p] ==> Closed(points, a, t0, t1, p))
    && (p <= d ==> JointZ(t0, t1, p) == (ZERO, ZERO) || active == p)
  }

  ghost predicate LevelsOk(points: seq<nat>, depth: nat, a: nat, t0: Tree, t1: Tree, d: nat, active: nat)
    requires a < |points| && Sized(t0, depth) && Sized(t1, depth)
  {
    forall p {:trigger LevelOk(points, a, t0, t1, d, active, p)} :: 0 < p <= depth ==> LevelOk(points, a, t0, t1, d, active, p)
  }

  // The level of the last expanded node above point a; above all levels if there is none.
  ghost function ActiveLevel(points: seq<nat>, t: Tree, d: nat, i: nat, loc: seq<(nat, nat)>, a: nat): nat
    requires Covers(points, t, d, i, loc) && a < |points|
  {
    if loc[a].0 >= |t.levels| then |t.levels|
    else
      assert Pending(t, d, i, loc[a].0, loc[a].1);
      NodeOf(t, loc[a]).parent
  }

  // What holds after i nodes of level d have been expanded.
  ghost predicate Together(points: seq<nat>, depth: nat, a: nat, t0: Tree, t1: Tree, d: nat, i: nat, loc: seq<(nat, nat)>) {
    && Frame(points, depth, a, t0, t1, d, i) && Covers(points, t0, d, i, loc)
    && PairsOk(points, a, t0, t1, d, i, ActiveLevel(points, t0, d, i, loc, a))
    && LevelsOk(points, depth, a, t0, t1, d, ActiveLevel(points, t0, d, i, loc, a))
  }

  // Where a point that waited at `before` waits after a step.
  function MovedTo(t: Tree, d: nat, i: nat, left: (nat, nat), right: (nat, nat), x: nat, before: (nat, nat)): (p: (nat, nat))
    requires d < |t.levels| && i < |t.levels[d]| && left.0 < |t.levels| && right.0 < |t.levels|
  {
    var n := t.levels[d][i];
    if n.lo <= x < n.mid then (left.0, |t.levels[left.0]|)
    else if n.mid <= x < n.hi then (right.0, RightPlace(t, left.0, right.0))
    else before
  }

  function Moved(t: Tree, d: nat, i: nat, left: (nat, nat), right: (nat, nat), loc: seq<(nat, nat)>): (r: seq<(nat, nat)>)
    requires d < |t.levels| && i < |t.levels[d]| && left.0 < |t.levels| && right.0 < |t.levels|
    ensures |r| == |loc|
  {
    seq(|loc|, x requires 0 <= x < |loc| => MovedTo(t, d, i, left, right, x, loc[x]))
  }

  // ---------- one step ----------

  // The places of the pending nodes after a step: the two halves, or an old place.
  lemma PendingAfter(hash: Block -> Block, t: Tree, depth: nat, d: nat, i: nat, left: (nat, nat), right: (nat, nat), l: nat, k: nat)
    requires CanExpand(t, depth, d, i, left, right)
    requires Pending(Expanded(hash, t, d, i, left, right), d, i + 1, l, k)
    ensures || (l, k) == (left.0, |t.levels[left.0]|)
            || (l, k) == (right.0, RightPlace(t, left.0, right.0))
            || (Pending(t, d, i, l, k) && (l, k) != (d, i) && Expanded(hash, t, d, i, left, right).levels[l][k] == t.levels[l][k])
  {
    ExpandedNodes(hash, t, depth, d, i, left, right);
    hide Expanded, CorrectedSeed, CorrectedTag, ChildSeeds;
    assert |Expanded(hash, t, d, i, left, right).levels[l]| == CountAfter(t, left.0, right.0, l);
    if k < |t.levels[l]| {
      assert Expanded(hash, t, d, i, left, right).levels[l][k] == t.levels[l][k] || (l == d && k == i);
    }
  }

  lemma MovedPlace(hash: Block -> Block, points: seq<nat>, t: Tree, depth: nat, d: nat, i: nat, left: (nat, nat), right: (nat, nat),
                   loc: seq<(nat, nat)>, x: nat)
    requires CanExpand(t, depth, d, i, left, right)
    requires t.levels[d][i].lo < t.levels[d][i].mid < t.levels[d][i].hi && Covers(points, t, d, i, loc) && x < |loc|
    ensures var r, p := Expanded(hash, t, d, i, left, right), Moved(t, d, i, left, right, loc)[x];
            p.0 < |r.levels| ==> Pending(r, d, i + 1, p.0, p.1) && r.levels[p.0][p.1].lo <= x < r.levels[p.0][p.1].hi
  {
    ExpandedNodes(hash, t, depth, d, i, left, right);
    hide Expanded, CorrectedSeed, CorrectedTag, ChildSeeds;
    var r, n, p := Expanded(hash, t, d, i, left, right), t.levels[d][i], Moved(t, d, i, left, right, loc)[x];
    assert |r.levels[left.0]| > |t.levels[left.0]| && |r.levels[right.0]| > RightPlace(t, left.0, right.0);
    assert p == MovedTo(t, d, i, left, right, x, loc[x]);
    if !(n.lo <= x < n.hi) && p.0 < |t.levels| {
      assert p == loc[x] && Pending(t, d, i, p.0, p.1) && t.levels[p.0][p.1].lo <= x < t.levels[p.0][p.1].hi;
      assert |r.levels[p.0]| >= |t.levels[p.0]|;
      assert r.levels[p.0][p.1] == t.levels[p.0][p.1];
    }
  }

  lemma MovedOnce(hash: Block -> Block, points: seq<nat>, t: Tree, depth: nat, d: nat, i: nat, left: (nat, nat), right: (nat, nat),
                  loc: seq<(nat, nat)>, l: nat, k: nat, x: nat)
    requires CanExpand(t, depth, d, i, left, right)
    requires t.levels[d][i].lo < t.levels[d][i].mid < t.levels[d][i].hi && Covers(points, t, d, i, loc) && x < |loc|
    requires var r := Expanded(hash, t, d, i, left, right); Pending(r, d, i + 1, l, k) && r.levels[l][k].lo <= x < r.levels[l][k].hi
    ensures Moved(t, d, i, left, right, loc)[x] == (l, k)
  {
    ExpandedNodes(hash, t, depth, d, i, left, right);
    hide Expanded, CorrectedSeed, CorrectedTag, ChildSeeds;
    var n := t.levels[d][i];
    assert Pending(t, d, i, d, i);
    assert n.lo <= x < n.hi ==> loc[x] == (d, i);
    assert Moved(t, d, i, left, right, loc)[x] == MovedTo(t, d, i, left, right, x, loc[x]);
    PendingAfter(hash, t, depth, d, i, left, right, l, k);
    if (l, k) != (left.0, |t.levels[left.0]|) && (l, k) != (right.0, RightPlace(t, left.0, right.0)) {
      assert t.levels[l][k].lo <= x < t.levels[l][k].hi;
      assert loc[x] == (l, k);
    }
  }

  lemma StepCovers(hash: Block -> Block, points: seq<nat>, t: Tree, depth: nat, d: nat, i: nat, left: (nat, nat), right: (nat, nat),
                   loc: seq<(nat, nat)>)
    requires CanExpand(t, depth, d, i, left, right)
    requires t.levels[d][i].lo < t.levels[d][i].mid < t.levels[d][i].hi && Covers(points, t, d, i, loc)
    ensures Covers(points, Expanded(hash, t, d, i, left, right), d, i + 1, Moved(t, d, i, left, right, loc))
  {
    hide Expanded, Moved, Pending;
    var r, loc' := Expanded(hash, t, d, i, left, right), Moved(t, d, i, left, right, loc);
    forall x {:trigger loc'[x]} | 0 <= x < |loc'| && loc'[x].0 < |r.levels|
      ensures Pending(r, d, i + 1, loc'[x].0, loc'[x].1)
           && loc'[x].1 < |r.levels[loc'[x].0]|
           && r.levels[loc'[x].0][loc'[x].1].lo <= x < r.levels[loc'[x].0][loc'[x].1].hi
    {
      MovedPlace(hash, points, t, depth, d, i, left, right, loc, x);
      PendingBound(r, d, i + 1, loc'[x].0, loc'[x].1);
    }
    forall l, k, x {:trigger r.levels[l][k], loc'[x]} | 0 <= l && 0 <= k && Pending(r, d, i + 1, l, k) && 0 <= x < |loc'|
                                                      && l < |r.levels| && k < |r.levels[l]| && r.levels[l][k].lo <= x < r.levels[l][k].hi
      ensures loc'[x] == (l, k)
    {
      PendingBound(r, d, i + 1, l, k);
      MovedOnce(hash, points, t, depth, d, i, left, right, loc, l, k, x);
    }
    AllPendingBound(r, d, i + 1);
  }

  lemma PendingBound(t: Tree, d: nat, i: nat, l: nat, k: nat)
    requires Pending(t, d, i, l, k)
    ensures l < |t.levels| && k < |t.levels[l]|
  {
  }

  lemma AllPendingBound(t: Tree, d: nat, i: nat)
    ensures forall l, k {:trigger Pending(t, d, i, l, k)} ::
      0 <= l && 0 <= k && Pending(t, d, i, l, k) ==> l < |t.levels| && k < |t.levels[l]|
  {
  }

  // A step seen from both parties.
  datatype Step = Step(d: nat, i: nat, left: (nat, nat), right: (nat, nat))

  ghost predicate StepOk(points: seq<nat>, depth: nat, t: Tree, s: Step) {
    && Sized(t, depth) && 0 < s.d <= depth && s.i < |t.levels[s.d]| && s.left.0 < s.d && s.right.0 < s.d
    && var n := t.levels[s.d][s.i];
       n.parent <= depth && Halves(points, n, s.left, s.right) && IsSplit(points, n.lo, n.hi, s.d, n.mid)
  }

  // The node of the step holds point a.
  ghost predicate OnPath(t: Tree, s: Step, a: nat)
    requires s.d < |t.levels| && s.i < |t.levels[s.d]|
  {
    t.levels[s.d][s.i].lo <= a < t.levels[s.d][s.i].hi
  }

  function After(hash: Block -> Block, t: Tree, s: Step): Tree
    requires |t.levels| == |t.z| == |t.used| == |t.tau| == |t.sigma| && s.d < |t.levels| && s.i < |t.levels[s.d]|
    requires s.left.0 < s.d && s.right.0 < s.d && t.levels[s.d][s.i].parent < |t.sigma|
  {
    Expanded(hash, t, s.d, s.i, s.left, s.right)
  }

  // The sums of the level grow by the children's difference.
  lemma StepSums(hash: Block -> Block, points: seq<nat>, depth: nat, t0: Tree, t1: Tree, s: Step)
    requires StepOk(points, depth, t0, s) && StepOk(points, depth, t1, s)
    ensures var c0, c1 := ChildSeeds(hash, CorrectedSeed(t0, t0.levels[s.d][s.i])),
                          ChildSeeds(hash, CorrectedSeed(t1, t1.levels[s.d][s.i]));
            var z, z' := JointZ(t0, t1, s.d), JointZ(After(hash, t0, s), After(hash, t1, s), s.d);
            && (c0 == c1 ==> z' == z) && (z == (ZERO, ZERO) ==> z' == (Xor(c0.0, c1.0), Xor(c0.1, c1.1)))
    ensures forall p {:trigger JointZ(t0, t1, p)} {:trigger JointZ(After(hash, t0, s), After(hash, t1, s), p)} ::
      0 <= p <= depth && p != s.d ==>
              JointZ(After(hash, t0, s), After(hash, t1, s), p) == JointZ(t0, t1, p)
  {
    ExpandedNodes(hash, t0, depth, s.d, s.i, s.left, s.right);
    ExpandedNodes(hash, t1, depth, s.d, s.i, s.left, s.right);
    hide Expanded, CorrectedSeed, CorrectedTag, ChildSeeds, Xor, IsSplit;
    var c0, c1 := ChildSeeds(hash, CorrectedSeed(t0, t0.levels[s.d][s.i])), ChildSeeds(hash, CorrectedSeed(t1, t1.levels[s.d][s.i]));
    SumsAdd(t0.z[s.d].0, t1.z[s.d].0, c0.0, c1.0);
    SumsAdd(t0.z[s.d].1, t1.z[s.d].1, c0.1, c1.1);
  }

  // The children of a node are paired in the new trees.
  lemma ChildrenPaired(hash: Block -> Block, points: seq<nat>, depth: nat, a: nat, t0: Tree, t1: Tree, s: Step)
    requires a < |points| && StepOk(points, depth, t0, s) && StepOk(points, depth, t1, s)
    requires Paired(points, a, t0, t1, t0.levels[s.d][s.i], t1.levels[s.d][s.i]) && Closed(points, a, t0, t1, t0.levels[s.d][s.i].parent)
    requires OnPath(t0, s, a) ==> JointZ(t0, t1, s.d) == (ZERO, ZERO)
    ensures var r0, r1, l, q := After(hash, t0, s), After(hash, t1, s), |t0.levels[s.left.0]|, RightPlace(t0, s.left.0, s.right.0);
            |t1.levels[s.left.0]| == l && |t1.levels[s.right.0]| == |t0.levels[s.right.0]| ==>
            && Paired(points, a, r0, r1, r0.levels[s.left.0][l], r1.levels[s.left.0][l])
            && Paired(points, a, r0, r1, r0.levels[s.right.0][q], r1.levels[s.right.0][q])
            && (OnPath(t0, s, a) <==> r0.levels[s.left.0][l].tag != r1.levels[s.left.0][l].tag)
            && (OnPath(t0, s, a) <==> r0.levels[s.right.0][q].tag != r1.levels[s.right.0][q].tag)
  {
    var m, n := t0.levels[s.d][s.i], t1.levels[s.d][s.i];
    AlphaSide(points, a, s.d, m);
    NodeCorrected(points, a, t0, t1, m, n);
    StepSums(hash, points, depth, t0, t1, s);
    ExpandedNodes(hash, t0, depth, s.d, s.i, s.left, s.right);
    ExpandedNodes(hash, t1, depth, s.d, s.i, s.left, s.right);
    hide Expanded, CorrectedSeed, CorrectedTag, ChildSeeds, Xor, IsSplit, Closed, Alpha;
  }

  // The bit of the secret point tells which half of its range it is in.
  lemma AlphaSide(points: seq<nat>, a: nat, d: nat, n: Node)
    requires a < |points| && d > 0 && n.lo < n.mid < n.hi <= |points| && IsSplit(points, n.lo, n.hi, d, n.mid)
    ensures n.lo <= a < n.hi ==> (n.mid <= a <==> Alpha(points, a, d))
  {
    hide BitOf, High;
  }

  // ---------- a step keeps the invariant ----------

  lemma StepNodesOk(hash: Block -> Block, points: seq<nat>, depth: nat, t: Tree, s: Step)
    requires NodesOk(points, depth, t) && StepOk(points, depth, t, s)
    ensures NodesOk(points, depth, After(hash, t, s))
  {
    ExpandedNodes(hash, t, depth, s.d, s.i, s.left, s.right);
    hide Expanded, CorrectedSeed, CorrectedTag, ChildSeeds, IsSplit;
    var r, n := After(hash, t, s), t.levels[s.d][s.i];
    forall l, k {:trigger r.levels[l][k]} | 0 <= l <= depth && 0 <= k < |r.levels[l]|
      ensures NodeOk(points, r, l, r.levels[l][k])
    {
      if k < |t.levels[l]| {
        assert NodeOk(points, t, l, t.levels[l][k]);
      } else {
        assert |r.levels[l]| == CountAfter(t, s.left.0, s.right.0, l);
      }
    }
  }

  lemma StepCounts(hash: Block -> Block, points: seq<nat>, depth: nat, t0: Tree, t1: Tree, s: Step)
    requires SameCounts(depth, t0, t1) && StepOk(points, depth, t0, s) && StepOk(points, depth, t1, s)
    ensures SameCounts(depth, After(hash, t0, s), After(hash, t1, s))
  {
    ExpandedNodes(hash, t0, depth, s.d, s.i, s.left, s.right);
    ExpandedNodes(hash, t1, depth, s.d, s.i, s.left, s.right);
    hide Expanded, CorrectedSeed, CorrectedTag, ChildSeeds, IsSplit;
  }

  // What a step does to the sums of both parties on level p.
  ghost predicate SumsKept(hash: Block -> Block, depth: nat, t0: Tree, t1: Tree, s: Step, p: nat)
    requires Sized(t0, depth) && Sized(t1, depth) && s.d <= depth && s.i < |t0.levels[s.d]| && s.i < |t1.levels[s.d]|
    requires s.left.0 < s.d && s.right.0 < s.d
    requires t0.levels[s.d][s.i].parent <= depth && t1.levels[s.d][s.i].parent <= depth && p <= depth
  {
    JointZ(After(hash, t0, s), After(hash, t1, s), p) == JointZ(t0, t1, p)
  }

  lemma StepSumsKept(hash: Block -> Block, points: seq<nat>, depth: nat, a: nat, t0: Tree, t1: Tree, s: Step, p: nat)
    requires a < |points| && StepOk(points, depth, t0, s) && StepOk(points, depth, t1, s) && p <= depth
    requires Paired(points, a, t0, t1, t0.levels[s.d][s.i], t1.levels[s.d][s.i]) && Closed(points, a, t0, t1, t0.levels[s.d][s.i].parent)
    requires p != s.d || !(OnPath(t0, s, a))
    ensures SumsKept(hash, depth, t0, t1, s, p)
  {
    hide Expanded, CorrectedSeed, CorrectedTag, ChildSeeds, IsSplit, JointZ, Closed, Paired;
    NodeCorrected(points, a, t0, t1, t0.levels[s.d][s.i], t1.levels[s.d][s.i]);
    StepSums(hash, points, depth, t0, t1, s);
    assert p != s.d ==> JointZ(After(hash, t0, s), After(hash, t1, s), p) == JointZ(t0, t1, p);
  }

  // The active level before and after a step.
  lemma ActiveMoves(hash: Block -> Block, points: seq<nat>, depth: nat, t: Tree, s: Step, loc: seq<(nat, nat)>, a: nat)
    requires Sized(t, depth) && StepOk(points, depth, t, s) && Covers(points, t, s.d, s.i, loc) && a < |points|
    ensures var n, r, loc' := t.levels[s.d][s.i], After(hash, t, s), Moved(t, s.d, s.i, s.left, s.right, loc);
            Covers(points, r, s.d, s.i + 1, loc')
    ensures var n, r, loc' := t.levels[s.d][s.i], After(hash, t, s), Moved(t, s.d, s.i, s.left, s.right, loc);
            var before, after := ActiveLevel(points, t, s.d, s.i, loc, a), ActiveLevel(points, r, s.d, s.i + 1, loc', a);
            if n.lo <= a < n.hi then before == n.parent && after == s.d else after == before
  {
    StepCovers(hash, points, t, depth, s.d, s.i, s.left, s.right, loc);
    ExpandedNodes(hash, t, depth, s.d, s.i, s.left, s.right);
    hide Expanded, CorrectedSeed, CorrectedTag, ChildSeeds, IsSplit;
    var n, loc' := t.levels[s.d][s.i], Moved(t, s.d, s.i, s.left, s.right, loc);
    assert Pending(t, s.d, s.i, s.d, s.i);
    assert n.lo <= a < n.hi ==> loc[a] == (s.d, s.i);
    assert loc'[a] == MovedTo(t, s.d, s.i, s.left, s.right, a, loc[a]);
    assert loc[a].0 < |t.levels| ==> Pending(t, s.d, s.i, loc[a].0, loc[a].1);
    assert loc[a].0 < |t.levels| ==> t.levels[loc[a].0][loc[a].1].lo <= a < t.levels[loc[a].0][loc[a].1].hi;
  }

  // The facts about the node that is expanded.
  lemma NodeFacts(points: seq<nat>, depth: nat, a: nat, t0: Tree, t1: Tree, s: Step, loc: seq<(nat, nat)>)
    requires Together(points, depth, a, t0, t1, s.d, s.i, loc) && StepOk(points, depth, t0, s)
    ensures StepOk(points, depth, t1, s)
    ensures Paired(points, a, t0, t1, t0.levels[s.d][s.i], t1.levels[s.d][s.i]) && Closed(points, a, t0, t1, t0.levels[s.d][s.i].parent)
    ensures OnPath(t0, s, a) ==> JointZ(t0, t1, s.d) == (ZERO, ZERO) && ActiveLevel(points, t0, s.d, s.i, loc, a) > s.d
  {
    hide IsSplit, Closed, Xor, Increasing;
    var n := t0.levels[s.d][s.i];
    assert Pending(t0, s.d, s.i, s.d, s.i);
    assert NodeOk(points, t0, s.d, n);
    assert LevelOk(points, a, t0, t1, s.d, ActiveLevel(points, t0, s.d, s.i, loc, a), n.parent);
    assert n.lo <= a < n.hi ==> loc[a] == (s.d, s.i);
    assert LevelOk(points, a, t0, t1, s.d, ActiveLevel(points, t0, s.d, s.i, loc, a), s.d);
    assert |t1.levels[s.d]| == |t0.levels[s.d]| && SameShape(n, t1.levels[s.d][s.i]);
  }

  lemma OldPaired(hash: Block -> Block, points: seq<nat>, depth: nat, a: nat, t0: Tree, t1: Tree, s: Step, l: nat, k: nat, m: Node, n: Node)
    requires a < |points| && StepOk(points, depth, t0, s) && StepOk(points, depth, t1, s)
    requires Paired(points, a, t0, t1, t0.levels[s.d][s.i], t1.levels[s.d][s.i]) && Closed(points, a, t0, t1, t0.levels[s.d][s.i].parent)
    requires Paired(points, a, t0, t1, m, n) && (m.tag != n.tag && OnPath(t0, s, a) ==> m.parent > s.d)
    ensures Paired(points, a, After(hash, t0, s), After(hash, t1, s), m, n)
  {
    ExpandedNodes(hash, t0, depth, s.d, s.i, s.left, s.right);
    ExpandedNodes(hash, t1, depth, s.d, s.i, s.left, s.right);
    hide Expanded, CorrectedSeed, CorrectedTag, ChildSeeds, IsSplit, Closed, Xor, Alpha;
    if m.tag != n.tag {
      StepSumsKept(hash, points, depth, a, t0, t1, s, m.parent);
    }
  }

  lemma StepPair(hash: Block -> Block, points: seq<nat>, depth: nat, a: nat, t0: Tree, t1: Tree, s: Step, loc: seq<(nat, nat)>, active: nat,
                 l: nat, k: nat)
    requires Together(points, depth, a, t0, t1, s.d, s.i, loc) && StepOk(points, depth, t0, s) && StepOk(points, depth, t1, s)
    requires Pending(After(hash, t0, s), s.d, s.i + 1, l, k)
    requires active == if OnPath(t0, s, a) then s.d else ActiveLevel(points, t0, s.d, s.i, loc, a)
    ensures var r0, r1 := After(hash, t0, s), After(hash, t1, s);
            && l < |r1.levels| && k < |r1.levels[l]| && Paired(points, a, r0, r1, r0.levels[l][k], r1.levels[l][k])
            && (r0.levels[l][k].tag != r1.levels[l][k].tag ==> r0.levels[l][k].parent >= active)
  {
    NodeFacts(points, depth, a, t0, t1, s, loc);
    PendingAfter(hash, t0, depth, s.d, s.i, s.left, s.right, l, k);
    ExpandedNodes(hash, t0, depth, s.d, s.i, s.left, s.right);
    ExpandedNodes(hash, t1, depth, s.d, s.i, s.left, s.right);
    hide Expanded, CorrectedSeed, CorrectedTag, ChildSeeds, IsSplit, Closed;
    hide Xor, Covers, Increasing, Paired, NodesOk, ActiveLevel, LevelsOk;
    assert |t1.levels[s.left.0]| == |t0.levels[s.left.0]| && |t1.levels[s.right.0]| == |t0.levels[s.right.0]|;
    assert |t1.levels[l]| == |t0.levels[l]|;
    assert |After(hash, t1, s).levels[l]| == CountAfter(t1, s.left.0, s.right.0, l);
    if (l, k) == (s.left.0, |t0.levels[s.left.0]|) || (l, k) == (s.right.0, RightPlace(t0, s.left.0, s.right.0)) {
      ChildrenPaired(hash, points, depth, a, t0, t1, s);
    } else {
      assert After(hash, t1, s).levels[l][k] == t1.levels[l][k];
      OldPaired(hash, points, depth, a, t0, t1, s, l, k, t0.levels[l][k], t1.levels[l][k]);
    }
  }

  lemma StepLevel(hash: Block -> Block, points: seq<nat>, depth: nat, a: nat, t0: Tree, t1: Tree, s: Step, loc: seq<(nat, nat)>,
                  active: nat, p: nat)
    requires Together(points, depth, a, t0, t1, s.d, s.i, loc) && StepOk(points, depth, t0, s)
    requires StepOk(points, depth, t1, s) && 0 < p <= depth
    requires active == if OnPath(t0, s, a) then s.d else ActiveLevel(points, t0, s.d, s.i, loc, a)
    ensures LevelOk(points, a, After(hash, t0, s), After(hash, t1, s), s.d, active, p)
  {
    NodeFacts(points, depth, a, t0, t1, s, loc);
    ExpandedNodes(hash, t0, depth, s.d, s.i, s.left, s.right);
    ExpandedNodes(hash, t1, depth, s.d, s.i, s.left, s.right);
    hide Expanded, CorrectedSeed, CorrectedTag, ChildSeeds, IsSplit, Xor, Covers, Increasing, Paired, NodesOk, Alpha, ActiveLevel, PairsOk;
    assert LevelOk(points, a, t0, t1, s.d, ActiveLevel(points, t0, s.d, s.i, loc, a), p);
    if p != s.d || !(OnPath(t0, s, a)) {
      StepSumsKept(hash, points, depth, a, t0, t1, s, p);
    }
  }

  lemma StepFrame(hash: Block -> Block, points: seq<nat>, depth: nat, a: nat, t0: Tree, t1: Tree, s: Step)
    requires Frame(points, depth, a, t0, t1, s.d, s.i) && StepOk(points, depth, t0, s) && StepOk(points, depth, t1, s)
    ensures Frame(points, depth, a, After(hash, t0, s), After(hash, t1, s), s.d, s.i + 1)
  {
    StepNodesOk(hash, points, depth, t0, s);
    StepNodesOk(hash, points, depth, t1, s);
    StepCounts(hash, points, depth, t0, t1, s);
    ExpandedNodes(hash, t0, depth, s.d, s.i, s.left, s.right);
    hide Expanded, CorrectedSeed, CorrectedTag, ChildSeeds, IsSplit, NodesOk, SameCounts;
  }

  lemma ExpandedSized(hash: Block -> Block, t: Tree, depth: nat, s: Step)
    requires CanExpand(t, depth, s.d, s.i, s.left, s.right)
    ensures Sized(After(hash, t, s), depth)
  {
  }

  lemma StepPairs(hash: Block -> Block, points: seq<nat>, depth: nat, a: nat, t0: Tree, t1: Tree, s: Step, loc: seq<(nat, nat)>,
                  active: nat)
    requires Together(points, depth, a, t0, t1, s.d, s.i, loc) && StepOk(points, depth, t0, s) && StepOk(points, depth, t1, s)
    requires active == if OnPath(t0, s, a) then s.d else ActiveLevel(points, t0, s.d, s.i, loc, a)
    ensures PairsOk(points, a, After(hash, t0, s), After(hash, t1, s), s.d, s.i + 1, active)
  {
    hide IsSplit, Covers, Paired, NodesOk, After, ActiveLevel, Increasing;
    ExpandedSized(hash, t0, depth, s);
    ExpandedSized(hash, t1, depth, s);
    var r0, r1 := After(hash, t0, s), After(hash, t1, s);
    forall l, k {:trigger Pending(r0, s.d, s.i + 1, l, k)} | 0 <= l && 0 <= k && Pending(r0, s.d, s.i + 1, l, k)
      ensures k < |r1.levels[l]| && Paired(points, a, r0, r1, r0.levels[l][k], r1.levels[l][k])
           && (r0.levels[l][k].tag != r1.levels[l][k].tag ==> r0.levels[l][k].parent >= active)
    {
      StepPair(hash, points, depth, a, t0, t1, s, loc, active, l, k);
    }
  }

  lemma StepLevels(hash: Block -> Block, points: seq<nat>, depth: nat, a: nat, t0: Tree, t1: Tree, s: Step, loc: seq<(nat, nat)>,
                   active: nat)
    requires Together(points, depth, a, t0, t1, s.d, s.i, loc) && StepOk(points, depth, t0, s) && StepOk(points, depth, t1, s)
    requires active == if OnPath(t0, s, a) then s.d else ActiveLevel(points, t0, s.d, s.i, loc, a)
    ensures LevelsOk(points, depth, a, After(hash, t0, s), After(hash, t1, s), s.d, active)
  {
    hide IsSplit, Covers, Paired, NodesOk, After, ActiveLevel, Increasing, LevelOk;
    ExpandedSized(hash, t0, depth, s);
    ExpandedSized(hash, t1, depth, s);
    var r0, r1 := After(hash, t0, s), After(hash, t1, s);
    forall p {:trigger LevelOk(points, a, r0, r1, s.d, active, p)} | 0 < p <= depth
      ensures LevelOk(points, a, r0, r1, s.d, active, p)
    {
      StepLevel(hash, points, depth, a, t0, t1, s, loc, active, p);
    }
  }

  // The same points are in the tree.
  ghost predicate SameInside(depth: nat, loc: seq<(nat, nat)>, loc': seq<(nat, nat)>) {
    |loc| == |loc'| && forall x {:trigger loc[x]} {:trigger loc'[x]} :: 0 <= x < |loc| ==> (loc[x].0 > depth <==> loc'[x].0 > depth)
  }

  lemma MovedInside(points: seq<nat>, depth: nat, t: Tree, s: Step, loc: seq<(nat, nat)>)
    requires StepOk(points, depth, t, s) && Covers(points, t, s.d, s.i, loc)
    ensures SameInside(depth, loc, Moved(t, s.d, s.i, s.left, s.right, loc))
  {
    hide IsSplit;
    assert Pending(t, s.d, s.i, s.d, s.i);
    var n, loc' := t.levels[s.d][s.i], Moved(t, s.d, s.i, s.left, s.right, loc);
    forall x {:trigger loc[x]} {:trigger loc'[x]} | 0 <= x < |loc|
      ensures loc[x].0 > depth <==> loc'[x].0 > depth
    {
      assert n.lo <= x < n.hi ==> loc[x] == (s.d, s.i);
      assert loc'[x] == MovedTo(t, s.d, s.i, s.left, s.right, x, loc[x]);
    }
  }

  // One step of both parties keeps everything.
  lemma StepTogether(hash: Block -> Block, points: seq<nat>, depth: nat, a: nat, t0: Tree, t1: Tree, s: Step, loc: seq<(nat, nat)>)
    requires Together(points, depth, a, t0, t1, s.d, s.i, loc) && StepOk(points, depth, t0, s)
    ensures StepOk(points, depth, t1, s)
    ensures Together(points, depth, a, After(hash, t0, s), After(hash, t1, s), s.d, s.i + 1, Moved(t0, s.d, s.i, s.left, s.right, loc))
  {
    hide IsSplit, Covers, Moved, After, ActiveLevel, PairsOk, LevelsOk, Frame;
    NodeFacts(points, depth, a, t0, t1, s, loc);
    StepFrame(hash, points, depth, a, t0, t1, s);
    FrameSized(points, depth, a, t0, t1, s.d, s.i);
    ActiveMoves(hash, points, depth, t0, s, loc, a);
    var active := ActiveLevel(points, After(hash, t0, s), s.d, s.i + 1, Moved(t0, s.d, s.i, s.left, s.right, loc), a);
    StepPairs(hash, points, depth, a, t0, t1, s, loc, active);
    StepLevels(hash, points, depth, a, t0, t1, s, loc, active);
  }

  lemma FrameSized(points: seq<nat>, depth: nat, a: nat, t0: Tree, t1: Tree, d: nat, i: nat)
    requires Frame(points, depth, a, t0, t1, d, i)
    ensures Sized(t0, depth) && Sized(t1, depth) && a < |points|
  {
  }

  // ---------- between levels ----------

  // What closing level d changes: its correction words, and its sums when it is unused.
  ghost predicate OnlyCloses(depth: nat, t: Tree, d: nat, r: Tree) {
    && Sized(t, depth) && Sized(r, depth) && 0 < d <= depth && r.levels == t.levels && r.used == t.used
    && (forall p {:trigger r.z[p]} {:trigger t.z[p]} :: 0 <= p <= depth && (p != d || t.used[d]) ==> r.z[p] == t.z[p])
    && (forall p {:trigger r.sigma[p]} {:trigger t.sigma[p]} :: 0 <= p <= depth && p != d ==> r.sigma[p] == t.sigma[p])
    && (forall p {:trigger r.tau[p]} {:trigger t.tau[p]} :: 0 <= p <= depth && p != d ==> r.tau[p] == t.tau[p])
  }

  lemma ClosePaired(points: seq<nat>, depth: nat, a: nat, t0: Tree, t1: Tree, d: nat, r0: Tree, r1: Tree, m: Node, n: Node)
    requires a < |points| && OnlyCloses(depth, t0, d, r0) && OnlyCloses(depth, t1, d, r1) && t0.used == t1.used
    requires Paired(points, a, t0, t1, m, n) && t0.used[m.parent]
    ensures Paired(points, a, r0, r1, m, n)
  {
    hide Xor, Alpha;
  }

  lemma CloseLevelOk(points: seq<nat>, depth: nat, a: nat, t0: Tree, t1: Tree, d: nat, r0: Tree, r1: Tree, active: nat, p: nat)
    requires a < |points| && OnlyCloses(depth, t0, d, r0) && OnlyCloses(depth, t1, d, r1) && t0.used == t1.used && 0 < p <= depth
    requires LevelOk(points, a, t0, t1, d, active, p) && (t0.used[d] ==> Closed(points, a, r0, r1, d))
    ensures LevelOk(points, a, r0, r1, d - 1, active, p)
  {
    hide Xor, Alpha, Lsb;
  }

  lemma CloseCovers(points: seq<nat>, t: Tree, d: nat, loc: seq<(nat, nat)>, r: Tree, a: nat)
    requires 0 < d < |t.levels| && r.levels == t.levels && Covers(points, t, d, |t.levels[d]|, loc) && a < |points|
    ensures Covers(points, r, d - 1, 0, loc) && ActiveLevel(points, r, d - 1, 0, loc, a) == ActiveLevel(points, t, d, |t.levels[d]|, loc, a)
  {
    forall x {:trigger loc[x]} | 0 <= x < |loc| && loc[x].0 < |r.levels|
      ensures Pending(r, d - 1, 0, loc[x].0, loc[x].1)
    {
      assert Pending(t, d, |t.levels[d]|, loc[x].0, loc[x].1);
    }
    forall l, k, x {:trigger r.levels[l][k], loc[x]} |
        0 <= l && 0 <= k && Pending(r, d - 1, 0, l, k) && 0 <= x < |loc| && r.levels[l][k].lo <= x < r.levels[l][k].hi
      ensures loc[x] == (l, k)
    {
      assert Pending(t, d, |t.levels[d]|, l, k);
    }
  }

  lemma ClosePairs(points: seq<nat>, depth: nat, a: nat, t0: Tree, t1: Tree, d: nat, r0: Tree, r1: Tree, active: nat)
    requires OnlyCloses(depth, t0, d, r0) && OnlyCloses(depth, t1, d, r1) && Frame(points, depth, a, t0, t1, d, |t0.levels[d]|)
    requires PairsOk(points, a, t0, t1, d, |t0.levels[d]|, active)
    ensures PairsOk(points, a, r0, r1, d - 1, 0, active)
  {
    hide IsSplit, Paired, Increasing;
    forall l, k {:trigger Pending(r0, d - 1, 0, l, k)} | 0 <= l && 0 <= k && Pending(r0, d - 1, 0, l, k)
      ensures k < |r1.levels[l]| && Paired(points, a, r0, r1, r0.levels[l][k], r1.levels[l][k])
           && (r0.levels[l][k].tag != r1.levels[l][k].tag ==> r0.levels[l][k].parent >= active)
    {
      assert Pending(t0, d, |t0.levels[d]|, l, k);
      assert NodeOk(points, t0, l, t0.levels[l][k]);
      ClosePaired(points, depth, a, t0, t1, d, r0, r1, t0.levels[l][k], t1.levels[l][k]);
    }
  }

  lemma CloseLevels(points: seq<nat>, depth: nat, a: nat, t0: Tree, t1: Tree, d: nat, r0: Tree, r1: Tree, active: nat)
    requires a < |points| && OnlyCloses(depth, t0, d, r0) && OnlyCloses(depth, t1, d, r1) && t0.used == t1.used
    requires LevelsOk(points, depth, a, t0, t1, d, active) && (t0.used[d] ==> Closed(points, a, r0, r1, d))
    ensures LevelsOk(points, depth, a, r0, r1, d - 1, active)
  {
    hide Closed, LevelOk;
    forall p {:trigger LevelOk(points, a, r0, r1, d - 1, active, p)} | 0 < p <= depth
      ensures LevelOk(points, a, r0, r1, d - 1, active, p)
    {
      assert LevelOk(points, a, t0, t1, d, active, p);
      CloseLevelOk(points, depth, a, t0, t1, d, r0, r1, active, p);
    }
  }

  // A finished level d gets its correction words; the level below is next.
  lemma CloseTogether(points: seq<nat>, depth: nat, a: nat, t0: Tree, t1: Tree, d: nat, loc: seq<(nat, nat)>, r0: Tree, r1: Tree)
    requires OnlyCloses(depth, t0, d, r0) && OnlyCloses(depth, t1, d, r1) && Together(points, depth, a, t0, t1, d, |t0.levels[d]|, loc)
    requires t0.used[d] ==> Closed(points, a, r0, r1, d)
    ensures Together(points, depth, a, r0, r1, d - 1, 0, loc)
  {
    hide IsSplit, Covers, Paired, ActiveLevel, Increasing, Closed, LevelOk, PairsOk, LevelsOk, NodesOk;
    CloseCovers(points, t0, d, loc, r0, a);
    var active := ActiveLevel(points, t0, d, |t0.levels[d]|, loc, a);
    ClosePairs(points, depth, a, t0, t1, d, r0, r1, active);
    CloseLevels(points, depth, a, t0, t1, d, r0, r1, active);
    CloseFrame(points, depth, a, t0, t1, d, r0, r1);
  }

  lemma CloseFrame(points: seq<nat>, depth: nat, a: nat, t0: Tree, t1: Tree, d: nat, r0: Tree, r1: Tree)
    requires OnlyCloses(depth, t0, d, r0) && OnlyCloses(depth, t1, d, r1) && Frame(points, depth, a, t0, t1, d, |t0.levels[d]|)
    ensures Frame(points, depth, a, r0, r1, d - 1, 0)
  {
    hide IsSplit, Increasing;
    assert forall l, k {:trigger r0.levels[l][k]} :: 0 <= l <= depth && 0 <= k < |r0.levels[l]| ==> NodeOk(points, t0, l, t0.levels[l][k]);
    assert forall l, k {:trigger r1.levels[l][k]} :: 0 <= l <= depth && 0 <= k < |r1.levels[l]| ==> NodeOk(points, t1, l, t1.levels[l][k]);
  }
}

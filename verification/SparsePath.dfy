/**
 What a party of the sparse protocol computes for one listed point, written out from the root
 of the point's tree down to its leaf (SparseDpf.h lines 290 to 358, 422 to 469 and 471 to
 495), and the trace that every step of the level-by-level expansion keeps.
 */
module SparsePath {
  import opened Blocks
  import opened SparseSplit
  import opened SparseTree
  import opened SparsePair

  // The correction words of all levels.
  datatype Words = Words(sigma: seq<Block>, tau: seq<(bool, bool)>)

  // Level and middle of a range.
  ghost function SplitOf(points: seq<nat>, lo: nat, hi: nat): (nat, nat) {
    if exists level: nat, mid: nat :: IsSplit(points, lo, hi, level, mid) then
      var level: nat, mid: nat :| IsSplit(points, lo, hi, level, mid);
      (level, mid)
    else (0, 0)
  }

  lemma SplitIs(points: seq<nat>, lo: nat, hi: nat, level: nat, mid: nat)
    requires lo < hi <= |points| && IsSplit(points, lo, hi, level, mid)
    ensures SplitOf(points, lo, hi) == (level, mid)
  {
    var s := SplitOf(points, lo, hi);
    hide IsSplit;
    SplitUnique(points, lo, hi, level, mid, s.0, s.1);
  }

  // Leaf and tag of point x, from the node of a range that holds it: the seed is corrected with
  // the words of the level the node hangs from, and hashed for the half that holds x.
  ghost function Descend(hash: Block -> Block, points: seq<nat>, w: Words, lo: nat, hi: nat, seed: Block, tag: bool, right: bool,
                         parent: nat, x: nat): (Block, bool)
    requires parent < |w.sigma| == |w.tau|
    decreases hi - lo
  {
    var s := if tag then Xor(seed, w.sigma[parent]) else seed;
    var flip := if right then w.tau[parent].1 else w.tau[parent].0;
    var g := seed.bits[0] != (tag && flip);
    var (level, mid) := SplitOf(points, lo, hi);
    if hi - lo <= 1 || !(lo < mid < hi && level < |w.sigma|) then (s, g)
    else if x < mid then Descend(hash, points, w, lo, mid, hash(s), g, false, level, x)
    else Descend(hash, points, w, mid, hi, hash(Xor(s, LowBit(true))), g, true, level, x)
  }

  // ... from a root whose two children have the seeds c and the tag of the root.
  ghost function FromRoot(hash: Block -> Block, points: seq<nat>, w: Words, lo: nat, hi: nat, c: (Block, Block), tag: bool,
                          x: nat): (Block, bool)
    requires |w.sigma| == |w.tau|
  {
    var (level, mid) := SplitOf(points, lo, hi);
    if !(lo < mid < hi && level < |w.sigma|) then (ZERO, tag)
    else if x < mid then Descend(hash, points, w, lo, mid, c.0, tag, false, level, x)
    else Descend(hash, points, w, mid, hi, c.1, tag, true, level, x)
  }

  // ---------- the trace of a point ----------

  ghost predicate PlaceFits(t: Tree, p: (nat, nat)) {
    p.0 < |t.levels| && p.1 < |t.levels[p.0]| && t.levels[p.0][p.1].parent < |t.levels|
  }

  // Leaf and tag of point x, which waits at place p of the tree.
  ghost function FromPlace(hash: Block -> Block, points: seq<nat>, w: Words, t: Tree, p: (nat, nat), x: nat): (Block, bool)
    requires PlaceFits(t, p) && |w.sigma| == |w.tau| == |t.levels|
  {
    var n := t.levels[p.0][p.1];
    Descend(hash, points, w, n.lo, n.hi, n.seed, n.tag, n.child, n.parent, x)
  }

  // w has the words of the tree on the levels above d.
  ghost predicate Agrees(w: Words, t: Tree, d: nat) {
    && |w.sigma| == |w.tau| == |t.levels| == |t.sigma| == |t.tau|
    && forall p {:trigger w.sigma[p]} {:trigger w.tau[p]} :: d < p < |w.sigma| ==> w.sigma[p] == t.sigma[p] && w.tau[p] == t.tau[p]
  }

  // A point that waits at p in t and at p' in t' gets the same leaf and tag from both.
  ghost predicate SameEnd(hash: Block -> Block, points: seq<nat>, t: Tree, p: (nat, nat), t': Tree, p': (nat, nat), d: nat, x: nat) {
    && PlaceFits(t, p) && PlaceFits(t', p') && |t.levels| == |t'.levels|
    && forall w: Words {:trigger Agrees(w, t', d)} :: Agrees(w, t', d) ==>
         FromPlace(hash, points, w, t, p, x) == FromPlace(hash, points, w, t', p', x)
  }

  // ... and so does every point that waits in the tree.
  ghost predicate Traces(hash: Block -> Block, points: seq<nat>, t: Tree, loc: seq<(nat, nat)>, t': Tree, loc': seq<(nat, nat)>, d: nat) {
    && |loc| == |loc'| == |points| && |t.levels| == |t'.levels|
    && forall x {:trigger loc[x]} {:trigger loc'[x]} :: 0 <= x < |points| && loc[x].0 < |t.levels| ==>
         loc'[x].0 < |t'.levels| && SameEnd(hash, points, t, loc[x], t', loc'[x], d, x)
  }

  // The words above level d are those of t.
  ghost predicate SameAbove(t: Tree, t': Tree, d: nat) {
    && |t.levels| == |t'.levels| == |t.sigma| == |t'.sigma| == |t.tau| == |t'.tau|
    && forall p {:trigger t.sigma[p]} {:trigger t'.sigma[p]} {:trigger t.tau[p]} {:trigger t'.tau[p]} :: d < p < |t.sigma| ==>
         t.sigma[p] == t'.sigma[p] && t.tau[p] == t'.tau[p]
  }

  lemma AgreesBelow(w: Words, t: Tree, t': Tree, d: nat, d': nat)
    requires SameAbove(t, t', d) && d' <= d && Agrees(w, t', d')
    ensures Agrees(w, t, d)
  {
    forall p {:trigger w.sigma[p]} {:trigger w.tau[p]} | d < p < |w.sigma|
      ensures w.sigma[p] == t.sigma[p] && w.tau[p] == t.tau[p]
    {
      assert w.sigma[p] == t'.sigma[p] && w.tau[p] == t'.tau[p];
    }
  }

  lemma SameEndTrans(hash: Block -> Block, points: seq<nat>, t: Tree, p: (nat, nat), t': Tree, p': (nat, nat), t'': Tree,
                     p'': (nat, nat), d: nat, d': nat, x: nat)
    requires SameEnd(hash, points, t, p, t', p', d, x) && SameEnd(hash, points, t', p', t'', p'', d', x)
    requires SameAbove(t', t'', d) && d' <= d
    ensures SameEnd(hash, points, t, p, t'', p'', d', x)
  {
    forall w: Words {:trigger Agrees(w, t'', d')} | Agrees(w, t'', d')
      ensures FromPlace(hash, points, w, t, p, x) == FromPlace(hash, points, w, t'', p'', x)
    {
      AgreesBelow(w, t', t'', d, d');
      hide Descend, FromPlace;
    }
  }

  lemma TracesTrans(hash: Block -> Block, points: seq<nat>, t: Tree, loc: seq<(nat, nat)>, t': Tree, loc': seq<(nat, nat)>, t'': Tree,
                    loc'': seq<(nat, nat)>, d: nat, d': nat)
    requires Traces(hash, points, t, loc, t', loc', d) && Traces(hash, points, t', loc', t'', loc'', d')
    requires SameAbove(t', t'', d) && d' <= d
    ensures Traces(hash, points, t, loc, t'', loc'', d')
  {
    hide SameEnd, SameAbove;
    forall x {:trigger loc[x]} {:trigger loc''[x]} | 0 <= x < |points| && loc[x].0 < |t.levels|
      ensures loc''[x].0 < |t''.levels| && SameEnd(hash, points, t, loc[x], t'', loc''[x], d', x)
    {
      assert loc'[x].0 < |t'.levels|;
      SameEndTrans(hash, points, t, loc[x], t', loc'[x], t'', loc''[x], d, d', x);
    }
  }

  // Every point that waits in the tree waits at a node.
  ghost predicate AllFit(t: Tree, loc: seq<(nat, nat)>) {
    forall x {:trigger loc[x]} :: 0 <= x < |loc| && loc[x].0 < |t.levels| ==> PlaceFits(t, loc[x])
  }

  // A tree with the same nodes.
  lemma TracesSame(hash: Block -> Block, points: seq<nat>, t: Tree, t': Tree, loc: seq<(nat, nat)>, d: nat)
    requires |loc| == |points| && t.levels == t'.levels && AllFit(t, loc)
    ensures Traces(hash, points, t, loc, t', loc, d)
  {
    hide Descend;
    forall x {:trigger loc[x]} | 0 <= x < |points| && loc[x].0 < |t.levels|
      ensures SameEnd(hash, points, t, loc[x], t', loc[x], d, x)
    {
      assert PlaceFits(t, loc[x]);
    }
  }

  // ---------- one step ----------

  lemma CorrectedIs(t: Tree, n: Node, w: Words, d: nat)
    requires Agrees(w, t, d) && d < n.parent < |t.sigma|
    ensures CorrectedSeed(t, n) == (if n.tag then Xor(n.seed, w.sigma[n.parent]) else n.seed)
    ensures CorrectedTag(t, n) == (n.seed.bits[0] != (n.tag && if n.child then w.tau[n.parent].1 else w.tau[n.parent].0))
  {
    assert w.sigma[n.parent] == t.sigma[n.parent] && w.tau[n.parent] == t.tau[n.parent];
    hide Xor, And, Saturate;
    AndSaturate(w.sigma[n.parent], n.tag);
    XorZero(n.seed);
  }

  // Where the points of the node go, and that no other point waits there.
  ghost predicate StepPlaces(t: Tree, s: Step, loc: seq<(nat, nat)>)
    requires s.d < |t.levels| && s.i < |t.levels[s.d]|
  {
    var n := t.levels[s.d][s.i];
    forall x {:trigger loc[x]} :: 0 <= x < |loc| ==> (loc[x] == (s.d, s.i) <==> n.lo <= x < n.hi)
  }

  // A point of the expanded node.
  lemma HalfEnd(hash: Block -> Block, points: seq<nat>, depth: nat, t: Tree, s: Step, x: nat)
    requires StepOk(points, depth, t, s) && t.levels[s.d][s.i].lo <= x < t.levels[s.d][s.i].hi && s.d < t.levels[s.d][s.i].parent
    ensures SameEnd(hash, points, t, (s.d, s.i), After(hash, t, s), MovedTo(t, s.d, s.i, s.left, s.right, x, (s.d, s.i)), s.d, x)
  {
    ExpandedNodes(hash, t, depth, s.d, s.i, s.left, s.right);
    hide Expanded;
    var n, r := t.levels[s.d][s.i], After(hash, t, s);
    var p := MovedTo(t, s.d, s.i, s.left, s.right, x, (s.d, s.i));
    assert |r.levels[s.left.0]| == CountAfter(t, s.left.0, s.right.0, s.left.0);
    assert |r.levels[s.right.0]| == CountAfter(t, s.left.0, s.right.0, s.right.0);
    SplitIs(points, n.lo, n.hi, s.d, n.mid);
    hide IsSplit, SplitOf;
    forall w: Words {:trigger Agrees(w, r, s.d)} | Agrees(w, r, s.d)
      ensures FromPlace(hash, points, w, t, (s.d, s.i), x) == FromPlace(hash, points, w, r, p, x)
    {
      HalfDescends(hash, points, t, s, w, x);
    }
  }

  lemma HalfDescends(hash: Block -> Block, points: seq<nat>, t: Tree, s: Step, w: Words, x: nat)
    requires s.d < |t.levels| && s.i < |t.levels[s.d]| && s.d < t.levels[s.d][s.i].parent < |t.levels| && Agrees(w, t, s.d)
    requires var n := t.levels[s.d][s.i]; n.lo < n.mid < n.hi && SplitOf(points, n.lo, n.hi) == (s.d, n.mid)
    ensures var n := t.levels[s.d][s.i];
            var c, g := ChildSeeds(hash, CorrectedSeed(t, n)), CorrectedTag(t, n);
            Descend(hash, points, w, n.lo, n.hi, n.seed, n.tag, n.child, n.parent, x)
            == if x < n.mid then Descend(hash, points, w, n.lo, n.mid, c.0, g, false, s.d, x)
               else Descend(hash, points, w, n.mid, n.hi, c.1, g, true, s.d, x)
  {
    var n := t.levels[s.d][s.i];
    CorrectedIs(t, n, w, s.d);
    hide CorrectedSeed, CorrectedTag, SplitOf, Xor;
    XorZero(CorrectedSeed(t, n));
  }

  // A point that waits elsewhere.
  lemma OtherEnd(hash: Block -> Block, points: seq<nat>, depth: nat, t: Tree, s: Step, p: (nat, nat), x: nat)
    requires StepOk(points, depth, t, s) && PlaceFits(t, p) && p != (s.d, s.i)
    ensures SameEnd(hash, points, t, p, After(hash, t, s), p, s.d, x)
  {
    ExpandedNodes(hash, t, depth, s.d, s.i, s.left, s.right);
    hide Expanded, IsSplit, Descend;
    var r := After(hash, t, s);
    assert r.levels[p.0][p.1] == t.levels[p.0][p.1];
    assert |r.levels[p.0]| == CountAfter(t, s.left.0, s.right.0, p.0);
  }

  lemma StepTraces(hash: Block -> Block, points: seq<nat>, depth: nat, t: Tree, s: Step, loc: seq<(nat, nat)>)
    requires StepOk(points, depth, t, s) && s.d < t.levels[s.d][s.i].parent && StepPlaces(t, s, loc) && AllFit(t, loc)
    requires |loc| == |points|
    ensures var r, loc' := After(hash, t, s), Moved(t, s.d, s.i, s.left, s.right, loc);
            Traces(hash, points, t, loc, r, loc', s.d) && AllFit(r, loc') && r.sigma == t.sigma && r.tau == t.tau
  {
    var r, loc' := After(hash, t, s), Moved(t, s.d, s.i, s.left, s.right, loc);
    hide Expanded, IsSplit, SameEnd, PlaceFits;
    forall x {:trigger loc[x]} {:trigger loc'[x]} | 0 <= x < |points| && loc[x].0 < |t.levels|
      ensures loc'[x].0 < |r.levels| && SameEnd(hash, points, t, loc[x], r, loc'[x], s.d, x)
    {
      assert loc'[x] == MovedTo(t, s.d, s.i, s.left, s.right, x, loc[x]);
      if loc[x] == (s.d, s.i) {
        HalfEnd(hash, points, depth, t, s, x);
      } else {
        OtherEnd(hash, points, depth, t, s, loc[x], x);
      }
    }
    forall x {:trigger loc[x]} {:trigger loc'[x]} | 0 <= x < |loc| && loc[x].0 >= |t.levels|
      ensures loc'[x] == loc[x]
    {
      assert loc'[x] == MovedTo(t, s.d, s.i, s.left, s.right, x, loc[x]);
    }
    forall x {:trigger loc'[x]} | 0 <= x < |loc'| && loc'[x].0 < |r.levels|
      ensures PlaceFits(r, loc'[x])
    {
      EndFits(hash, points, t, loc[x], r, loc'[x], s.d, x);
    }
    ExpandedWords(hash, t, s);
  }

  lemma EndFits(hash: Block -> Block, points: seq<nat>, t: Tree, p: (nat, nat), t': Tree, p': (nat, nat), d: nat, x: nat)
    requires SameEnd(hash, points, t, p, t', p', d, x)
    ensures PlaceFits(t', p')
  {
    hide FromPlace;
  }

  lemma ExpandedWords(hash: Block -> Block, t: Tree, s: Step)
    requires |t.levels| == |t.z| == |t.used| == |t.tau| == |t.sigma| && s.d < |t.levels| && s.i < |t.levels[s.d]|
    requires s.left.0 < s.d && s.right.0 < s.d && t.levels[s.d][s.i].parent < |t.sigma|
    ensures After(hash, t, s).sigma == t.sigma && After(hash, t, s).tau == t.tau
  {
    hide CorrectedSeed, CorrectedTag, ChildSeeds;
  }

  // Both parties' points wait at nodes of the same ranges.
  lemma PlacesOfStep(points: seq<nat>, depth: nat, a: nat, t0: Tree, t1: Tree, s: Step, loc: seq<(nat, nat)>)
    requires Together(points, depth, a, t0, t1, s.d, s.i, loc) && s.d <= depth && Sized(t0, depth) && Sized(t1, depth)
    requires s.i < |t0.levels[s.d]| && s.i < |t1.levels[s.d]|
    ensures StepPlaces(t0, s, loc) && StepPlaces(t1, s, loc) && AllFit(t0, loc) && AllFit(t1, loc) && |loc| == |points|
    ensures s.d < t0.levels[s.d][s.i].parent && s.d < t1.levels[s.d][s.i].parent
  {
    hide IsSplit, LevelsOk, Increasing, Closed;
    assert Pending(t0, s.d, s.i, s.d, s.i);
    assert SameShape(t0.levels[s.d][s.i], t1.levels[s.d][s.i]);
    assert NodeOk(points, t0, s.d, t0.levels[s.d][s.i]) && NodeOk(points, t1, s.d, t1.levels[s.d][s.i]);
    forall x {:trigger loc[x]} | 0 <= x < |loc| && loc[x].0 < |t0.levels|
      ensures PlaceFits(t0, loc[x]) && PlaceFits(t1, loc[x])
    {
      PlacesFit(points, depth, a, t0, t1, s.d, s.i, loc, x);
    }
  }

  // The points move in the same way.
  lemma SameMoved(points: seq<nat>, depth: nat, a: nat, t0: Tree, t1: Tree, s: Step, loc: seq<(nat, nat)>)
    requires Together(points, depth, a, t0, t1, s.d, s.i, loc) && s.d <= depth && Sized(t0, depth) && Sized(t1, depth)
    requires s.i < |t0.levels[s.d]| && s.i < |t1.levels[s.d]| && s.left.0 <= depth && s.right.0 <= depth
    ensures Moved(t0, s.d, s.i, s.left, s.right, loc) == Moved(t1, s.d, s.i, s.left, s.right, loc)
  {
    hide IsSplit, LevelsOk, Increasing, Closed, Covers;
    assert Pending(t0, s.d, s.i, s.d, s.i);
    assert SameShape(t0.levels[s.d][s.i], t1.levels[s.d][s.i]);
    assert |t0.levels[s.left.0]| == |t1.levels[s.left.0]| && |t0.levels[s.right.0]| == |t1.levels[s.right.0]|;
    forall x | 0 <= x < |loc|
      ensures MovedTo(t0, s.d, s.i, s.left, s.right, x, loc[x]) == MovedTo(t1, s.d, s.i, s.left, s.right, x, loc[x])
    {
    }
  }

  lemma PlacesFit(points: seq<nat>, depth: nat, a: nat, t0: Tree, t1: Tree, d: nat, i: nat, loc: seq<(nat, nat)>, x: nat)
    requires Together(points, depth, a, t0, t1, d, i, loc) && x < |loc| && loc[x].0 <= depth
    ensures PlaceFits(t0, loc[x]) && PlaceFits(t1, loc[x])
  {
    hide IsSplit, LevelsOk, Increasing;
    var l, k := loc[x].0, loc[x].1;
    assert Pending(t0, d, i, l, k);
    assert |t1.levels[l]| == |t0.levels[l]|;
    assert NodeOk(points, t0, l, t0.levels[l][k]) && NodeOk(points, t1, l, t1.levels[l][k]);
  }

  // ---------- the two ends of a trace ----------

  // The points of the range wait at the two halves of a root with the seeds c.
  ghost predicate Rooted(points: seq<nat>, t: Tree, loc: seq<(nat, nat)>, lo: nat, hi: nat, c: (Block, Block), tag: bool) {
    && lo < hi <= |loc| && |t.sigma| == |t.levels|
    && var (level, mid) := SplitOf(points, lo, hi);
       && lo < mid < hi && level < |t.levels|
       && forall x {:trigger loc[x]} :: lo <= x < hi ==>
            PlaceFits(t, loc[x]) && HalfAt(t.levels[loc[x].0][loc[x].1], lo, mid, hi, level, c, tag, x < mid)
  }

  ghost predicate HalfAt(n: Node, lo: nat, mid: nat, hi: nat, level: nat, c: (Block, Block), tag: bool, left: bool) {
    && n.tag == tag && n.parent == level && n.child == !left
    && if left then n.lo == lo && n.hi == mid && n.seed == c.0 else n.lo == mid && n.hi == hi && n.seed == c.1
  }

  lemma RootDescends(hash: Block -> Block, points: seq<nat>, w: Words, t: Tree, loc: seq<(nat, nat)>, lo: nat, hi: nat, c: (Block, Block),
                     tag: bool, x: nat)
    requires Rooted(points, t, loc, lo, hi, c, tag) && lo <= x < hi && |w.sigma| == |w.tau| == |t.levels|
    ensures PlaceFits(t, loc[x]) && FromPlace(hash, points, w, t, loc[x], x) == FromRoot(hash, points, w, lo, hi, c, tag, x)
  {
    hide Descend, SplitOf;
    assert PlaceFits(t, loc[x]);
  }

  // A leaf gives its corrected seed and tag.
  lemma LeafEnds(hash: Block -> Block, points: seq<nat>, t: Tree, p: (nat, nat), x: nat)
    requires PlaceFits(t, p) && t.levels[p.0][p.1].hi == t.levels[p.0][p.1].lo + 1 && 0 < t.levels[p.0][p.1].parent
    requires |t.levels| == |t.sigma| == |t.tau|
    ensures var n := t.levels[p.0][p.1];
            FromPlace(hash, points, Words(t.sigma, t.tau), t, p, x) == (CorrectedSeed(t, n), CorrectedTag(t, n))
  {
    CorrectedIs(t, t.levels[p.0][p.1], Words(t.sigma, t.tau), 0);
    hide CorrectedSeed, CorrectedTag, SplitOf, Xor;
  }
}

/**
 Which levels of the sparse trees are used (SparseDpf.h lines 323, 355, 371 to 395 and 452): those on
 which two listed points of some row separate.  Only a used level costs multiplications.
 */
module SparseLevels {
  import opened Blocks
  import opened SparseSplit
  import opened SparseTree
  import opened SparsePair

  // Points x and x + 1 separate on level p: they differ in bit p - 1 and agree above it.
  ghost predicate SplitPair(row: seq<nat>, x: nat, p: nat) {
    && x + 1 < |row| && p > 0
    && High(row[x], p) == High(row[x + 1], p) && BitOf(row[x], p - 1) != BitOf(row[x + 1], p - 1)
  }

  ghost predicate SplitsAt(row: seq<nat>, p: nat) {
    exists x: nat {:trigger SplitPair(row, x, p)} :: SplitPair(row, x, p)
  }

  ghost predicate LevelUsed(rows: seq<seq<nat>>, p: nat) {
    exists r {:trigger rows[r]} :: 0 <= r < |rows| && SplitsAt(rows[r], p)
  }

  // The number of used levels up to the given one.
  ghost function LevelsUsed(rows: seq<seq<nat>>, depth: nat): nat {
    if depth == 0 then 0 else LevelsUsed(rows, depth - 1) + if LevelUsed(rows, depth) then 1 else 0
  }

  lemma {:induction false} LevelsUsedGrows(rows: seq<seq<nat>>, p: nat, depth: nat)
    requires p <= depth
    ensures LevelsUsed(rows, p) <= LevelsUsed(rows, depth) <= LevelsUsed(rows, p) + depth - p
  {
    hide LevelUsed;
    if p < depth {
      LevelsUsedGrows(rows, p, depth - 1);
    }
  }

  // Row r has two points that separate on level p.
  lemma UsedByRow(rows: seq<seq<nat>>, p: nat)
    ensures LevelUsed(rows, p) <==> exists r: nat, x: nat {:trigger SplitPair(rows[r], x, p)} :: r < |rows| && SplitPair(rows[r], x, p)
  {
    hide SplitPair;
    if LevelUsed(rows, p) {
      var r :| 0 <= r < |rows| && SplitsAt(rows[r], p);
      var x: nat :| SplitPair(rows[r], x, p);
    }
    if r: nat, x: nat {:trigger SplitPair(rows[r], x, p)} :| r < |rows| && SplitPair(rows[r], x, p) {
      assert SplitsAt(rows[r], p);
    }
  }

  // The used levels, counted.
  lemma {:induction false} LevelsUsedCounts(rows: seq<seq<nat>>, depth: nat, levels: set<nat>)
    requires forall p: nat {:trigger p in levels} :: p in levels <==> 0 < p <= depth && LevelUsed(rows, p)
    ensures LevelsUsed(rows, depth) == |levels|
  {
    hide LevelUsed;
    if depth > 0 {
      var below := levels - {depth};
      LevelsUsedCounts(rows, depth - 1, below);
      assert levels == if depth in levels then below + {depth} else below;
    }
  }

  lemma LevelsUsedZero(rows: seq<seq<nat>>)
    ensures LevelsUsed(rows, 0) == 0
  {
  }

  lemma LevelsUsedNext(rows: seq<seq<nat>>, depth: nat)
    requires depth > 0
    ensures LevelsUsed(rows, depth) == LevelsUsed(rows, depth - 1) + if LevelUsed(rows, depth) then 1 else 0
  {
    hide LevelUsed;
  }

  lemma {:induction false} NoRowsNoLevels(rows: seq<seq<nat>>, depth: nat)
    ensures LevelsUsed(rows, depth) > 0 ==> |rows| > 0 && depth > 0
  {
    hide SplitsAt;
    if depth > 0 {
      NoRowsNoLevels(rows, depth - 1);
    }
  }

  // Two points separate only once.
  lemma SplitOnce(row: seq<nat>, x: nat, p: nat, q: nat)
    requires SplitPair(row, x, p) && SplitPair(row, x, q)
    ensures p == q
  {
    hide High, BitOf;
    if p < q {
      HighBits(row[x], row[x + 1], p, q - 1);
    } else if q < p {
      HighBits(row[x], row[x + 1], q, p - 1);
    }
  }

  // The range of a node splits where the points around its middle separate ...
  lemma MiddleSplits(row: seq<nat>, lo: nat, mid: nat, hi: nat, level: nat)
    requires lo < mid < hi <= |row| && IsSplit(row, lo, hi, level, mid)
    ensures SplitPair(row, mid - 1, level)
  {
    hide High, BitOf;
    assert High(row[mid - 1], level) == High(row[lo], level) == High(row[mid], level);
    assert !BitOf(row[mid - 1], level - 1) && BitOf(row[mid], level - 1);
  }

  // ... and no two points of the range separate above its level.
  lemma SplitBelow(row: seq<nat>, lo: nat, mid: nat, hi: nat, level: nat, x: nat, p: nat)
    requires lo <= x && x + 1 < hi <= |row| && IsSplit(row, lo, hi, level, mid) && SplitPair(row, x, p)
    ensures p <= level
  {
    hide High, BitOf;
    assert High(row[x], level) == High(row[lo], level) == High(row[x + 1], level);
    if p > level {
      HighBits(row[x], row[x + 1], level, p - 1);
    }
  }

  // Neighbours in different bins separate above all levels.
  lemma BinsSplitAbove(row: seq<nat>, depth: nat, x: nat, p: nat)
    requires SplitPair(row, x, p) && p <= depth
    ensures High(row[x], depth) == High(row[x + 1], depth)
  {
    hide High, BitOf;
    HighBits(row[x], row[x + 1], p, depth);
  }

  // Every used level is one on which points separate, and two points before lo that separate
  // wait together as long as their level is unused.
  ghost predicate Tracked(row: seq<nat>, depth: nat, lo: nat, used: seq<bool>, loc: seq<(nat, nat)>) {
    && |loc| == |row| && |used| == depth + 1
    && (forall p {:trigger used[p]} :: 0 < p <= depth && used[p] ==> SplitsAt(row, p))
    && (forall x: nat, p: nat {:trigger SplitPair(row, x, p)} :: x < lo && p <= depth && SplitPair(row, x, p) ==>
          used[p] || WaitTogether(depth, loc, x))
  }

  ghost predicate WaitTogether(depth: nat, loc: seq<(nat, nat)>, x: nat) {
    x + 1 < |loc| && loc[x] == loc[x + 1] && loc[x].0 <= depth
  }

  lemma NoneTracked(row: seq<nat>, depth: nat, loc: seq<(nat, nat)>)
    requires |loc| == |row|
    ensures Tracked(row, depth, 0, seq(depth + 1, _ => false), loc)
  {
  }

  // The points that separate in the step are those around the middle of the node.
  lemma TrackedStep(row: seq<nat>, depth: nat, t: Tree, s: Step, loc: seq<(nat, nat)>)
    requires StepOk(row, depth, t, s) && Covers(row, t, s.d, s.i, loc) && Tracked(row, depth, |row|, t.used, loc)
    ensures Tracked(row, depth, |row|, t.used[s.d := true], Moved(t, s.d, s.i, s.left, s.right, loc))
  {
    hide SplitPair, IsSplit;
    var n, loc' := t.levels[s.d][s.i], Moved(t, s.d, s.i, s.left, s.right, loc);
    assert Pending(t, s.d, s.i, s.d, s.i);
    MiddleSplits(row, n.lo, n.mid, n.hi, s.d);
    forall x: nat, p: nat {:trigger SplitPair(row, x, p)} | x < |row| && p <= depth && SplitPair(row, x, p)
      ensures t.used[s.d := true][p] || WaitTogether(depth, loc', x)
    {
      if !t.used[p] && p != s.d {
        assert WaitTogether(depth, loc, x);
        if x + 1 == n.mid {
          SplitOnce(row, x, p, s.d);
        }
        assert n.lo <= x < n.hi <==> loc[x] == (s.d, s.i);
        assert n.lo <= x + 1 < n.hi <==> loc[x + 1] == (s.d, s.i);
        assert loc'[x] == MovedTo(t, s.d, s.i, s.left, s.right, x, loc[x]);
        assert loc'[x + 1] == MovedTo(t, s.d, s.i, s.left, s.right, x + 1, loc[x + 1]);
      }
    }
  }

  // A finished level is used exactly when points separate on it.
  lemma UsedIff(row: seq<nat>, depth: nat, t: Tree, d: nat, loc: seq<(nat, nat)>)
    requires 0 < d <= depth && NodesOk(row, depth, t) && Covers(row, t, d, |t.levels[d]|, loc) && Tracked(row, depth, |row|, t.used, loc)
    ensures t.used[d] <==> SplitsAt(row, d)
  {
    hide SplitPair, IsSplit;
    if SplitsAt(row, d) && !t.used[d] {
      var x: nat :| SplitPair(row, x, d);
      PairInRow(row, x, d);
      assert WaitTogether(depth, loc, x);
      var l, k := loc[x].0, loc[x].1;
      assert Pending(t, d, |t.levels[d]|, l, k) && t.levels[l][k].lo <= x < t.levels[l][k].hi;
      assert t.levels[l][k].lo <= x + 1 < t.levels[l][k].hi;
      assert NodeOk(row, t, l, t.levels[l][k]);
      SplitBelow(row, t.levels[l][k].lo, t.levels[l][k].mid, t.levels[l][k].hi, l, x, d);
    }
  }

  lemma PairInRow(row: seq<nat>, x: nat, p: nat)
    requires SplitPair(row, x, p)
    ensures x + 1 < |row| && p > 0
  {
  }
}

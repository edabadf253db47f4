/**
 The working memory of an expansion: three seed matrices that rotate from level to level
 (RegularDpf.h lines 308 to 358 and 486 to 545, TernaryDpf.h lines 141 to 192 and 206 to
 291).  Level i lives in matrix i modulo 3; once a level has been expanded its seeds are
 overwritten by their tags, and the matrix of the grandparents takes the children.
 */
module DpfBuffers {
  import opened Blocks
  import opened DpfLevels
  import opened DpfPath
  import opened DpfRows

  // The number of nodes of level i.
  function Nodes(a: Arity, i: nat): (m: nat)
    ensures m > 0
  {
    if i == 0 then 1 else Child(a, Nodes(a, i - 1), 0)
  }

  // The rows allocated for matrix j of a tree of the given depth.
  function Capacity(a: Arity, depth: nat, j: nat): nat
    requires j < 3
  {
    if j == depth % 3 then Nodes(a, depth)
    else if j == (depth + 2) % 3 then Parent(a, Nodes(a, depth))
    else Parent(a, Parent(a, Nodes(a, depth)))
  }

  lemma {:induction false} NodesGrow(a: Arity, i: nat, depth: nat)
    requires i <= depth
    ensures Nodes(a, i) <= Nodes(a, depth)
  {
    if i < depth {
      NodesGrow(a, i, depth - 1);
    }
  }

  // No level overruns its matrix.
  lemma LevelFits(a: Arity, depth: nat, i: nat)
    requires i <= depth && depth > 0
    ensures Nodes(a, i) <= Capacity(a, depth, i % 3)
  {
    hide Nodes, Parent;
    ParentOfNodes(a, depth);
    if i % 3 == depth % 3 {
      NodesGrow(a, i, depth);
    } else if i % 3 == (depth + 2) % 3 {
      NodesGrow(a, i, depth - 1);
    } else {
      ParentOfNodes(a, depth - 1);
      NodesGrow(a, i, depth - 2);
    }
  }

  lemma ParentOfNodes(a: Arity, depth: nat)
    requires depth > 0
    ensures Parent(a, Nodes(a, depth)) == Nodes(a, depth - 1)
  {
  }

  // One row of seeds: correct, replace by tags, expand, and add the children to the sums.
  method ExpandRow(a: Arity, n: nat, prf: (nat, Block) -> Block, parentTag: Row, seed: Row, sig: Row, z: seq<Row>)
    returns (tag: Row, child: seq<Row>, z': seq<Row>)
    requires |parentTag| == |seed| == |sig| == n && |z| == Width(a) && AllRows(n, z)
    ensures tag == RowTag(n, RowCorrect(n, seed, parentTag, sig))
    ensures |child| == |z'| == Width(a)
    ensures forall i {:trigger child[i]} :: 0 <= i < Width(a) ==> child[i] == RowChild(n, prf, i, RowCorrect(n, seed, parentTag, sig))
    ensures forall i {:trigger z'[i]} :: 0 <= i < Width(a) ==> z'[i] == RowAdd(n, z[i], child[i])
  {
    ghost var x := RowCorrect(n, seed, parentTag, sig);
    tag := seed;
    child := seq(Width(a), _ => seed);
    z' := z;
    var k := 0;
    while k < n
      invariant k <= n && |tag| == n && |child| == |z'| == Width(a) && AllRows(n, child) && AllRows(n, z')
      invariant forall q {:trigger tag[q]} :: 0 <= q < k ==> tag[q] == TagBit(x[q])
      invariant forall i, q {:trigger child[i][q]} :: 0 <= i < Width(a) && 0 <= q < k ==> child[i][q] == prf(i, x[q])
      invariant forall i, q {:trigger z'[i][q]} :: 0 <= i < Width(a) && 0 <= q < n ==>
        z'[i][q] == if q < k then Xor(z[i][q], prf(i, x[q])) else z[i][q]
    {
      var seedjk := Xor(seed[k], And(parentTag[k], sig[k]));
      var i := 0;
      while i < Width(a)
        invariant i <= Width(a) && |child| == |z'| == Width(a) && AllRows(n, child) && AllRows(n, z')
        invariant forall i', q {:trigger child[i'][q]} :: 0 <= i' < Width(a) && (0 <= q < k || (q == k && i' < i)) ==>
          child[i'][q] == prf(i', x[q])
        invariant forall i', q {:trigger z'[i'][q]} :: 0 <= i' < Width(a) && 0 <= q < n ==>
          z'[i'][q] == if q < k || (q == k && i' < i) then Xor(z[i'][q], prf(i', x[q])) else z[i'][q]
      {
        var s := prf(i, seedjk);
        child := child[i := child[i][k := s]];
        z' := z'[i := z'[i][k := Xor(z'[i][k], s)]];
        i := i + 1;
      }
      tag := tag[k := TagBit(seedjk)];
      k := k + 1;
    }
  }

  // What the matrices hold for a level: the parents' tags and the uncorrected seeds.
  ghost predicate Holds<S>(parent: seq<S>, cur: seq<S>, lv: Level<S>) {
    && |lv.tags| <= |parent| && parent[..|lv.tags|] == lv.tags
    && |lv.seeds| <= |cur| && cur[..|lv.seeds|] == lv.seeds
  }

  ghost predicate HoldsSums<S>(a: Arity, o: Ops<S>, z: seq<S>, lv: Level<S>) {
    && Shaped(a, lv) && |z| == Width(a)
    && forall c {:trigger z[c]} :: 0 <= c < Width(a) ==> z[c] == SlotSum(a, o, lv.seeds, c, |lv.tags|)
  }

  // What has been done after the first r nodes of a level.
  ghost predicate Progress<S>(a: Arity, o: Ops<S>, lv: Level<S>, next: Level<S>, cur: seq<S>, child: seq<S>, z: seq<S>, r: nat) {
    && Shaped(a, lv) && Shaped(a, next) && |next.tags| == |lv.seeds| && r <= |lv.seeds| <= |cur| && |next.seeds| <= |child|
    && |z| == Width(a)
    && (forall q {:trigger cur[q]} :: 0 <= q < |lv.seeds| ==> cur[q] == if q < r then next.tags[q] else lv.seeds[q])
    && (forall q {:trigger child[q]} :: 0 <= q < Child(a, r, 0) ==> child[q] == next.seeds[q])
    && (forall c {:trigger z[c]} :: 0 <= c < Width(a) ==> z[c] == SlotSum(a, o, next.seeds, c, r))
  }

  // child[at..] with the values of ch
  function Overwrite<S>(child: seq<S>, at: nat, ch: seq<S>): (s: seq<S>)
    requires at + |ch| <= |child|
    ensures |s| == |child|
  {
    seq(|child|, q requires 0 <= q < |child| => if at <= q < at + |ch| then ch[q - at] else child[q])
  }

  method Put<S>(child: array<S>, at: nat, ch: seq<S>)
    requires at + |ch| <= child.Length
    modifies child
    ensures child[..] == Overwrite(old(child[..]), at, ch)
  {
    var i := 0;
    while i < |ch|
      invariant i <= |ch| && child[..] == Overwrite(old(child[..]), at, ch[..i])
    {
      child[at + i] := ch[i];
      i := i + 1;
    }
    assert ch[..i] == ch;
  }

  lemma ProgressStart<S>(a: Arity, o: Ops<S>, lv: Level<S>, next: Level<S>, cur: seq<S>, child: seq<S>, z: seq<S>)
    requires Shaped(a, lv) && Shaped(a, next) && |next.tags| == |lv.seeds| <= |cur| && |next.seeds| <= |child|
    requires cur[..|lv.seeds|] == lv.seeds && z == seq(Width(a), _ => o.zero)
    ensures Progress(a, o, lv, next, cur, child, z, 0)
  {
    forall q | 0 <= q < |lv.seeds|
      ensures cur[q] == lv.seeds[q]
    {
      assert cur[..|lv.seeds|][q] == cur[q];
    }
  }

  lemma ProgressDone<S>(a: Arity, o: Ops<S>, lv: Level<S>, next: Level<S>, cur: seq<S>, child: seq<S>, z: seq<S>)
    requires Progress(a, o, lv, next, cur, child, z, |lv.seeds|)
    ensures Holds(cur, child, next) && HoldsSums(a, o, z, next)
  {
    assert cur[..|next.tags|] == next.tags;
    assert child[..|next.seeds|] == next.seeds;
  }

  ghost predicate ChildAt<S>(a: Arity, seeds: seq<S>, r: nat, i: nat, c: S)
    requires i < Width(a)
  {
    Child(a, r, i) < |seeds| && seeds[Child(a, r, i)] == c
  }

  lemma ProgressStep<S>(a: Arity, o: Ops<S>, lv: Level<S>, sigma: seq<S>, cur: seq<S>, child: seq<S>, z: seq<S>, r: nat,
                        x: S, ch: seq<S>, z': seq<S>)
    requires Shaped(a, lv) && |sigma| == Width(a) == |ch| == |z'| && r < |lv.seeds|
    requires Progress(a, o, lv, Step(a, o, lv, sigma), cur, child, z, r)
    requires x == o.correct(cur[r], lv.tags[Parent(a, r)], sigma[Slot(a, r)])
    requires forall i {:trigger ch[i]} :: 0 <= i < Width(a) ==> ch[i] == o.child(i, x)
    requires forall i {:trigger z'[i]} :: 0 <= i < Width(a) ==> z'[i] == o.add(z[i], ch[i])
    ensures Child(a, r, 0) + Width(a) <= |child|
    ensures Progress(a, o, lv, Step(a, o, lv, sigma), cur[r := o.tag(x)], Overwrite(child, Child(a, r, 0), ch), z', r + 1)
  {
    NodeStep(a, o, lv, sigma, r, x, ch);
    var next := Step(a, o, lv, sigma);
    assert lv.seeds[r] == cur[r];
    hide Step, Shaped, Child, Overwrite, Parent, Slot;
    var at := Child(a, r, 0);
    ChildrenInPlace(a, r, child, ch, next.seeds);
    forall q {:trigger child[q]} | 0 <= q < Child(a, r + 1, 0)
      ensures Overwrite(child, at, ch)[q] == next.seeds[q]
    {
      OverwrittenAt(a, r, child, ch, next.seeds, q);
    }
    forall c {:trigger z'[c]} | 0 <= c < Width(a)
      ensures z'[c] == SlotSum(a, o, next.seeds, c, r + 1)
    {
      assert z'[c] == o.add(z[c], ch[c]) && ChildAt(a, next.seeds, r, c, ch[c]);
    }
  }

  lemma ChildrenInPlace<S>(a: Arity, r: nat, child: seq<S>, ch: seq<S>, seeds: seq<S>)
    requires Width(a) * (r + 1) <= |seeds| <= |child| && |ch| == Width(a)
    ensures Child(a, r, 0) + |ch| == Child(a, r + 1, 0) == Width(a) * (r + 1) <= |child|
  {
  }

  lemma OverwrittenAt<S>(a: Arity, r: nat, child: seq<S>, ch: seq<S>, seeds: seq<S>, q: nat)
    requires |ch| == Width(a) && q < Child(a, r + 1, 0) <= |seeds| <= |child| && Child(a, r, 0) + |ch| <= |child|
    requires forall i {:trigger child[i]} :: 0 <= i < Child(a, r, 0) ==> child[i] == seeds[i]
    requires forall i {:trigger ch[i]} :: 0 <= i < Width(a) ==> ChildAt(a, seeds, r, i, ch[i])
    ensures Overwrite(child, Child(a, r, 0), ch)[q] == seeds[q]
  {
    if q >= Child(a, r, 0) {
      assert ChildAt(a, seeds, r, q - Child(a, r, 0), ch[q - Child(a, r, 0)]);
    } else {
      assert child[q] == seeds[q];
    }
  }

  // Row r of the next level.
  lemma NodeStep<S>(a: Arity, o: Ops<S>, lv: Level<S>, sigma: seq<S>, r: nat, x: S, ch: seq<S>)
    requires Shaped(a, lv) && |sigma| == Width(a) == |ch| && r < |lv.seeds| && Parent(a, r) < |lv.tags|
    requires x == o.correct(lv.seeds[r], lv.tags[Parent(a, r)], sigma[Slot(a, r)])
    requires forall i {:trigger ch[i]} :: 0 <= i < Width(a) ==> ch[i] == o.child(i, x)
    ensures var next := Step(a, o, lv, sigma);
            Shaped(a, next) && |next.tags| == |lv.seeds| && Width(a) * (r + 1) <= |next.seeds| && next.tags[r] == o.tag(x)
    ensures var next := Step(a, o, lv, sigma);
            forall i {:trigger ch[i]} :: 0 <= i < Width(a) ==> ChildAt(a, next.seeds, r, i, ch[i])
  {
    var next := Step(a, o, lv, sigma);
    assert x == Corrected(a, o, lv, sigma)[r];
    ChildBound(a, r, Width(a) - 1, |next.tags|);
    assert Width(a) * (r + 1) <= |next.seeds| by {
      if a.Two? {
        assert Width(a) == 2;
      } else {
        assert Width(a) == 3;
      }
    }
    forall i {:trigger ch[i]} | 0 <= i < Width(a)
      ensures ChildAt(a, next.seeds, r, i, ch[i])
    {
      ChildParent(a, r, i);
      ChildBound(a, r, i, |next.tags|);
    }
  }

  // Node r of a level: its seeds become tags, its children go to the child matrix.
  method ExpandNode(a: Arity, n: nat, prf: (nat, Block) -> Block, parentTag: Row, cur: array<Row>, child: array<Row>, r: nat,
                    sigma: seq<Row>, z: seq<Row>, ghost lv: Level<Row>, ghost next: Level<Row>) returns (z': seq<Row>)
    requires cur != child && BatchLevel(a, n, lv) && |sigma| == Width(a) && AllRows(n, sigma) && AllRows(n, z)
    requires next == Step(a, RowOps(n, prf), lv, sigma) && r < |lv.seeds| && Parent(a, r) < |lv.tags| && parentTag == lv.tags[Parent(a, r)]
    requires Progress(a, RowOps(n, prf), lv, next, cur[..], child[..], z, r)
    modifies cur, child
    ensures AllRows(n, z')
    ensures Progress(a, RowOps(n, prf), lv, next, cur[..], child[..], z', r + 1)
  {
    ghost var o := RowOps(n, prf);
    ghost var x := RowCorrect(n, cur[r], parentTag, sigma[Slot(a, r)]);
    var tag, ch;
    assert cur[..][r] == lv.seeds[r];
    tag, ch, z' := ExpandRow(a, n, prf, parentTag, cur[r], sigma[Slot(a, r)], z);
    ProgressStep(a, o, lv, sigma, cur[..], child[..], z, r, x, ch, z');
    cur[r] := tag;
    Put(child, Child(a, r, 0), ch);
  }

  // The siblings below parent p, the first of which is row r0.
  method ExpandSiblings(a: Arity, n: nat, prf: (nat, Block) -> Block, p: nat, r0: nat, parentTag: Row, cur: array<Row>, child: array<Row>,
                        sigma: seq<Row>, z: seq<Row>, ghost lv: Level<Row>, ghost next: Level<Row>) returns (z': seq<Row>)
    requires cur != child && BatchLevel(a, n, lv) && |sigma| == Width(a) && AllRows(n, sigma) && AllRows(n, z)
    requires p < |lv.tags| && parentTag == lv.tags[p] && r0 == Child(a, p, 0) && next == Step(a, RowOps(n, prf), lv, sigma)
    requires Progress(a, RowOps(n, prf), lv, next, cur[..], child[..], z, r0)
    modifies cur, child
    ensures AllRows(n, z')
    ensures Progress(a, RowOps(n, prf), lv, next, cur[..], child[..], z', r0 + Width(a))
  {
    hide Progress, Step, RowOps;
    z' := z;
    var j, r := 0, r0;
    while j < Width(a)
      invariant j <= Width(a) && r == r0 + j && AllRows(n, z')
      invariant Progress(a, RowOps(n, prf), lv, next, cur[..], child[..], z', r)
    {
      SiblingIndex(a, p, j, |lv.tags|);
      z' := ExpandNode(a, n, prf, parentTag, cur, child, r, sigma, z', lv, next);
      j, r := j + 1, r + 1;
    }
  }

  lemma SiblingIndex(a: Arity, p: nat, j: nat, m: nat)
    requires p < m && j < Width(a)
    ensures Child(a, p, 0) + j < Width(a) * m && Parent(a, Child(a, p, 0) + j) == p && Slot(a, Child(a, p, 0) + j) == j
    ensures Child(a, p, 0) + Width(a) == Child(a, p + 1, 0)
  {
  }

  // One iteration of the level loop: the current seeds become tags, the child matrix
  // receives the next level, and z its sums.
  method ExpandLevel(a: Arity, n: nat, prf: (nat, Block) -> Block, parent: array<Row>, cur: array<Row>, child: array<Row>, size: nat,
                     sigma: seq<Row>, ghost lv: Level<Row>) returns (z: seq<Row>)
    requires parent != cur && parent != child && cur != child
    requires BatchLevel(a, n, lv) && Holds(parent[..], cur[..], lv) && |sigma| == Width(a) && AllRows(n, sigma)
    requires size == |lv.seeds| && Child(a, size, 0) <= child.Length
    modifies cur, child
    ensures AllRows(n, z) && Holds(cur[..], child[..], Step(a, RowOps(n, prf), lv, sigma))
    ensures HoldsSums(a, RowOps(n, prf), z, Step(a, RowOps(n, prf), lv, sigma))
  {
    hide Progress, HoldsSums, Step;
    ghost var o := RowOps(n, prf);
    ghost var next := Step(a, o, lv, sigma);
    z := seq(Width(a), _ => RowZero(n));
    ProgressStart(a, o, lv, next, cur[..], child[..], z);
    ghost var tags := parent[..];
    var L, L2 := 0, 0;
    while L2 < size
      invariant L <= |lv.tags| && L2 == Child(a, L, 0) && AllRows(n, z) && parent[..] == tags
      invariant Progress(a, o, lv, next, cur[..], child[..], z, L2)
    {
      assert parent[..][L] == tags[..|lv.tags|][L];
      SiblingIndex(a, L, 0, |lv.tags|);
      z := ExpandSiblings(a, n, prf, L, L2, parent[L], cur, child, sigma, z, lv, next);
      L, L2 := L + 1, L2 + Width(a);
    }
    ProgressDone(a, o, lv, next, cur[..], child[..], z);
  }
}

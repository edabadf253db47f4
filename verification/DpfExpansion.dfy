/**
 The growing tree of one party: three seed matrices that take turns as parents, current
 level and children (RegularDpf.h lines 305 to 358 and 486 to 545, TernaryDpf.h lines 138
 to 180 and 194 to 291), and the sums z of the current level.
 */
module DpfExpansion {
  import opened Blocks
  import opened DpfLevels
  import opened DpfRows
  import opened DpfBuffers

  // n random seeds for each child of the root, drawn tree by tree from position at on.
  function RootSeeds(a: Arity, n: nat, rand: nat -> Block, at: nat): (s: seq<Row>)
    ensures |s| == Width(a) && AllRows(n, s)
  {
    seq(Width(a), c requires 0 <= c < Width(a) => seq(n, k requires 0 <= k < n => rand(at + Child(a, k, c))))
  }

  function RootLevel(a: Arity, n: nat, party: bool, rand: nat -> Block, at: nat): Level<Row> {
    Level([seq(n, _ => Saturate(party))], RootSeeds(a, n, rand, at))
  }

  // The root's children, filled tree by tree.
  method DrawRoot(a: Arity, n: nat, rand: nat -> Block, at: nat) returns (sc: seq<Row>)
    ensures sc == RootSeeds(a, n, rand, at)
  {
    sc := seq(Width(a), _ => seq(n, _ => ZERO));
    var k := 0;
    while k < n
      invariant k <= n && |sc| == Width(a) && AllRows(n, sc)
      invariant forall c, q {:trigger sc[c][q]} :: 0 <= c < Width(a) && 0 <= q < k ==> sc[c][q] == rand(at + Child(a, q, c))
    {
      var c := 0;
      while c < Width(a)
        invariant c <= Width(a) && |sc| == Width(a) && AllRows(n, sc)
        invariant forall c', q {:trigger sc[c'][q]} :: 0 <= c' < Width(a) && (0 <= q < k || (q == k && c' < c)) ==>
          sc[c'][q] == rand(at + Child(a, q, c'))
      {
        sc := sc[c := sc[c][k := rand(at + Child(a, k, c))]];
        c := c + 1;
      }
      k := k + 1;
    }
    SameRows(n, sc, RootSeeds(a, n, rand, at));
  }

  lemma SameRows(n: nat, x: seq<Row>, y: seq<Row>)
    requires |x| == |y| && AllRows(n, x) && AllRows(n, y)
    requires forall c, q {:trigger x[c][q]} :: 0 <= c < |x| && 0 <= q < n ==> x[c][q] == y[c][q]
    ensures x == y
  {
    forall c | 0 <= c < |x|
      ensures x[c] == y[c]
    {
    }
  }

  lemma RootSums(a: Arity, n: nat, prf: (nat, Block) -> Block, party: bool, rand: nat -> Block, at: nat)
    ensures HoldsSums(a, RowOps(n, prf), RootSeeds(a, n, rand, at), RootLevel(a, n, party, rand, at))
  {
    var o, z := RowOps(n, prf), RootSeeds(a, n, rand, at);
    forall c | 0 <= c < Width(a)
      ensures z[c] == SlotSum(a, o, z, c, 1)
    {
      assert SlotSum(a, o, z, c, 0) == RowZero(n);
      assert SlotSum(a, o, z, c, 1) == RowAdd(n, RowZero(n), z[c]);
      forall k | 0 <= k < n
        ensures RowAdd(n, RowZero(n), z[c])[k] == z[c][k]
      {
        XorZero(z[c][k]);
      }
    }
  }

  lemma RootBatch(a: Arity, n: nat, party: bool, rand: nat -> Block, at: nat)
    ensures BatchLevel(a, n, RootLevel(a, n, party, rand, at)) && |RootLevel(a, n, party, rand, at).tags| == 1
  {
  }

  lemma RootFits(a: Arity, depth: nat)
    requires depth > 0
    ensures Capacity(a, depth, 0) >= 1 && Capacity(a, depth, 1) >= Width(a) && Nodes(a, 0) == 1
  {
    LevelFits(a, depth, 0);
    LevelFits(a, depth, 1);
  }

  // Level 0 holds the party's tag, level 1 the drawn seeds.
  method FillRoot(a: Arity, n: nat, party: bool, s0: array<Row>, s1: array<Row>, seeds: seq<Row>, ghost rand: nat -> Block, ghost at: nat)
    requires s0 != s1 && s0.Length >= 1 && s1.Length >= Width(a) && seeds == RootSeeds(a, n, rand, at)
    modifies s0, s1
    ensures Holds(s0[..], s1[..], RootLevel(a, n, party, rand, at))
  {
    hide RootSeeds, Saturate;
    s0[0] := seq(n, _ => Saturate(party));
    Put(s1, 0, seeds);
    assert s0[..1] == [s0[0]];
    assert s1[..|seeds|] == seeds;
  }

  class Expansion {
    const a: Arity
    const n: nat
    const depth: nat
    const prf: (nat, Block) -> Block
    const s: seq<array<Row>>
    var z: seq<Row>
    ghost var lv: Level<Row>

    ghost predicate Separate()
    {
      && |s| == 3 && s[0] != s[1] && s[1] != s[2] && s[0] != s[2]
      && (forall j {:trigger s[j]} :: 0 <= j < 3 ==> s[j].Length == Capacity(a, depth, j))
    }

    // iter is the current level.
    ghost predicate Valid(iter: nat)
      reads this, s
    {
      && Separate() && 1 <= iter <= depth
      && BatchLevel(a, n, lv) && |lv.tags| == Nodes(a, iter - 1)
      && Holds(s[(iter - 1) % 3][..], s[iter % 3][..], lv)
      && HoldsSums(a, RowOps(n, prf), z, lv) && AllRows(n, z)
    }

    constructor (a: Arity, n: nat, depth: nat, prf: (nat, Block) -> Block, party: bool, rand: nat -> Block, at: nat)
      requires depth > 0
      ensures this.a == a && this.n == n && this.depth == depth && this.prf == prf
      ensures Valid(1) && lv == RootLevel(a, n, party, rand, at)
      ensures fresh(s[0]) && fresh(s[1]) && fresh(s[2])
    {
      hide Capacity, RootLevel, HoldsSums, RowOps, RootSeeds, Holds, BatchLevel, Saturate, Child, Parent, AllRows;
      this.a, this.n, this.depth, this.prf := a, n, depth, prf;
      var seeds := DrawRoot(a, n, rand, at);
      var s0 := new Row[Capacity(a, depth, 0)];
      var s1 := new Row[Capacity(a, depth, 1)];
      var s2 := new Row[Capacity(a, depth, 2)];
      RootFits(a, depth);
      FillRoot(a, n, party, s0, s1, seeds, rand, at);
      s := [s0, s1, s2];
      z := seeds;
      lv := RootLevel(a, n, party, rand, at);
      new;
      RootBatch(a, n, party, rand, at);
      RootSums(a, n, prf, party, rand, at);
    }

    // Corrects level iter and expands it into level iter + 1.
    method Advance(iter: nat, sigma: seq<Row>)
      requires Valid(iter) && iter < depth && |sigma| == Width(a) && AllRows(n, sigma)
      modifies this, s[iter % 3], s[(iter + 1) % 3]
      ensures Valid(iter + 1) && lv == Step(a, RowOps(n, prf), old(lv), sigma)
    {
      hide Step, HoldsSums, Holds, RowOps, Capacity, SlotSum, AllRows;
      LevelFits(a, depth, iter + 1);
      z := ExpandLevel(a, n, prf, s[(iter - 1) % 3], s[iter % 3], s[(iter + 1) % 3], Nodes(a, iter), sigma, lv);
      StepKeepsBatch(a, n, prf, lv, sigma);
      lv := Step(a, RowOps(n, prf), lv, sigma);
    }
  }

  // The matrices of two parties are different objects.
  ghost predicate Apart(e0: Expansion, e1: Expansion) {
    forall i, j {:trigger e0.s[i], e1.s[j]} :: 0 <= i < |e0.s| && 0 <= j < |e1.s| ==> e0.s[i] != e1.s[j]
  }
}

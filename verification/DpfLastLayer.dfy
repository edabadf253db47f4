/**
 The last layer of an expansion (TernaryDpf.h lines 295 to 347, RegularDpf.h lines 552 to
 602) and the outputs (TernaryDpf.h lines 352 to 416, RegularDpf.h lines 604 to 660): the
 last correction, leaf values and tags, their sums, gamma, and one output per leaf.
 */
module DpfLastLayer {
  import opened Blocks
  import opened DpfLevels
  import opened DpfLeaves
  import opened DpfRows
  import opened DpfBuffers

  // A leaf from its corrected seed.
  function LeafOf<F>(ctx: CoeffCtx<F>, roundFn: (Block, Block) -> Block, s: Block): F {
    ctx.fromBlock(roundFn(s, s))
  }

  function LeafRow<F>(ctx: CoeffCtx<F>, roundFn: (Block, Block) -> Block, x: Row): (leaf: seq<F>)
    ensures |leaf| == |x|
  {
    seq(|x|, k requires 0 <= k < |x| => LeafOf(ctx, roundFn, x[k]))
  }

  function TagRow(x: Row): (tag: seq<bool>)
    ensures |tag| == |x|
  {
    seq(|x|, k requires 0 <= k < |x| => Lsb(x[k]))
  }

  function PlusRow<F>(ctx: CoeffCtx<F>, x: seq<F>, y: seq<F>): (z: seq<F>)
    requires |x| == |y|
    ensures |z| == |x|
  {
    seq(|x|, k requires 0 <= k < |x| => ctx.plus(x[k], y[k]))
  }

  method LeafRowStep<F>(ctx: CoeffCtx<F>, roundFn: (Block, Block) -> Block, n: nat, cs: Row, parentTag: Row, sig: Row, sums: seq<F>)
    returns (leaf: seq<F>, tag: seq<bool>, sums': seq<F>)
    requires |cs| == |parentTag| == |sig| == |sums| == n
    ensures leaf == LeafRow(ctx, roundFn, RowCorrect(n, cs, parentTag, sig)) && tag == TagRow(RowCorrect(n, cs, parentTag, sig))
    ensures sums' == PlusRow(ctx, sums, leaf)
  {
    ghost var x := RowCorrect(n, cs, parentTag, sig);
    leaf, tag, sums' := [], [], [];
    var k := 0;
    while k < n
      invariant k <= n && |leaf| == |tag| == |sums'| == k
      invariant forall q {:trigger leaf[q]} :: 0 <= q < k ==> leaf[q] == LeafOf(ctx, roundFn, x[q])
      invariant forall q {:trigger tag[q]} :: 0 <= q < k ==> tag[q] == Lsb(x[q])
      invariant forall q {:trigger sums'[q]} :: 0 <= q < k ==> sums'[q] == ctx.plus(sums[q], leaf[q])
    {
      var s := Xor(cs[k], And(parentTag[k], sig[k]));
      tag := tag + [Lsb(s)];
      leaf := leaf + [ctx.fromBlock(roundFn(s, s))];
      sums' := sums' + [ctx.plus(sums[k], leaf[k])];
      k := k + 1;
    }
    assert leaf == LeafRow(ctx, roundFn, x);
  }

  // ---------- all rows ----------

  function SeedRowAt(a: Arity, n: nat, lv: Level<Row>, sigma: seq<Row>, r: nat): (x: Row)
    requires Width(a) * |lv.tags| == |lv.seeds| && r < |lv.seeds| && |sigma| == Width(a)
    ensures |x| == n
  {
    ParentBound(a, r, |lv.tags|);
    RowCorrect(n, lv.seeds[r], lv.tags[Parent(a, r)], sigma[Slot(a, r)])
  }

  // The first m leaves and tags, row by row.
  ghost predicate LeavesDone<F>(ctx: CoeffCtx<F>, roundFn: (Block, Block) -> Block, a: Arity, n: nat, lv: Level<Row>, sigma: seq<Row>,
                                leaf: seq<seq<F>>, t: seq<seq<bool>>, m: nat) {
    && Shaped(a, lv) && |sigma| == Width(a) && |leaf| == |t| == m <= |lv.seeds|
    && (forall r {:trigger leaf[r]} :: 0 <= r < m ==> leaf[r] == LeafRow(ctx, roundFn, SeedRowAt(a, n, lv, sigma, r)))
    && (forall r {:trigger t[r]} :: 0 <= r < m ==> t[r] == TagRow(SeedRowAt(a, n, lv, sigma, r)))
  }

  // The sum of the rows of leaves.
  ghost function RowSums<F>(ctx: CoeffCtx<F>, n: nat, leaf: seq<seq<F>>, m: nat): (s: seq<F>)
    requires m <= |leaf| && forall r {:trigger leaf[r]} :: 0 <= r < |leaf| ==> |leaf[r]| == n
    ensures |s| == n
  {
    if m == 0 then seq(n, _ => ctx.zero) else PlusRow(ctx, RowSums(ctx, n, leaf, m - 1), leaf[m - 1])
  }

  lemma {:induction false} RowSumsPrefix<F>(ctx: CoeffCtx<F>, n: nat, leaf: seq<seq<F>>, row: seq<F>, m: nat)
    requires m <= |leaf| && |row| == n && forall r {:trigger leaf[r]} :: 0 <= r < |leaf| ==> |leaf[r]| == n
    ensures forall r {:trigger (leaf + [row])[r]} :: 0 <= r < |leaf + [row]| ==> |(leaf + [row])[r]| == n
    ensures RowSums(ctx, n, leaf + [row], m) == RowSums(ctx, n, leaf, m)
  {
    if m > 0 {
      RowSumsPrefix(ctx, n, leaf, row, m - 1);
    }
  }

  // Column k of the leaves, and its sum.
  function LeafColumn<F>(leaf: seq<seq<F>>, k: nat): (s: seq<F>)
    requires forall r {:trigger leaf[r]} :: 0 <= r < |leaf| ==> k < |leaf[r]|
    ensures |s| == |leaf|
  {
    seq(|leaf|, r requires 0 <= r < |leaf| => leaf[r][k])
  }

  lemma {:induction false} RowSumsColumn<F>(ctx: CoeffCtx<F>, n: nat, leaf: seq<seq<F>>, m: nat, k: nat)
    requires m <= |leaf| && k < n && forall r {:trigger leaf[r]} :: 0 <= r < |leaf| ==> |leaf[r]| == n
    ensures RowSums(ctx, n, leaf, m)[k] == LeafSum(ctx, LeafColumn(leaf, k), m)
  {
    if m > 0 {
      RowSumsColumn(ctx, n, leaf, m - 1, k);
    }
  }

  ghost predicate Table<T>(m: nat, n: nat, x: seq<seq<T>>) {
    |x| == m && forall r {:trigger x[r]} :: 0 <= r < |x| ==> |x[r]| == n
  }

  // The first m rows are done, and sums holds their sum.
  ghost predicate Layer<F>(ctx: CoeffCtx<F>, roundFn: (Block, Block) -> Block, a: Arity, n: nat, lv: Level<Row>, sigma: seq<Row>,
                           leaf: seq<seq<F>>, t: seq<seq<bool>>, sums: seq<F>, m: nat) {
    LeavesDone(ctx, roundFn, a, n, lv, sigma, leaf, t, m) && Table(m, n, leaf) && sums == RowSums(ctx, n, leaf, m)
  }

  lemma LayerStart<F>(ctx: CoeffCtx<F>, roundFn: (Block, Block) -> Block, a: Arity, n: nat, lv: Level<Row>, sigma: seq<Row>)
    requires Shaped(a, lv) && |sigma| == Width(a)
    ensures Layer(ctx, roundFn, a, n, lv, sigma, [], [], seq(n, _ => ctx.zero), 0)
  {
  }

  lemma LayerStep<F>(ctx: CoeffCtx<F>, roundFn: (Block, Block) -> Block, a: Arity, n: nat, lv: Level<Row>, sigma: seq<Row>,
                     leaf: seq<seq<F>>, t: seq<seq<bool>>, sums: seq<F>, m: nat, row: seq<F>, tag: seq<bool>)
    requires Layer(ctx, roundFn, a, n, lv, sigma, leaf, t, sums, m) && m < |lv.seeds|
    requires row == LeafRow(ctx, roundFn, SeedRowAt(a, n, lv, sigma, m)) && tag == TagRow(SeedRowAt(a, n, lv, sigma, m)) && |sums| == |row|
    ensures Layer(ctx, roundFn, a, n, lv, sigma, leaf + [row], t + [tag], PlusRow(ctx, sums, row), m + 1)
  {
    hide LeafRow, TagRow, SeedRowAt, PlusRow;
    RowSumsPrefix(ctx, n, leaf, row, m);
  }

  // The children of parent L, as far as they are below m.
  method LastSiblings<F>(ctx: CoeffCtx<F>, roundFn: (Block, Block) -> Block, a: Arity, n: nat, L: nat, L2: nat, m: nat,
                         parentTag: Row, cur: array<Row>, sigma: seq<Row>, leaf: seq<seq<F>>, t: seq<seq<bool>>, sums: seq<F>,
                         ghost lv: Level<Row>) returns (leaf': seq<seq<F>>, t': seq<seq<bool>>, sums': seq<F>)
    requires BatchLevel(a, n, lv) && |lv.seeds| <= cur.Length && cur[..|lv.seeds|] == lv.seeds
    requires |sigma| == Width(a) && AllRows(n, sigma) && m <= Width(a) && L2 == Child(a, L, 0) && L2 + m <= |lv.seeds| && |sums| == n
    requires L < |lv.tags| && parentTag == lv.tags[L]
    requires Layer(ctx, roundFn, a, n, lv, sigma, leaf, t, sums, L2)
    ensures |sums'| == n && Layer(ctx, roundFn, a, n, lv, sigma, leaf', t', sums', L2 + m)
  {
    hide Layer, LeafRow, TagRow, RowCorrect, PlusRow;
    leaf', t', sums' := leaf, t, sums;
    var j, r := 0, L2;
    while j < m
      invariant j <= m && r == L2 + j && |sums'| == n && Layer(ctx, roundFn, a, n, lv, sigma, leaf', t', sums', r)
    {
      SiblingIndex(a, L, j, |lv.tags|);
      assert cur[r] == cur[..|lv.seeds|][r];
      var row, tag;
      ghost var before := sums';
      row, tag, sums' := LeafRowStep(ctx, roundFn, n, cur[r], parentTag, sigma[j], sums');
      assert RowCorrect(n, cur[r], parentTag, sigma[j]) == SeedRowAt(a, n, lv, sigma, r);
      LayerStep(ctx, roundFn, a, n, lv, sigma, leaf', t', before, r, row, tag);
      leaf', t' := leaf' + [row], t' + [tag];
      j, r := j + 1, r + 1;
    }
  }

  method LastLayer<F>(ctx: CoeffCtx<F>, roundFn: (Block, Block) -> Block, a: Arity, n: nat, parent: array<Row>, cur: array<Row>, rows: nat,
                      sigma: seq<Row>, ghost lv: Level<Row>) returns (leaf: seq<seq<F>>, t: seq<seq<bool>>, sums: seq<F>)
    requires BatchLevel(a, n, lv) && Holds(parent[..], cur[..], lv) && |sigma| == Width(a) && AllRows(n, sigma) && rows <= |lv.seeds|
    ensures |sums| == n && Layer(ctx, roundFn, a, n, lv, sigma, leaf, t, sums, rows)
  {
    hide Layer;
    leaf, t := [], [];
    sums := seq(n, _ => ctx.zero);
    LayerStart(ctx, roundFn, a, n, lv, sigma);
    var L, L2 := 0, 0;
    ghost var done := 0;
    while L2 < rows
      invariant L2 == Child(a, L, 0) && done == (if L2 < rows then L2 else rows)
      invariant |sums| == n && Layer(ctx, roundFn, a, n, lv, sigma, leaf, t, sums, done)
    {
      var m := if Width(a) < rows - L2 then Width(a) else rows - L2;
      SiblingIndex(a, L, 0, L + 1);
      RowsBelow(a, L, |lv.tags|);
      assert parent[L] == parent[..|lv.tags|][L];
      leaf, t, sums := LastSiblings(ctx, roundFn, a, n, L, L2, m, parent[L], cur, sigma, leaf, t, sums, lv);
      done := L2 + m;
      L, L2 := L + 1, L2 + Width(a);
    }
  }

  lemma RowsBelow(a: Arity, L: nat, m: nat)
    requires Child(a, L, 0) < Width(a) * m
    ensures L < m
  {
  }

  // ---------- outputs ----------

  // Both parties' gamma: the received difference, the own sums and the own values.
  method Gammas<F>(ctx: CoeffCtx<F>, diff': seq<F>, sums: seq<F>, values: seq<F>) returns (gamma: seq<F>)
    requires |diff'| == |sums| == |values|
    ensures |gamma| == |sums| && forall k {:trigger gamma[k]} :: 0 <= k < |sums| ==> gamma[k] == Gamma(ctx, diff'[k], sums[k], values[k])
  {
    gamma := [];
    var k := 0;
    while k < |sums|
      invariant k <= |sums| && |gamma| == k
      invariant forall q {:trigger gamma[q]} :: 0 <= q < k ==> gamma[q] == Gamma(ctx, diff'[q], sums[q], values[q])
    {
      gamma := gamma + [ctx.plus(ctx.plus(diff'[k], sums[k]), values[k])];
      k := k + 1;
    }
  }

  // One output for each of the first m leaves of every tree.
  method Outputs<F>(ctx: CoeffCtx<F>, n: nat, m: nat, leaf: seq<seq<F>>, t: seq<seq<bool>>, gamma: seq<F>) returns (out: seq<seq<F>>)
    requires |gamma| == n && m <= |leaf| == |t|
    requires forall r {:trigger leaf[r]} :: 0 <= r < |leaf| ==> |leaf[r]| == n
    requires forall r {:trigger t[r]} :: 0 <= r < |t| ==> |t[r]| == n
    ensures Table(m, n, out)
    ensures forall r, k {:trigger out[r][k]} :: 0 <= r < m && 0 <= k < n ==> out[r][k] == LeafOutput(ctx, gamma[k], t[r][k], leaf[r][k])
  {
    out := [];
    var i := 0;
    while i < m
      invariant i <= m && Table(i, n, out)
      invariant forall r, k {:trigger out[r][k]} :: 0 <= r < i && 0 <= k < n ==> out[r][k] == LeafOutput(ctx, gamma[k], t[r][k], leaf[r][k])
    {
      var row: seq<F> := [];
      var k := 0;
      while k < n
        invariant k <= n && |row| == k
        invariant forall q {:trigger row[q]} :: 0 <= q < k ==> row[q] == LeafOutput(ctx, gamma[q], t[i][q], leaf[i][q])
      {
        row := row + [ctx.plus(ctx.mask(gamma[k], t[i][k]), leaf[i][k])];
        k := k + 1;
      }
      out := out + [row];
      i := i + 1;
    }
  }
}

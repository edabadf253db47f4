/**
 The dense tree of the sparse protocol (SparseDpf.h lines 265 to 289): the binary protocol on
 the high bits of the points, without values, gives every bin of a row its seed and tag.
 */
module SparseDense {
  import opened Blocks
  import opened DpfLevels
  import opened DpfBuffers
  import opened DpfLeaves
  import opened DpfReconstruct
  import opened RegularJoint
  import opened RegularKey
  import opened RegularExpand
  import opened RegularPath
  import opened SparseSplit
  import opened SparsePlant
  import opened SparseDpf
  import opened DpfLastLayer
  import RegularAgreement
  import RegularDpf
  import RegularKeys

  lemma {:induction false} BitOfHigh(p: nat, u: nat, b: nat)
    ensures BitOf(High(p, u), b) == BitOf(p, u + b)
  {
    if u > 0 {
      BitOfHigh(p / 2, u - 1, b);
    }
  }

  lemma {:induction false} HighBelow(x: nat, d: nat, e: nat)
    requires x < Nodes(Two, d + e)
    ensures High(x, d) < Nodes(Two, e)
  {
    if d > 0 {
      HighBelow(x / 2, d - 1, e);
    }
  }

  function HighPoints(points: seq<nat>, depth: nat): (h: seq<nat>)
    ensures |h| == |points|
  {
    seq(|points|, k requires 0 <= k < |points| => High(points[k], depth))
  }

  // The secret point's bin is what the two parties' high bits share.
  lemma SecretBin(points0: seq<nat>, points1: seq<nat>, rows: seq<seq<nat>>, secret: seq<nat>, depth: nat, dense: nat, r: nat)
    requires SecretsShared(points0, points1, rows, secret, depth + dense) && r < |rows| && secret[r] < |rows[r]|
    requires rows[r][secret[r]] < Nodes(Two, depth + dense)
    ensures Positions(HighPoints(points0, depth), HighPoints(points1, depth), 0, dense)[r] == High(rows[r][secret[r]], depth)
  {
    hide BitOf, High, Nodes, XorBits;
    var p, q, x := points0[r], points1[r], rows[r][secret[r]];
    HighBelow(x, depth, dense);
    forall b: nat {:trigger BitOf(High(x, depth), b)} | b < dense
      ensures BitOf(High(x, depth), b) == (BitOf(High(p, depth), b) != BitOf(High(q, depth), b))
    {
      BitOfHigh(x, depth, b);
      BitOfHigh(p, depth, b);
      BitOfHigh(q, depth, b);
      assert BitOf(points0[r], depth + b) == BitOf(p, depth + b);
    }
    RegularAgreement.SharedBits(High(p, depth), High(q, depth), High(x, depth), 0, dense);
    RegularAgreement.AllBits(High(x, depth), dense);
  }

  // ... and every listed point has a bin.
  lemma RowBins(points0: seq<nat>, points1: seq<nat>, rows: seq<seq<nat>>, secret: seq<nat>, depth: nat, dense: nat, r: nat)
    requires SecretsShared(points0, points1, rows, secret, depth + dense) && r < |rows|
    requires forall r, x {:trigger rows[r][x]} :: 0 <= r < |rows| && 0 <= x < |rows[r]| ==> rows[r][x] < Nodes(Two, depth + dense)
    ensures secret[r] < |rows[r]|
    ensures Positions(HighPoints(points0, depth), HighPoints(points1, depth), 0, dense)[r] == High(rows[r][secret[r]], depth)
    ensures forall x {:trigger rows[r][x]} :: 0 <= x < |rows[r]| ==> High(rows[r][x], depth) < Nodes(Two, dense)
  {
    hide High, Positions, BitOf, Nodes;
    assert secret[r] < |rows[r]|;
    SecretBin(points0, points1, rows, secret, depth, dense, r);
    forall x {:trigger rows[r][x]} | 0 <= x < |rows[r]|
      ensures High(rows[r][x], depth) < Nodes(Two, dense)
    {
      HighBelow(rows[r][x], depth, dense);
    }
  }

  // Column k of a table.
  function ColumnOf<T>(m: seq<seq<T>>, rows: nat, n: nat, k: nat): (c: seq<T>)
    requires Table(rows, n, m) && k < n
    ensures |c| == rows && forall r {:trigger c[r]} :: 0 <= r < rows ==> c[r] == m[r][k]
  {
    seq(rows, r requires 0 <= r < rows => m[r][k])
  }

  // The output function fills a matrix with one row for each tree.
  method ByTree<T>(m: seq<seq<T>>, rows: nat, n: nat) returns (c: seq<seq<T>>)
    requires Table(rows, n, m)
    ensures |c| == n && forall k {:trigger c[k]} :: 0 <= k < n ==> c[k] == ColumnOf(m, rows, n, k)
  {
    c := [];
    var k := 0;
    while k < n
      invariant k <= n && |c| == k && forall q {:trigger c[q]} :: 0 <= q < k ==> c[q] == ColumnOf(m, rows, n, q)
    {
      var column: seq<T> := [];
      var r := 0;
      while r < rows
        invariant r <= rows && column == ColumnOf(m, rows, n, k)[..r]
      {
        column := column + [m[r][k]];
        r := r + 1;
      }
      c := c + [column];
      k := k + 1;
    }
  }

  // Bin b of dense tree k.
  ghost predicate HasBin(i: Inputs, b: nat, k: nat) {
    WellFormed(i) && b < Nodes(Two, i.depth) && k < i.n
  }

  // A party's leaf in that bin: without values, the output of the party's key.
  ghost function DenseLeaf(crypto: Crypto, i: Inputs, party: bool, b: nat, k: nat): Block
    requires HasBin(i, b, k)
  {
    KeyOutputs(crypto, party, i.n, i.depth, Nodes(Two, i.depth), JointKey(crypto, i, party, [])).0[b][k]
  }

  ghost predicate LeavesMeet(crypto: Crypto, i: Inputs, b: nat, k: nat) {
    HasBin(i, b, k) && DenseLeaf(crypto, i, false, b, k) == DenseLeaf(crypto, i, true, b, k)
  }

  // Both parties' seeds of the bins of row k.
  ghost predicate FromLeaves(crypto: Crypto, i: Inputs, k: nat, s0: seq<Block>, s1: seq<Block>) {
    && WellFormed(i) && |s0| == |s1| == Nodes(Two, i.depth) && k < i.n
    && (forall b {:trigger s0[b]} :: 0 <= b < |s0| ==> s0[b] == DenseLeaf(crypto, i, false, b, k))
    && (forall b {:trigger s1[b]} :: 0 <= b < |s1| ==> s1[b] == DenseLeaf(crypto, i, true, b, k))
  }

  // One party's seeds and tags of the bins of row k, from the tree of the party's key.
  ghost predicate OfKey(crypto: Crypto, i: Inputs, party: bool, k: nat, s: seq<Block>, u: seq<bool>) {
    && WellFormed(i) && |s| == |u| == Nodes(Two, i.depth) && k < i.n
    && forall b {:trigger s[b]} {:trigger u[b]} :: 0 <= b < |s| ==>
         var y := NodeSeed(crypto, party, i.n, i.depth, JointKey(crypto, i, party, []), k, i.depth, b);
         s[b] == crypto.roundEnc(y, y) && u[b] == y.bits[0]
  }

  lemma ColumnOfKey(crypto: Crypto, i: Inputs, party: bool, domain: nat, out: seq<seq<Block>>, t: seq<seq<bool>>, k: nat)
    requires ExpandsTo(crypto, i, party, domain, [], out, t) && domain == Nodes(Two, i.depth) && k < i.n
    requires Table(domain, i.n, out) && Table(domain, i.n, t)
    ensures OfKey(crypto, i, party, k, ColumnOf(out, domain, i.n, k), ColumnOf(t, domain, i.n, k))
  {
    hide KeyOutputs, JointWords, JointBits, NodeSeed, Nodes;
    var key := JointKey(crypto, i, party, []);
    RegularKeys.OutputsOnPath(crypto, party, i.n, i.depth, domain, key);
    var s, u := ColumnOf(out, domain, i.n, k), ColumnOf(t, domain, i.n, k);
    forall b {:trigger s[b]} {:trigger u[b]} | 0 <= b < domain
      ensures var y := NodeSeed(crypto, party, i.n, i.depth, key, k, i.depth, b);
              s[b] == crypto.roundEnc(y, y) && u[b] == y.bits[0]
    {
      assert s[b] == out[b][k] && u[b] == t[b][k];
    }
  }

  // Without values an output is the leaf of a seed, and its tag the low bit of the seed.
  lemma OutputIsLeaf(crypto: Crypto, i: Inputs, party: bool, domain: nat, out: seq<seq<Block>>, t: seq<seq<bool>>, r: nat, k: nat)
    returns (x: Block)
    requires ExpandsTo(crypto, i, party, domain, [], out, t) && r < domain && k < i.n
    ensures r < |out| && r < |t| && k < |out[r]| && k < |t[r]| && out[r][k] == crypto.roundEnc(x, x) && t[r][k] == Lsb(x)
  {
    var key := JointKey(crypto, i, party, []);
    var lv, sigma := KeyLevel(crypto, party, i.n, i.depth, key, i.depth), KeySigma(i.n, i.depth, key, i.depth);
    x := SeedRowAt(Two, i.n, lv, sigma, r)[k];
    hide KeyLevel, KeySigma, JointKey, SeedRowAt, Lsb;
    assert LeafTable(crypto, i.n, lv, sigma, domain)[r] == LeafRow(BlockCtx(), crypto.roundEnc, SeedRowAt(Two, i.n, lv, sigma, r));
    assert TagTable(i.n, lv, sigma, domain)[r] == TagRow(SeedRowAt(Two, i.n, lv, sigma, r));
  }

  // Both expansions without values, at all bins and trees.
  ghost predicate Expanded(crypto: Crypto, i: Inputs, domain: nat, out0: seq<seq<Block>>, out1: seq<seq<Block>>, t0: seq<seq<bool>>,
                           t1: seq<seq<bool>>) {
    && WellFormed(i) && ExpandsTo(crypto, i, false, domain, [], out0, t0) && ExpandsTo(crypto, i, true, domain, [], out1, t1)
  }

  lemma ExpandedTables(crypto: Crypto, i: Inputs, domain: nat, out0: seq<seq<Block>>, out1: seq<seq<Block>>, t0: seq<seq<bool>>,
                       t1: seq<seq<bool>>)
    requires Expanded(crypto, i, domain, out0, out1, t0, t1) && domain <= Nodes(Two, i.depth)
    ensures Table(domain, i.n, out0) && Table(domain, i.n, out1) && Table(domain, i.n, t0) && Table(domain, i.n, t1)
    ensures ShareTags(i.n, domain, Positions(i.points0, i.points1, 0, i.depth), t0, t1)
    ensures ShareRandom(BlockCtx(), i.n, domain, Positions(i.points0, i.points1, 0, i.depth), out0, out1)
  {
    hide ExpandsTo, Positions;
    assert GammaOf(crypto, i, domain, [], []) == [];
    RegularKeys.ExpansionsShare(crypto, i, domain, [], [], out0, out1, t0, t1);
  }

  // Bin b of tree k.
  lemma DenseEntry(crypto: Crypto, i: Inputs, domain: nat, out0: seq<seq<Block>>, out1: seq<seq<Block>>, t0: seq<seq<bool>>,
                   t1: seq<seq<bool>>, b: nat, k: nat)
    requires Expanded(crypto, i, domain, out0, out1, t0, t1) && domain <= Nodes(Two, i.depth) && b < domain && k < i.n
    requires Table(domain, i.n, out0) && Table(domain, i.n, out1) && Table(domain, i.n, t0) && Table(domain, i.n, t1)
    ensures b != Positions(i.points0, i.points1, 0, i.depth)[k] ==> out0[b][k] == out1[b][k]
    ensures t0[b][k] != t1[b][k] <==> b == Positions(i.points0, i.points1, 0, i.depth)[k]
  {
    hide ExpandsTo, Positions, Xor;
    ExpandedTables(crypto, i, domain, out0, out1, t0, t1);
    var target := Positions(i.points0, i.points1, 0, i.depth);
    assert t0[b][k] != t1[b][k] <==> b == target[k];
    if b != target[k] {
      assert BlockCtx().plus(out0[b][k], out1[b][k]) == ZERO;
      XorZeroMeansEqual(out0[b][k], out1[b][k]);
    }
  }

  // The two leaves in the secret point's bin come from seeds with different low bits.
  lemma LeafSeeds(crypto: Crypto, i: Inputs, b: nat, k: nat) returns (x: Block, y: Block)
    requires HasBin(i, b, k) && b == Positions(i.points0, i.points1, 0, i.depth)[k]
    ensures DenseLeaf(crypto, i, false, b, k) == crypto.roundEnc(x, x) && DenseLeaf(crypto, i, true, b, k) == crypto.roundEnc(y, y)
    ensures Lsb(x) != Lsb(y)
  {
    hide KeyOutputs, JointKey, Nodes, Positions, Lsb;
    var domain := Nodes(Two, i.depth);
    var r0, r1 := KeyOutputs(crypto, false, i.n, i.depth, domain, JointKey(crypto, i, false, [])),
                  KeyOutputs(crypto, true, i.n, i.depth, domain, JointKey(crypto, i, true, []));
    ExpandedTables(crypto, i, domain, r0.0, r1.0, r0.1, r1.1);
    DenseEntry(crypto, i, domain, r0.0, r1.0, r0.1, r1.1, b, k);
    x := OutputIsLeaf(crypto, i, false, domain, r0.0, r0.1, b, k);
    y := OutputIsLeaf(crypto, i, true, domain, r1.0, r1.1, b, k);
  }

  // What one row gets from the dense trees.
  lemma DenseRow(crypto: Crypto, i: Inputs, domain: nat, out0: seq<seq<Block>>, out1: seq<seq<Block>>, t0: seq<seq<bool>>,
                 t1: seq<seq<bool>>, row: seq<nat>, depth: nat, a: nat, k: nat)
    requires Expanded(crypto, i, domain, out0, out1, t0, t1) && domain <= Nodes(Two, i.depth) && k < i.n
    requires Table(domain, i.n, out0) && Table(domain, i.n, out1) && Table(domain, i.n, t0) && Table(domain, i.n, t1)
    requires a < |row| && Positions(i.points0, i.points1, 0, i.depth)[k] == High(row[a], depth)
    requires forall x {:trigger row[x]} :: 0 <= x < |row| ==> High(row[x], depth) < domain
    ensures DenseShared(row, depth, a, ColumnOf(out0, domain, i.n, k), ColumnOf(out1, domain, i.n, k), ColumnOf(t0, domain, i.n, k),
                        ColumnOf(t1, domain, i.n, k))
  {
    hide High, Positions, ExpandsTo, Nodes;
    var s0, s1, u0, u1 := ColumnOf(out0, domain, i.n, k), ColumnOf(out1, domain, i.n, k), ColumnOf(t0, domain, i.n, k),
                          ColumnOf(t1, domain, i.n, k);
    forall b {:trigger s0[b]} {:trigger u0[b]} | 0 <= b < domain
      ensures (b != High(row[a], depth) ==> s0[b] == s1[b]) && (u0[b] != u1[b] <==> b == High(row[a], depth))
    {
      DenseEntry(crypto, i, domain, out0, out1, t0, t1, b, k);
    }
  }

  lemma ColumnLeaves(crypto: Crypto, i: Inputs, domain: nat, out0: seq<seq<Block>>, out1: seq<seq<Block>>, t0: seq<seq<bool>>,
                     t1: seq<seq<bool>>, k: nat)
    requires Expanded(crypto, i, domain, out0, out1, t0, t1) && domain == Nodes(Two, i.depth) && k < i.n
    requires Table(domain, i.n, out0) && Table(domain, i.n, out1)
    ensures FromLeaves(crypto, i, k, ColumnOf(out0, domain, i.n, k), ColumnOf(out1, domain, i.n, k))
  {
    hide KeyOutputs, JointKey, Nodes;
  }

  // The inputs of the dense trees: the high bits of the points.
  function DenseInputs(e: RegularDpf.RegularDpf, points0: seq<nat>, points1: seq<nat>, depth: nat, seed0: Block, seed1: Block): Inputs
    reads e
  {
    InputsOf(e, HighPoints(points0, depth), HighPoints(points1, depth), seed0, seed1)
  }

  // The expansion of the dense trees, run by both parties.
  method Dense(crypto: Crypto, e0: RegularDpf.RegularDpf, e1: RegularDpf.RegularDpf, points0: seq<nat>, points1: seq<nat>, depth: nat,
               seed0: Block, seed1: Block, ghost rows: seq<seq<nat>>, ghost secret: seq<nat>)
    returns (ok: bool, s0: seq<seq<Block>>, s1: seq<seq<Block>>, u0: seq<seq<bool>>, u1: seq<seq<bool>>)
    requires RegularDpf.Paired(e0, e1) && Configured(e0) && e0.domain == Nodes(Two, e0.depth)
    requires |points0| == |points1| == |rows| == e0.numPoints
    requires SecretsShared(points0, points1, rows, secret, depth + e0.depth) && |secret| == |rows|
    requires forall r, x {:trigger rows[r][x]} :: 0 <= r < |rows| && 0 <= x < |rows[r]| ==> rows[r][x] < Nodes(Two, depth + e0.depth)
    modifies e0.mult`otIdx, e1.mult`otIdx
    ensures ok <==> old(|e0.mult.choiceBits| > 0 && e0.mult.otIdx + e0.numPoints * e0.depth <= e0.mult.totalMults)
    ensures ok ==> |s0| == |s1| == |u0| == |u1| == |rows| == |secret|
    ensures ok ==> forall r {:trigger s0[r]} :: 0 <= r < |rows| ==> DenseShared(rows[r], depth, secret[r], s0[r], s1[r], u0[r], u1[r])
    ensures ok ==> var i := DenseInputs(e0, points0, points1, depth, seed0, seed1);
                   forall r {:trigger s0[r]} :: 0 <= r < |rows| ==> FromLeaves(crypto, i, r, s0[r], s1[r])
    ensures ok ==> var i := DenseInputs(e0, points0, points1, depth, seed0, seed1);
                   forall r {:trigger s0[r]} {:trigger s1[r]} :: 0 <= r < |rows| ==>
                     OfKey(crypto, i, false, r, s0[r], u0[r]) && OfKey(crypto, i, true, r, s1[r], u1[r])
  {
    hide OfKey;
    hide High, Nodes, ExpandsTo, Positions, BitOf, DenseShared, FromLeaves, SecretsShared;
    s0, s1, u0, u1 := [], [], [], [];
    var h0, h1 := HighPoints(points0, depth), HighPoints(points1, depth);
    var out0, out1, t0, t1;
    ok, out0, out1, t0, t1 := Expand(crypto, e0, e1, h0, h1, [], [], seed0, seed1);
    if !ok {
      return;
    }
    ghost var i := DenseInputs(e0, points0, points1, depth, seed0, seed1);
    ghost var n, domain := e0.numPoints, e0.domain;
    assert GammaOf(crypto, i, domain, [], []) == [];
    ExpandedTables(crypto, i, domain, out0, out1, t0, t1);
    forall r {:trigger rows[r]} | 0 <= r < n
      ensures r < |secret|
      ensures DenseShared(rows[r], depth, secret[r], ColumnOf(out0, domain, n, r), ColumnOf(out1, domain, n, r), ColumnOf(t0, domain, n, r),
                          ColumnOf(t1, domain, n, r))
      ensures FromLeaves(crypto, i, r, ColumnOf(out0, domain, n, r), ColumnOf(out1, domain, n, r))
      ensures OfKey(crypto, i, false, r, ColumnOf(out0, domain, n, r), ColumnOf(t0, domain, n, r))
      ensures OfKey(crypto, i, true, r, ColumnOf(out1, domain, n, r), ColumnOf(t1, domain, n, r))
    {
      ColumnOfKey(crypto, i, false, domain, out0, t0, r);
      ColumnOfKey(crypto, i, true, domain, out1, t1, r);
      RowBins(points0, points1, rows, secret, depth, e0.depth, r);
      DenseRow(crypto, i, domain, out0, out1, t0, t1, rows[r], depth, secret[r], r);
      ColumnLeaves(crypto, i, domain, out0, out1, t0, t1, r);
    }
    s0 := ByTree(out0, e0.domain, e0.numPoints);
    s1 := ByTree(out1, e0.domain, e0.numPoints);
    u0 := ByTree(t0, e0.domain, e0.numPoints);
    u1 := ByTree(t1, e0.domain, e0.numPoints);
  }
}

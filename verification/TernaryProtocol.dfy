/**
 Both parties of the ternary protocol in lockstep: the exchange of correction words
 (TernaryDpf.h lines 420 to 557).
 */
module TernaryProtocol {
  import opened Blocks
  import opened Trits
  import opened DpfLevels
  import opened DpfPath
  import opened DpfRows
  import opened DpfExpansion
  import opened DpfBatch
  import opened ObliviousTransfer
  import opened TernaryCorrection
  import opened TernaryDpf

  // Base transfers: each party receives what it chose of the other's pairs.
  ghost predicate OtsCorrelated(d0: TernaryDpf, d1: TernaryDpf)
    reads d0`sendOts, d0`recvOts, d0`choices, d1`sendOts, d1`recvOts, d1`choices
  {
    && |d0.sendOts| == |d0.recvOts| == |d0.choices| == |d1.sendOts| == |d1.recvOts| == |d1.choices|
    && (forall i {:trigger d0.recvOts[i]} :: 0 <= i < |d0.recvOts| ==> d0.recvOts[i] == Pick(d1.sendOts[i], d0.choices[i]))
    && (forall i {:trigger d1.recvOts[i]} :: 0 <= i < |d1.recvOts| ==> d1.recvOts[i] == Pick(d0.sendOts[i], d1.choices[i]))
  }

  // Two parties with the same configuration.
  ghost predicate Paired(d0: TernaryDpf, d1: TernaryDpf)
    reads d0, d1
  {
    && d0 != d1 && d0.partyIdx == 0 && d1.partyIdx == 1 && d0.domain == d1.domain && d0.depth == d1.depth
    && d0.numPoints == d1.numPoints && d0.otIdx == d1.otIdx && OtsCorrelated(d0, d1)
  }

  // The sum of the two shares of every trit of one level.
  function ActiveTrits(points0: seq<F3x32>, points1: seq<F3x32>, i: nat): (c: seq<nat>)
    requires |points0| == |points1| && i < 32
    ensures |c| == |points0| && forall k {:trigger c[k]} :: 0 <= k < |c| ==> c[k] < 3
  {
    seq(|points0|, k requires 0 <= k < |points0| => AddTrits(points0[k][i], points1[k][i]))
  }

  lemma TripleColumns(n: nat, z0: seq<Row>, z1: seq<Row>, k: nat)
    requires Rows3(n, z0) && Rows3(n, z1)
    ensures XorEach(Column(z0, k), Column(z1, k)) == XorTriple(Triple3(z0, k), Triple3(z1, k)) && Column(z0, k) == Triple3(z0, k)
  {
    hide Xor;
  }

  lemma ViewsCorrelate(d0: TernaryDpf, d1: TernaryDpf, points0: seq<F3x32>, points1: seq<F3x32>, iter: nat,
                       rand0: nat -> Block, at0: nat, rand1: nat -> Block, at1: nat, k: nat)
    requires Paired(d0, d1) && d0.Usable(points0, iter) && d1.Usable(points1, iter) && k < d0.numPoints
    ensures var v0, v1 := d0.ViewAt(points0, iter, rand0, at0, k), d1.ViewAt(points1, iter, rand1, at1, k);
            && Correlated(v1.s0, v0.r0) && Correlated(v1.s1, v0.r1) && Correlated(v0.s0, v1.r0) && Correlated(v0.s1, v1.r1)
            && v0.r == SetLsb(rand0(at0 + k), false) && v1.r == SetLsb(rand1(at1 + k), true)
  {
  }

  lemma RevealedForTree(crypto: Crypto, v0: View, v1: View, z0: Triple, z1: Triple, share0: Triple, share1: Triple)
    requires v0.a < 3 && v1.a < 3 && Lsb(v0.r) != Lsb(v1.r)
    requires Correlated(v1.s0, v0.r0) && Correlated(v1.s1, v0.r1) && Correlated(v0.s0, v1.r0) && Correlated(v0.s1, v1.r1)
    requires share0 == ShareOf(Expander(crypto), v0, v1, z0) && share1 == ShareOf(Expander(crypto), v1, v0, z1)
    ensures GoodSigma(Three, XorTriple(z0, z1), XorTriple(share0, share1), AddTrits(v0.a, v1.a))
    ensures XorTriple(share1, share0) == XorTriple(share0, share1)
    ensures XorTriple(share0, share1) == XorAt(XorTriple(z0, z1), AddTrits(v0.a, v1.a), Xor(v0.r, v1.r))
  {
    RevealedSigma(Expander(crypto), v0, v1, z0, z1);
    RevealedIsGood(Expander(crypto), v0, v1, z0, z1);
    forall c | 0 <= c < 3
      ensures Xor(share1[c], share0[c]) == Xor(share0[c], share1[c])
    {
      XorComm(share0[c], share1[c]);
    }
  }

  lemma SameTriples(n: nat, x: seq<Row>, y: seq<Row>)
    requires Rows3(n, x) && Rows3(n, y)
    requires forall k {:trigger Triple3(x, k)} :: 0 <= k < n ==> Triple3(x, k) == Triple3(y, k)
    ensures x == y
  {
    forall c, k | 0 <= c < 3 && 0 <= k < n
      ensures x[c][k] == y[c][k]
    {
      assert Triple3(x, k)[c] == Triple3(y, k)[c];
    }
    SameRows(n, x, y);
  }

  // The shifts of both parties for tree k: the drawn blocks, whose low bits are set to the
  // party's index.
  function ShiftOf(rand0: nat -> Block, at0: nat, rand1: nat -> Block, at1: nat, k: nat): Block {
    Xor(SetLsb(rand0(at0 + k), false), SetLsb(rand1(at1 + k), true))
  }

  // Entry k of the three rows is the sum of the entries of z0 and z1, shifted at child c.
  ghost predicate Shifted(z0: seq<Row>, z1: seq<Row>, sigma: seq<Row>, k: nat, c: nat, r: Block) {
    && |z0| == |z1| == |sigma| == 3
    && forall j {:trigger sigma[j]} :: 0 <= j < 3 ==>
         && k < |sigma[j]| && k < |z0[j]| && k < |z1[j]|
         && sigma[j][k] == if j == c then Xor(Xor(z0[j][k], z1[j][k]), r) else Xor(z0[j][k], z1[j][k])
  }

  // What the two shares of sigma of every tree are good for.
  ghost predicate SharesGood(z0: seq<Row>, z1: seq<Row>, share0: seq<Row>, share1: seq<Row>, c: seq<nat>, rand0: nat -> Block, at0: nat,
                             rand1: nat -> Block, at1: nat) {
    && |z0| == |z1| == |share0| == |share1| == 3
    && forall k {:trigger c[k]} {:trigger Triple3(share0, k)} {:trigger Triple3(share1, k)} :: 0 <= k < |c| ==>
         && c[k] < 3
         && XorTriple(Triple3(share0, k), Triple3(share1, k))
            == XorAt(XorTriple(Triple3(z0, k), Triple3(z1, k)), c[k], ShiftOf(rand0, at0, rand1, at1, k))
         && GoodSigma(Three, XorTriple(Triple3(z0, k), Triple3(z1, k)), XorTriple(Triple3(share0, k), Triple3(share1, k)), c[k])
         && XorTriple(Triple3(share1, k), Triple3(share0, k)) == XorTriple(Triple3(share0, k), Triple3(share1, k))
  }

  // The views of one party.
  ghost function Views(d: TernaryDpf, points: seq<F3x32>, iter: nat, rand: nat -> Block, at: nat): (v: seq<View>)
    requires d.Usable(points, iter)
    reads d`partyIdx, d`numPoints, d`depth, d`otIdx, d`sendOts, d`recvOts, d`choices
    ensures |v| == d.numPoints
    ensures forall i {:trigger v[i]} {:trigger d.ViewAt(points, iter, rand, at, i)} :: 0 <= i < |v| ==>
      v[i] == d.ViewAt(points, iter, rand, at, i)
    ensures forall i {:trigger v[i]} :: 0 <= i < |v| ==> v[i].a == points[i][d.depth - iter] < 3
  {
    ViewsTo(d, points, iter, rand, at, d.numPoints)
  }

  ghost function ViewsTo(d: TernaryDpf, points: seq<F3x32>, iter: nat, rand: nat -> Block, at: nat, n: nat): (v: seq<View>)
    requires d.Usable(points, iter) && n <= d.numPoints
    reads d`partyIdx, d`numPoints, d`depth, d`otIdx, d`sendOts, d`recvOts, d`choices
    ensures |v| == n && forall i {:trigger v[i]} :: 0 <= i < n ==> v[i] == d.ViewAt(points, iter, rand, at, i)
  {
    if n == 0 then [] else ViewsTo(d, points, iter, rand, at, n - 1) + [d.ViewAt(points, iter, rand, at, n - 1)]
  }

  // The corrections and tables of one level: each party's shares of sigma, in terms of the views.
  method ExchangeTables(crypto: Crypto, d0: TernaryDpf, d1: TernaryDpf, points0: seq<F3x32>, points1: seq<F3x32>, iter: nat,
                        z0: seq<Row>, z1: seq<Row>, rand0: nat -> Block, at0: nat, rand1: nat -> Block, at1: nat)
    returns (share0: seq<Row>, share1: seq<Row>)
    requires d0 != d1 && d0.numPoints == d1.numPoints && d0.Usable(points0, iter) && d1.Usable(points1, iter)
    requires Rows3(d0.numPoints, z0) && Rows3(d0.numPoints, z1)
    modifies d0`sent, d0`masked, d0`received, d1`sent, d1`masked, d1`received
    ensures Used(d0, d0.otIdx, 2 * d0.numPoints) && Used(d1, d1.otIdx, 2 * d1.numPoints)
    ensures Rows3(d0.numPoints, share0) && Rows3(d0.numPoints, share1)
    ensures SharesOf(crypto, Views(d0, points0, iter, rand0, at0), Views(d1, points1, iter, rand1, at1), z0, share0)
    ensures SharesOf(crypto, Views(d1, points1, iter, rand1, at1), Views(d0, points0, iter, rand0, at0), z1, share1)
  {
    hide MaskOf, TableOf, PairAt, Triple3, Xor, Expander, SigmaShare, Correction, Lsb, SetLsb, TernaryDpf.ViewAt, Views, TernaryDpf.Usable;
    ghost var v0, v1 := Views(d0, points0, iter, rand0, at0), Views(d1, points1, iter, rand1, at1);
    var correction0 := d0.Corrections(points0, iter, rand0, at0);
    var correction1 := d1.Corrections(points1, iter, rand1, at1);
    assert v0 == Views(d0, points0, iter, rand0, at0) && v1 == Views(d1, points1, iter, rand1, at1);
    var mask0, table0 := d0.Sender(crypto, points0, iter, correction1, rand0, at0);
    assert v0 == Views(d0, points0, iter, rand0, at0);
    var mask1, table1 := d1.Sender(crypto, points1, iter, correction0, rand1, at1);
    assert v1 == Views(d1, points1, iter, rand1, at1);
    share0 := d0.ShareSigma(crypto, points0, iter, mask0, table1, z0, rand0, at0);
    assert v0 == Views(d0, points0, iter, rand0, at0);
    share1 := d1.ShareSigma(crypto, points1, iter, mask1, table0, z1, rand1, at1);
    assert v1 == Views(d1, points1, iter, rand1, at1);
    TablesShare(crypto, v0, v1, correction0, correction1, mask0, table1, z0, share0);
    TablesShare(crypto, v1, v0, correction1, correction0, mask1, table0, z1, share1);
  }

  // The share of every tree, from the views of both parties.
  ghost predicate SharesOf(crypto: Crypto, mine: seq<View>, theirs: seq<View>, z: seq<Row>, share: seq<Row>) {
    && |z| == |share| == 3 && |mine| == |theirs|
    && (forall k {:trigger mine[k]} {:trigger theirs[k]} :: 0 <= k < |mine| ==> mine[k].a < 3 && theirs[k].a < 3)
    && forall k {:trigger Triple3(share, k)} :: 0 <= k < |mine| ==>
      Triple3(share, k) == ShareOf(Expander(crypto), mine[k], theirs[k], Triple3(z, k))
  }

  lemma TablesShare(crypto: Crypto, mine: seq<View>, theirs: seq<View>, correction: seq<(bool, bool)>, back: seq<(bool, bool)>,
                    mask: seq<Triple>, table: seq<Triple>, z: seq<Row>, share: seq<Row>)
    requires |mine| == |theirs| == |correction| == |back| == |mask| && |table| == 2 * |mine| && |z| == |share| == 3
    requires forall k {:trigger mine[k]} {:trigger theirs[k]} :: 0 <= k < |mine| ==> mine[k].a < 3 && theirs[k].a < 3
    requires forall k {:trigger correction[k]} :: 0 <= k < |mine| ==> correction[k] == Correction(mine[k].a, mine[k].r0, mine[k].r1)
    requires forall k {:trigger back[k]} :: 0 <= k < |mine| ==> back[k] == Correction(theirs[k].a, theirs[k].r0, theirs[k].r1)
    requires forall k {:trigger mask[k]} :: 0 <= k < |mine| ==> mask[k] == MaskOf(Expander(crypto), mine[k], back[k])
    requires forall k {:trigger PairAt(table, k)} :: 0 <= k < |mine| ==>
      PairAt(table, k) == TableOf(Expander(crypto), theirs[k], correction[k])
    requires forall k {:trigger Triple3(share, k)} :: 0 <= k < |mine| ==>
      Triple3(share, k) == SigmaShare(Expander(crypto), Xor(mine[k].r0.message, mine[k].r1.message), mask[k], Triple3(z, k), mine[k].a,
                                      PairAt(table, k))
    ensures SharesOf(crypto, mine, theirs, z, share)
  {
    hide MaskOf, TableOf, PairAt, Triple3, Xor, Expander, SigmaShare, Correction;
    forall k {:trigger Triple3(share, k)} | 0 <= k < |mine|
      ensures Triple3(share, k) == ShareOf(Expander(crypto), mine[k], theirs[k], Triple3(z, k))
    {
      assert correction[k] == Correction(mine[k].a, mine[k].r0, mine[k].r1);
      assert back[k] == Correction(theirs[k].a, theirs[k].r0, theirs[k].r1);
      assert mask[k] == MaskOf(Expander(crypto), mine[k], back[k]);
      assert PairAt(table, k) == TableOf(Expander(crypto), theirs[k], correction[k]);
    }
  }

  // Correlated views of trees, one party with the low bit of its shifts set.
  lemma SharesAreGood(crypto: Crypto, d0: TernaryDpf, d1: TernaryDpf, points0: seq<F3x32>, points1: seq<F3x32>, iter: nat,
                     rand0: nat -> Block, at0: nat, rand1: nat -> Block, at1: nat,
                     z0: seq<Row>, z1: seq<Row>, share0: seq<Row>, share1: seq<Row>)
    requires Paired(d0, d1) && d0.Usable(points0, iter) && d1.Usable(points1, iter)
    requires SharesOf(crypto, Views(d0, points0, iter, rand0, at0), Views(d1, points1, iter, rand1, at1), z0, share0)
    requires SharesOf(crypto, Views(d1, points1, iter, rand1, at1), Views(d0, points0, iter, rand0, at0), z1, share1)
    ensures SharesGood(z0, z1, share0, share1, ActiveTrits(points0, points1, d0.depth - iter), rand0, at0, rand1, at1)
  {
    hide Triple3, Xor, Expander, XorTriple, AddTrits, GoodSigma;
    hide OtsCorrelated, ShareOf, TernaryDpf.ViewAt, Correlated, Views, SetLsb, XorAt;
    var v0, v1, c := Views(d0, points0, iter, rand0, at0), Views(d1, points1, iter, rand1, at1),
                     ActiveTrits(points0, points1, d0.depth - iter);
    forall k {:trigger c[k]} | 0 <= k < d0.numPoints
      ensures GoodSigma(Three, XorTriple(Triple3(z0, k), Triple3(z1, k)), XorTriple(Triple3(share0, k), Triple3(share1, k)), c[k])
      ensures XorTriple(Triple3(share1, k), Triple3(share0, k)) == XorTriple(Triple3(share0, k), Triple3(share1, k))
      ensures c[k] < 3 && XorTriple(Triple3(share0, k), Triple3(share1, k))
                          == XorAt(XorTriple(Triple3(z0, k), Triple3(z1, k)), c[k], ShiftOf(rand0, at0, rand1, at1, k))
    {
      SetBits(rand0(at0 + k), rand1(at1 + k));
      ViewsCorrelate(d0, d1, points0, points1, iter, rand0, at0, rand1, at1, k);
      assert v0[k] == d0.ViewAt(points0, iter, rand0, at0, k) && v1[k] == d1.ViewAt(points1, iter, rand1, at1, k);
      RevealedForTree(crypto, v0[k], v1[k], Triple3(z0, k), Triple3(z1, k), Triple3(share0, k), Triple3(share1, k));
    }
  }

  lemma SetBits(x: Block, y: Block)
    ensures Lsb(SetLsb(x, false)) != Lsb(SetLsb(y, true))
  {
  }

  lemma RevealedGood(n: nat, z0: seq<Row>, z1: seq<Row>, share0: seq<Row>, share1: seq<Row>, c: seq<nat>, sigma0: seq<Row>,
                     sigma1: seq<Row>, rand0: nat -> Block, at0: nat, rand1: nat -> Block, at1: nat)
    requires |c| == n && Rows3(n, sigma0) && Rows3(n, sigma1) && Rows3(n, z0) && Rows3(n, z1)
    requires SharesGood(z0, z1, share0, share1, c, rand0, at0, rand1, at1)
    requires forall k {:trigger Triple3(sigma0, k)} :: 0 <= k < n ==>
      Triple3(sigma0, k) == XorTriple(Triple3(share0, k), Triple3(share1, k))
    requires forall k {:trigger Triple3(sigma1, k)} :: 0 <= k < n ==>
      Triple3(sigma1, k) == XorTriple(Triple3(share1, k), Triple3(share0, k))
    ensures sigma0 == sigma1 && BatchGood(Three, z0, z1, sigma0, c)
    ensures forall k {:trigger c[k]} :: 0 <= k < n ==> Shifted(z0, z1, sigma0, k, c[k], ShiftOf(rand0, at0, rand1, at1, k))
  {
    hide Triple3, XorTriple, GoodSigma, XorEach, ShiftOf, XorAt, Shifted;
    SameTriples(n, sigma1, sigma0);
    forall k {:trigger c[k]} | 0 <= k < n
      ensures Shifted(z0, z1, sigma0, k, c[k], ShiftOf(rand0, at0, rand1, at1, k))
    {
      assert Triple3(sigma0, k) == XorTriple(Triple3(share0, k), Triple3(share1, k));
      ShiftedEntry(n, z0, z1, sigma0, k, c[k], ShiftOf(rand0, at0, rand1, at1, k));
    }
    forall k | 0 <= k < n
      ensures GoodSigma(Three, XorEach(Column(z0, k), Column(z1, k)), Column(sigma0, k), c[k])
    {
      TripleColumns(n, z0, z1, k);
      TripleColumns(n, sigma0, sigma0, k);
    }
  }

  lemma ShiftedEntry(n: nat, z0: seq<Row>, z1: seq<Row>, sigma: seq<Row>, k: nat, c: nat, r: Block)
    requires Rows3(n, z0) && Rows3(n, z1) && Rows3(n, sigma) && k < n && c < 3
    requires Triple3(sigma, k) == XorAt(XorTriple(Triple3(z0, k), Triple3(z1, k)), c, r)
    ensures Shifted(z0, z1, sigma, k, c, r)
  {
    hide Xor;
    forall j {:trigger sigma[j]} | 0 <= j < 3
      ensures sigma[j][k] == if j == c then Xor(Xor(z0[j][k], z1[j][k]), r) else Xor(z0[j][k], z1[j][k])
    {
      assert sigma[j][k] == Triple3(sigma, k)[j];
    }
  }

  // The messages of one level.  Both parties obtain the same sigma, and it is a correction
  // word for every tree.
  method CorrectionWord(crypto: Crypto, d0: TernaryDpf, d1: TernaryDpf, points0: seq<F3x32>, points1: seq<F3x32>, iter: nat,
                        z0: seq<Row>, z1: seq<Row>, rand0: nat -> Block, at0: nat, rand1: nat -> Block, at1: nat)
    returns (sigma0: seq<Row>, sigma1: seq<Row>)
    requires Paired(d0, d1) && d0.Usable(points0, iter) && d1.Usable(points1, iter)
    requires Rows3(d0.numPoints, z0) && Rows3(d0.numPoints, z1)
    modifies d0`otIdx, d1`otIdx, d0`sent, d0`masked, d0`received, d1`sent, d1`masked, d1`received
    ensures Used(d0, old(d0.otIdx), 2 * d0.numPoints) && Used(d1, old(d1.otIdx), 2 * d1.numPoints)
    ensures sigma0 == sigma1 && Rows3(d0.numPoints, sigma0)
    ensures BatchGood(Three, z0, z1, sigma0, ActiveTrits(points0, points1, d0.depth - iter))
    ensures d0.otIdx == d1.otIdx == old(d0.otIdx) + d0.numPoints * 2
    ensures forall k {:trigger points0[k]} {:trigger points1[k]} :: 0 <= k < d0.numPoints ==>
      var i := d0.depth - iter;
      Shifted(z0, z1, sigma0, k, (points0[k][i] + points1[k][i]) % 3, ShiftOf(rand0, at0, rand1, at1, k))
  {
    hide Shifted, ShiftOf;
    hide Triple3, XorTriple, OtsCorrelated, SharesGood, SharesOf, Views, TernaryDpf.ViewAt, BatchGood;
    var share0, share1 := ExchangeTables(crypto, d0, d1, points0, points1, iter, z0, z1, rand0, at0, rand1, at1);
    SharesAreGood(crypto, d0, d1, points0, points1, iter, rand0, at0, rand1, at1, z0, z1, share0, share1);
    ghost var c := ActiveTrits(points0, points1, d0.depth - iter);
    sigma0 := d0.Reveal(share0, share1);
    sigma1 := d1.Reveal(share1, share0);
    RevealedGood(d0.numPoints, z0, z1, share0, share1, c, sigma0, sigma1, rand0, at0, rand1, at1);
    ghost var i := d0.depth - iter;
    forall k {:trigger points0[k]} {:trigger points1[k]} | 0 <= k < d0.numPoints
      ensures Shifted(z0, z1, sigma0, k, (points0[k][i] + points1[k][i]) % 3, ShiftOf(rand0, at0, rand1, at1, k))
    {
      assert c[k] == (points0[k][i] + points1[k][i]) % 3;
    }
  }
}

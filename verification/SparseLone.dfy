/**
 A run of the sparse protocol that comes out wrong: a secret point that has a bin of the dense
 tree for itself (SparseDpf.h lines 298 to 304 and 474 to 497).
 */
module SparseLone {
  import opened Blocks
  import opened DpfMult
  import opened ObliviousTransfer
  import opened RegularJoint
  import opened SparseSplit
  import opened SparseLevels
  import opened SparsePlant
  import opened SparseDpf
  import opened SparseDense
  import opened SparseExpand
  import RegularDpf
  import RegularExpand

  // A leaf determines the low bit of its seed.
  ghost predicate LeavesSeparate(crypto: Crypto) {
    forall x, y {:trigger crypto.roundEnc(x, x), crypto.roundEnc(y, y)} ::
      crypto.roundEnc(x, x) == crypto.roundEnc(y, y) ==> Lsb(x) == Lsb(y)
  }

  // Then the two leaves in the secret point's bin never meet.
  lemma NeverMeet(crypto: Crypto, i: Inputs, b: nat, k: nat)
    requires LeavesSeparate(crypto) && (HasBin(i, b, k) ==> b == Positions(i.points0, i.points1, 0, i.depth)[k])
    ensures !LeavesMeet(crypto, i, b, k)
  {
    hide DenseLeaf, Positions, Lsb;
    if HasBin(i, b, k) {
      var x, y := LeafSeeds(crypto, i, b, k);
    }
  }

  // A party for one point below 2, with a dense tree of depth 1 and one transfer.
  method Party(partyIdx: nat, send: SendOt, received: Block, choice: bool) returns (d: SparseDpf)
    requires partyIdx <= 1
    ensures fresh(d) && fresh(d.mult) && fresh(d.reg) && fresh(d.reg.mult) && d.mult != d.reg.mult
    ensures d.partyIdx == d.mult.partyIdx == d.reg.partyIdx == d.reg.mult.partyIdx == partyIdx
    ensures d.numPoints == d.denseDepth == d.reg.numPoints == d.reg.depth == 1 && d.domain == d.reg.domain == 2
    ensures RegularDpf.CeilLog2(2) == 1
    ensures d.mult.totalMults == d.mult.otIdx == d.reg.mult.otIdx == 0 && d.reg.mult.totalMults == 1 == MultsFor(1, 1)
    ensures d.mult.sendOts == [] && d.mult.recvOts == [] && d.mult.choiceBits == []
    ensures d.reg.mult.sendOts == [send] && d.reg.mult.recvOts == [received] && d.reg.mult.choiceBits == [choice]
  {
    RegularDpf.DepthUnique(2, 1);
    assert MultsFor(0, 1) == 0 && MultsFor(1, 1) == 1;
    d := new SparseDpf();
    var ok := d.Init(partyIdx, 1, 2, 1);
    ok := d.SetBaseOts([send], [received], [choice]);
  }

  method Parties(send0: SendOt, send1: SendOt, choice0: bool, choice1: bool) returns (d0: SparseDpf, d1: SparseDpf)
    ensures fresh(d0) && fresh(d0.mult) && fresh(d0.reg) && fresh(d0.reg.mult) && fresh(d1) && fresh(d1.mult)
    ensures fresh(d1.reg) && fresh(d1.reg.mult)
    ensures BothReady(d0, d1) && d0.numPoints == 1 && d0.domain == 2 && d0.denseDepth == 1 && d0.SparseDepth() == 0
    ensures d0.reg.depth == d0.reg.numPoints == 1 && RegularExpand.CanMultiply(d0.reg)
  {
    hide Pick;
    d0 := Party(0, send0, Pick(send1, choice0), choice0);
    d1 := Party(1, send1, Pick(send0, choice1), choice1);
    assert DensePaired(d0, d1);
  }

  // For all seeds, values and transfers: of the two listed points 0 and 1 each has a bin of
  // its own, and with leaves that determine the low bit the outputs do not share the value.
  method LoneRun(hash: Block -> Block, seed0: Block, seed1: Block, v0: Block, v1: Block, a: nat,
                 send0: SendOt, send1: SendOt, choice0: bool, choice1: bool, rand0: nat -> Block, rand1: nat -> Block)
    returns (ok: bool, out0: seq<seq<Block>>, tags0: seq<seq<bool>>, out1: seq<seq<Block>>, tags1: seq<seq<bool>>)
    requires a < 2
    ensures ok && |out0| == |tags0| == |out1| == |tags1| == 1 && Lone([0, 1], 0, a)
    ensures !ShareRow([[0, 1]], [a], 0, Xor(v0, v1), out0, out1, tags0, tags1)
  {
    hide Xor, Lsb, ValueShared, ShareRow, LeavesMeet, RegularExpand.CanMultiply, DensePaired, PartiesPaired, Positions;
    var crypto := Crypto(x => x, (x, _) => x, (x, _) => x, _ => (_ => ZERO));
    var rows: seq<seq<nat>>, values0, values1 := [[0, 1]], [v0], [v1];
    var d0, d1 := Parties(send0, send1, choice0, choice1);
    SecretBit(a);
    LevelsUsedZero(rows);
    assert Increasing(rows[0]);
    ghost var words0, words1, gamma;
    ok, out0, tags0, out1, tags1, words0, words1, gamma := Expand(hash, crypto, d0, d1, [0], [a], values0, values1, rows, seed0, seed1,
                                                                  rand0, rand1, [a]);
    ghost var i := DenseInputs(d0.reg, [0], [a], 0, seed0, seed1);
    NeverMeet(crypto, i, a, 0);
    assert d0.SparseDepth() == 0;
    assert RowResult(crypto, i, rows, 0, [a], 0, values0[0], values1[0], out0, out1, tags0, tags1);
  }

  lemma SecretBit(a: nat)
    requires a < 2
    ensures SecretsShared([0], [a], [[0, 1]], [a], 1) && XorBits(0, a, 0, 1) == a
    ensures Positions(HighPoints([0], 0), HighPoints([a], 0), 0, 1) == [a]
  {
    assert [[0, 1]][0][a] == a;
    assert HighPoints([0], 0) == [0] && HighPoints([a], 0) == [a];
  }
}

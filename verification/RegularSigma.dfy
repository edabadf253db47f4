/**
 The correction word of one binary level (RegularDpf.h lines 394 to 431) for one tree:
 what a party feeds into the multiplication, what it sends, and what both reveal.
 */
module RegularSigma {
  import opened Blocks
  import opened DpfLevels
  import opened DpfPath

  function SlotOf(alpha: bool): nat {
    if alpha then 1 else 0
  }

  // The correction word for the sums zz of both parties' children and the active child:
  // the inactive sum, with one low bit for each child.
  function SigmaPair(zz0: Block, zz1: Block, alpha: bool): (Block, Block) {
    var sigma0 := SetLsb(if alpha then zz0 else zz1, Lsb(zz0) != !alpha);
    (sigma0, SetLsb(sigma0, Lsb(zz1) != alpha))
  }

  // diff: the input of the multiplication.
  function MaskedDifference(z0: Block, z1: Block): Block {
    SetLsb(Xor(z0, z1), false)
  }

  // sigmaMult: the share of the first correction word.
  function SigmaMessage(party: bool, alpha: bool, z0: Block, product: Block): Block {
    Xor(Xor(product, z0), LowBit(party != alpha))
  }

  lemma RevealedPair(z0: Block, z1: Block, y0: Block, y1: Block, alpha0: bool, alpha1: bool, p0: Block, p1: Block)
    requires Xor(p0, p1) == Mask(Xor(MaskedDifference(z0, z1), MaskedDifference(y0, y1)), (alpha0 != false) != (alpha1 != true))
    ensures Xor(SigmaMessage(false, alpha0, z0, p0), SigmaMessage(true, alpha1, y0, p1))
         == SigmaPair(Xor(z0, y0), Xor(z1, y1), alpha0 != alpha1).0
    ensures ((Lsb(z1) != alpha0) != (Lsb(y1) != alpha1)) == (Lsb(Xor(z1, y1)) != (alpha0 != alpha1))
  {
    var s, t := Xor(SigmaMessage(false, alpha0, z0, p0), SigmaMessage(true, alpha1, y0, p1)),
                SigmaPair(Xor(z0, y0), Xor(z1, y1), alpha0 != alpha1).0;
    var p := Xor(p0, p1);
    forall i | 0 <= i < 128
      ensures s.bits[i] == t.bits[i]
    {
      assert p.bits[i] == (p0.bits[i] != p1.bits[i]);
    }
    assert s.bits == t.bits;
  }

  lemma SigmaPairIsGood(zz0: Block, zz1: Block, alpha: bool)
    ensures var s := SigmaPair(zz0, zz1, alpha); GoodSigma(Two, [zz0, zz1], [s.0, s.1], SlotOf(alpha))
  {
    var s := SigmaPair(zz0, zz1, alpha);
    if alpha {
      assert s.0.bits == zz0.bits;
    } else {
      assert s.1.bits == zz1.bits;
    }
  }
}

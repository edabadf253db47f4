/**
 The correction word of one ternary level (TernaryDpf.h lines 420 to 557), for one tree:
 each party offers the other a 1-out-of-3 table built from two 1-out-of-2 transfers, and
 the two sigma shares reveal the sums of both parties' children, shifted at the active
 child only.
 */
module TernaryCorrection {
  import opened Blocks
  import opened DpfLevels
  import opened DpfPath
  import opened ObliviousTransfer

  // One block for each of the three children.
  type Triple = t: seq<Block> | |t| == 3 witness [ZERO, ZERO, ZERO]

  function XorTriple(x: Triple, y: Triple): Triple {
    [Xor(x[0], y[0]), Xor(x[1], y[1]), Xor(x[2], y[2])]
  }

  // x ^= r at position c
  function XorAt(x: Triple, c: nat, r: Block): Triple
    requires c < 3
  {
    x[c := Xor(x[c], r)]
  }

  // A trit as its two bits j & 1 and j >> 1.
  function Bit0(j: nat): bool { j % 2 == 1 }

  function Bit1(j: nat): bool { j / 2 == 1 }

  function AddTrits(a: nat, b: nat): (c: nat)
    ensures c < 3
  {
    (a + b) % 3
  }

  // recver: the choice bits, corrected to the wanted trit.
  function Correction(a: nat, r0: RecvOt, r1: RecvOt): (bool, bool) {
    (Bit0(a) != r0.choice, Bit1(a) != r1.choice)
  }

  // sender: the key of table entry j.
  function TableKey(s0: SendOt, s1: SendOt, correction: (bool, bool), j: nat): Block {
    Xor(Pick(s0, Bit0(j) != correction.0), Pick(s1, Bit1(j) != correction.1))
  }

  // sender: entry 0 fixes the mask, entries 1 and 2 are sent.
  function TableMask(expand3: Block -> Triple, k0: Block, a: nat, r: Block): Triple
    requires a < 3
  {
    XorAt(expand3(k0), a, r)
  }

  function TableEntry(expand3: Block -> Triple, kj: Block, mask: Triple, j: nat, a: nat, r: Block): Triple {
    XorAt(XorTriple(expand3(kj), mask), AddTrits(j, a), r)
  }

  // The share of sigma after the received table entry, if any, has been added.
  function SigmaShare(expand3: Block -> Triple, key: Block, mask: Triple, z: Triple, a: nat, table: seq<Triple>): Triple
    requires a < 3 && |table| == 2
  {
    var base := XorTriple(XorTriple(expand3(key), mask), z);
    if a == 0 then base else XorTriple(base, table[a - 1])
  }

  // ---------- the transferred entry ----------

  lemma ReceiverKey(s0: SendOt, s1: SendOt, r0: RecvOt, r1: RecvOt, a: nat)
    requires Correlated(s0, r0) && Correlated(s1, r1) && a < 3
    ensures Xor(r0.message, r1.message) == TableKey(s0, s1, Correction(a, r0, r1), a)
  {
  }

  // Whatever trit a' the receiver picks, it learns the sender's mask plus r at a + a'.
  lemma TransferredEntry(expand3: Block -> Triple, keys: nat -> Block, a: nat, r: Block, a': nat)
    requires a < 3 && a' < 3
    ensures var mask := TableMask(expand3, keys(0), a, r);
            var table := [TableEntry(expand3, keys(1), mask, 1, a, r), TableEntry(expand3, keys(2), mask, 2, a, r)];
            (if a' == 0 then expand3(keys(0)) else XorTriple(expand3(keys(a')), table[a' - 1])) == XorAt(mask, AddTrits(a', a), r)
  {
    var mask := TableMask(expand3, keys(0), a, r);
    var e := expand3(keys(a'));
    if a' == 0 {
      XorCancel(e[a], r);
    } else {
      var c := AddTrits(a', a);
      EntryCancels(e, mask, c, r);
    }
  }

  lemma XorCancel(x: Block, y: Block)
    ensures Xor(Xor(x, y), y) == x && Xor(x, Xor(x, y)) == y
  {
    assert Xor(Xor(x, y), y).bits == x.bits;
    assert Xor(x, Xor(x, y)).bits == y.bits;
  }

  lemma EntryCancels(e: Triple, mask: Triple, c: nat, r: Block)
    requires c < 3
    ensures XorTriple(e, XorAt(XorTriple(e, mask), c, r)) == XorAt(mask, c, r)
  {
    XorCancel(e[0], mask[0]);
    XorCancel(e[1], mask[1]);
    XorCancel(e[2], mask[2]);
    XorAssoc(e[c], Xor(e[c], mask[c]), r);
  }

  // ---------- both directions together ----------

  // x is what a party holds of the other's table, mask its own mask and z its sums.
  lemma SharesReveal(mask0: Triple, mask1: Triple, z0: Triple, z1: Triple, c: nat, r0: Block, r1: Block)
    requires c < 3
    ensures XorTriple(XorTriple(XorTriple(XorAt(mask1, c, r1), mask0), z0), XorTriple(XorTriple(XorAt(mask0, c, r0), mask1), z1))
         == XorAt(XorTriple(z0, z1), c, Xor(r0, r1))
  {
    forall j | 0 <= j < 3
      ensures XorTriple(XorTriple(XorTriple(XorAt(mask1, c, r1), mask0), z0), XorTriple(XorTriple(XorAt(mask0, c, r0), mask1), z1))[j]
           == XorAt(XorTriple(z0, z1), c, Xor(r0, r1))[j]
    {
      if j == c {
        ActiveCancels(mask0[j], mask1[j], z0[j], z1[j], r0, r1);
      } else {
        InactiveCancels(mask0[j], mask1[j], z0[j], z1[j]);
      }
    }
  }

  lemma ActiveCancels(m0: Block, m1: Block, z0: Block, z1: Block, r0: Block, r1: Block)
    ensures Xor(Xor(Xor(Xor(m1, r1), m0), z0), Xor(Xor(Xor(m0, r0), m1), z1)) == Xor(Xor(z0, z1), Xor(r0, r1))
  {
    assert Xor(Xor(Xor(Xor(m1, r1), m0), z0), Xor(Xor(Xor(m0, r0), m1), z1)).bits == Xor(Xor(z0, z1), Xor(r0, r1)).bits;
  }

  lemma InactiveCancels(m0: Block, m1: Block, z0: Block, z1: Block)
    ensures Xor(Xor(Xor(m1, m0), z0), Xor(Xor(m0, m1), z1)) == Xor(z0, z1)
  {
    assert Xor(Xor(Xor(m1, m0), z0), Xor(Xor(m0, m1), z1)).bits == Xor(z0, z1).bits;
  }

  // SigmaShare in terms of the transferred entry.
  lemma ShareIsEntry(expand3: Block -> Triple, key: Block, mask: Triple, z: Triple, a: nat, table: seq<Triple>, entry: Triple)
    requires a < 3 && |table| == 2
    requires entry == if a == 0 then expand3(key) else XorTriple(expand3(key), table[a - 1])
    ensures SigmaShare(expand3, key, mask, z, a, table) == XorTriple(XorTriple(entry, mask), z)
  {
    if a > 0 {
      var e, t := expand3(key), table[a - 1];
      MoveLast(e[0], mask[0], z[0], t[0]);
      MoveLast(e[1], mask[1], z[1], t[1]);
      MoveLast(e[2], mask[2], z[2], t[2]);
    }
  }

  lemma MoveLast(e: Block, m: Block, z: Block, t: Block)
    ensures Xor(Xor(Xor(e, m), z), t) == Xor(Xor(Xor(e, t), m), z)
  {
    assert Xor(Xor(Xor(e, m), z), t).bits == Xor(Xor(Xor(e, t), m), z).bits;
  }

  // ---------- one tree, one level ----------

  // What a party uses for one tree at one level: two pairs of transfers, its share of the
  // trit, and its random shift.
  datatype View = View(s0: SendOt, s1: SendOt, r0: RecvOt, r1: RecvOt, a: nat, r: Block)

  function Key(v: View, correction: (bool, bool), j: nat): Block {
    TableKey(v.s0, v.s1, correction, j)
  }

  function MaskOf(expand3: Block -> Triple, v: View, correction: (bool, bool)): Triple
    requires v.a < 3
  {
    TableMask(expand3, Key(v, correction, 0), v.a, v.r)
  }

  function TableOf(expand3: Block -> Triple, v: View, correction: (bool, bool)): (table: seq<Triple>)
    requires v.a < 3
    ensures |table| == 2
  {
    var mask := MaskOf(expand3, v, correction);
    [TableEntry(expand3, Key(v, correction, 1), mask, 1, v.a, v.r), TableEntry(expand3, Key(v, correction, 2), mask, 2, v.a, v.r)]
  }

  // mine after the messages of yours
  function ShareOf(expand3: Block -> Triple, mine: View, yours: View, z: Triple): Triple
    requires mine.a < 3 && yours.a < 3
  {
    SigmaShare(expand3, Xor(mine.r0.message, mine.r1.message), MaskOf(expand3, mine, Correction(yours.a, yours.r0, yours.r1)), z, mine.a,
               TableOf(expand3, yours, Correction(mine.a, mine.r0, mine.r1)))
  }

  lemma ShareIsShifted(expand3: Block -> Triple, mine: View, yours: View, z: Triple)
    requires mine.a < 3 && yours.a < 3 && Correlated(yours.s0, mine.r0) && Correlated(yours.s1, mine.r1)
    ensures ShareOf(expand3, mine, yours, z)
         == XorTriple(XorTriple(XorAt(MaskOf(expand3, yours, Correction(mine.a, mine.r0, mine.r1)), AddTrits(mine.a, yours.a), yours.r),
                                MaskOf(expand3, mine, Correction(yours.a, yours.r0, yours.r1))), z)
  {
    hide Correction, TableKey, TableMask, TableEntry, XorTriple, Xor, XorAt, AddTrits, SigmaShare;
    var c := Correction(mine.a, mine.r0, mine.r1);
    var keys := (j: nat) => Key(yours, c, j);
    var key, table := Xor(mine.r0.message, mine.r1.message), TableOf(expand3, yours, c);
    ReceiverKey(yours.s0, yours.s1, mine.r0, mine.r1, mine.a);
    TransferredEntry(expand3, keys, yours.a, yours.r, mine.a);
    ShareIsEntry(expand3, key, MaskOf(expand3, mine, Correction(yours.a, yours.r0, yours.r1)), z, mine.a, table,
                 if mine.a == 0 then expand3(key) else XorTriple(expand3(key), table[mine.a - 1]));
  }

  // The two shares add up to the sums of both parties, shifted at the active child only.
  lemma RevealedSigma(expand3: Block -> Triple, v0: View, v1: View, z0: Triple, z1: Triple)
    requires v0.a < 3 && v1.a < 3
    requires Correlated(v1.s0, v0.r0) && Correlated(v1.s1, v0.r1) && Correlated(v0.s0, v1.r0) && Correlated(v0.s1, v1.r1)
    ensures XorTriple(ShareOf(expand3, v0, v1, z0), ShareOf(expand3, v1, v0, z1))
         == XorAt(XorTriple(z0, z1), AddTrits(v0.a, v1.a), Xor(v0.r, v1.r))
  {
    hide ShareOf, MaskOf, Correction, XorTriple, XorAt, Xor;
    ShareIsShifted(expand3, v0, v1, z0);
    ShareIsShifted(expand3, v1, v0, z1);
    XorComm(v0.r, v1.r);
    SharesReveal(MaskOf(expand3, v0, Correction(v1.a, v1.r0, v1.r1)), MaskOf(expand3, v1, Correction(v0.a, v0.r0, v0.r1)),
                 z0, z1, AddTrits(v0.a, v1.a), v0.r, v1.r);
  }

  // ... which is what the next level needs when exactly one party set the low bit of its shift.
  lemma RevealedIsGood(expand3: Block -> Triple, v0: View, v1: View, z0: Triple, z1: Triple)
    requires v0.a < 3 && v1.a < 3 && Lsb(v0.r) != Lsb(v1.r)
    requires Correlated(v1.s0, v0.r0) && Correlated(v1.s1, v0.r1) && Correlated(v0.s0, v1.r0) && Correlated(v0.s1, v1.r1)
    ensures GoodSigma(Three, XorTriple(z0, z1), XorTriple(ShareOf(expand3, v0, v1, z0), ShareOf(expand3, v1, v0, z1)), AddTrits(v0.a, v1.a))
  {
    RevealedSigma(expand3, v0, v1, z0, z1);
    hide ShareOf, XorTriple;
    var c, sum := AddTrits(v0.a, v1.a), XorTriple(z0, z1);
    assert Lsb(Xor(sum[c], Xor(v0.r, v1.r))) != Lsb(sum[c]);
  }
}

/**
 Machine words as little-endian bit sequences, the 128-bit `block`, and the bitwise
 operations the rest of the project needs.
 */
module Blocks {

  type Word = seq<bool>

  type Word128 = w: Word | |w| == 128 witness seq(128, _ => false)

  // osuCrypto::block
  datatype Block = Block(bits: Word128)

  function Zeros(n: nat): Word {
    seq(n, _ => false)
  }

  function XorW(a: Word, b: Word): Word
    requires |a| == |b|
  {
    seq(|a|, i requires 0 <= i < |a| => a[i] != b[i])
  }

  // x & (all bits t)
  function MaskW(x: Word, t: bool): Word {
    if t then x else Zeros(|x|)
  }

  // Logical shifts of a word.
  function ShrWord(w: Word, k: nat): (r: Word)
    ensures |r| == |w|
  {
    seq(|w|, j requires 0 <= j < |w| => j + k < |w| && w[j + k])
  }

  function ShlWord(w: Word, k: nat): (r: Word)
    ensures |r| == |w|
  {
    seq(|w|, j requires 0 <= j < |w| => j >= k && w[j - k])
  }

  const ZERO: Block := Block(Zeros(128))

  function Xor(a: Block, b: Block): Block {
    Block(XorW(a.bits, b.bits))
  }

  function And(a: Block, b: Block): Block {
    Block(seq(128, i requires 0 <= i < 128 => a.bits[i] && b.bits[i]))
  }

  function Or(a: Block, b: Block): Block {
    Block(seq(128, i requires 0 <= i < 128 => a.bits[i] || b.bits[i]))
  }

  // block >> k and block << k: both 64-bit lanes are shifted separately.
  function SrliEpi64(b: Block, k: nat): Block {
    Block(seq(128, i requires 0 <= i < 128 => i % 64 + k < 64 && b.bits[i + k]))
  }

  function SlliEpi64(b: Block, k: nat): Block {
    Block(seq(128, i requires 0 <= i < 128 => i % 64 >= k && b.bits[i - k]))
  }

  // The block whose every bit is t: what block::allSame(-t) and tagBit produce.
  function Saturate(t: bool): Block {
    Block(seq(128, _ => t))
  }

  // x & allSame(-t)
  function Mask(x: Block, t: bool): Block {
    if t then x else ZERO
  }

  predicate Lsb(b: Block) {
    b.bits[0]
  }

  function SetLsb(b: Block, t: bool): Block {
    Block(b.bits[0 := t])
  }

  // block(0, t)
  function LowBit(t: bool): Block {
    Block(Zeros(128)[0 := t])
  }

  // block(hi, lo)
  function BlockOf(hi: nat, lo: nat): Block {
    Block(seq(128, i requires 0 <= i < 128 => if i < 64 then BitOf(lo, i) else BitOf(hi, i - 64)))
  }

  // Bit i of an integer.
  function BitOf(n: nat, i: nat): bool {
    if i == 0 then n % 2 == 1 else BitOf(n / 2, i - 1)
  }

  lemma XorComm(a: Block, b: Block)
    ensures Xor(a, b) == Xor(b, a)
  {
    assert Xor(a, b).bits == Xor(b, a).bits;
  }

  lemma XorAssoc(a: Block, b: Block, c: Block)
    ensures Xor(Xor(a, b), c) == Xor(a, Xor(b, c))
  {
    assert Xor(Xor(a, b), c).bits == Xor(a, Xor(b, c)).bits;
  }

  lemma XorSelf(a: Block)
    ensures Xor(a, a) == ZERO
  {
    assert Xor(a, a).bits == ZERO.bits;
  }

  lemma XorZero(a: Block)
    ensures Xor(a, ZERO) == a
    ensures Xor(ZERO, a) == a
  {
    assert Xor(a, ZERO).bits == a.bits;
    assert Xor(ZERO, a).bits == a.bits;
  }

  lemma XorSwap(a: Block, b: Block, c: Block, d: Block)
    ensures Xor(Xor(a, b), Xor(c, d)) == Xor(Xor(a, c), Xor(b, d))
  {
    assert Xor(Xor(a, b), Xor(c, d)).bits == Xor(Xor(a, c), Xor(b, d)).bits;
  }

  lemma XorZeroMeansEqual(a: Block, b: Block)
    ensures Xor(a, b) == ZERO <==> a == b
  {
    if Xor(a, b) == ZERO {
      forall i | 0 <= i < 128
        ensures a.bits[i] == b.bits[i]
      {
        assert !Xor(a, b).bits[i];
      }
      assert a.bits == b.bits;
    } else {
      XorSelf(a);
    }
  }

  lemma AndSaturate(x: Block, t: bool)
    ensures And(x, Saturate(t)) == Mask(x, t)
    ensures And(Saturate(t), x) == Mask(x, t)
  {
    assert And(x, Saturate(t)).bits == Mask(x, t).bits;
    assert And(Saturate(t), x).bits == Mask(x, t).bits;
  }

  // XOR of a sequence of blocks.
  ghost function XorSum(s: seq<Block>): Block {
    if |s| == 0 then ZERO else Xor(XorSum(s[..|s| - 1]), s[|s| - 1])
  }
}

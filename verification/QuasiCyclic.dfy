/**
 Folding modulo x^p - 1: bitShiftXor and modp of QuasiCyclicCode.h (lines 55 to 187), on
 spans of 128-bit blocks whose shifts act on each 64-bit lane.
 */
module QuasiCyclic {
  import opened Blocks
  import Fermat

  // Bit k of a span of blocks, zero outside.
  predicate BitAt(s: seq<Block>, k: nat) {
    k / 128 < |s| && s[k / 128].bits[k % 128]
  }

  // The block at byte offset 8 * h, which may straddle two blocks.
  function ToBlock(s: seq<Block>, h: nat): Block
    requires h + 2 <= 2 * |s|
  {
    Block(seq(128, j requires 0 <= j < 128 => s[(h + j / 64) / 2].bits[(h + j / 64) % 2 * 64 + j % 64]))
  }

  // The 64-bit word at byte offset 8 * h.
  function ToWord(s: seq<Block>, h: nat): (w: Word)
    requires h < 2 * |s|
    ensures |w| == 64
  {
    s[h / 2].bits[h % 2 * 64..h % 2 * 64 + 64]
  }

  // The word is added to the low lane of the block.
  function XorLow(b: Block, w: Word): Block
    requires |w| == 64
  {
    Block(seq(128, j requires 0 <= j < 128 => b.bits[j] != (j < 64 && w[j])))
  }

  // ---------- bitShiftXor ----------

  // Block i of the span shifted right by the given number of bits.
  function ShiftedBlock(s: seq<Block>, i: nat, shift: nat): Block {
    Block(seq(128, j requires 0 <= j < 128 => BitAt(s, 128 * i + j + shift)))
  }

  lemma SameBits(a: Block, b: Block)
    requires forall j {:trigger a.bits[j]} {:trigger b.bits[j]} :: 0 <= j < 128 ==> a.bits[j] == b.bits[j]
    ensures a == b
  {
    assert a.bits == b.bits;
  }

  // Block i of the span, and what lies after it.
  lemma BitInside(s: seq<Block>, i: nat, j: nat)
    requires j < 256
    ensures j < 128 ==> BitAt(s, 128 * i + j) == (i < |s| && s[i].bits[j])
    ensures j >= 128 ==> BitAt(s, 128 * i + j) == (i + 1 < |s| && s[i + 1].bits[j - 128])
  {
  }

  lemma ShiftedBit(s: seq<Block>, i: nat, shift: nat, j: nat)
    requires j < 128 && shift < 128
    ensures ShiftedBlock(s, i, shift).bits[j]
         == if j + shift < 128 then i < |s| && s[i].bits[j + shift] else i + 1 < |s| && s[i + 1].bits[j + shift - 128]
  {
    hide BitAt;
    BitInside(s, i, j + shift);
  }

  lemma ToBlockBit(s: seq<Block>, i: nat, j: nat)
    requires i < |s| && j < 128
    ensures ToBlock(s, 2 * i).bits[j] == s[i].bits[j]
    ensures i + 1 < |s| ==> ToBlock(s, 2 * i + 1).bits[j] == if j < 64 then s[i].bits[j + 64] else s[i + 1].bits[j - 64]
  {
  }

  // The two shifted lanes of the main loops.
  lemma LowShift(s: seq<Block>, i: nat, shift: nat)
    requires i + 1 < |s| && 0 < shift < 64
    ensures Xor(SrliEpi64(ToBlock(s, 2 * i), shift), SlliEpi64(ToBlock(s, 2 * i + 1), 64 - shift)) == ShiftedBlock(s, i, shift)
  {
    hide ToBlock, ShiftedBlock;
    var x := Xor(SrliEpi64(ToBlock(s, 2 * i), shift), SlliEpi64(ToBlock(s, 2 * i + 1), 64 - shift));
    forall j | 0 <= j < 128
      ensures x.bits[j] == ShiftedBlock(s, i, shift).bits[j]
    {
      ShiftedBit(s, i, shift, j);
      LowShiftBit(s, i, shift, j);
    }
    SameBits(x, ShiftedBlock(s, i, shift));
  }

  lemma LowShiftBit(s: seq<Block>, i: nat, shift: nat, j: nat)
    requires i + 1 < |s| && 0 < shift < 64 && j < 128
    ensures Xor(SrliEpi64(ToBlock(s, 2 * i), shift), SlliEpi64(ToBlock(s, 2 * i + 1), 64 - shift)).bits[j]
         == if j + shift < 128 then s[i].bits[j + shift] else s[i + 1].bits[j + shift - 128]
  {
    hide ToBlock;
    if j % 64 + shift < 64 {
      ToBlockBit(s, i, j + shift);
    } else {
      ToBlockBit(s, i, j - (64 - shift));
    }
  }

  lemma HighShift(s: seq<Block>, i: nat, shift: nat)
    requires i + 1 < |s| && shift < 64
    ensures Xor(SrliEpi64(ToBlock(s, 2 * i + 1), shift), SlliEpi64(ToBlock(s, 2 * i + 2), 64 - shift)) == ShiftedBlock(s, i, 64 + shift)
  {
    hide ToBlock, ShiftedBlock;
    var x := Xor(SrliEpi64(ToBlock(s, 2 * i + 1), shift), SlliEpi64(ToBlock(s, 2 * i + 2), 64 - shift));
    forall j | 0 <= j < 128
      ensures x.bits[j] == ShiftedBlock(s, i, 64 + shift).bits[j]
    {
      ShiftedBit(s, i, 64 + shift, j);
      HighShiftBit(s, i, shift, j);
    }
    SameBits(x, ShiftedBlock(s, i, 64 + shift));
  }

  lemma HighShiftBit(s: seq<Block>, i: nat, shift: nat, j: nat)
    requires i + 1 < |s| && shift < 64 && j < 128
    ensures Xor(SrliEpi64(ToBlock(s, 2 * i + 1), shift), SlliEpi64(ToBlock(s, 2 * i + 2), 64 - shift)).bits[j]
         == if j + 64 + shift < 128 then s[i].bits[j + 64 + shift] else s[i + 1].bits[j + 64 + shift - 128]
  {
    hide ToBlock;
    if j % 64 + shift < 64 {
      ToBlockBit(s, i, j + shift);
    } else {
      ToBlockBit(s, i + 1, j - (64 - shift));
    }
  }

  // The last block of the span.
  lemma LowTail(s: seq<Block>, shift: nat, b: Block)
    requires |s| > 0 && 0 < shift < 64
    ensures var e := |s| - 1;
            XorLow(Xor(b, SrliEpi64(ToBlock(s, 2 * e), shift)), ShlWord(ToWord(s, 2 * e + 1), 64 - shift))
            == Xor(b, ShiftedBlock(s, e, shift))
  {
    hide ToBlock, ShiftedBlock;
    var e := |s| - 1;
    var x := XorLow(Xor(b, SrliEpi64(ToBlock(s, 2 * e), shift)), ShlWord(ToWord(s, 2 * e + 1), 64 - shift));
    forall j | 0 <= j < 128
      ensures x.bits[j] == Xor(b, ShiftedBlock(s, e, shift)).bits[j]
    {
      ShiftedBit(s, e, shift, j);
      if j % 64 + shift < 64 {
        ToBlockBit(s, e, j + shift);
      }
    }
    SameBits(x, Xor(b, ShiftedBlock(s, e, shift)));
  }

  lemma HighTail(s: seq<Block>, shift: nat, b: Block)
    requires |s| > 0 && shift < 64
    ensures var e := |s| - 1;
            XorLow(b, ShrWord(ToWord(s, 2 * e + 1), shift)) == Xor(b, ShiftedBlock(s, e, 64 + shift))
  {
    hide ShiftedBlock;
    var e := |s| - 1;
    var x := XorLow(b, ShrWord(ToWord(s, 2 * e + 1), shift));
    forall j | 0 <= j < 128
      ensures x.bits[j] == Xor(b, ShiftedBlock(s, e, 64 + shift)).bits[j]
    {
      ShiftedBit(s, e, 64 + shift, j);
    }
    SameBits(x, Xor(b, ShiftedBlock(s, e, 64 + shift)));
  }

  // The blocks before end have received their shifted block, the others nothing.
  ghost predicate Added(before: seq<Block>, now: seq<Block>, s: seq<Block>, shift: nat, end: nat) {
    && |now| == |before| && end <= |now|
    && forall i {:trigger now[i]} :: 0 <= i < |now| ==> now[i] == if i < end then Xor(before[i], ShiftedBlock(s, i, shift)) else before[i]
  }

  method BitShiftXor(dest: array<Block>, src: seq<Block>, bitShift: nat) returns (ok: bool)
    requires |src| > 0 || bitShift == 0 || bitShift > 127 || dest.Length == 0
    modifies dest
    ensures ok <==> bitShift <= 127
    ensures !ok ==> dest[..] == old(dest[..])
    ensures ok ==> Added(old(dest[..]), dest[..], src, bitShift, if dest.Length < |src| then dest.Length else |src|)
    ensures ok ==> forall i, j {:trigger dest[i].bits[j]} :: 0 <= i < dest.Length && 0 <= j < 128 ==>
      var at := 128 * i + j + bitShift;
      dest[i].bits[j] == (old(dest[i]).bits[j] != (at / 128 < |src| && src[at / 128].bits[at % 128]))
  {
    hide Xor, ShiftedBlock, ToBlock, ToWord, SrliEpi64, SlliEpi64, ShlWord, ShrWord, XorLow;
    if bitShift > 127 {
      return false;
    }
    if bitShift >= 64 {
      ShiftHigh(dest, src, bitShift - 64);
    } else if bitShift > 0 {
      ShiftLow(dest, src, bitShift);
    } else {
      var end := if dest.Length < |src| then dest.Length else |src|;
      for i := 0 to end
        invariant Added(old(dest[..]), dest[..], src, bitShift, i)
      {
        Unshifted(src, i);
        dest[i] := Xor(dest[i], src[i]);
      }
    }
    GainedBits(old(dest[..]), dest[..], src, bitShift);
    ok := true;
  }

  lemma Unshifted(s: seq<Block>, i: nat)
    requires i < |s|
    ensures ShiftedBlock(s, i, 0) == s[i]
  {
    hide ShiftedBlock;
    forall j | 0 <= j < 128
      ensures ShiftedBlock(s, i, 0).bits[j] == s[i].bits[j]
    {
      ShiftedBit(s, i, 0, j);
    }
    SameBits(ShiftedBlock(s, i, 0), s[i]);
  }

  method ShiftHigh(dest: array<Block>, src: seq<Block>, shift: nat)
    requires (|src| > 0 || dest.Length == 0) && shift < 64
    modifies dest
    ensures Added(old(dest[..]), dest[..], src, 64 + shift, if dest.Length < |src| then dest.Length else |src|)
  {
    hide Xor, ShiftedBlock, ToBlock, ToWord, SrliEpi64, SlliEpi64, ShlWord, ShrWord, XorLow;
    var end := if |src| == 0 || dest.Length < |src| - 1 then dest.Length else |src| - 1;
    for i := 0 to end
      invariant Added(old(dest[..]), dest[..], src, 64 + shift, i)
    {
      var b0, b1 := SrliEpi64(ToBlock(src, 2 * i + 1), shift), SlliEpi64(ToBlock(src, 2 * i + 2), 64 - shift);
      HighShift(src, i, shift);
      XorAssoc(dest[i], b0, b1);
      dest[i] := Xor(Xor(dest[i], b0), b1);
    }
    if end != dest.Length {
      HighTail(src, shift, dest[end]);
      dest[end] := XorLow(dest[end], ShrWord(ToWord(src, 2 * end + 1), shift));
    }
  }

  method ShiftLow(dest: array<Block>, src: seq<Block>, shift: nat)
    requires (|src| > 0 || dest.Length == 0) && 0 < shift < 64
    modifies dest
    ensures Added(old(dest[..]), dest[..], src, shift, if dest.Length < |src| then dest.Length else |src|)
  {
    hide Xor, ShiftedBlock, ToBlock, ToWord, SrliEpi64, SlliEpi64, ShlWord, ShrWord, XorLow;
    var end := if |src| == 0 || dest.Length < |src| - 1 then dest.Length else |src| - 1;
    for i := 0 to end
      invariant Added(old(dest[..]), dest[..], src, shift, i)
    {
      var b0, b1 := SrliEpi64(ToBlock(src, 2 * i), shift), SlliEpi64(ToBlock(src, 2 * i + 1), 64 - shift);
      LowShift(src, i, shift);
      XorAssoc(dest[i], b0, b1);
      dest[i] := Xor(Xor(dest[i], b0), b1);
    }
    if end != dest.Length {
      LowTail(src, shift, dest[end]);
      dest[end] := Xor(dest[end], SrliEpi64(ToBlock(src, 2 * end), shift));
      dest[end] := XorLow(dest[end], ShlWord(ToWord(src, 2 * end + 1), 64 - shift));
    }
  }

  lemma GainedBits(before: seq<Block>, now: seq<Block>, s: seq<Block>, shift: nat)
    requires Added(before, now, s, shift, if |now| < |s| then |now| else |s|)
    ensures forall i, j {:trigger now[i].bits[j]} :: 0 <= i < |now| == |before| && 0 <= j < 128 ==>
      var at := 128 * i + j + shift; now[i].bits[j] == (before[i].bits[j] != (at / 128 < |s| && s[at / 128].bits[at % 128]))
  {
    hide Added;
    forall i, j {:trigger now[i].bits[j]} | 0 <= i < |now| == |before| && 0 <= j < 128
      ensures var at := 128 * i + j + shift; now[i].bits[j] == (before[i].bits[j] != (at / 128 < |s| && s[at / 128].bits[at % 128]))
    {
      AddedBits(before, now, s, shift, 128 * i + j);
    }
  }

  // Every bit of dest gains the bit of the whole input shifted right.
  lemma AddedBits(before: seq<Block>, now: seq<Block>, s: seq<Block>, shift: nat, k: nat)
    requires Added(before, now, s, shift, if |now| < |s| then |now| else |s|) && k < 128 * |now|
    ensures BitAt(now, k) == (BitAt(before, k) != BitAt(s, k + shift))
  {
    var i, j := k / 128, k % 128;
    assert k + shift == 128 * i + j + shift;
    if i >= |s| {
      assert !BitAt(s, k + shift);
    }
  }

  // ---------- bytes of a span ----------

  // The first n bits of a, then those of b.
  function Mix(a: Block, b: Block, n: nat): Block {
    Block(seq(128, j requires 0 <= j < 128 => if j < n then a.bits[j] else b.bits[j]))
  }

  // memcpy of n bytes
  method CopyBytes(dest: array<Block>, src: seq<Block>, n: nat)
    requires n <= 16 * dest.Length && n <= 16 * |src|
    modifies dest
    ensures forall k {:trigger BitAt(dest[..], k)} :: 0 <= k < 128 * dest.Length ==>
      BitAt(dest[..], k) == if k < 8 * n then BitAt(src, k) else old(BitAt(dest[..], k))
  {
    hide Mix, BitAt;
    var m := (n + 15) / 16;
    for i := 0 to m
      invariant forall q {:trigger dest[q]} :: 0 <= q < dest.Length ==>
        dest[q] == if q < i then Mix(src[q], old(dest[q]), 8 * n - 128 * q) else old(dest[q])
    {
      dest[i] := Mix(src[i], dest[i], 8 * n - 128 * i);
    }
    forall k {:trigger BitAt(dest[..], k)} | 0 <= k < 128 * dest.Length
      ensures BitAt(dest[..], k) == if k < 8 * n then BitAt(src, k) else old(BitAt(dest[..], k))
    {
      MixedBit(dest[..], src, old(dest[..]), 8 * n, k);
    }
  }

  lemma MixedBit(now: seq<Block>, s: seq<Block>, before: seq<Block>, n: nat, k: nat)
    requires k / 128 < |now| == |before| && n <= 128 * |s|
    requires var q := k / 128; now[q] == if 128 * q < n then Mix(s[q], before[q], n - 128 * q) else before[q]
    ensures BitAt(now, k) == if k < n then BitAt(s, k) else BitAt(before, k)
  {
  }

  // memset to zero from byte n on
  method ClearBytes(dest: array<Block>, n: nat)
    requires n <= 16 * dest.Length
    modifies dest
    ensures forall k {:trigger BitAt(dest[..], k)} :: 0 <= k < 128 * dest.Length ==>
      BitAt(dest[..], k) == (k < 8 * n && old(BitAt(dest[..], k)))
  {
    hide Mix, BitAt;
    for i := n / 16 to dest.Length
      invariant forall q {:trigger dest[q]} :: 0 <= q < dest.Length ==>
        dest[q] == if n / 16 <= q < i then Mix(old(dest[q]), ZERO, if 8 * n > 128 * q then 8 * n - 128 * q else 0) else old(dest[q])
    {
      dest[i] := Mix(dest[i], ZERO, if 8 * n > 128 * i then 8 * n - 128 * i else 0);
    }
    forall k {:trigger BitAt(dest[..], k)} | 0 <= k < 128 * dest.Length
      ensures BitAt(dest[..], k) == (k < 8 * n && old(BitAt(dest[..], k)))
    {
      ClearedBit(dest[..], old(dest[..]), n, k);
    }
  }

  lemma ClearedBit(now: seq<Block>, before: seq<Block>, n: nat, k: nat)
    requires k / 128 < |now| == |before|
    requires var q := k / 128;
             now[q] == if n / 16 <= q then Mix(before[q], ZERO, if 8 * n > 128 * q then 8 * n - 128 * q else 0) else before[q]
    ensures BitAt(now, k) == (k < 8 * n && BitAt(before, k))
  {
  }

  // dest bytes [idx] &= (1 << offset) - 1
  method MaskByte(dest: array<Block>, idx: nat, offset: nat)
    requires idx < 16 * dest.Length && offset < 8
    modifies dest
    ensures forall k {:trigger BitAt(dest[..], k)} :: 0 <= k < 128 * dest.Length ==>
      BitAt(dest[..], k) == (old(BitAt(dest[..], k)) && !(8 * idx + offset <= k < 8 * idx + 8))
  {
    hide Mix, BitAt;
    var i, at := idx / 16, idx % 16 * 8;
    dest[i] := Mix(dest[i], Mix(ZERO, dest[i], at + 8), at + offset);
    forall k {:trigger BitAt(dest[..], k)} | 0 <= k < 128 * dest.Length
      ensures BitAt(dest[..], k) == (old(BitAt(dest[..], k)) && !(8 * idx + offset <= k < 8 * idx + 8))
    {
      MaskedBit(dest[..], old(dest[..]), idx, offset, k);
    }
  }

  lemma MaskedBit(now: seq<Block>, before: seq<Block>, idx: nat, offset: nat, k: nat)
    requires idx < 16 * |before| && offset < 8 && k / 128 < |now| == |before|
    requires var i, at := idx / 16, idx % 16 * 8; now == before[i := Mix(before[i], Mix(ZERO, before[i], at + 8), at + offset)]
    ensures BitAt(now, k) == (BitAt(before, k) && !(8 * idx + offset <= k < 8 * idx + 8))
  {
  }

  // ---------- modp ----------

  // The sum of the first c bits j, j + p, j + 2p, ... of the input.
  predicate Fold(s: seq<Block>, p: nat, j: nat, c: nat) {
    c > 0 && Fold(s, p, j, c - 1) != BitAt(s, (c - 1) * p + j)
  }

  // The number of chunks of p bits.
  function Chunks(s: seq<Block>, p: nat): nat
    requires p > 0
  {
    (|s| * 128 + p - 1) / p
  }

  method Modp(dest: array<Block>, src: seq<Block>, p: nat) returns (ok: bool)
    requires p > 0
    modifies dest
    ensures ok <==> dest.Length >= (p + 127) / 128 && |src| >= (p + 127) / 128
    ensures !ok ==> dest[..] == old(dest[..])
    ensures ok ==>
      forall j {:trigger BitAt(dest[..], j)} :: 0 <= j < 128 * dest.Length ==>
        BitAt(dest[..], j) == (j < p && Fold(src, p, j, Chunks(src, p)))
    ensures ok ==> forall i, b {:trigger dest[i].bits[b]} :: 0 <= i < dest.Length && 0 <= b < 128 ==>
      dest[i].bits[b] == (128 * i + b < p && Fold(src, p, 128 * i + b, Chunks(src, p)))
  {
    hide BitAt, Fold, Chunks;
    var pBlocks, pBytes := (p + 127) / 128, (p + 7) / 8;
    if dest.Length < pBlocks || |src| < pBlocks {
      return false;
    }
    var count := Chunks(src, p);
    ChunksPositive(src, p);
    CopyBytes(dest, src, pBytes);
    forall k {:trigger BitAt(dest[..], k)} | 0 <= k < p
      ensures BitAt(dest[..], k) == Fold(src, p, k, 1)
    {
      FirstFold(src, p, k);
    }
    for i := 1 to count
      invariant forall k {:trigger BitAt(dest[..], k)} :: 0 <= k < p ==> BitAt(dest[..], k) == Fold(src, p, k, i)
    {
      AddChunk(dest, src, p, i);
    }
    ghost var folded := dest[..];
    if p % 8 != 0 {
      MaskByte(dest, p / 8, p % 8);
    }
    ghost var masked := dest[..];
    ClearBytes(dest, pBytes);
    forall j {:trigger BitAt(dest[..], j)} | 0 <= j < 128 * dest.Length
      ensures BitAt(dest[..], j) == (j < p && Fold(src, p, j, Chunks(src, p)))
    {
      assert BitAt(dest[..], j) == (j < 8 * pBytes && BitAt(masked, j));
      if p % 8 != 0 {
        assert BitAt(masked, j) == (BitAt(folded, j) && !(p <= j < 8 * (p / 8) + 8));
      }
      assert j < p ==> BitAt(folded, j) == Fold(src, p, j, count);
    }
    forall i, b {:trigger dest[i].bits[b]} | 0 <= i < dest.Length && 0 <= b < 128
      ensures dest[i].bits[b] == (128 * i + b < p && Fold(src, p, 128 * i + b, Chunks(src, p)))
    {
      BitInside(dest[..], i, b);
      assert BitAt(dest[..], 128 * i + b) == (128 * i + b < p && Fold(src, p, 128 * i + b, Chunks(src, p)));
    }
    ok := true;
  }

  lemma ChunksPositive(s: seq<Block>, p: nat)
    requires p > 0 && |s| > 0
    ensures Chunks(s, p) > 0
  {
    var x := |s| * 128 + p - 1;
    assert x == x / p * p + x % p && x >= p;
  }

  lemma FirstFold(s: seq<Block>, p: nat, k: nat)
    ensures Fold(s, p, k, 1) == BitAt(s, k)
  {
    assert !Fold(s, p, k, 0) && 0 * p + k == k;
  }

  // Chunk i starts inside the input.
  lemma ChunkInside(s: seq<Block>, p: nat, i: nat)
    requires p > 0 && i < Chunks(s, p)
    ensures i * p < 128 * |s|
  {
    var x := |s| * 128 + p - 1;
    assert x == Chunks(s, p) * p + x % p;
    assert Chunks(s, p) * p == (Chunks(s, p) - 1 - i) * p + p + i * p;
    Nonnegative(Chunks(s, p) - 1 - i, p);
  }

  lemma Nonnegative(x: nat, y: nat)
    ensures x * y >= 0
  {
  }

  // One iteration: the blocks around chunk i, shifted, are added.
  method AddChunk(dest: array<Block>, src: seq<Block>, p: nat, i: nat)
    requires p > 0 && 0 < i < Chunks(src, p) && p <= 128 * dest.Length
    requires forall k {:trigger BitAt(dest[..], k)} :: 0 <= k < p ==> BitAt(dest[..], k) == Fold(src, p, k, i)
    modifies dest
    ensures forall k {:trigger BitAt(dest[..], k)} :: 0 <= k < p ==> BitAt(dest[..], k) == Fold(src, p, k, i + 1)
  {
    hide BitAt, Fold, Chunks, Added;
    ChunkInside(src, p, i);
    var begin: nat := i * p;
    var end := if begin + p < |src| * 128 then begin + p else |src| * 128;
    var shift := begin % 128;
    var chunk := src[begin / 128..(end + 127) / 128];
    var ok := BitShiftXor(dest, chunk, shift);
    forall k {:trigger BitAt(dest[..], k)} | 0 <= k < p
      ensures BitAt(dest[..], k) == Fold(src, p, k, i + 1)
    {
      AddedBits(old(dest[..]), dest[..], chunk, shift, k);
      ChunkBit(src, begin, p, end, k);
      NextFold(src, p, k, i);
    }
  }

  lemma NextFold(s: seq<Block>, p: nat, k: nat, i: nat)
    ensures Fold(s, p, k, i + 1) == (Fold(s, p, k, i) != BitAt(s, i * p + k))
  {
  }

  lemma ChunkBit(s: seq<Block>, begin: nat, p: nat, end: nat, k: nat)
    requires begin < end == (if begin + p < 128 * |s| then begin + p else 128 * |s|) && k < p
    ensures BitAt(s[begin / 128..(end + 127) / 128], k + begin % 128) == BitAt(s, begin + k)
  {
    var b := begin / 128;
    assert begin + k == 128 * b + (k + begin % 128);
    assert (begin + k) / 128 == b + (k + begin % 128) / 128 && (begin + k) % 128 == (k + begin % 128) % 128;
    assert begin + k < end ==> (begin + k) / 128 < (end + 127) / 128;
  }

  // ---------- division with remainder ----------

  // Chunks past the end of the input add nothing.
  lemma {:induction false} FoldEnds(s: seq<Block>, p: nat, j: nat, c: nat)
    requires p > 0 && c >= Chunks(s, p)
    ensures Fold(s, p, j, c) == Fold(s, p, j, Chunks(s, p))
    decreases c
  {
    if c > Chunks(s, p) {
      FoldEnds(s, p, j, c - 1);
      hide Fold;
      PastTheEnd(s, p, c - 1);
      NextFold(s, p, j, c - 1);
      Outside(s, (c - 1) * p + j);
    }
  }

  lemma PastTheEnd(s: seq<Block>, p: nat, i: nat)
    requires p > 0 && i >= Chunks(s, p)
    ensures i * p >= 128 * |s|
  {
    var x, c := |s| * 128 + p - 1, Chunks(s, p);
    assert x == c * p + x % p;
    assert i * p == (i - c) * p + c * p;
    Nonnegative(i - c, p);
  }

  lemma Outside(s: seq<Block>, k: nat)
    requires k >= 128 * |s|
    ensures !BitAt(s, k)
  {
  }

  // Position k of residue j modulo p is set.
  predicate OneOf(s: seq<Block>, p: nat, j: nat, k: nat)
    requires p > 0
  {
    k % p == j && BitAt(s, k)
  }

  // The fold of residue j is the parity of the input bits set at positions j, j + p, j + 2p, ...
  lemma FoldIsParity(s: seq<Block>, p: nat, j: nat, ones: set<nat>)
    requires j < p
    requires forall k: nat {:trigger k in ones} :: k in ones <==> k < 128 * |s| && k % p == j && s[k / 128].bits[k % 128]
    ensures Fold(s, p, j, Chunks(s, p)) <==> |ones| % 2 == 1
  {
    hide Fold, Chunks;
    PastTheEnd(s, p, Chunks(s, p));
    FoldCounts(s, p, j, Chunks(s, p), Chunks(s, p) * p, ones);
  }

  // ... and of the first c chunks.
  lemma {:induction false} FoldCounts(s: seq<Block>, p: nat, j: nat, c: nat, end: nat, ones: set<nat>)
    requires j < p && end == c * p && OnesBelow(s, p, j, end, ones)
    ensures Fold(s, p, j, c) <==> |ones| % 2 == 1
  {
    hide OnesBelow;
    if c > 0 {
      Steps(p, c, j);
      var begin: nat := (c - 1) * p;
      var below := ones - {begin + j};
      ChunkAdds(s, p, c, j, begin, end, ones, below);
      FoldCounts(s, p, j, c - 1, begin, below);
    } else {
      NoOnes(s, p, j, ones);
    }
  }

  ghost predicate OnesBelow(s: seq<Block>, p: nat, j: nat, end: nat, ones: set<nat>)
    requires p > 0
  {
    forall k: nat {:trigger k in ones} :: k in ones <==> k < end && OneOf(s, p, j, k)
  }

  lemma NoOnes(s: seq<Block>, p: nat, j: nat, ones: set<nat>)
    requires p > 0 && OnesBelow(s, p, j, 0, ones)
    ensures |ones| == 0
  {
    assert ones == {};
  }

  lemma ChunkAdds(s: seq<Block>, p: nat, c: nat, j: nat, begin: nat, end: nat, ones: set<nat>, below: set<nat>)
    requires j < p && c > 0 && begin == (c - 1) * p && end == c * p && OnesBelow(s, p, j, end, ones) && below == ones - {begin + j}
    ensures OnesBelow(s, p, j, begin, below) && |ones| == |below| + (if BitAt(s, begin + j) then 1 else 0)
  {
    hide OneOf, BitAt;
    Steps(p, c, j);
    forall k: nat {:trigger k in below}
      ensures k in below <==> k < begin && OneOf(s, p, j, k)
    {
      ChunkHolds(s, p, c, j, begin, k);
    }
    ChunkHolds(s, p, c, j, begin, begin + j);
    if begin + j in ones {
      assert ones == below + {begin + j};
    } else {
      assert ones == below;
    }
  }

  // Chunk c - 1 starts at begin and holds one position of the residue.
  lemma ChunkHolds(s: seq<Block>, p: nat, c: nat, j: nat, begin: nat, k: nat)
    requires j < p && c > 0 && begin == (c - 1) * p
    ensures OneOf(s, p, j, begin + j) == BitAt(s, begin + j)
    ensures begin <= k < begin + p && OneOf(s, p, j, k) ==> k == begin + j
  {
    hide BitAt;
    Steps(p, c, j);
    if begin <= k < begin + p && OneOf(s, p, j, k) {
      LastStep(p, c, j, k);
    }
  }

  lemma Steps(p: nat, c: nat, j: nat)
    requires j < p && c > 0
    ensures 0 <= (c - 1) * p && (c - 1) * p + p == c * p && ((c - 1) * p + j) % p == j
  {
    Fermat.RemainderUnique((c - 1) * p + j, c - 1, j, p);
  }

  lemma LastStep(p: nat, c: nat, j: nat, k: nat)
    requires j < p && c > 0 && (c - 1) * p <= k < c * p && k % p == j
    ensures k == (c - 1) * p + j
  {
    Steps(p, c, j);
    Fermat.RemainderUnique(k, c - 1, k - (c - 1) * p, p);
  }

  // The quotient of the input polynomial by x^p - 1: coefficient k is the sum of the bits
  // k + p, k + 2p, ...
  predicate Quotient(s: seq<Block>, p: nat, k: nat)
    requires p > 0
  {
    Fold(s, p, k + p, Chunks(s, p))
  }

  // The folded bits are the remainder: f = q * (x^p - 1) + r with deg r < p.
  lemma FoldIsRemainder(s: seq<Block>, p: nat, k: nat)
    requires p > 0
    ensures BitAt(s, k) == ((k < p && Fold(s, p, k, Chunks(s, p))) != (Quotient(s, p, k) != (k >= p && Quotient(s, p, k - p))))
  {
    hide Fold, BitAt, Chunks;
    var c := Chunks(s, p);
    FoldFromNext(s, p, k, c);
    FoldEnds(s, p, k, c + 1);
  }

  lemma {:induction false} FoldFromNext(s: seq<Block>, p: nat, k: nat, c: nat)
    ensures Fold(s, p, k, c + 1) == (BitAt(s, k) != Fold(s, p, k + p, c))
  {
    hide BitAt;
    if c == 0 {
      FirstFold(s, p, k);
    } else {
      FoldFromNext(s, p, k, c - 1);
      assert c * p + k == (c - 1) * p + (k + p);
    }
  }
}

/**
 The byte encoding of a key (RegularDpf.h lines 45 to 69): seed, correction words, low
 bits and leaf values, each copied as one run of bytes.
 */
module RegularKeyBytes {
  import opened Blocks
  import opened RegularKey

  type Byte = w: Word | |w| == 8 witness seq(8, _ => false)

  function ByteAt(b: Block, j: nat): Byte
    requires j < 16
  {
    b.bits[8 * j..8 * j + 8]
  }

  // The 16 bytes of a block, low bits first.
  function BlockBytes(b: Block): (s: seq<Byte>)
    ensures |s| == 16
  {
    seq<Byte>(16, j requires 0 <= j < 16 => ByteAt(b, j))
  }

  function BlockOfBytes(s: seq<Byte>): Block
    requires |s| == 16
  {
    Block(seq(128, i requires 0 <= i < 128 => s[i / 8][i % 8]))
  }

  // A u8 that holds a bit.
  function BitByte(b: bool): Byte {
    [b, false, false, false, false, false, false, false]
  }

  function EncodeBlocks(b: seq<Block>): (s: seq<Byte>)
    ensures |s| == 16 * |b|
  {
    if |b| == 0 then [] else BlockBytes(b[0]) + EncodeBlocks(b[1..])
  }

  function DecodeBlocks(n: nat, s: seq<Byte>): (b: seq<Block>)
    requires |s| == 16 * n
    ensures |b| == n
  {
    if n == 0 then [] else [BlockOfBytes(s[..16])] + DecodeBlocks(n - 1, s[16..])
  }

  // A matrix as one run, row by row.
  function Flatten<T>(m: seq<seq<T>>): seq<T> {
    if |m| == 0 then [] else m[0] + Flatten(m[1..])
  }

  function Total(rows: nat, n: nat): nat {
    if rows == 0 then 0 else n + Total(rows - 1, n)
  }

  function Unflatten<T>(rows: nat, n: nat, s: seq<T>): (m: seq<seq<T>>)
    requires |s| == Total(rows, n)
    ensures |m| == rows
  {
    if rows == 0 then [] else [s[..n]] + Unflatten(rows - 1, n, s[n..])
  }

  function SizeBytes(words: nat, bits: nat, leafVals: nat): nat {
    16 * (1 + words + leafVals) + bits
  }

  // The sizes of the matrices of a key.
  ghost predicate Sized(n: nat, key: RegularDpfKey) {
    && |key.correctionWords| == |key.correctionBits|
    && (forall t {:trigger key.correctionWords[t]} :: 0 <= t < |key.correctionWords| ==> |key.correctionWords[t]| == n)
    && (forall t {:trigger key.correctionBits[t]} :: 0 <= t < |key.correctionBits| ==> |key.correctionBits[t]| == n)
  }

  function BitBytes(b: seq<bool>): (s: seq<Byte>)
    ensures |s| == |b|
  {
    seq<Byte>(|b|, k requires 0 <= k < |b| => BitByte(b[k]))
  }

  function BitsOfBytes(s: seq<Byte>): (b: seq<bool>)
    ensures |b| == |s|
  {
    seq(|s|, k requires 0 <= k < |s| => s[k][0])
  }

  function Encoding(key: RegularDpfKey): seq<Byte> {
    EncodeBlocks([key.seed]) + EncodeBlocks(Flatten(key.correctionWords)) + BitBytes(Flatten(key.correctionBits))
    + EncodeBlocks(key.leafVals)
  }

  // Byte k of a run of blocks.
  lemma {:induction false} EncodedByte(b: seq<Block>, k: nat)
    requires k < 16 * |b|
    ensures EncodeBlocks(b)[k] == ByteAt(b[k / 16], k % 16)
  {
    hide ByteAt;
    if k >= 16 {
      EncodedByte(b[1..], k - 16);
    }
  }

  // ---------- where the bytes are ----------

  // The 16 bytes from position at on are those of b: byte j holds bits 8j to 8j + 7.
  ghost predicate HoldsBlock(s: seq<Byte>, at: int, b: Block) {
    0 <= at && at + 16 <= |s| && forall p {:trigger s[p]} :: at <= p < at + 16 ==> s[p] == b.bits[8 * (p - at)..8 * (p - at) + 8]
  }

  // The byte at position at is 1 if f is set and 0 if not.
  ghost predicate HoldsFlag(s: seq<Byte>, at: int, f: bool) {
    0 <= at < |s| && s[at] == [f, false, false, false, false, false, false, false]
  }

  ghost predicate LowBitIs(s: seq<Byte>, at: int, f: bool) {
    0 <= at < |s| && s[at][0] == f
  }

  lemma HeldInside(s: seq<Byte>, at: int, b: Block, lo: nat, hi: nat)
    requires lo <= hi <= |s| && HoldsBlock(s[lo..hi], at, b)
    ensures HoldsBlock(s, lo + at, b)
  {
    forall p {:trigger s[p]} | lo + at <= p < lo + at + 16
      ensures s[p] == b.bits[8 * (p - (lo + at))..8 * (p - (lo + at)) + 8]
    {
      assert s[lo..hi][p - lo] == s[p];
    }
  }

  lemma BlockHeld(b: seq<Block>, i: nat)
    requires i < |b|
    ensures HoldsBlock(EncodeBlocks(b), 16 * i, b[i])
  {
    hide EncodeBlocks;
    var s := EncodeBlocks(b);
    forall p {:trigger s[p]} | 16 * i <= p < 16 * i + 16
      ensures s[p] == b[i].bits[8 * (p - 16 * i)..8 * (p - 16 * i) + 8]
    {
      assert p / 16 == i && p % 16 == p - 16 * i;
      EncodedByte(b, p);
    }
  }

  lemma CellBound(rows: nat, n: nat, t: nat, k: nat)
    requires t < rows && k < n
    ensures t * n + k < rows * n
  {
    assert (t + 1) * n <= rows * n;
    assert (t + 1) * n == t * n + n;
  }

  lemma {:induction false} TotalIsProduct(rows: nat, n: nat)
    ensures Total(rows, n) == rows * n
  {
    if rows > 0 {
      TotalIsProduct(rows - 1, n);
      assert rows * n == (rows - 1) * n + n;
    }
  }

  lemma {:induction false} FlattenedCell<T>(n: nat, m: seq<seq<T>>, t: nat, k: nat)
    requires (forall r {:trigger m[r]} :: 0 <= r < |m| ==> |m[r]| == n) && t < |m| && k < n
    ensures t * n + k < |Flatten(m)| == Total(|m|, n) && Flatten(m)[t * n + k] == m[t][k]
  {
    MatrixRoundTrip(n, m);
    TotalIsProduct(|m|, n);
    CellBound(|m|, n, t, k);
    if t > 0 {
      FlattenedCell(n, m[1..], t - 1, k);
      assert t * n + k == n + ((t - 1) * n + k);
    }
  }

  lemma {:induction false} UnflattenedCell<T>(rows: nat, n: nat, s: seq<T>, t: nat, k: nat)
    requires |s| == Total(rows, n) && t < rows && k < n
    ensures t * n + k < |s| && |Unflatten(rows, n, s)[t]| == n && Unflatten(rows, n, s)[t][k] == s[t * n + k]
  {
    CellInside(rows, n, t, k);
    if t == 0 {
      hide Total;
    } else {
      UnflattenedCell(rows - 1, n, s[n..], t - 1, k);
      hide Total;
      CellStep(n, t, k);
      assert Unflatten(rows, n, s)[t] == Unflatten(rows - 1, n, s[n..])[t - 1];
    }
  }

  lemma CellInside(rows: nat, n: nat, t: nat, k: nat)
    requires t < rows && k < n
    ensures t * n + k < Total(rows, n)
  {
    TotalIsProduct(rows, n);
    CellBound(rows, n, t, k);
  }

  lemma CellStep(n: nat, t: nat, k: nat)
    requires t > 0
    ensures t * n + k == n + ((t - 1) * n + k)
  {
  }

  lemma FlagByte(b: seq<bool>, k: nat)
    requires k < |b|
    ensures BitBytes(b)[k] == BitByte(b[k])
  {
  }

  lemma RunGrows<T>(front: seq<T>, run: seq<T>, back: seq<T>, k: nat)
    requires k < |run| && |back| > 0
    ensures (front + run[..k] + back)[|front| + k := run[k]] == front + run[..k + 1] + back[1..]
  {
  }

  // Copies the blocks to dest from position at on; the rest of dest stays.
  method CopyBlocks(dest: array<Byte>, at: nat, b: seq<Block>) returns (next: nat)
    requires at + 16 * |b| <= dest.Length
    modifies dest
    ensures next == at + 16 * |b| && dest[..] == old(dest[..at]) + EncodeBlocks(b) + old(dest[next..])
  {
    hide EncodeBlocks, ByteAt;
    var k := 0;
    while k < 16 * |b|
      invariant k <= 16 * |b| && dest[..] == old(dest[..at]) + EncodeBlocks(b)[..k] + old(dest[at + k..])
    {
      EncodedByte(b, k);
      RunGrows(old(dest[..at]), EncodeBlocks(b), old(dest[at + k..]), k);
      assert old(dest[at + k..])[1..] == old(dest[at + k + 1..]);
      ghost var before := dest[..];
      dest[at + k] := ByteAt(b[k / 16], k % 16);
      assert dest[..] == before[at + k := EncodeBlocks(b)[k]];
      k := k + 1;
    }
    next := at + k;
  }

  method CopyBits(dest: array<Byte>, at: nat, b: seq<bool>) returns (next: nat)
    requires at + |b| <= dest.Length
    modifies dest
    ensures next == at + |b| && dest[..] == old(dest[..at]) + BitBytes(b) + old(dest[next..])
  {
    hide BitByte, BitBytes;
    var k := 0;
    while k < |b|
      invariant k <= |b| && dest[..] == old(dest[..at]) + BitBytes(b)[..k] + old(dest[at + k..])
    {
      FlagByte(b, k);
      RunGrows(old(dest[..at]), BitBytes(b), old(dest[at + k..]), k);
      assert old(dest[at + k..])[1..] == old(dest[at + k + 1..]);
      ghost var before := dest[..];
      dest[at + k] := BitByte(b[k]);
      assert dest[..] == before[at + k := BitBytes(b)[k]];
      k := k + 1;
    }
    next := at + k;
  }

  // The four runs of an encoding of c cells.
  lemma Runs(n: nat, key: RegularDpfKey, c: nat)
    requires Sized(n, key) && c == |key.correctionWords| * n
    ensures var s := Encoding(key);
            && |Flatten(key.correctionWords)| == |Flatten(key.correctionBits)| == c && |s| == 16 + 17 * c + 16 * |key.leafVals|
            && s[0..16] == EncodeBlocks([key.seed]) && s[16..16 + 16 * c] == EncodeBlocks(Flatten(key.correctionWords))
            && s[16 + 16 * c..16 + 17 * c] == BitBytes(Flatten(key.correctionBits)) && s[16 + 17 * c..|s|] == EncodeBlocks(key.leafVals)
  {
    hide EncodeBlocks, BitBytes, Flatten, Total;
    MatrixRoundTrip(n, key.correctionWords);
    MatrixRoundTrip(n, key.correctionBits);
    TotalIsProduct(|key.correctionWords|, n);
    Pieces(EncodeBlocks([key.seed]), EncodeBlocks(Flatten(key.correctionWords)), BitBytes(Flatten(key.correctionBits)),
           EncodeBlocks(key.leafVals));
  }

  lemma WordEncoded(n: nat, key: RegularDpfKey, t: nat, k: nat)
    requires Sized(n, key) && t < |key.correctionWords| && k < n
    ensures HoldsBlock(Encoding(key), 16 + 16 * (t * n + k), key.correctionWords[t][k])
    ensures HoldsFlag(Encoding(key), 16 + 16 * (|key.correctionWords| * n) + (t * n + k), key.correctionBits[t][k])
  {
    hide Flatten, HoldsBlock, HoldsFlag, Encoding, Total;
    FlattenedCell(n, key.correctionWords, t, k);
    FlattenedCell(n, key.correctionBits, t, k);
    CellEncoded(n, key, |key.correctionWords| * n, t * n + k);
  }

  lemma CellEncoded(n: nat, key: RegularDpfKey, c: nat, q: nat)
    requires Sized(n, key) && c == |key.correctionWords| * n && q < |Flatten(key.correctionWords)|
    ensures |Flatten(key.correctionBits)| == |Flatten(key.correctionWords)|
    ensures HoldsBlock(Encoding(key), 16 + 16 * q, Flatten(key.correctionWords)[q])
    ensures HoldsFlag(Encoding(key), 16 + 16 * c + q, Flatten(key.correctionBits)[q])
  {
    hide EncodeBlocks, BitBytes, Flatten, HoldsBlock, HoldsFlag, Encoding;
    Runs(n, key, c);
    RunHeld(Encoding(key), Flatten(key.correctionWords), q, 16, 16 + 16 * c);
    FlagHeld(Encoding(key), Flatten(key.correctionBits), q, 16 + 16 * c, 16 + 17 * c);
  }

  lemma LeafEncoded(n: nat, key: RegularDpfKey, k: nat)
    requires Sized(n, key) && k < |key.leafVals|
    ensures HoldsBlock(Encoding(key), 16 + 17 * (|key.correctionWords| * n) + 16 * k, key.leafVals[k])
  {
    hide EncodeBlocks, Flatten, HoldsBlock, Encoding;
    var s, c := Encoding(key), |key.correctionWords| * n;
    Runs(n, key, c);
    RunHeld(s, key.leafVals, k, 16 + 17 * c, |s|);
  }

  // Block i of a run of blocks.
  lemma RunHeld(s: seq<Byte>, b: seq<Block>, i: nat, lo: nat, hi: nat)
    requires lo <= hi <= |s| && i < |b| && s[lo..hi] == EncodeBlocks(b)
    ensures HoldsBlock(s, lo + 16 * i, b[i])
  {
    hide EncodeBlocks, HoldsBlock;
    BlockHeld(b, i);
    HeldInside(s, 16 * i, b[i], lo, hi);
  }

  lemma SeedEncoded(n: nat, key: RegularDpfKey)
    requires Sized(n, key)
    ensures HoldsBlock(Encoding(key), 0, key.seed)
  {
    hide EncodeBlocks, Flatten, HoldsBlock, Encoding;
    Runs(n, key, |key.correctionWords| * n);
    RunHeld(Encoding(key), [key.seed], 0, 0, 16);
  }

  lemma SizeEncoded(n: nat, key: RegularDpfKey)
    requires Sized(n, key)
    ensures |Encoding(key)| == 16 * (1 + |key.correctionWords| * n + |key.leafVals|) + |key.correctionWords| * n
  {
    hide EncodeBlocks, Flatten, Encoding;
    Runs(n, key, |key.correctionWords| * n);
  }

  lemma WordsEncoded(n: nat, key: RegularDpfKey)
    requires Sized(n, key)
    ensures forall t, k {:trigger key.correctionWords[t][k]} :: 0 <= t < |key.correctionWords| && 0 <= k < n ==>
      HoldsBlock(Encoding(key), 16 + 16 * (t * n + k), key.correctionWords[t][k])
  {
    hide HoldsBlock, Encoding;
    forall t, k {:trigger key.correctionWords[t][k]} | 0 <= t < |key.correctionWords| && 0 <= k < n
      ensures HoldsBlock(Encoding(key), 16 + 16 * (t * n + k), key.correctionWords[t][k])
    {
      WordEncoded(n, key, t, k);
    }
  }

  lemma FlagsEncoded(n: nat, key: RegularDpfKey)
    requires Sized(n, key)
    ensures forall t, k {:trigger key.correctionBits[t][k]} :: 0 <= t < |key.correctionWords| && 0 <= k < n ==>
      HoldsFlag(Encoding(key), 16 + 16 * (|key.correctionWords| * n) + (t * n + k), key.correctionBits[t][k])
  {
    hide HoldsFlag, Encoding;
    forall t, k {:trigger key.correctionBits[t][k]} | 0 <= t < |key.correctionWords| && 0 <= k < n
      ensures HoldsFlag(Encoding(key), 16 + 16 * (|key.correctionWords| * n) + (t * n + k), key.correctionBits[t][k])
    {
      WordEncoded(n, key, t, k);
    }
  }

  lemma LeavesEncoded(n: nat, key: RegularDpfKey)
    requires Sized(n, key)
    ensures forall k {:trigger key.leafVals[k]} :: 0 <= k < |key.leafVals| ==>
      HoldsBlock(Encoding(key), 16 + 17 * (|key.correctionWords| * n) + 16 * k, key.leafVals[k])
  {
    hide HoldsBlock, Encoding;
    forall k {:trigger key.leafVals[k]} | 0 <= k < |key.leafVals|
      ensures HoldsBlock(Encoding(key), 16 + 17 * (|key.correctionWords| * n) + 16 * k, key.leafVals[k])
    {
      LeafEncoded(n, key, k);
    }
  }

  lemma FlagHeld(s: seq<Byte>, bits: seq<bool>, i: nat, lo: nat, hi: nat)
    requires lo <= hi <= |s| && i < |bits| && s[lo..hi] == BitBytes(bits)
    ensures HoldsFlag(s, lo + i, bits[i])
  {
    assert s[lo..hi][i] == s[lo + i];
  }

  // toBytes: four copies, each to where the last one ended.  The matrices have rows of n entries.
  method ToBytes(key: RegularDpfKey, dest: array<Byte>, ghost n: nat) returns (ok: bool)
    requires Sized(n, key)
    modifies dest
    ensures ok <==> dest.Length == 16 * (1 + |key.correctionWords| * n + |key.leafVals|) + |key.correctionWords| * n
    ensures dest[..] == if ok then Encoding(key) else old(dest[..])
    ensures ok ==> HoldsBlock(dest[..], 0, key.seed)
    ensures ok ==> forall t, k {:trigger key.correctionWords[t][k]} :: 0 <= t < |key.correctionWords| && 0 <= k < n ==>
      HoldsBlock(dest[..], 16 + 16 * (t * n + k), key.correctionWords[t][k])
    ensures ok ==> forall t, k {:trigger key.correctionBits[t][k]} :: 0 <= t < |key.correctionWords| && 0 <= k < n ==>
      HoldsFlag(dest[..], 16 + 16 * (|key.correctionWords| * n) + (t * n + k), key.correctionBits[t][k])
    ensures ok ==> forall k {:trigger key.leafVals[k]} :: 0 <= k < |key.leafVals| ==>
      HoldsBlock(dest[..], 16 + 17 * (|key.correctionWords| * n) + 16 * k, key.leafVals[k])
  {
    hide HoldsBlock, HoldsFlag;
    SizeEncoded(n, key);
    SeedEncoded(n, key);
    WordsEncoded(n, key);
    FlagsEncoded(n, key);
    LeavesEncoded(n, key);
    hide EncodeBlocks, BitBytes, Flatten;
    var words, bits := Flatten(key.correctionWords), Flatten(key.correctionBits);
    if dest.Length != SizeBytes(|words|, |bits|, |key.leafVals|) {
      return false;
    }
    var at := CopyBlocks(dest, 0, [key.seed]);
    at := CopyBlocks(dest, at, words);
    assert dest[..at] == EncodeBlocks([key.seed]) + EncodeBlocks(words);
    at := CopyBits(dest, at, bits);
    assert dest[..at] == EncodeBlocks([key.seed]) + EncodeBlocks(words) + BitBytes(bits);
    at := CopyBlocks(dest, at, key.leafVals);
    ok := true;
  }

  function Decoded(n: nat, depth: nat, leafVals: nat, src: seq<Byte>): (key: RegularDpfKey)
    requires |src| == SizeBytes(Total(depth, n), Total(depth, n), leafVals)
    ensures |key.correctionWords| == |key.correctionBits| == depth && |key.leafVals| == leafVals
  {
    var cells := Total(depth, n);
    var seed, rest := src[..16], src[16..];
    var words, rest' := rest[..16 * cells], rest[16 * cells..];
    var bits, leaf := rest'[..cells], rest'[cells..];
    RegularDpfKey(BlockOfBytes(seed), Unflatten(depth, n, DecodeBlocks(cells, words)), Unflatten(depth, n, BitsOfBytes(bits)),
                  DecodeBlocks(leafVals, leaf))
  }

  lemma {:induction false} DecodedBlock(n: nat, s: seq<Byte>, i: nat)
    requires |s| == 16 * n && i < n
    ensures DecodeBlocks(n, s)[i] == BlockOfBytes(s[16 * i..16 * i + 16])
  {
    hide BlockOfBytes;
    if i > 0 {
      DecodedBlock(n - 1, s[16..], i - 1);
      assert s[16..][16 * (i - 1)..16 * (i - 1) + 16] == s[16 * i..16 * i + 16];
    }
  }

  // Reads n blocks from position at on.
  method BlocksFrom(src: array<Byte>, at: nat, n: nat) returns (b: seq<Block>, next: nat)
    requires at + 16 * n <= src.Length
    ensures next == at + 16 * n && b == DecodeBlocks(n, src[at..next])
  {
    hide DecodeBlocks, BlockOfBytes;
    ghost var s := src[at..at + 16 * n];
    b := [];
    var i := 0;
    while i < n
      invariant i <= n && b == DecodeBlocks(n, s)[..i]
    {
      DecodedBlock(n, s, i);
      assert s[16 * i..16 * i + 16] == src[at + 16 * i..at + 16 * i + 16];
      b := b + [BlockOfBytes(src[at + 16 * i..at + 16 * i + 16])];
      i := i + 1;
    }
    next := at + 16 * n;
  }

  method BitsFrom(src: array<Byte>, at: nat, n: nat) returns (b: seq<bool>, next: nat)
    requires at + n <= src.Length
    ensures next == at + n && b == BitsOfBytes(src[at..next])
  {
    b := [];
    var i := 0;
    while i < n
      invariant i <= n && b == BitsOfBytes(src[at..at + n])[..i]
    {
      b := b + [src[at + i][0]];
      i := i + 1;
    }
    next := at + n;
  }

  lemma BlockDecoded(n: nat, s: seq<Byte>, i: nat)
    requires |s| == 16 * n && i < n
    ensures HoldsBlock(s, 16 * i, DecodeBlocks(n, s)[i])
  {
    hide DecodeBlocks;
    DecodedBlock(n, s, i);
    var b, x := BlockOfBytes(s[16 * i..16 * i + 16]), s[16 * i..16 * i + 16];
    forall p {:trigger s[p]} | 16 * i <= p < 16 * i + 16
      ensures s[p] == b.bits[8 * (p - 16 * i)..8 * (p - 16 * i) + 8]
    {
      ByteOfBlock(x, p - 16 * i);
    }
  }

  lemma ByteOfBlock(x: seq<Byte>, j: nat)
    requires |x| == 16 && j < 16
    ensures x[j] == BlockOfBytes(x).bits[8 * j..8 * j + 8]
  {
    forall i | 0 <= i < 8
      ensures x[j][i] == BlockOfBytes(x).bits[8 * j + i]
    {
      assert (8 * j + i) / 8 == j && (8 * j + i) % 8 == i;
    }
  }

  // The parts of a decoded key of c cells.
  lemma Parts(n: nat, depth: nat, leafVals: nat, s: seq<Byte>, c: nat)
    requires c == Total(depth, n) == depth * n && |s| == SizeBytes(c, c, leafVals)
    ensures var key := Decoded(n, depth, leafVals, s);
            && key.seed == DecodeBlocks(1, s[0..16])[0]
            && key.correctionWords == Unflatten(depth, n, DecodeBlocks(c, s[16..16 + 16 * c]))
            && key.correctionBits == Unflatten(depth, n, BitsOfBytes(s[16 + 16 * c..16 + 17 * c]))
            && key.leafVals == DecodeBlocks(leafVals, s[16 + 17 * c..|s|])
  {
    hide DecodeBlocks, BlockOfBytes, Unflatten, BitsOfBytes;
    Spans(s, 16 * c, c);
    assert s[0..16] == s[..16] && s[16 + 17 * c..|s|] == s[16 + 17 * c..];
    OneDecoded(s[..16]);
  }

  lemma WordDecoded(n: nat, depth: nat, leafVals: nat, s: seq<Byte>, t: nat, k: nat)
    requires |s| == SizeBytes(Total(depth, n), Total(depth, n), leafVals) && t < depth && k < n
    ensures var key := Decoded(n, depth, leafVals, s);
            && |key.correctionWords[t]| == |key.correctionBits[t]| == n
            && HoldsBlock(s, 16 + 16 * (t * n + k), key.correctionWords[t][k])
            && LowBitIs(s, 16 + 16 * (depth * n) + (t * n + k), key.correctionBits[t][k])
  {
    hide DecodeBlocks, Unflatten, BitsOfBytes, HoldsBlock, LowBitIs, Decoded, Total;
    var c, key := depth * n, Decoded(n, depth, leafVals, s);
    TotalIsProduct(depth, n);
    Parts(n, depth, leafVals, s, c);
    var words, bits := s[16..16 + 16 * c], s[16 + 16 * c..16 + 17 * c];
    UnflattenedCell(depth, n, DecodeBlocks(c, words), t, k);
    UnflattenedCell(depth, n, BitsOfBytes(bits), t, k);
    BlockDecoded(c, words, t * n + k);
    HeldInside(s, 16 * (t * n + k), key.correctionWords[t][k], 16, 16 + 16 * c);
    FlagDecoded(s, t * n + k, 16 + 16 * c, 16 + 17 * c);
  }

  lemma LeafDecoded(n: nat, depth: nat, leafVals: nat, s: seq<Byte>, k: nat)
    requires |s| == SizeBytes(Total(depth, n), Total(depth, n), leafVals) && k < leafVals
    ensures HoldsBlock(s, 16 + 17 * (depth * n) + 16 * k, Decoded(n, depth, leafVals, s).leafVals[k])
  {
    hide DecodeBlocks, Unflatten, BitsOfBytes, HoldsBlock, Decoded, Total;
    var c := depth * n;
    TotalIsProduct(depth, n);
    Parts(n, depth, leafVals, s, c);
    BlockDecoded(leafVals, s[16 + 17 * c..|s|], k);
    HeldInside(s, 16 * k, DecodeBlocks(leafVals, s[16 + 17 * c..|s|])[k], 16 + 17 * c, |s|);
  }

  lemma SeedDecoded(n: nat, depth: nat, leafVals: nat, s: seq<Byte>)
    requires |s| == SizeBytes(Total(depth, n), Total(depth, n), leafVals)
    ensures HoldsBlock(s, 0, Decoded(n, depth, leafVals, s).seed) && Sized(n, Decoded(n, depth, leafVals, s))
  {
    hide DecodeBlocks, Unflatten, BitsOfBytes, HoldsBlock, Decoded, Total;
    var c := depth * n;
    TotalIsProduct(depth, n);
    Parts(n, depth, leafVals, s, c);
    BlockDecoded(1, s[0..16], 0);
    HeldInside(s, 0, DecodeBlocks(1, s[0..16])[0], 0, 16);
    UnflattenedRows(depth, n, DecodeBlocks(c, s[16..16 + 16 * c]));
    UnflattenedRows(depth, n, BitsOfBytes(s[16 + 16 * c..16 + 17 * c]));
  }

  // The decoded key, byte by byte.
  lemma DecodedSpelt(n: nat, depth: nat, leafVals: nat, s: seq<Byte>)
    requires |s| == SizeBytes(Total(depth, n), Total(depth, n), leafVals)
    ensures var key := Decoded(n, depth, leafVals, s);
            && Sized(n, key)
            && HoldsBlock(s, 0, key.seed)
            && (forall t, k {:trigger key.correctionWords[t][k]} :: 0 <= t < depth && 0 <= k < n ==>
                  HoldsBlock(s, 16 + 16 * (t * n + k), key.correctionWords[t][k]))
            && (forall t, k {:trigger key.correctionBits[t][k]} :: 0 <= t < depth && 0 <= k < n ==>
                  LowBitIs(s, 16 + 16 * (depth * n) + (t * n + k), key.correctionBits[t][k]))
            && (forall k {:trigger key.leafVals[k]} :: 0 <= k < leafVals ==>
                  HoldsBlock(s, 16 + 17 * (depth * n) + 16 * k, key.leafVals[k]))
  {
    hide HoldsBlock, LowBitIs, Decoded, Total;
    SeedDecoded(n, depth, leafVals, s);
    var key := Decoded(n, depth, leafVals, s);
    forall t, k | 0 <= t < depth && 0 <= k < n
      ensures HoldsBlock(s, 16 + 16 * (t * n + k), key.correctionWords[t][k])
      ensures LowBitIs(s, 16 + 16 * (depth * n) + (t * n + k), key.correctionBits[t][k])
    {
      WordDecoded(n, depth, leafVals, s, t, k);
    }
    forall k | 0 <= k < leafVals
      ensures HoldsBlock(s, 16 + 17 * (depth * n) + 16 * k, key.leafVals[k])
    {
      LeafDecoded(n, depth, leafVals, s, k);
    }
  }

  lemma FlagDecoded(s: seq<Byte>, i: nat, lo: nat, hi: nat)
    requires lo <= hi <= |s| && i < hi - lo
    ensures LowBitIs(s, lo + i, BitsOfBytes(s[lo..hi])[i])
  {
  }

  lemma {:induction false} UnflattenedRows<T>(rows: nat, n: nat, s: seq<T>)
    requires |s| == Total(rows, n)
    ensures forall t {:trigger Unflatten(rows, n, s)[t]} :: 0 <= t < rows ==> |Unflatten(rows, n, s)[t]| == n
  {
    if rows > 0 {
      UnflattenedRows(rows - 1, n, s[n..]);
    }
  }

  // fromBytes into a key with depth rows of n entries and the given number of leaf values.
  method FromBytes(n: nat, depth: nat, leafVals: nat, src: array<Byte>) returns (ok: bool, key: RegularDpfKey)
    ensures ok <==> src.Length == 16 * (1 + depth * n + leafVals) + depth * n
    ensures src.Length == SizeBytes(Total(depth, n), Total(depth, n), leafVals) ==> ok && key == Decoded(n, depth, leafVals, src[..])
    ensures ok ==> Sized(n, key) && |key.correctionWords| == depth && |key.leafVals| == leafVals
    ensures ok ==> HoldsBlock(src[..], 0, key.seed)
    ensures ok ==> forall t, k {:trigger key.correctionWords[t][k]} :: 0 <= t < depth && 0 <= k < n ==>
      HoldsBlock(src[..], 16 + 16 * (t * n + k), key.correctionWords[t][k])
    ensures ok ==> forall t, k {:trigger key.correctionBits[t][k]} :: 0 <= t < depth && 0 <= k < n ==>
      LowBitIs(src[..], 16 + 16 * (depth * n) + (t * n + k), key.correctionBits[t][k])
    ensures ok ==> forall k {:trigger key.leafVals[k]} :: 0 <= k < |key.leafVals| ==>
      HoldsBlock(src[..], 16 + 17 * (depth * n) + 16 * k, key.leafVals[k])
  {
    hide HoldsBlock, LowBitIs, Sized;
    TotalIsProduct(depth, n);
    if src.Length == SizeBytes(Total(depth, n), Total(depth, n), leafVals) {
      DecodedSpelt(n, depth, leafVals, src[..]);
    }
    hide DecodeBlocks, BlockOfBytes, BitsOfBytes, Unflatten, Total;
    key := RegularDpfKey(ZERO, [], [], []);
    var cells := Total(depth, n);
    if src.Length != SizeBytes(cells, cells, leafVals) {
      return false, key;
    }
    var seed, at := BlocksFrom(src, 0, 1);
    var words, bits, leaf;
    words, at := BlocksFrom(src, at, cells);
    bits, at := BitsFrom(src, at, cells);
    leaf, at := BlocksFrom(src, at, leafVals);
    ghost var s := src[..];
    OneDecoded(s[..16]);
    Spans(s, 16 * cells, cells);
    Slice(src, 0, 16);
    Slice(src, 16, 16 + 16 * cells);
    Slice(src, 16 + 16 * cells, 16 + 16 * cells + cells);
    Slice(src, 16 + 16 * cells + cells, at);
    assert s[0..16] == s[..16] && s[16 + 16 * cells + cells..at] == s[16 + 16 * cells + cells..];
    key := RegularDpfKey(seed[0], Unflatten(depth, n, words), Unflatten(depth, n, bits), leaf);
    ok := true;
  }

  lemma Slice(a: array<Byte>, lo: nat, hi: nat)
    requires lo <= hi <= a.Length
    ensures a[lo..hi] == a[..][lo..hi]
  {
  }

  lemma OneDecoded(s: seq<Byte>)
    requires |s| == 16
    ensures DecodeBlocks(1, s)[0] == BlockOfBytes(s)
  {
    hide BlockOfBytes;
    assert s[..16] == s;
  }

  lemma Spans(s: seq<Byte>, w: nat, c: nat)
    requires 16 + w + c <= |s|
    ensures s[16..][..w] == s[16..16 + w] && s[16..][w..][..c] == s[16 + w..16 + w + c] && s[16..][w..][c..] == s[16 + w + c..]
  {
  }

  // ---------- the round trip ----------

  lemma BlockRoundTrip(b: Block)
    ensures BlockOfBytes(BlockBytes(b)) == b
  {
    assert BlockOfBytes(BlockBytes(b)).bits == b.bits;
  }

  lemma {:induction false} BlocksRoundTrip(b: seq<Block>)
    ensures DecodeBlocks(|b|, EncodeBlocks(b)) == b
  {
    hide BlockBytes, BlockOfBytes;
    if |b| > 0 {
      var s := EncodeBlocks(b);
      assert s[..16] == BlockBytes(b[0]) && s[16..] == EncodeBlocks(b[1..]);
      BlockRoundTrip(b[0]);
      BlocksRoundTrip(b[1..]);
    }
  }

  lemma BitsRoundTrip(b: seq<bool>)
    ensures BitsOfBytes(BitBytes(b)) == b
  {
  }

  lemma {:induction false} MatrixRoundTrip<T>(n: nat, m: seq<seq<T>>)
    requires forall t {:trigger m[t]} :: 0 <= t < |m| ==> |m[t]| == n
    ensures |Flatten(m)| == Total(|m|, n) && Unflatten(|m|, n, Flatten(m)) == m
  {
    if |m| > 0 {
      MatrixRoundTrip(n, m[1..]);
      var s := Flatten(m);
      assert s[..n] == m[0] && s[n..] == Flatten(m[1..]);
    }
  }

  // fromBytes undoes toBytes, for keys of the same shape.
  lemma KeyRoundTrip(n: nat, key: RegularDpfKey)
    requires Sized(n, key)
    ensures |Encoding(key)| == SizeBytes(Total(|key.correctionWords|, n), Total(|key.correctionWords|, n), |key.leafVals|)
    ensures Decoded(n, |key.correctionWords|, |key.leafVals|, Encoding(key)) == key
  {
    hide BlockBytes, BlockOfBytes, BitBytes, BitsOfBytes, DecodeBlocks, Unflatten, Flatten, Total;
    var depth, cells := |key.correctionWords|, Total(|key.correctionWords|, n);
    MatrixRoundTrip(n, key.correctionWords);
    MatrixRoundTrip(n, key.correctionBits);
    BlocksRoundTrip(Flatten(key.correctionWords));
    BlocksRoundTrip(key.leafVals);
    BitsRoundTrip(Flatten(key.correctionBits));
    BlockRoundTrip(key.seed);
    Pieces(EncodeBlocks([key.seed]), EncodeBlocks(Flatten(key.correctionWords)), BitBytes(Flatten(key.correctionBits)),
           EncodeBlocks(key.leafVals));
    OneBlock(key.seed);
  }

  lemma OneBlock(b: Block)
    ensures EncodeBlocks([b]) == BlockBytes(b)
  {
    hide BlockBytes;
    assert [b][1..] == [];
  }

  lemma Pieces<T>(a: seq<T>, b: seq<T>, c: seq<T>, d: seq<T>)
    ensures var s := a + b + c + d;
            && s[..|a|] == a && s[|a|..][..|b|] == b && s[|a|..][|b|..][..|c|] == c && s[|a|..][|b|..][|c|..] == d
  {
  }

  // A key written to a buffer of its size and read back from it.
  method WriteAndRead(n: nat, key: RegularDpfKey, buffer: array<Byte>) returns (ok: bool, read: RegularDpfKey)
    requires Sized(n, key)
    modifies buffer
    ensures ok <==> buffer.Length == 16 * (1 + |key.correctionWords| * n + |key.leafVals|) + |key.correctionWords| * n
    ensures ok ==> read == key
  {
    hide Total, Flatten, Encoding, Decoded, HoldsBlock, HoldsFlag, LowBitIs;
    TotalIsProduct(|key.correctionWords|, n);
    MatrixRoundTrip(n, key.correctionWords);
    MatrixRoundTrip(n, key.correctionBits);
    KeyRoundTrip(n, key);
    read := key;
    ok := ToBytes(key, buffer, n);
    if ok {
      ok, read := FromBytes(n, |key.correctionWords|, |key.leafVals|, buffer);
    }
  }
}

/**
 The table-driven encoder of LinearCode.cpp (lines 229 to 309, 447 to 707 and 709 to 804):
 five code paths, chosen by the width of the table rows, against the plain product of the
 plaintext with the generator matrix.
 */
module LinearCode {
  import opened Blocks
  import opened CodeTable

  type Byte = n: nat | n < 256

  // sLinearCodePlainTextMaxSize
  const MAX_PLAINTEXT := 64

  // ---------- the sum over all bytes ----------

  // The table has entries for the given number of bytes, a multiple of eight that fits the
  // local byte buffer.
  ghost predicate TableFits(g8: seq<Block>, p: nat, bytes: nat, view: seq<Byte>) {
    p > 0 && |g8| == bytes * 256 * p && bytes % 8 == 0 && bytes <= |view| == MAX_PLAINTEXT
  }

  lemma Inside(g8: seq<Block>, p: nat, bytes: nat, view: seq<Byte>, i: nat, v: nat, word: nat)
    requires TableFits(g8, p, bytes, view) && i < bytes && v < 256 && word < p
    ensures (256 * i + v) * p + word < |g8|
  {
    CellIndex(p, 256 * i + v, word, bytes * 256);
  }

  // Word `word` of the sum of the entries of the first n bytes.
  ghost function Total(g8: seq<Block>, p: nat, bytes: nat, view: seq<Byte>, word: nat, n: nat): Block
    requires TableFits(g8, p, bytes, view) && n <= bytes && word < p
  {
    if n == 0 then ZERO
    else
      Inside(g8, p, bytes, view, n - 1, view[n - 1], word);
      Xor(Total(g8, p, bytes, view, word, n - 1), Lookup(g8, p, n - 1, view[n - 1], word))
  }

  lemma TotalNext(g8: seq<Block>, p: nat, bytes: nat, view: seq<Byte>, word: nat, n: nat)
    requires TableFits(g8, p, bytes, view) && n < bytes && word < p
    ensures (256 * n + view[n]) * p + word < |g8|
    ensures Total(g8, p, bytes, view, word, n + 1) == Xor(Total(g8, p, bytes, view, word, n), Lookup(g8, p, n, view[n], word))
  {
    Inside(g8, p, bytes, view, n, view[n], word);
  }

  // ---------- eight accumulators ----------

  type Blocks8 = c: seq<Block> | |c| == 8 witness seq(8, _ => ZERO)

  // c[x] = c[x] ^ t[x]
  function XorAll(c: Blocks8, t: Blocks8): Blocks8 {
    seq<Block>(8, x requires 0 <= x < 8 => Xor(c[x], t[x]))
  }

  // c[x] = c[x] ^ c[x + h] for x < h
  function FoldHalf(c: Blocks8, h: nat): Blocks8
    requires h <= 4
  {
    seq<Block>(8, x requires 0 <= x < 8 => if x < h then Xor(c[x], c[x + h]) else c[x])
  }

  function Sum4(a: Block, b: Block, c: Block, d: Block): Block {
    Xor(Xor(a, b), Xor(c, d))
  }

  function Sum8(c: Blocks8): Block {
    Xor(Sum4(c[0], c[4], c[2], c[6]), Sum4(c[1], c[5], c[3], c[7]))
  }

  lemma Sum4Adds(a: Block, b: Block, c: Block, d: Block, a': Block, b': Block, c': Block, d': Block)
    ensures Sum4(Xor(a, a'), Xor(b, b'), Xor(c, c'), Xor(d, d')) == Xor(Sum4(a, b, c, d), Sum4(a', b', c', d'))
  {
    hide Xor;
    XorSwap(a, a', b, b');
    XorSwap(c, c', d, d');
    XorSwap(Xor(a, b), Xor(a', b'), Xor(c, d), Xor(c', d'));
  }

  lemma Sum8Adds(c: Blocks8, t: Blocks8)
    ensures Sum8(XorAll(c, t)) == Xor(Sum8(c), Sum8(t))
  {
    hide Xor, Sum4;
    Sum4Adds(c[0], c[4], c[2], c[6], t[0], t[4], t[2], t[6]);
    Sum4Adds(c[1], c[5], c[3], c[7], t[1], t[5], t[3], t[7]);
    XorSwap(Sum4(c[0], c[4], c[2], c[6]), Sum4(t[0], t[4], t[2], t[6]), Sum4(c[1], c[5], c[3], c[7]), Sum4(t[1], t[5], t[3], t[7]));
  }

  lemma InOrder4(s: Block, a: Block, b: Block, c: Block, d: Block)
    ensures Xor(Xor(Xor(Xor(s, a), b), c), d) == Xor(s, Sum4(a, c, b, d))
  {
    hide Xor;
    XorAssoc(s, a, b);
    XorAssoc(Xor(s, Xor(a, b)), c, d);
    XorAssoc(s, Xor(a, b), Xor(c, d));
    XorSwap(a, b, c, d);
  }

  lemma InOrder8(s: Block, t: Blocks8)
    ensures Xor(Xor(Xor(Xor(Xor(Xor(Xor(Xor(s, t[0]), t[1]), t[2]), t[3]), t[4]), t[5]), t[6]), t[7]) == Xor(s, Sum8(t))
  {
    hide Xor, Sum4;
    InOrder4(s, t[0], t[1], t[2], t[3]);
    InOrder4(Xor(s, Sum4(t[0], t[2], t[1], t[3])), t[4], t[5], t[6], t[7]);
    XorAssoc(s, Sum4(t[0], t[2], t[1], t[3]), Sum4(t[4], t[6], t[5], t[7]));
    Regroup(t);
  }

  lemma Regroup(t: Blocks8)
    ensures Xor(Sum4(t[0], t[2], t[1], t[3]), Sum4(t[4], t[6], t[5], t[7])) == Sum8(t)
  {
    hide Xor;
    XorSwap(Xor(t[0], t[2]), Xor(t[1], t[3]), Xor(t[4], t[6]), Xor(t[5], t[7]));
    XorSwap(t[0], t[2], t[4], t[6]);
    XorSwap(t[1], t[3], t[5], t[7]);
  }

  lemma SumsOfZero()
    ensures Xor(ZERO, ZERO) == ZERO && Sum4(ZERO, ZERO, ZERO, ZERO) == ZERO
    ensures Sum8(seq<Block>(8, _ => ZERO)) == ZERO
  {
    hide Xor;
    XorZero(ZERO);
  }

  // ---------- the code paths ----------

  function Offset(k: nat, v: nat, codeSize: nat): nat {
    k + v * codeSize
  }

  // Rows of one block, eight bytes at a time.
  method Encode1(g8: seq<Block>, ghost bytes: nat, view: seq<Byte>, size: nat) returns (c: Blocks8)
    requires TableFits(g8, 1, bytes, view) && size <= bytes < size + 8
    ensures c[0] == Total(g8, 1, bytes, view, 0, bytes)
  {
    hide Xor, Total, Sum4;
    c := seq<Block>(8, _ => ZERO);
    SumsOfZero();
    TotalZero(g8, 1, bytes, view, 0);
    var k, i := 0, 0;
    while i < size
      invariant i <= bytes && i % 8 == 0 && k == 256 * i && Sum8(c) == Total(g8, 1, bytes, view, 0, i)
    {
      InsideEight(g8, bytes, view, i);
      var t: Blocks8 := [g8[k + view[i]], g8[k + 256 + view[i + 1]], g8[k + 512 + view[i + 2]], g8[k + 768 + view[i + 3]],
                         g8[k + 1024 + view[i + 4]], g8[k + 1280 + view[i + 5]], g8[k + 1536 + view[i + 6]], g8[k + 1792 + view[i + 7]]];
      TotalEight(g8, 1, bytes, view, 0, i, t);
      Sum8Adds(c, t);
      c := XorAll(c, t);
      k, i := k + 2048, i + 8;
    }
    ghost var sums := c;
    c := FoldHalf(c, 4);
    c := FoldHalf(c, 2);
    c := FoldHalf(c, 1);
    Folded1(sums);
  }

  lemma Folded1(c: Blocks8)
    ensures FoldHalf(FoldHalf(FoldHalf(c, 4), 2), 1)[0] == Sum8(c)
  {
    hide Xor;
  }

  lemma TotalZero(g8: seq<Block>, p: nat, bytes: nat, view: seq<Byte>, word: nat)
    requires TableFits(g8, p, bytes, view) && word < p
    ensures Total(g8, p, bytes, view, word, 0) == ZERO
  {
  }

  lemma InsideEight(g8: seq<Block>, bytes: nat, view: seq<Byte>, i: nat)
    requires TableFits(g8, 1, bytes, view) && i % 8 == 0 && i < bytes
    ensures i + 8 <= bytes && 256 * i + 2048 <= |g8|
  {
  }

  // Eight more bytes, each through its own table row.
  lemma TotalEight(g8: seq<Block>, p: nat, bytes: nat, view: seq<Byte>, word: nat, i: nat, t: Blocks8)
    requires TableFits(g8, p, bytes, view) && i + 8 <= bytes && word < p
    requires forall l {:trigger t[l]} :: 0 <= l < 8 ==> EntryIs(g8, p, bytes, view, word, i + l, t[l])
    ensures Total(g8, p, bytes, view, word, i + 8) == Xor(Total(g8, p, bytes, view, word, i), Sum8(t))
  {
    hide Xor, Total, Sum8, TableFits, Lookup;
    TotalBy(g8, p, bytes, view, word, i, t[0]);
    TotalBy(g8, p, bytes, view, word, i + 1, t[1]);
    TotalBy(g8, p, bytes, view, word, i + 2, t[2]);
    TotalBy(g8, p, bytes, view, word, i + 3, t[3]);
    TotalBy(g8, p, bytes, view, word, i + 4, t[4]);
    TotalBy(g8, p, bytes, view, word, i + 5, t[5]);
    TotalBy(g8, p, bytes, view, word, i + 6, t[6]);
    TotalBy(g8, p, bytes, view, word, i + 7, t[7]);
    InOrder8(Total(g8, p, bytes, view, word, i), t);
  }

  ghost predicate EntryIs(g8: seq<Block>, p: nat, bytes: nat, view: seq<Byte>, word: nat, i: nat, b: Block)
    requires TableFits(g8, p, bytes, view) && i < bytes && word < p
  {
    (256 * i + view[i]) * p + word < |g8| && Lookup(g8, p, i, view[i], word) == b
  }

  lemma TotalBy(g8: seq<Block>, p: nat, bytes: nat, view: seq<Byte>, word: nat, i: nat, b: Block)
    requires TableFits(g8, p, bytes, view) && i < bytes && word < p && EntryIs(g8, p, bytes, view, word, i, b)
    ensures Total(g8, p, bytes, view, word, i + 1) == Xor(Total(g8, p, bytes, view, word, i), b)
  {
    hide Xor, Total, Lookup;
    TotalNext(g8, p, bytes, view, word, i);
  }

  // Rows of two blocks, four bytes at a time.
  method Encode2(g8: seq<Block>, ghost bytes: nat, view: seq<Byte>) returns (c: Blocks8)
    requires TableFits(g8, 2, bytes, view)
    ensures c[0] == Total(g8, 2, bytes, view, 0, bytes) && c[1] == Total(g8, 2, bytes, view, 1, bytes)
  {
    hide Xor, Total, Sum4;
    c := seq<Block>(8, _ => ZERO);
    SumsOfZero();
    TotalZero(g8, 2, bytes, view, 0);
    TotalZero(g8, 2, bytes, view, 1);
    var kStop := |g8| / 8 * 8;
    var k, i := 0, 0;
    while k < kStop
      invariant i <= bytes && i % 4 == 0 && k == 512 * i
      invariant Sum4(c[0], c[4], c[2], c[6]) == Total(g8, 2, bytes, view, 0, i)
      invariant Sum4(c[1], c[5], c[3], c[7]) == Total(g8, 2, bytes, view, 1, i)
      decreases kStop - k
    {
      var g0, g1 := Offset(k, view[i], 2), Offset(k + 512, view[i + 1], 2);
      var g2, g3 := Offset(k + 1024, view[i + 2], 2), Offset(k + 1536, view[i + 3], 2);
      var t: Blocks8 := [g8[g0], g8[g0 + 1], g8[g1], g8[g1 + 1], g8[g2], g8[g2 + 1], g8[g3], g8[g3 + 1]];
      TotalFour(g8, 2, bytes, view, 0, i, t[0], t[2], t[4], t[6]);
      TotalFour(g8, 2, bytes, view, 1, i, t[1], t[3], t[5], t[7]);
      Sum4Adds(c[0], c[4], c[2], c[6], t[0], t[4], t[2], t[6]);
      Sum4Adds(c[1], c[5], c[3], c[7], t[1], t[5], t[3], t[7]);
      c := XorAll(c, t);
      k, i := k + 2048, i + 4;
    }
    ghost var sums := c;
    c := FoldHalf(c, 4);
    c := FoldHalf(c, 2);
    Folded2(sums);
  }

  lemma Folded2(c: Blocks8)
    ensures var r := FoldHalf(FoldHalf(c, 4), 2); r[0] == Sum4(c[0], c[4], c[2], c[6]) && r[1] == Sum4(c[1], c[5], c[3], c[7])
  {
    hide Xor;
  }

  lemma TotalFour(g8: seq<Block>, p: nat, bytes: nat, view: seq<Byte>, word: nat, i: nat, a: Block, b: Block, c: Block, d: Block)
    requires TableFits(g8, p, bytes, view) && i + 4 <= bytes && word < p
    requires EntryIs(g8, p, bytes, view, word, i, a) && EntryIs(g8, p, bytes, view, word, i + 1, b)
    requires EntryIs(g8, p, bytes, view, word, i + 2, c) && EntryIs(g8, p, bytes, view, word, i + 3, d)
    ensures Total(g8, p, bytes, view, word, i + 4) == Xor(Total(g8, p, bytes, view, word, i), Sum4(a, c, b, d))
  {
    hide Xor, Total, TableFits, Lookup, EntryIs;
    TotalBy(g8, p, bytes, view, word, i, a);
    TotalBy(g8, p, bytes, view, word, i + 1, b);
    TotalBy(g8, p, bytes, view, word, i + 2, c);
    TotalBy(g8, p, bytes, view, word, i + 3, d);
    InOrder4(Total(g8, p, bytes, view, word, i), a, b, c, d);
  }

  // Rows of four blocks, two bytes at a time.
  method Encode4(g8: seq<Block>, ghost bytes: nat, view: seq<Byte>) returns (c: Blocks8)
    requires TableFits(g8, 4, bytes, view)
    ensures forall word {:trigger c[word]} :: 0 <= word < 4 ==> c[word] == Total(g8, 4, bytes, view, word, bytes)
  {
    hide Xor, Total;
    c := ClearSums(g8, bytes, view);
    var kStop := |g8| / 8 * 8;
    var k, i := 0, 0;
    while k < kStop
      invariant i <= bytes && i % 2 == 0 && k == 1024 * i && PairSums(c, g8, bytes, view, i)
      decreases kStop - k
    {
      c := AddPair(c, g8, bytes, view, k, view[i], view[i + 1], i);
      k, i := k + 2048, i + 2;
    }
    c := FoldHalf(c, 4);
  }

  // The two halves of c add up to the first n bytes.
  ghost predicate PairSums(c: Blocks8, g8: seq<Block>, bytes: nat, view: seq<Byte>, n: nat)
    requires TableFits(g8, 4, bytes, view) && n <= bytes
  {
    forall word {:trigger c[word]} :: 0 <= word < 4 ==> Xor(c[word], c[word + 4]) == Total(g8, 4, bytes, view, word, n)
  }

  method ClearSums(g8: seq<Block>, ghost bytes: nat, ghost view: seq<Byte>) returns (c: Blocks8)
    requires TableFits(g8, 4, bytes, view)
    ensures PairSums(c, g8, bytes, view, 0)
  {
    hide Xor;
    c := seq<Block>(8, _ => ZERO);
    SumsOfZero();
  }

  // Two more bytes v and u, whose entries start at k.
  method AddPair(c: Blocks8, g8: seq<Block>, ghost bytes: nat, ghost view: seq<Byte>, k: nat, v: Byte, u: Byte, ghost i: nat)
    returns (sums: Blocks8)
    requires TableFits(g8, 4, bytes, view) && i + 2 <= bytes && k == 1024 * i && v == view[i] && u == view[i + 1]
    requires PairSums(c, g8, bytes, view, i)
    ensures PairSums(sums, g8, bytes, view, i + 2)
  {
    hide Xor, Total, Lookup, EntryIs;
    var g0, g1 := Offset(k, v, 4), Offset(k + 1024, u, 4);
    var t: Blocks8 := [g8[g0], g8[g0 + 1], g8[g0 + 2], g8[g0 + 3], g8[g1], g8[g1 + 1], g8[g1 + 2], g8[g1 + 3]];
    sums := XorAll(c, t);
    forall word: nat {:trigger sums[word]} | word < 4
      ensures Xor(sums[word], sums[word + 4]) == Total(g8, 4, bytes, view, word, i + 2)
    {
      FourWide(g8, bytes, view, i, word);
      FourWide(g8, bytes, view, i + 1, word);
      TotalTwo(g8, 4, bytes, view, word, i, t[word], t[word + 4]);
      XorSwap(c[word], t[word], c[word + 4], t[word + 4]);
    }
  }

  lemma FourWide(g8: seq<Block>, bytes: nat, view: seq<Byte>, i: nat, word: nat)
    requires TableFits(g8, 4, bytes, view) && i < bytes && word < 4
    ensures Offset(1024 * i, view[i], 4) + word < |g8| && EntryIs(g8, 4, bytes, view, word, i, g8[Offset(1024 * i, view[i], 4) + word])
  {
  }

  lemma TotalTwo(g8: seq<Block>, p: nat, bytes: nat, view: seq<Byte>, word: nat, i: nat, a: Block, b: Block)
    requires TableFits(g8, p, bytes, view) && i + 2 <= bytes && word < p
    requires EntryIs(g8, p, bytes, view, word, i, a) && EntryIs(g8, p, bytes, view, word, i + 1, b)
    ensures Total(g8, p, bytes, view, word, i + 2) == Xor(Total(g8, p, bytes, view, word, i), Xor(a, b))
  {
    hide Xor, Total, TableFits, Lookup, EntryIs;
    TotalBy(g8, p, bytes, view, word, i, a);
    TotalBy(g8, p, bytes, view, word, i + 1, b);
    XorAssoc(Total(g8, p, bytes, view, word, i), a, b);
  }

  // Rows of eight blocks, one byte at a time.
  method Encode8(g8: seq<Block>, ghost bytes: nat, view: seq<Byte>) returns (c: Blocks8)
    requires TableFits(g8, 8, bytes, view)
    ensures forall word {:trigger c[word]} :: 0 <= word < 8 ==> c[word] == Total(g8, 8, bytes, view, word, bytes)
  {
    hide Xor, Total;
    c := seq<Block>(8, _ => ZERO);
    forall word: nat {:trigger c[word]} | word < 8
      ensures c[word] == Total(g8, 8, bytes, view, word, 0)
    {
      TotalZero(g8, 8, bytes, view, word);
    }
    var kStop := |g8| / 8 * 8;
    var k, i := 0, 0;
    while k < kStop
      invariant i <= bytes && k == 2048 * i
      invariant forall word {:trigger c[word]} :: 0 <= word < 8 ==> c[word] == Total(g8, 8, bytes, view, word, i)
      decreases kStop - k
    {
      var g0 := Offset(k, view[i], 8);
      var t: Blocks8 := g8[g0..g0 + 8];
      ghost var before := c;
      c := XorAll(c, t);
      forall word: nat {:trigger c[word]} | word < 8
        ensures c[word] == Total(g8, 8, bytes, view, word, i + 1)
      {
        TotalBy(g8, 8, bytes, view, word, i, t[word]);
      }
      k, i := k + 2048, i + 1;
    }
  }

  // One word of wider rows, eight bytes at a time.
  method EncodeWord(g8: seq<Block>, p: nat, ghost bytes: nat, view: seq<Byte>, superRows: nat, word: nat) returns (sum: Block)
    requires TableFits(g8, p, bytes, view) && 8 * superRows == bytes && word < p
    ensures sum == Total(g8, p, bytes, view, word, bytes)
  {
    hide Xor, Total, Sum8, Lookup;
    var c: Blocks8 := seq<Block>(8, _ => ZERO);
    SumsOfZero();
    TotalZero(g8, p, bytes, view, word);
    for i := 0 to superRows
      invariant Sum8(c) == Total(g8, p, bytes, view, word, 8 * i)
    {
      var t := EightEntries(g8, p, bytes, view, 8 * i, word);
      TotalEight(g8, p, bytes, view, word, 8 * i, t);
      Sum8Adds(c, t);
      c := XorAll(c, t);
    }
    PairsFirst(c);
    sum := Xor(Xor(Xor(c[0], c[1]), Xor(c[2], c[3])), Xor(Xor(c[4], c[5]), Xor(c[6], c[7])));
  }

  lemma PairsFirst(c: Blocks8)
    ensures Xor(Xor(Xor(c[0], c[1]), Xor(c[2], c[3])), Xor(Xor(c[4], c[5]), Xor(c[6], c[7]))) == Sum8(c)
  {
    hide Xor;
    XorSwap(c[0], c[1], c[2], c[3]);
    XorSwap(c[4], c[5], c[6], c[7]);
    Regroup(c);
  }

  method EightEntries(g8: seq<Block>, p: nat, ghost bytes: nat, view: seq<Byte>, i: nat, word: nat) returns (t: Blocks8)
    requires TableFits(g8, p, bytes, view) && i + 8 <= bytes && word < p
    ensures forall l {:trigger t[l]} :: 0 <= l < 8 ==> EntryIs(g8, p, bytes, view, word, i + l, t[l])
  {
    hide Lookup;
    var s: seq<Block> := [];
    for l := 0 to 8
      invariant |s| == l
      invariant forall q {:trigger s[q]} :: 0 <= q < l ==> EntryIs(g8, p, bytes, view, word, i + q, s[q])
    {
      Inside(g8, p, bytes, view, i + l, view[i + l], word);
      s := s + [Lookup(g8, p, i + l, view[i + l], word)];
    }
    t := s;
  }

  // ---------- the sum is the product ----------

  // Whatever follows the plaintext in the byte buffer, the sum is the sum of the generator
  // rows that the plaintext selects.
  lemma {:induction false} TotalIsPlain(g: seq<Block>, w: nat, p: nat, g8: seq<Block>, bytes: nat, view: seq<Byte>, x: seq<Byte>, word: nat,
                                        n: nat)
    requires 0 < w <= p && TableFits(g8, p, bytes, view) && Stage(g, w, p, g8, bytes, 0, 0) && n <= bytes && word < w
    requires Rows(g, w) <= 8 * |x| && |x| <= |view| && forall i {:trigger view[i]} :: 0 <= i < |x| ==> view[i] == x[i]
    ensures Total(g8, p, bytes, view, word, n) == Plain(g, w, x, word, 8 * n)
  {
    if n == 0 {
      NothingSummed(g, w, p, g8, bytes, view, x, word);
    } else {
      hide Xor, Total, Part, Plain, Stage, Rows, Lookup, TableFits;
      TotalIsPlain(g, w, p, g8, bytes, view, x, word, n - 1);
      TotalNext(g8, p, bytes, view, word, n - 1);
      LookupIsPart(g, w, p, g8, bytes, n - 1, view[n - 1], word);
      PlainByte(g, w, x, word, n - 1, view[n - 1], 8);
    }
  }

  lemma NothingSummed(g: seq<Block>, w: nat, p: nat, g8: seq<Block>, bytes: nat, view: seq<Byte>, x: seq<Byte>, word: nat)
    requires 0 < w <= p && TableFits(g8, p, bytes, view) && word < w
    ensures Total(g8, p, bytes, view, word, 0) == Plain(g, w, x, word, 0)
  {
    hide Stage, Rows, Lookup;
  }

  // ---------- codewords ----------

  // Byte k of a span of blocks.
  function ByteOf(c: seq<Block>, k: nat): (b: Word)
    requires k < 16 * |c|
    ensures |b| == 8
  {
    c[k / 16].bits[k % 16 * 8..k % 16 * 8 + 8]
  }

  // The first `size` bytes are those of the blocks, the others are unchanged.
  ghost predicate Holds(before: seq<Word>, now: seq<Word>, size: nat, c: seq<Block>) {
    size <= |before| == |now| && size <= 16 * |c|
    && forall k {:trigger now[k]} :: 0 <= k < |now| ==> now[k] == if k < size then ByteOf(c, k) else before[k]
  }

  // memcpy(codeword + at, c, n)
  method CopyOut(codeword: array<Word>, at: nat, c: seq<Block>, n: nat)
    requires n <= 16 * |c| && at + n <= codeword.Length
    modifies codeword
    ensures forall k {:trigger codeword[k]} :: 0 <= k < codeword.Length ==>
      codeword[k] == if at <= k < at + n then ByteOf(c, k - at) else old(codeword[k])
  {
    hide ByteOf;
    for i := 0 to n
      invariant forall k {:trigger codeword[k]} :: 0 <= k < codeword.Length ==>
        codeword[k] == if at <= k < at + i then ByteOf(c, k - at) else old(codeword[k])
    {
      codeword[at + i] := ByteOf(c, i);
    }
  }

  // The codeword of a plaintext: plaintext times generator matrix.
  ghost function Product(g: seq<Block>, w: nat, x: seq<Byte>): (c: seq<Block>)
    requires w > 0
    ensures |c| == w
  {
    seq(w, word requires 0 <= word < w => Plain(g, w, x, word, Rows(g, w)))
  }

  class LinearCode {
    var codewordBitSize: nat
    var g: seq<Block>
    var g8: seq<Block>
    var u8RowCount: nat
    var pow2CodeSize: nat
    var plaintextU8Size: nat

    constructor (bits: nat, matrix: seq<Block>)
      ensures codewordBitSize == bits && g == matrix
    {
      codewordBitSize, g, g8 := bits, matrix, [];
      u8RowCount, pow2CodeSize, plaintextU8Size := 0, 0, 0;
    }

    function CodewordBlkSize(): nat
      reads this
    {
      (codewordBitSize + 127) / 128
    }

    function CodewordU8Size(): (n: nat)
      reads this
      ensures n <= 16 * CodewordBlkSize()
    {
      (codewordBitSize + 7) / 8
    }

    function PlaintextBitSize(): nat
      requires codewordBitSize > 0
      reads this
    {
      Rows(g, CodewordBlkSize())
    }

    // roundUpTo(mod8RowCount, 8)
    function TableBytes(): nat
      reads this
    {
      (plaintextU8Size + 7) / 8 * 8
    }

    // The table has been generated.
    ghost predicate Ready()
      reads this
    {
      && codewordBitSize > 0 && plaintextU8Size == u8RowCount == (PlaintextBitSize() + 7) / 8 <= MAX_PLAINTEXT
      && CodewordBlkSize() <= pow2CodeSize && (pow2CodeSize > 8 ==> pow2CodeSize == CodewordBlkSize())
      && pow2CodeSize !in {3, 5, 6, 7}
      && |g8| == TableBytes() * 256 * pow2CodeSize && Stage(g, CodewordBlkSize(), pow2CodeSize, g8, TableBytes(), 0, 0)
    }

    // The result tells whether the call returns normally.
    method GenerateMod8Table() returns (ok: bool)
      requires codewordBitSize > 0
      modifies this
      ensures unchanged(`codewordBitSize) && unchanged(`g)
      ensures ok <==> PlaintextBitSize() <= 8 * MAX_PLAINTEXT
      ensures ok ==> Ready()
    {
      hide Stage, Rows;
      plaintextU8Size := (PlaintextBitSize() + 7) / 8;
      if plaintextU8Size > MAX_PLAINTEXT {
        return false;
      }
      var w := CodewordBlkSize();
      pow2CodeSize := if w == 3 then 4 else if 5 <= w <= 7 then 8 else w;
      u8RowCount := (PlaintextBitSize() + 7) / 8;
      g8 := Fill(g, w, pow2CodeSize, TableBytes());
      ok := true;
    }

    // The local byte buffer: the plaintext, then whatever was in memory.
    method ByteView(input: seq<Byte>, memory: seq<Byte>) returns (view: seq<Byte>)
      requires plaintextU8Size <= |input| && plaintextU8Size <= |memory| == MAX_PLAINTEXT
      ensures |view| == MAX_PLAINTEXT && forall i {:trigger view[i]} :: 0 <= i < plaintextU8Size ==> view[i] == input[i]
    {
      view := input[..plaintextU8Size] + memory[plaintextU8Size..];
    }

    ghost predicate CanWrite(codeword: array<Word>)
      reads this
    {
      CodewordU8Size() <= codeword.Length
    }

    // encode: the codeword is the product with the generator matrix, whatever the buffer held.
    method Encode(input: seq<Byte>, memory: seq<Byte>, codeword: array<Word>)
      requires Ready() && plaintextU8Size <= |input| && |memory| == MAX_PLAINTEXT && CanWrite(codeword)
      modifies codeword
      ensures Holds(old(codeword[..]), codeword[..], CodewordU8Size(), Product(g, CodewordBlkSize(), input[..plaintextU8Size]))
    {
      hide Stage, Total, Plain, Rows, ByteOf, Product;
      var view := ByteView(input, memory);
      ghost var bytes, w := TableBytes(), CodewordBlkSize();
      if pow2CodeSize > 8 {
        EncodeWide(view, input, codeword);
        return;
      }
      var c: Blocks8;
      if pow2CodeSize == 1 {
        c := Encode1(g8, bytes, view, plaintextU8Size);
      } else if pow2CodeSize == 2 {
        c := Encode2(g8, bytes, view);
      } else if pow2CodeSize == 4 {
        c := Encode4(g8, bytes, view);
      } else {
        c := Encode8(g8, bytes, view);
      }
      CopyOut(codeword, 0, c, CodewordU8Size());
      forall word: nat {:trigger c[word]} | word < w
        ensures c[word] == Total(g8, pow2CodeSize, bytes, view, word, bytes)
      {
      }
      WordsAreProduct(c, bytes, view, input);
      SameBytes(c, Product(g, w, input[..plaintextU8Size]), CodewordU8Size());
    }

    lemma WordsAreProduct(c: seq<Block>, bytes: nat, view: seq<Byte>, input: seq<Byte>)
      requires Ready() && bytes == TableBytes() && |view| == MAX_PLAINTEXT && plaintextU8Size <= |input| && CodewordBlkSize() <= |c|
      requires forall i {:trigger view[i]} :: 0 <= i < plaintextU8Size ==> view[i] == input[i]
      requires TableFits(g8, pow2CodeSize, bytes, view)
      requires forall word {:trigger c[word]} :: 0 <= word < CodewordBlkSize() ==>
        c[word] == Total(g8, pow2CodeSize, bytes, view, word, bytes)
      ensures forall word {:trigger c[word]} :: 0 <= word < CodewordBlkSize() ==>
        c[word] == Product(g, CodewordBlkSize(), input[..plaintextU8Size])[word]
    {
      hide Stage, Total, Plain, Rows, TableFits;
      var x, w := input[..plaintextU8Size], CodewordBlkSize();
      forall word: nat {:trigger c[word]} | word < w
        ensures c[word] == Plain(g, w, x, word, Rows(g, w))
      {
        TotalIsPlain(g, w, pow2CodeSize, g8, bytes, view, x, word, bytes);
        PlainEnds(g, w, x, word, 8 * bytes);
      }
    }

    // encode_bch511, where its asserts hold: ten bytes, unrolled in pairs.
    method EncodeBch511(input: seq<Byte>, codeword: array<Word>)
      requires Ready() && plaintextU8Size == 10 && pow2CodeSize == 4 && 10 <= |input| && CanWrite(codeword)
      modifies codeword
      ensures Holds(old(codeword[..]), codeword[..], CodewordU8Size(), Product(g, CodewordBlkSize(), input[..10]))
    {
      hide Stage, Total, Plain, Rows, ByteOf, Product, PairSums, Xor;
      ghost var bytes, w, view: seq<Byte> := TableBytes(), CodewordBlkSize(), input[..10] + seq(54, _ => 0);
      var c := ClearSums(g8, bytes, view);
      c := AddPair(c, g8, bytes, view, 0, input[0], input[1], 0);
      c := AddPair(c, g8, bytes, view, 2048, input[2], input[3], 2);
      c := AddPair(c, g8, bytes, view, 4096, input[4], input[5], 4);
      c := AddPair(c, g8, bytes, view, 6144, input[6], input[7], 6);
      c := AddPair(c, g8, bytes, view, 8192, input[8], input[9], 8);
      ghost var sums := c;
      c := FoldHalf(c, 4);
      CopyOut(codeword, 0, c, CodewordU8Size());
      TenBytes(sums, c, bytes, view, input);
      SameBytes(c, Product(g, w, input[..10]), CodewordU8Size());
    }

    lemma TenBytes(sums: Blocks8, c: Blocks8, bytes: nat, view: seq<Byte>, input: seq<Byte>)
      requires Ready() && plaintextU8Size == 10 && pow2CodeSize == 4 && bytes == TableBytes() && 10 <= |input|
      requires |view| == MAX_PLAINTEXT && TableFits(g8, 4, bytes, view)
      requires forall i {:trigger view[i]} :: 0 <= i < 10 ==> view[i] == input[i]
      requires PairSums(sums, g8, bytes, view, 10) && c == FoldHalf(sums, 4)
      ensures forall word {:trigger c[word]} :: 0 <= word < CodewordBlkSize() ==>
        c[word] == Product(g, CodewordBlkSize(), input[..10])[word]
    {
      hide Stage, Total, Plain, Rows, TableFits, Xor;
      var x, w := input[..10], CodewordBlkSize();
      forall word: nat {:trigger c[word]} | word < w
        ensures c[word] == Plain(g, w, x, word, Rows(g, w))
      {
        TotalIsPlain(g, w, 4, g8, bytes, view, x, word, 10);
        PlainEnds(g, w, x, word, 80);
      }
    }

    // The path for codewords wider than eight blocks, one block at a time.
    method EncodeWide(view: seq<Byte>, input: seq<Byte>, codeword: array<Word>)
      requires Ready() && pow2CodeSize > 8 && |view| == MAX_PLAINTEXT && plaintextU8Size <= |input| && CanWrite(codeword)
      requires forall i {:trigger view[i]} :: 0 <= i < plaintextU8Size ==> view[i] == input[i]
      modifies codeword
      ensures Holds(old(codeword[..]), codeword[..], CodewordU8Size(), Product(g, CodewordBlkSize(), input[..plaintextU8Size]))
    {
      hide Stage, Total, Plain, Rows, ByteOf, Product;
      ghost var bytes, w := TableBytes(), CodewordBlkSize();
      ghost var sums: seq<Block> := [];
      var superRows, size := (u8RowCount + 7) / 8, CodewordU8Size();
      for j := 0 to pow2CodeSize
        invariant |sums| == j && TableFits(g8, pow2CodeSize, bytes, view)
        invariant forall word {:trigger sums[word]} :: 0 <= word < j ==> sums[word] == Total(g8, pow2CodeSize, bytes, view, word, bytes)
        invariant Holds(old(codeword[..]), codeword[..], if size < 16 * j then size else 16 * j, sums)
      {
        var sum := EncodeWord(g8, pow2CodeSize, bytes, view, superRows, j);
        ghost var before := codeword[..];
        var n := if 16 < size - 16 * j then 16 else size - 16 * j;
        CopyOut(codeword, 16 * j, [sum], n);
        HoldsMore(old(codeword[..]), before, codeword[..], sums, sum, j, n);
        sums := sums + [sum];
      }
      WordsAreProduct(sums, bytes, view, input);
      SameBytes(sums, Product(g, w, input[..plaintextU8Size]), size);
    }
  }

  lemma HoldsMore(first: seq<Word>, before: seq<Word>, now: seq<Word>, sums: seq<Block>, sum: Block, j: nat, n: nat)
    requires |sums| == j && n <= 16 && 16 * j + n <= |first| == |now| && Holds(first, before, 16 * j, sums)
    requires forall k {:trigger now[k]} :: 0 <= k < |now| ==>
      now[k] == if 16 * j <= k < 16 * j + n then ByteOf([sum], k - 16 * j) else before[k]
    ensures Holds(first, now, 16 * j + n, sums + [sum])
  {
    hide ByteOf;
    forall k {:trigger now[k]} | 0 <= k < |now|
      ensures now[k] == if k < 16 * j + n then ByteOf(sums + [sum], k) else first[k]
    {
      if k < 16 * j + n {
        ByteOfMore(sums, sum, k);
      }
    }
  }

  lemma ByteOfMore(sums: seq<Block>, sum: Block, k: nat)
    requires k < 16 * |sums| + 16
    ensures ByteOf(sums + [sum], k) == if k < 16 * |sums| then ByteOf(sums, k) else ByteOf([sum], k - 16 * |sums|)
  {
    if k >= 16 * |sums| {
      BlockAndByte(k, |sums|);
    }
  }

  lemma BlockAndByte(k: nat, j: nat)
    requires 16 * j <= k < 16 * j + 16
    ensures k / 16 == j && k % 16 == k - 16 * j == (k - 16 * j) % 16 && (k - 16 * j) / 16 == 0
  {
  }

  lemma SameBytes(c: seq<Block>, d: seq<Block>, size: nat)
    requires |d| <= |c| && size <= 16 * |d| && forall word {:trigger c[word]} :: 0 <= word < |d| ==> c[word] == d[word]
    ensures forall k {:trigger ByteOf(c, k)} {:trigger ByteOf(d, k)} :: 0 <= k < size ==> ByteOf(c, k) == ByteOf(d, k)
  {
  }

  // ---------- laws of the product ----------

  // Row r of the generator matrix is selected and has bit b of its block `word` set.
  ghost predicate Contributes(g: seq<Block>, w: nat, x: seq<Byte>, word: nat, b: nat, r: nat) {
    w > 0 && b < 128 && r < |g| / w && r / 8 < |x| && BitOf(x[r / 8], r % 8) && r * w + word < |g| && g[r * w + word].bits[b]
  }

  // A bit of a codeword is the parity of the selected rows that have it set.
  lemma CodewordBit(before: seq<Word>, now: seq<Word>, size: nat, g: seq<Block>, w: nat, x: seq<Byte>, k: nat, b: nat, rows: set<nat>)
    requires w > 0 && Holds(before, now, size, Product(g, w, x)) && k < size && b < 8
    requires forall r: nat {:trigger r in rows} :: r in rows <==>
      r < |g| / w && r / 8 < |x| && BitOf(x[r / 8], r % 8) && r * w + k / 16 < |g| && g[r * w + k / 16].bits[k % 16 * 8 + b]
    ensures k < |now| && |now[k]| == 8 && (now[k][b] <==> |rows| % 2 == 1)
  {
    hide Plain;
    RowsCounted(g, w, x, k / 16, k % 16 * 8 + b, Rows(g, w), rows);
    assert now[k] == ByteOf(Product(g, w, x), k);
  }

  ghost predicate RowsBelow(g: seq<Block>, w: nat, x: seq<Byte>, word: nat, b: nat, m: nat, rows: set<nat>) {
    forall r: nat {:trigger r in rows} :: r in rows <==> r < m && Contributes(g, w, x, word, b, r)
  }

  lemma {:induction false} RowsCounted(g: seq<Block>, w: nat, x: seq<Byte>, word: nat, b: nat, m: nat, rows: set<nat>)
    requires w > 0 && word < w && b < 128 && m <= Rows(g, w) && RowsBelow(g, w, x, word, b, m, rows)
    ensures Plain(g, w, x, word, m).bits[b] <==> |rows| % 2 == 1
  {
    if m == 0 {
      assert rows == {};
    } else {
      hide RowsBelow, Contributes, Rows, Entry, MessageBit, Plain, Xor;
      var below := rows - {m - 1};
      RowAdds(g, w, x, word, b, m, rows, below);
      RowsCounted(g, w, x, word, b, m - 1, below);
      PlainAdds(g, w, x, word, b, m);
      RowCounts(g, w, x, word, b, m - 1);
    }
  }

  lemma RowAdds(g: seq<Block>, w: nat, x: seq<Byte>, word: nat, b: nat, m: nat, rows: set<nat>, below: set<nat>)
    requires m > 0 && RowsBelow(g, w, x, word, b, m, rows) && below == rows - {m - 1}
    ensures RowsBelow(g, w, x, word, b, m - 1, below)
    ensures |rows| == |below| + (if Contributes(g, w, x, word, b, m - 1) then 1 else 0)
  {
    hide Contributes;
    if m - 1 in rows {
      assert rows == below + {m - 1};
    } else {
      assert rows == below;
    }
  }

  lemma PlainAdds(g: seq<Block>, w: nat, x: seq<Byte>, word: nat, b: nat, m: nat)
    requires w > 0 && word < w && b < 128 && 0 < m <= Rows(g, w)
    ensures Plain(g, w, x, word, m).bits[b]
         == (Plain(g, w, x, word, m - 1).bits[b] != (MessageBit(x, m - 1) && Entry(g, w, m - 1, word).bits[b]))
  {
    hide MessageBit, Entry, Rows;
  }

  lemma RowCounts(g: seq<Block>, w: nat, x: seq<Byte>, word: nat, b: nat, r: nat)
    requires w > 0 && word < w && b < 128 && r < Rows(g, w)
    ensures Contributes(g, w, x, word, b, r) <==> MessageBit(x, r) && Entry(g, w, r, word).bits[b]
  {
    hide BitOf;
    RowInside(g, w, r, word);
  }

  // The code is linear: the sum of two plaintexts has the sum of their codewords.
  lemma {:induction false} PlainIsLinear(g: seq<Block>, w: nat, x: seq<Byte>, y: seq<Byte>, z: seq<Byte>, word: nat, m: nat)
    requires w > 0 && word < w
    requires forall r: nat {:trigger MessageBit(z, r)} :: r < m ==> MessageBit(z, r) == (MessageBit(x, r) != MessageBit(y, r))
    ensures Plain(g, w, z, word, m) == Xor(Plain(g, w, x, word, m), Plain(g, w, y, word, m))
  {
    hide Xor, Rows, MessageBit, Entry;
    if m == 0 {
      XorZero(ZERO);
    } else {
      PlainIsLinear(g, w, x, y, z, word, m - 1);
      assert MessageBit(z, m - 1) == (MessageBit(x, m - 1) != MessageBit(y, m - 1));
      if m - 1 < Rows(g, w) {
        var a, b, e := Plain(g, w, x, word, m - 1), Plain(g, w, y, word, m - 1), Entry(g, w, m - 1, word);
        XorAssoc(a, b, e);
        XorSwap(a, e, b, ZERO);
        XorSwap(a, e, b, e);
        XorSelf(e);
        XorZero(Xor(a, b));
        XorZero(b);
        XorZero(e);
      }
    }
  }

  // A plaintext with a single bit set has that row of the matrix as its codeword.
  lemma {:induction false} UnitSelectsRow(g: seq<Block>, w: nat, x: seq<Byte>, word: nat, bit: nat, m: nat)
    requires w > 0 && word < w && bit < Rows(g, w) && m <= Rows(g, w)
    requires forall r: nat {:trigger MessageBit(x, r)} :: r < Rows(g, w) ==> MessageBit(x, r) == (r == bit)
    ensures Plain(g, w, x, word, m) == if bit < m then Entry(g, w, bit, word) else ZERO
  {
    hide Xor, Rows, MessageBit, Entry;
    if m > 0 {
      UnitSelectsRow(g, w, x, word, bit, m - 1);
      assert MessageBit(x, m - 1) == (m - 1 == bit);
      XorZero(Entry(g, w, m - 1, word));
    }
  }
}

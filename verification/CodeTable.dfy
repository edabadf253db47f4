/**
 The lookup table of LinearCode.cpp (generateMod8Table, lines 229 to 309): for every byte
 of the plaintext and each of its 256 values, the sum of the generator rows it selects.
 */
module CodeTable {
  import opened Blocks
  import opened Powers
  import Fermat

  // ---------- the plain code ----------

  // The generator matrix is a vector of rows of w blocks.
  function Rows(g: seq<Block>, w: nat): nat
    requires w > 0
  {
    |g| / w
  }

  lemma RowInside(g: seq<Block>, w: nat, r: nat, word: nat)
    requires w > 0 && r < Rows(g, w) && word < w
    ensures r * w + word < |g|
  {
    var rows := Rows(g, w);
    assert |g| == rows * w + |g| % w;
    assert rows * w == (rows - 1 - r) * w + r * w + w;
    Fermat.Magnitude(rows - r, w);
  }

  function Entry(g: seq<Block>, w: nat, r: nat, word: nat): Block
    requires w > 0 && r < Rows(g, w) && word < w
  {
    RowInside(g, w, r, word);
    g[r * w + word]
  }

  // Bit r of a plaintext of bytes.
  predicate MessageBit(x: seq<nat>, r: nat) {
    r / 8 < |x| && BitOf(x[r / 8], r % 8)
  }

  // The sum of the rows among the first m that the plaintext selects.
  function Plain(g: seq<Block>, w: nat, x: seq<nat>, word: nat, m: nat): Block
    requires w > 0 && word < w
  {
    if m == 0 then ZERO
    else if m - 1 < Rows(g, w) && MessageBit(x, m - 1) then Xor(Plain(g, w, x, word, m - 1), Entry(g, w, m - 1, word))
    else Plain(g, w, x, word, m - 1)
  }

  // ---------- the entries ----------

  // The sum of rows 8i, ..., 8i + k - 1 selected by byte value v.
  function Part(g: seq<Block>, w: nat, i: nat, v: nat, word: nat, k: nat): Block
    requires w > 0 && word < w
  {
    if k == 0 then ZERO
    else if BitOf(v, k - 1) && 8 * i + k - 1 < Rows(g, w) then Xor(Part(g, w, i, v, word, k - 1), Entry(g, w, 8 * i + k - 1, word))
    else Part(g, w, i, v, word, k - 1)
  }

  // Entry (i, v) holds the part for byte i of value v, and blocks beyond the codeword are zero.
  function Cell(g: seq<Block>, w: nat, row: nat, word: nat, k: nat): Block
    requires w > 0
  {
    if word < w then Part(g, w, row / 256, row % 256, word, k) else ZERO
  }

  // How many of the eight rows entry `row` has received when byte i has received gRow rows
  // in full and row gRow in the entries below at.
  function Received(i: nat, gRow: nat, at: nat, row: nat): nat {
    if row / 256 < i then 8 else if row / 256 > i then 0 else if row % 256 < at then gRow + 1 else gRow
  }

  ghost predicate Stage(g: seq<Block>, w: nat, p: nat, g8: seq<Block>, i: nat, gRow: nat, at: nat) {
    w > 0 && p > 0
    && forall idx {:trigger g8[idx]} :: 0 <= idx < |g8| ==> g8[idx] == Cell(g, w, idx / p, idx % p, Received(i, gRow, at, idx / p))
  }

  // ---------- the loops ----------

  // The values with bit gRow clear are skipped.
  lemma SkipStage(g: seq<Block>, w: nat, p: nat, g8: seq<Block>, i: nat, gRow: nat, at: nat, upto: nat)
    requires Stage(g, w, p, g8, i, gRow, at) && at <= upto
    requires forall v {:trigger BitOf(v, gRow)} :: at <= v < upto && v < 256 ==> !BitOf(v, gRow)
    ensures Stage(g, w, p, g8, i, gRow, upto)
  {
    hide BitOf, Entry;
    forall idx {:trigger g8[idx]} | 0 <= idx < |g8|
      ensures g8[idx] == Cell(g, w, idx / p, idx % p, Received(i, gRow, upto, idx / p))
    {
      var row, word := idx / p, idx % p;
      if row / 256 == i && at <= row % 256 < upto && word < w {
        assert !BitOf(row % 256, gRow);
        assert Part(g, w, i, row % 256, word, gRow + 1) == Part(g, w, i, row % 256, word, gRow);
      }
    }
  }

  // After row gRow of byte i comes row gRow + 1, and after eight rows the next byte.
  lemma NextStage(g: seq<Block>, w: nat, p: nat, g8: seq<Block>, i: nat, gRow: nat)
    requires Stage(g, w, p, g8, i, gRow, 256)
    ensures Stage(g, w, p, g8, i, gRow + 1, 0)
  {
    hide Cell;
    assert forall row {:trigger Received(i, gRow, 256, row)} :: row >= 0 ==> Received(i, gRow, 256, row) == Received(i, gRow + 1, 0, row);
  }

  lemma NextByte(g: seq<Block>, w: nat, p: nat, g8: seq<Block>, i: nat)
    requires Stage(g, w, p, g8, i, 8, 0)
    ensures Stage(g, w, p, g8, i + 1, 0, 0)
  {
    hide Cell;
    assert forall row {:trigger Received(i, 8, 0, row)} :: row >= 0 ==> Received(i, 8, 0, row) == Received(i + 1, 0, 0, row);
  }

  // The cells of one entry gain a generator row.
  ghost predicate EntryGains(g: seq<Block>, w: nat, p: nat, before: seq<Block>, now: seq<Block>, row: nat, r: nat, words: nat) {
    w > 0 && p > 0 && |now| == |before| && words <= w && r < Rows(g, w)
    && forall idx {:trigger now[idx]} :: 0 <= idx < |now| ==>
         now[idx] == if idx / p == row && idx % p < words then Xor(before[idx], Entry(g, w, r, idx % p)) else before[idx]
  }

  lemma CellIndex(p: nat, row: nat, word: nat, rows: nat)
    requires p > 0 && word < p && row < rows
    ensures (row * p + word) / p == row && (row * p + word) % p == word && row * p + word < rows * p
  {
    Fermat.RemainderUnique(row * p + word, row, word, p);
    assert rows * p == (rows - row) * p + row * p;
    Fermat.Magnitude(rows - row, p);
  }

  method AddGeneratorRow(g: seq<Block>, w: nat, p: nat, g8: seq<Block>, row: nat, r: nat, ghost rows: nat) returns (now: seq<Block>)
    requires 0 < w <= p && r < Rows(g, w) && |g8| == rows * p && row < rows
    ensures EntryGains(g, w, p, g8, now, row, r, w)
  {
    hide Xor, Rows;
    now := g8;
    var word := 0;
    while word < w
      invariant word <= w && EntryGains(g, w, p, g8, now, row, r, word)
    {
      CellIndex(p, row, word, rows);
      RowInside(g, w, r, word);
      ghost var before := now;
      now := now[row * p + word := Xor(now[row * p + word], g[r * w + word])];
      GainsNext(g, w, p, g8, before, now, row, r, word, rows);
      word := word + 1;
    }
  }

  lemma GainsNext(g: seq<Block>, w: nat, p: nat, first: seq<Block>, before: seq<Block>, now: seq<Block>, row: nat, r: nat, word: nat,
                  rows: nat)
    requires EntryGains(g, w, p, first, before, row, r, word) && word < w <= p && |first| == rows * p && row < rows
    requires row * p + word < |first| && r * w + word < |g| && now == before[row * p + word := Xor(before[row * p + word], g[r * w + word])]
    ensures EntryGains(g, w, p, first, now, row, r, word + 1)
  {
    hide Xor, Rows;
    CellIndex(p, row, word, rows);
    forall idx {:trigger now[idx]} | 0 <= idx < |now|
      ensures now[idx] == if idx / p == row && idx % p < word + 1 then Xor(first[idx], Entry(g, w, r, idx % p)) else first[idx]
    {
      assert idx == idx / p * p + idx % p;
    }
  }

  // An entry with bit gRow set has received the row.
  lemma GainStage(g: seq<Block>, w: nat, p: nat, g8: seq<Block>, now: seq<Block>, i: nat, gRow: nat, v: nat)
    requires Stage(g, w, p, g8, i, gRow, v) && BitOf(v, gRow) && v < 256 && w <= p
    requires if 8 * i + gRow < Rows(g, w) then EntryGains(g, w, p, g8, now, 256 * i + v, 8 * i + gRow, w) else now == g8
    ensures Stage(g, w, p, now, i, gRow, v + 1)
  {
    hide BitOf, Entry, Xor, Rows;
    assert |now| == |g8|;
    forall idx {:trigger now[idx]} | 0 <= idx < |now|
      ensures now[idx] == Cell(g, w, idx / p, idx % p, Received(i, gRow, v + 1, idx / p))
    {
      var row := idx / p;
      assert g8[idx] == Cell(g, w, row, idx % p, Received(i, gRow, v, row));
      assert row == 256 * (row / 256) + row % 256;
      if row == 256 * i + v {
        assert row / 256 == i && row % 256 == v;
        PartNext(g, w, i, v, idx % p, gRow);
      }
    }
  }

  lemma PartNext(g: seq<Block>, w: nat, i: nat, v: nat, word: nat, k: nat)
    requires w > 0 && BitOf(v, k)
    ensures word < w ==> (Part(g, w, i, v, word, k + 1)
      == if 8 * i + k < Rows(g, w) then Xor(Part(g, w, i, v, word, k), Entry(g, w, 8 * i + k, word)) else Part(g, w, i, v, word, k))
  {
    hide Entry, Xor, Rows;
  }

  // Bit r of a number, by the position in its period.
  lemma {:induction false} BitByPeriod(v: nat, r: nat)
    ensures BitOf(v, r) <==> v % (2 * Pow2(r)) >= Pow2(r)
  {
    if r > 0 {
      BitByPeriod(v / 2, r - 1);
      hide Pow2, BitOf;
      HalfPeriod(v, Pow2(r - 1));
    }
  }

  lemma HalfPeriod(v: nat, s: nat)
    requires s > 0
    ensures v / 2 % (2 * s) >= s <==> v % (4 * s) >= 2 * s
  {
    var q, t := v / (4 * s), v % (4 * s);
    assert v == q * (4 * s) + t;
    assert v / 2 == q * (2 * s) + t / 2 by {
      assert q * (4 * s) == 2 * (q * (2 * s));
    }
    Fermat.RemainderUnique(v / 2, q, t / 2, 2 * s);
  }

  // The strides of the eight rows divide 128.
  lemma StrideDivides(r: nat) returns (c: nat)
    requires r < 8
    ensures c * Pow2(r) == 128
  {
    assert Pow2(1) == 2 && Pow2(2) == 4 && Pow2(3) == 8 && Pow2(4) == 16;
    assert Pow2(5) == 32 && Pow2(6) == 64 && Pow2(7) == 128;
    c := [128, 64, 32, 16, 8, 4, 2, 1][r];
  }

  // A run of the inner loop: the values from at to the next multiple of the stride.
  method FillRun(g: seq<Block>, w: nat, p: nat, g8: seq<Block>, i: nat, gRow: nat, at: nat, ghost bytes: nat)
    returns (now: seq<Block>, next: nat)
    requires 0 < w <= p && gRow < 8 && i < bytes && |g8| == bytes * 256 * p && Stage(g, w, p, g8, i, gRow, at)
    requires at + Pow2(gRow) <= 256 && at % (2 * Pow2(gRow)) == Pow2(gRow)
    ensures |now| == |g8| && next == at + Pow2(gRow) && Stage(g, w, p, now, i, gRow, next)
  {
    hide BitOf, Stage, Rows, Pow2;
    now, next := g8, at;
    var stride := Pow2(gRow);
    var more := true;
    while more
      invariant at <= next <= at + stride && |now| == |g8| && Stage(g, w, p, now, i, gRow, next)
      invariant more <==> next < at + stride
      decreases at + stride - next
    {
      InsideRun(at, next, stride);
      BitByPeriod(next, gRow);
      ghost var before := now;
      if i * 8 + gRow < Rows(g, w) {
        now := AddGeneratorRow(g, w, p, now, 256 * i + next, i * 8 + gRow, bytes * 256);
      }
      GainStage(g, w, p, before, now, i, gRow, next);
      next := next + 1;
      more := next % stride != 0;
    }
  }

  lemma InsideRun(at: nat, v: nat, stride: nat)
    requires stride > 0 && at % (2 * stride) == stride && at <= v < at + stride
    ensures v % (2 * stride) >= stride && ((v + 1) % stride == 0 <==> v + 1 == at + stride)
  {
    var q, d := at / (2 * stride), v - at;
    assert at == q * (2 * stride) + stride;
    Fermat.RemainderUnique(v, q, stride + d, 2 * stride);
    assert q * (2 * stride) + stride == (2 * q + 1) * stride;
    if d + 1 < stride {
      Fermat.RemainderUnique(v + 1, 2 * q + 1, d + 1, stride);
    } else {
      Fermat.RemainderUnique(v + 1, 2 * q + 2, 0, stride);
    }
  }

  // All values with bit gRow set.
  method FillRow(g: seq<Block>, w: nat, p: nat, g8: seq<Block>, i: nat, gRow: nat, ghost bytes: nat) returns (now: seq<Block>)
    requires 0 < w <= p && gRow < 8 && i < bytes && |g8| == bytes * 256 * p && Stage(g, w, p, g8, i, gRow, 0)
    ensures |now| == |g8| && Stage(g, w, p, now, i, gRow + 1, 0)
  {
    hide BitOf, Stage, Rows, Pow2;
    now := g8;
    var g8Row := Pow2(gRow);
    var stride := g8Row;
    ghost var c := StrideDivides(gRow);
    Fermat.Magnitude(c - 1, stride);
    assert (c - 1) * stride == 128 - stride;
    Fermat.RemainderUnique(stride, 0, stride, 2 * stride);
    SkipRun(g, w, p, now, i, gRow, 0, stride);
    while g8Row < 256
      invariant |now| == |g8| && g8Row < 512 && g8Row % (2 * stride) == stride && Stage(g, w, p, now, i, gRow, g8Row)
    {
      AfterRun(g8Row, stride, c);
      now, g8Row := FillRun(g, w, p, now, i, gRow, g8Row, bytes);
      SkipRun(g, w, p, now, i, gRow, g8Row, g8Row + stride);
      g8Row := g8Row + stride;
    }
    LowerStage(g, w, p, now, i, gRow, g8Row);
    NextStage(g, w, p, now, i, gRow);
  }

  lemma AfterRun(at: nat, stride: nat, c: nat)
    requires stride > 0 && c * stride == 128 && at < 256 && at % (2 * stride) == stride
    ensures at + stride <= 256 && (at + stride) % (2 * stride) == 0 && (at + 2 * stride) % (2 * stride) == stride
  {
    var q := at / (2 * stride);
    assert at == q * (2 * stride) + stride;
    assert c * (2 * stride) == 256;
    assert (c - q) * (2 * stride) == 256 - q * (2 * stride);
    Fermat.Magnitude(c - q - 1, 2 * stride);
    Fermat.Magnitude(q - c, 2 * stride);
    assert (q + 1) * (2 * stride) == at + stride;
    Fermat.RemainderUnique(at + stride, q + 1, 0, 2 * stride);
    Fermat.RemainderUnique(at + 2 * stride, q + 1, stride, 2 * stride);
  }

  lemma SkipRun(g: seq<Block>, w: nat, p: nat, g8: seq<Block>, i: nat, gRow: nat, at: nat, upto: nat)
    requires gRow < 8 && Stage(g, w, p, g8, i, gRow, at) && at % (2 * Pow2(gRow)) == 0 && upto == at + Pow2(gRow)
    ensures Stage(g, w, p, g8, i, gRow, upto)
  {
    hide BitOf, Stage, Pow2;
    forall v {:trigger BitOf(v, gRow)} | at <= v < upto && v < 256
      ensures !BitOf(v, gRow)
    {
      BitByPeriod(v, gRow);
      BelowRun(at, v, Pow2(gRow));
    }
    SkipStage(g, w, p, g8, i, gRow, at, upto);
  }

  lemma BelowRun(at: nat, v: nat, stride: nat)
    requires stride > 0 && at % (2 * stride) == 0 && at <= v < at + stride
    ensures v % (2 * stride) < stride
  {
    Fermat.RemainderUnique(v, at / (2 * stride), v - at, 2 * stride);
  }

  lemma LowerStage(g: seq<Block>, w: nat, p: nat, g8: seq<Block>, i: nat, gRow: nat, at: nat)
    requires Stage(g, w, p, g8, i, gRow, at) && at >= 256
    ensures Stage(g, w, p, g8, i, gRow, 256)
  {
    hide Cell;
    assert forall row {:trigger Received(i, gRow, at, row)} :: row >= 0 ==> Received(i, gRow, at, row) == Received(i, gRow, 256, row);
  }

  method Fill(g: seq<Block>, w: nat, p: nat, bytes: nat) returns (g8: seq<Block>)
    requires 0 < w <= p
    ensures |g8| == bytes * 256 * p && Stage(g, w, p, g8, bytes, 0, 0)
  {
    hide BitOf, Stage;
    g8 := seq(bytes * 256 * p, _ => ZERO);
    EmptyStage(g, w, p, g8);
    for i := 0 to bytes
      invariant |g8| == bytes * 256 * p && Stage(g, w, p, g8, i, 0, 0)
    {
      for gRow := 0 to 8
        invariant |g8| == bytes * 256 * p && Stage(g, w, p, g8, i, gRow, 0)
      {
        g8 := FillRow(g, w, p, g8, i, gRow, bytes);
      }
      NextByte(g, w, p, g8, i);
    }
  }

  lemma EmptyStage(g: seq<Block>, w: nat, p: nat, g8: seq<Block>)
    requires w > 0 && p > 0 && forall idx {:trigger g8[idx]} :: 0 <= idx < |g8| ==> g8[idx] == ZERO
    ensures Stage(g, w, p, g8, 0, 0, 0)
  {
    hide Cell, Received;
    forall idx {:trigger g8[idx]} | 0 <= idx < |g8|
      ensures g8[idx] == Cell(g, w, idx / p, idx % p, Received(0, 0, 0, idx / p))
    {
      NothingReceived(g, w, idx / p, idx % p);
    }
  }

  lemma NothingReceived(g: seq<Block>, w: nat, row: nat, word: nat)
    requires w > 0
    ensures Received(0, 0, 0, row) == 0 && Cell(g, w, row, word, 0) == ZERO
  {
    hide Rows, Entry, BitOf, Xor;
  }

  // ---------- reading the table ----------

  function Lookup(g8: seq<Block>, p: nat, i: nat, v: nat, word: nat): Block
    requires (256 * i + v) * p + word < |g8|
  {
    g8[(256 * i + v) * p + word]
  }

  lemma LookupIsPart(g: seq<Block>, w: nat, p: nat, g8: seq<Block>, bytes: nat, i: nat, v: nat, word: nat)
    requires 0 < w <= p && |g8| == bytes * 256 * p && Stage(g, w, p, g8, bytes, 0, 0) && i < bytes && v < 256 && word < p
    ensures (256 * i + v) * p + word < |g8|
    ensures Lookup(g8, p, i, v, word) == if word < w then Part(g, w, i, v, word, 8) else ZERO
  {
    hide Part;
    CellIndex(p, 256 * i + v, word, bytes * 256);
    assert (256 * i + v) / 256 == i && (256 * i + v) % 256 == v;
  }

  // The rows of one byte.
  lemma {:induction false} PlainByte(g: seq<Block>, w: nat, x: seq<nat>, word: nat, i: nat, v: nat, k: nat)
    requires w > 0 && word < w && k <= 8 && (8 * i < Rows(g, w) ==> i < |x| && x[i] == v)
    ensures Xor(Plain(g, w, x, word, 8 * i), Part(g, w, i, v, word, k)) == Plain(g, w, x, word, 8 * i + k)
  {
    hide Xor, Entry, BitOf, Rows;
    if k == 0 {
      XorZero(Plain(g, w, x, word, 8 * i));
    } else {
      PlainByte(g, w, x, word, i, v, k - 1);
      var r := 8 * i + k - 1;
      assert r / 8 == i && r % 8 == k - 1;
      if r < Rows(g, w) {
        assert MessageBit(x, r) == BitOf(v, k - 1);
        XorAssoc(Plain(g, w, x, word, 8 * i), Part(g, w, i, v, word, k - 1), Entry(g, w, r, word));
      }
    }
  }

  // Past the last row nothing is selected.
  lemma {:induction false} PlainEnds(g: seq<Block>, w: nat, x: seq<nat>, word: nat, m: nat)
    requires w > 0 && word < w && m >= Rows(g, w)
    ensures Plain(g, w, x, word, m) == Plain(g, w, x, word, Rows(g, w))
    decreases m
  {
    if m > Rows(g, w) {
      PlainEnds(g, w, x, word, m - 1);
    }
  }
}

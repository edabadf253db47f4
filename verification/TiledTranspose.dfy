/**
 Transposition of a bit matrix of any shape (Tools.cpp lines 717 to 834): squares of 128 by
 128 bits pass through a buffer, partial ones padded with zeros.  A matrix is a table of
 bytes; bit t of byte b of a row is column 8b + t.
 */
module TiledTranspose {
  import opened Blocks
  import opened Eklundh

  type Byte = w: Word | |w| == 8 witness seq(8, _ => false)

  // A read-only view with rows of equal length.
  ghost predicate View(a: seq<seq<Byte>>, cols: nat) {
    forall r {:trigger a[r]} :: 0 <= r < |a| ==> |a[r]| == cols
  }

  function Min(a: nat, b: nat): nat {
    if a < b then a else b
  }

  function DivCeil8(n: nat): nat {
    (n + 7) / 8
  }

  // ---------- the buffer ----------

  // memcpy of n bytes of a row, from byte at on, into a block.
  function Loaded(b: Block, row: seq<Byte>, at: nat, n: nat): Block
    requires n <= 16 && at + n <= |row|
  {
    Block(seq(128, p requires 0 <= p < 128 => if p < 8 * n then row[at + p / 8][p % 8] else b.bits[p]))
  }

  // Byte k of a block.
  function ByteAt(b: Block, k: nat): Byte
    requires k < 16
  {
    b.bits[8 * k..8 * k + 8]
  }

  // memset of the rows from k on.
  method Clear(buff: array<Block>, k: nat)
    requires buff.Length == 128 && k <= 128
    modifies buff
    ensures forall x {:trigger buff[x]} :: 0 <= x < 128 ==> buff[x] == if x < k then old(buff[x]) else ZERO
  {
    for i := k to 128
      invariant forall x {:trigger buff[x]} :: 0 <= x < 128 ==> buff[x] == if k <= x < i then ZERO else old(buff[x])
    {
      buff[i] := ZERO;
    }
  }

  method LoadRows(buff: array<Block>, src: seq<seq<Byte>>, ghost cols: nat, row: nat, at: nat, rows: nat, n: nat)
    requires buff.Length == 128 && rows <= 128 && n <= 16 && View(src, cols) && row + rows <= |src| && at + n <= cols
    modifies buff
    ensures forall x {:trigger buff[x]} :: 0 <= x < 128 ==>
      buff[x] == if x < rows then Loaded(old(buff[x]), src[row + x], at, n) else old(buff[x])
  {
    hide Loaded;
    for k := 0 to rows
      invariant forall x {:trigger buff[x]} :: 0 <= x < 128 ==>
        buff[x] == if x < k then Loaded(old(buff[x]), src[row + x], at, n) else old(buff[x])
    {
      buff[k] := Loaded(buff[k], src[row + k], at, n);
    }
  }

  // Bit (r, c) of the square at (row, 8 at), zero outside.
  predicate SquareBit(src: seq<seq<Byte>>, row: nat, at: nat, rows: nat, n: nat, r: nat, c: nat)
    requires row + rows <= |src| && forall x {:trigger src[x]} :: 0 <= x < |src| ==> at + n <= |src[x]|
  {
    r < rows && c < 8 * n && src[row + r][at + c / 8][c % 8]
  }

  ghost predicate HoldsSquare(m: seq<Block>, src: seq<seq<Byte>>, row: nat, at: nat, rows: nat, n: nat) {
    && |m| == 128 && row + rows <= |src| && (forall x {:trigger src[x]} :: 0 <= x < |src| ==> at + n <= |src[x]|)
    && forall r, c {:trigger m[r].bits[c]} :: 0 <= r < 128 && 0 <= c < 128 ==> m[r].bits[c] == SquareBit(src, row, at, rows, n, r, c)
  }

  // The square padded with zeros; the buffer may hold anything before.  Which rows are
  // cleared beforehand depends on the kind of square.
  method LoadSquare(buff: array<Block>, src: seq<seq<Byte>>, ghost cols: nat, row: nat, at: nat, rows: nat, n: nat)
    requires buff.Length == 128 && 0 < rows <= 128 && 0 < n <= 16 && View(src, cols) && row + rows <= |src| && at + n <= cols
    modifies buff
    ensures HoldsSquare(buff[..], src, row, at, rows, n)
  {
    if n < 16 {
      Clear(buff, 0);
    }
    ghost var before := buff[..];
    LoadRows(buff, src, cols, row, at, rows, n);
    if rows < 128 {
      Clear(buff, rows);
    }
    forall r, c {:trigger buff[r].bits[c]} | 0 <= r < 128 && 0 <= c < 128
      ensures buff[r].bits[c] == SquareBit(src, row, at, rows, n, r, c)
    {
      assert n < 16 ==> before[r] == ZERO;
      assert buff[r] == if r < rows then Loaded(before[r], src[row + r], at, n) else ZERO;
    }
  }

  // memcpy of n bytes of the first rows of the buffer.
  method StoreRows(dst: array2<Byte>, buff: array<Block>, row: nat, at: nat, rows: nat, n: nat)
    requires buff.Length == 128 && rows <= 128 && n <= 16 && row + rows <= dst.Length0 && at + n <= dst.Length1
    modifies dst
    ensures forall x, b {:trigger dst[x, b]} :: 0 <= x < dst.Length0 && 0 <= b < dst.Length1 ==>
      dst[x, b] == if row <= x < row + rows && at <= b < at + n then ByteAt(buff[x - row], b - at) else old(dst[x, b])
  {
    hide ByteAt;
    for k := 0 to rows
      invariant forall x, b {:trigger dst[x, b]} :: 0 <= x < dst.Length0 && 0 <= b < dst.Length1 ==>
        dst[x, b] == if row <= x < row + k && at <= b < at + n then ByteAt(buff[x - row], b - at) else old(dst[x, b])
    {
      for i := 0 to n
        invariant forall x, b {:trigger dst[x, b]} :: 0 <= x < dst.Length0 && 0 <= b < dst.Length1 ==>
          dst[x, b] == if (row <= x < row + k && at <= b < at + n) || (x == row + k && at <= b < at + i) then ByteAt(buff[x - row], b - at)
                       else old(dst[x, b])
      {
        dst[row + k, at + i] := ByteAt(buff[k], i);
      }
    }
  }

  // ---------- the whole matrix ----------

  // The bits that have a place on both sides.
  datatype Shape = Shape(rBits: nat, cBits: nat)

  ghost predicate ShapeFits(s: Shape, src: seq<seq<Byte>>, cols: nat, rows': nat, cols': nat) {
    View(src, cols) && s.rBits <= |src| && s.cBits <= 8 * cols && s.cBits <= rows' && s.rBits <= 8 * cols'
  }

  // Byte b of row c of the result: bits (8b, c), ..., (8b + 7, c) of the input.
  function Target(src: seq<seq<Byte>>, cols: nat, s: Shape, c: nat, b: nat): Byte
    requires c < s.cBits <= 8 * cols && s.rBits <= |src| && forall r {:trigger src[r]} :: 0 <= r < |src| ==> |src[r]| == cols
  {
    seq(8, t requires 0 <= t < 8 => 8 * b + t < s.rBits && src[8 * b + t][c / 8][c % 8])
  }

  // Square (i, j) comes before the square of byte b of row c, or not.
  predicate Written(c: nat, b: nat, i: nat, j: nat) {
    b / 16 < i || (b / 16 == i && c / 128 < j)
  }

  // What a byte of the result holds when the squares before (i, j) have been written.
  function ByteNow(src: seq<seq<Byte>>, cols: nat, s: Shape, before: Byte, i: nat, j: nat, c: nat, b: nat): Byte
    requires s.cBits <= 8 * cols && s.rBits <= |src| && forall r {:trigger src[r]} :: 0 <= r < |src| ==> |src[r]| == cols
  {
    if c < s.cBits && b < DivCeil8(s.rBits) && Written(c, b, i, j) then Target(src, cols, s, c, b) else before
  }

  // The bytes of a matrix.
  ghost function Contents(dst: array2<Byte>): (m: seq<seq<Byte>>)
    reads dst
    ensures |m| == dst.Length0 && forall c {:trigger m[c]} :: 0 <= c < |m| ==> |m[c]| == dst.Length1
    ensures forall c, b {:trigger m[c][b]} {:trigger dst[c, b]} :: 0 <= c < dst.Length0 && 0 <= b < dst.Length1 ==> m[c][b] == dst[c, b]
  {
    seq(dst.Length0, c requires 0 <= c < dst.Length0 reads dst => seq(dst.Length1, b requires 0 <= b < dst.Length1 reads dst => dst[c, b]))
  }

  ghost predicate SameSize(m: seq<seq<Byte>>, n: seq<seq<Byte>>, cols: nat) {
    View(m, cols) && View(n, cols) && |m| == |n|
  }

  // The result when the squares before (i, j) have been written.
  ghost predicate Filled(src: seq<seq<Byte>>, cols: nat, s: Shape, before: seq<seq<Byte>>, now: seq<seq<Byte>>, cols': nat, i: nat,
                         j: nat) {
    && ShapeFits(s, src, cols, |before|, cols') && SameSize(before, now, cols')
    && forall c, b {:trigger now[c][b]} :: 0 <= c < |now| && 0 <= b < cols' ==> now[c][b] == ByteNow(src, cols, s, before[c][b], i, j, c, b)
  }

  // The extent of square (i, j).
  function RowsOf(s: Shape, i: nat): nat
    requires 128 * i <= s.rBits
  {
    Min(128, s.rBits - 128 * i)
  }

  function ColsOf(s: Shape, j: nat): nat
    requires 128 * j <= s.cBits
  {
    Min(128, s.cBits - 128 * j)
  }

  // The bytes written for a square.
  lemma InSquare(s: Shape, i: nat, j: nat, c: nat, b: nat)
    requires 128 * i < s.rBits && 128 * j < s.cBits
    ensures (128 * j <= c < 128 * j + ColsOf(s, j) && 16 * i <= b < 16 * i + DivCeil8(RowsOf(s, i)))
         <==> (c < s.cBits && b < DivCeil8(s.rBits) && b / 16 == i && c / 128 == j)
  {
  }

  lemma SquareByte(src: seq<seq<Byte>>, cols: nat, s: Shape, square: seq<Block>, turned: seq<Block>, i: nat, j: nat, c: nat, b: nat)
    requires View(src, cols) && s.rBits <= |src| && c < s.cBits <= 8 * cols && b < DivCeil8(s.rBits) && b / 16 == i && c / 128 == j
    requires 128 * i < s.rBits && 128 * j < s.cBits && Transposed(square, turned)
    requires HoldsSquare(square, src, 128 * i, 16 * j, RowsOf(s, i), DivCeil8(ColsOf(s, j)))
    ensures ByteAt(turned[c - 128 * j], b - 16 * i) == Target(src, cols, s, c, b)
  {
    var x, k := c - 128 * j, b - 16 * i;
    forall t {:trigger Target(src, cols, s, c, b)[t]} | 0 <= t < 8
      ensures ByteAt(turned[x], k)[t] == Target(src, cols, s, c, b)[t]
    {
      SquareEntry(src, cols, s, square, turned, i, j, x, 8 * k + t);
      assert 128 * i + (8 * k + t) == 8 * b + t;
    }
    assert ByteAt(turned[x], k) == Target(src, cols, s, c, b);
  }

  lemma SquareEntry(src: seq<seq<Byte>>, cols: nat, s: Shape, square: seq<Block>, turned: seq<Block>, i: nat, j: nat, x: nat, y: nat)
    requires View(src, cols) && s.rBits <= |src| && s.cBits <= 8 * cols && x < 128 && y < 128 && 128 * j + x < s.cBits
    requires 128 * i < s.rBits && 128 * j < s.cBits && Transposed(square, turned)
    requires HoldsSquare(square, src, 128 * i, 16 * j, RowsOf(s, i), DivCeil8(ColsOf(s, j)))
    ensures turned[x].bits[y] == (128 * i + y < s.rBits && src[128 * i + y][(128 * j + x) / 8][(128 * j + x) % 8])
  {
    assert turned[x].bits[y] == square[y].bits[x];
    assert (128 * j + x) / 8 == 16 * j + x / 8 && (128 * j + x) % 8 == x % 8;
  }

  // The bytes of square (i, j) and no others have been written.
  ghost predicate SquareWritten(src: seq<seq<Byte>>, cols: nat, s: Shape, before: seq<seq<Byte>>, now: seq<seq<Byte>>, cols': nat, i: nat,
                                j: nat) {
    && ShapeFits(s, src, cols, |before|, cols') && SameSize(before, now, cols')
    && forall c, b {:trigger now[c][b]} :: 0 <= c < |now| && 0 <= b < cols' ==>
         now[c][b] == if c < s.cBits && b < DivCeil8(s.rBits) && b / 16 == i && c / 128 == j then Target(src, cols, s, c, b)
                      else before[c][b]
  }

  // One square through the buffer.
  method Square(src: seq<seq<Byte>>, ghost cols: nat, ghost s: Shape, dst: array2<Byte>, buff: array<Block>, i: nat, j: nat, rows: nat,
                colBits: nat)
    requires ShapeFits(s, src, cols, dst.Length0, dst.Length1) && buff.Length == 128
    requires 128 * i < s.rBits && 128 * j < s.cBits && rows == RowsOf(s, i) && colBits == ColsOf(s, j)
    modifies dst, buff
    ensures SquareWritten(src, cols, s, old(Contents(dst)), Contents(dst), dst.Length1, i, j)
  {
    hide Target, ByteAt;
    LoadSquare(buff, src, cols, 128 * i, 16 * j, rows, DivCeil8(colBits));
    ghost var square := buff[..];
    Transpose128(buff);
    ghost var turned := buff[..];
    StoreRows(dst, buff, 128 * j, 16 * i, colBits, DivCeil8(rows));
    forall c, b {:trigger dst[c, b]} | 0 <= c < dst.Length0 && 0 <= b < dst.Length1
      ensures dst[c, b] == if c < s.cBits && b < DivCeil8(s.rBits) && b / 16 == i && c / 128 == j then Target(src, cols, s, c, b)
                           else old(dst[c, b])
    {
      InSquare(s, i, j, c, b);
      if c < s.cBits && b < DivCeil8(s.rBits) && b / 16 == i && c / 128 == j {
        SquareByte(src, cols, s, square, turned, i, j, c, b);
      }
    }
  }

  lemma SquareDone(src: seq<seq<Byte>>, cols: nat, s: Shape, before: seq<seq<Byte>>, was: seq<seq<Byte>>, now: seq<seq<Byte>>, cols': nat,
                   i: nat, j: nat)
    requires Filled(src, cols, s, before, was, cols', i, j) && SquareWritten(src, cols, s, was, now, cols', i, j)
    ensures Filled(src, cols, s, before, now, cols', i, j + 1)
  {
    hide Target;
    forall c, b {:trigger now[c][b]} | 0 <= c < |now| && 0 <= b < cols'
      ensures now[c][b] == ByteNow(src, cols, s, before[c][b], i, j + 1, c, b)
    {
      assert was[c][b] == ByteNow(src, cols, s, before[c][b], i, j, c, b);
    }
  }

  // After the squares of one row come those of the next.
  lemma RowDone(src: seq<seq<Byte>>, cols: nat, s: Shape, before: seq<seq<Byte>>, now: seq<seq<Byte>>, cols': nat, i: nat, j: nat)
    requires Filled(src, cols, s, before, now, cols', i, j) && 128 * j >= s.cBits
    ensures Filled(src, cols, s, before, now, cols', i + 1, 0)
  {
    hide Target;
    forall c, b {:trigger now[c][b]} | 0 <= c < |now| && 0 <= b < cols'
      ensures now[c][b] == ByteNow(src, cols, s, before[c][b], i + 1, 0, c, b)
    {
    }
  }

  // The transposition: every bit with a place on both sides is moved, the rest of the last
  // byte of a row is cleared, and everything else is unchanged.
  ghost predicate TransposedInto(src: seq<seq<Byte>>, cols: nat, before: seq<seq<Byte>>, now: seq<seq<Byte>>, cols': nat) {
    && View(src, cols) && SameSize(before, now, cols')
    && forall c, b, t {:trigger now[c][b][t]} :: 0 <= c < |now| && 0 <= b < cols' && 0 <= t < 8 ==>
         now[c][b][t] == BitNow(src, cols, Shape(Min(|src|, 8 * cols'), Min(8 * cols, |now|)), before[c][b][t], c, b, t)
  }

  function BitNow(src: seq<seq<Byte>>, cols: nat, s: Shape, before: bool, c: nat, b: nat, t: nat): bool
    requires s.cBits <= 8 * cols && s.rBits <= |src| && forall r {:trigger src[r]} :: 0 <= r < |src| ==> |src[r]| == cols
  {
    if c >= s.cBits || b >= DivCeil8(s.rBits) then before
    else 8 * b + t < s.rBits && src[8 * b + t][c / 8][c % 8]
  }

  lemma AllSquares(src: seq<seq<Byte>>, cols: nat, before: seq<seq<Byte>>, now: seq<seq<Byte>>, cols': nat, i: nat)
    requires Filled(src, cols, Shape(Min(|src|, 8 * cols'), Min(8 * cols, |before|)), before, now, cols', i, 0)
    requires 128 * i >= Min(|src|, 8 * cols')
    ensures TransposedInto(src, cols, before, now, cols')
  {
    var s := Shape(Min(|src|, 8 * cols'), Min(8 * cols, |before|));
    forall c, b, t {:trigger now[c][b][t]} | 0 <= c < |now| && 0 <= b < cols' && 0 <= t < 8
      ensures now[c][b][t] == BitNow(src, cols, s, before[c][b][t], c, b, t)
    {
      assert now[c][b] == ByteNow(src, cols, s, before[c][b], i, 0, c, b);
    }
  }

  // One row of squares: the full ones, then the one with the remaining columns.
  method SquareRow(src: seq<seq<Byte>>, ghost cols: nat, ghost s: Shape, ghost before: seq<seq<Byte>>, dst: array2<Byte>,
                   buff: array<Block>, i: nat, rows: nat, cMain: nat, cRemBits: nat)
    requires Filled(src, cols, s, before, Contents(dst), dst.Length1, i, 0) && buff.Length == 128 && 128 * i < s.rBits
    requires rows == RowsOf(s, i)
    requires cMain == s.cBits / 128 && cRemBits == s.cBits - 128 * cMain
    modifies dst, buff
    ensures Filled(src, cols, s, before, Contents(dst), dst.Length1, i + 1, 0)
  {
    hide Filled, Contents, SquareWritten;
    FilledFits(src, cols, s, before, Contents(dst), dst.Length1, i, 0);
    for j := 0 to cMain
      invariant Filled(src, cols, s, before, Contents(dst), dst.Length1, i, j)
    {
      ghost var was := Contents(dst);
      Square(src, cols, s, dst, buff, i, j, rows, 128);
      SquareDone(src, cols, s, before, was, Contents(dst), dst.Length1, i, j);
    }
    if cRemBits > 0 {
      ghost var was := Contents(dst);
      Square(src, cols, s, dst, buff, i, cMain, rows, cRemBits);
      SquareDone(src, cols, s, before, was, Contents(dst), dst.Length1, i, cMain);
      RowDone(src, cols, s, before, Contents(dst), dst.Length1, i, cMain + 1);
    } else {
      RowDone(src, cols, s, before, Contents(dst), dst.Length1, i, cMain);
    }
  }

  lemma FilledFits(src: seq<seq<Byte>>, cols: nat, s: Shape, before: seq<seq<Byte>>, now: seq<seq<Byte>>, cols': nat, i: nat, j: nat)
    requires Filled(src, cols, s, before, now, cols', i, j)
    ensures ShapeFits(s, src, cols, |before|, cols') && |now| == |before|
  {
  }

  method Transpose(src: seq<seq<Byte>>, cols: nat, dst: array2<Byte>)
    requires View(src, cols)
    modifies dst
    ensures TransposedInto(src, cols, old(Contents(dst)), Contents(dst), dst.Length1)
    ensures forall c, b, t {:trigger dst[c, b][t]} :: 0 <= c < dst.Length0 && 0 <= b < dst.Length1 && 0 <= t < 8 ==>
      dst[c, b][t] == if c < 8 * cols && 8 * b < |src| then 8 * b + t < |src| && src[8 * b + t][c / 8][c % 8] else old(dst[c, b])[t]
  {
    hide Filled, Contents, TransposedInto;
    var buff := new Block[128](_ => ZERO);
    var rBits, cBits := Min(|src|, dst.Length1 * 8), Min(cols * 8, dst.Length0);
    var rMain, cMain := rBits / 128, cBits / 128;
    var rRemBits, cRemBits := rBits - rMain * 128, cBits - cMain * 128;
    ghost var s, before := Shape(rBits, cBits), Contents(dst);
    NothingWritten(src, cols, s, before, dst.Length1);
    for i := 0 to rMain
      invariant Filled(src, cols, s, before, Contents(dst), dst.Length1, i, 0)
    {
      SquareRow(src, cols, s, before, dst, buff, i, 128, cMain, cRemBits);
    }
    if rRemBits > 0 {
      SquareRow(src, cols, s, before, dst, buff, rMain, rRemBits, cMain, cRemBits);
      AllSquares(src, cols, before, Contents(dst), dst.Length1, rMain + 1);
    } else {
      AllSquares(src, cols, before, Contents(dst), dst.Length1, rMain);
    }
    BitsMoved(src, cols, before, Contents(dst), dst.Length1);
    assert forall c, b {:trigger dst[c, b]} :: 0 <= c < dst.Length0 && 0 <= b < dst.Length1 ==>
      dst[c, b] == Contents(dst)[c][b] && old(dst[c, b]) == before[c][b];
  }

  lemma BitsMoved(src: seq<seq<Byte>>, cols: nat, before: seq<seq<Byte>>, now: seq<seq<Byte>>, cols': nat)
    requires TransposedInto(src, cols, before, now, cols')
    ensures View(src, cols) && SameSize(before, now, cols')
    ensures forall c, b, t {:trigger now[c][b][t]} :: 0 <= c < |now| && 0 <= b < cols' && 0 <= t < 8 ==>
      now[c][b][t] == if c < 8 * cols && 8 * b < |src| then 8 * b + t < |src| && src[8 * b + t][c / 8][c % 8] else before[c][b][t]
  {
    forall c, b, t {:trigger now[c][b][t]} | 0 <= c < |now| && 0 <= b < cols' && 0 <= t < 8
      ensures now[c][b][t] == if c < 8 * cols && 8 * b < |src| then 8 * b + t < |src| && src[8 * b + t][c / 8][c % 8] else before[c][b][t]
    {
      assert now[c][b][t] == BitNow(src, cols, Shape(Min(|src|, 8 * cols'), Min(8 * cols, |now|)), before[c][b][t], c, b, t);
    }
  }

  lemma NothingWritten(src: seq<seq<Byte>>, cols: nat, s: Shape, before: seq<seq<Byte>>, cols': nat)
    requires View(before, cols') && ShapeFits(s, src, cols, |before|, cols')
    ensures Filled(src, cols, s, before, before, cols', 0, 0)
  {
  }

  // A matrix transposed into one of matching size and back is restored, whatever the two
  // results held before.
  lemma ThereAndBack(src: seq<seq<Byte>>, cols: nat, mid0: seq<seq<Byte>>, mid: seq<seq<Byte>>, back0: seq<seq<Byte>>, back: seq<seq<Byte>>)
    requires TransposedInto(src, cols, mid0, mid, DivCeil8(|src|)) && |mid| == 8 * cols
    requires TransposedInto(mid, DivCeil8(|src|), back0, back, cols) && |back| == |src|
    ensures back == src
  {
    forall r | 0 <= r < |src|
      ensures back[r] == src[r]
    {
      forall k | 0 <= k < cols
        ensures back[r][k] == src[r][k]
      {
        forall u {:trigger back[r][k][u]} | 0 <= u < 8
          ensures back[r][k][u] == src[r][k][u]
        {
          assert back[r][k][u] == mid[8 * k + u][r / 8][r % 8];
          assert mid[8 * k + u][r / 8][r % 8] == src[r][(8 * k + u) / 8][(8 * k + u) % 8];
        }
      }
    }
  }
}

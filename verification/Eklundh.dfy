/**
 The in-place transposition of a 128 x 128 bit matrix by Eklundh's method (Tools.cpp lines
 141 to 263): in round i the bits of weight 64 / 2^i of row and column index are exchanged.
 */
module Eklundh {
  import opened Blocks
  import opened Powers
  import Fermat

  // ---------- masks ----------

  // TRANSPOSE_MASKS128, column 1; column 0 differs in the first row only, where it is zero.
  const MASKS: seq<nat> := [
    0xFFFF_FFFF_FFFF_FFFF, 0x0000_0000_FFFF_FFFF, 0x0000_FFFF_0000_FFFF, 0x00FF_00FF_00FF_00FF,
    0x0F0F_0F0F_0F0F_0F0F, 0x3333_3333_3333_3333, 0x5555_5555_5555_5555]

  function Mask1(i: nat): nat
    requires i < 7
  {
    MASKS[i]
  }

  function Mask2(i: nat): nat
    requires i < 7
  {
    if i == 0 then 0 else MASKS[i]
  }

  // The bit of weight w of x.
  predicate BitSet(x: nat, w: nat)
    requires w > 0
  {
    x / w % 2 == 1
  }

  // Bits of weight w are clear in the selected positions below h.
  ghost predicate SelectsClear(n: nat, h: nat, w: nat)
    requires w > 0
  {
    forall p {:trigger BitOf(n, p)} :: 0 <= p < h ==> BitOf(n, p) == !BitSet(p, w)
  }

  lemma {:induction false} SplitBits(n: nat, hi: nat, lo: nat, h: nat, p: nat)
    requires n == hi * Pow2(h) + lo && lo < Pow2(h)
    ensures BitOf(n, p) == if p < h then BitOf(lo, p) else BitOf(hi, p - h)
  {
    if h > 0 {
      var half := Pow2(h - 1);
      assert hi * (2 * half) == 2 * (hi * half);
      assert n / 2 == hi * half + lo / 2;
      if p > 0 {
        SplitBits(n / 2, hi, lo / 2, h - 1, p - 1);
      } else {
        assert n % 2 == lo % 2;
      }
    }
  }

  lemma {:induction false} OnesBits(h: nat, p: nat)
    ensures BitOf(Pow2(h) - 1, p) == (p < h)
  {
    if h > 0 && p > 0 {
      OnesBits(h - 1, p - 1);
    } else if h == 0 && p > 0 {
      OnesBits(0, p - 1);
    }
  }

  // h ones below h zeros select the positions below h of 2h.
  lemma OnesSelect(n: nat, h: nat)
    requires n == Pow2(h) - 1 && h > 0
    ensures SelectsClear(n, 2 * h, h)
  {
    hide BitOf;
    forall p {:trigger BitOf(n, p)} | 0 <= p < 2 * h
      ensures BitOf(n, p) == !BitSet(p, h)
    {
      OnesBits(h, p);
      if p < h {
        Fermat.RemainderUnique(p, 0, p, h);
      } else {
        Fermat.RemainderUnique(p, 1, p - h, h);
      }
    }
  }

  // Writing a pattern twice keeps it.
  lemma TwiceSelects(n: nat, half: nat, h: nat, w: nat, q: nat)
    requires n == half * Pow2(h) + half && half < Pow2(h) && w > 0 && h == q * (2 * w) && SelectsClear(half, h, w)
    ensures SelectsClear(n, 2 * h, w)
  {
    hide BitOf, Pow2, BitSet;
    forall p {:trigger BitOf(n, p)} | 0 <= p < 2 * h
      ensures BitOf(n, p) == !BitSet(p, w)
    {
      SplitBits(n, half, half, h, p);
      if p >= h {
        assert BitOf(half, p - h) == !BitSet(p - h, w);
        SameInPeriod(p - h, w, q);
      } else {
        assert BitOf(half, p) == !BitSet(p, w);
      }
    }
  }

  lemma SameInPeriod(p: nat, w: nat, q: nat)
    requires w > 0
    ensures BitSet(p + q * (2 * w), w) == BitSet(p, w)
  {
    Quotient(p, w);
    assert q * (2 * w) == (2 * q) * w;
    Fermat.RemainderUnique(p + q * (2 * w), p / w + 2 * q, p % w, w);
  }

  lemma MaskPowers()
    ensures Pow2(1) == 2 && Pow2(2) == 4 && Pow2(4) == 0x10 && Pow2(8) == 0x100 && Pow2(16) == 0x1_0000 && Pow2(32) == 0x1_0000_0000
    ensures Pow2(64) == 0x1_0000_0000_0000_0000
  {
    hide Pow2;
    PowOne();
    PowersAdd(1, 1);
    PowersAdd(2, 2);
    PowersAdd(4, 4);
    PowersAdd(8, 8);
    PowersAdd(16, 16);
    PowersAdd(32, 32);
  }

  lemma PowOne()
    ensures Pow2(1) == 2
  {
  }

  // The masks of the rounds with shifts inside a lane.
  lemma MasksSelect(i: nat)
    requires 0 < i < 7
    ensures SelectsClear(Mask1(i), 64, Width(i))
  {
    MaskPowers();
    hide Pow2, SelectsClear;
    if i == 1 {
      OnesSelect(0xFFFF_FFFF, 32);
    } else if i == 2 {
      OnesSelect(0xFFFF, 16);
      TwiceSelects(0x0000_FFFF_0000_FFFF, 0xFFFF, 32, 16, 1);
    } else if i == 3 {
      OnesSelect(0xFF, 8);
      TwiceSelects(0x00FF_00FF, 0xFF, 16, 8, 1);
      TwiceSelects(0x00FF_00FF_00FF_00FF, 0x00FF_00FF, 32, 8, 2);
    } else if i == 4 {
      OnesSelect(0xF, 4);
      TwiceSelects(0x0F0F, 0xF, 8, 4, 1);
      TwiceSelects(0x0F0F_0F0F, 0x0F0F, 16, 4, 2);
      TwiceSelects(0x0F0F_0F0F_0F0F_0F0F, 0x0F0F_0F0F, 32, 4, 4);
    } else if i == 5 {
      OnesSelect(0x3, 2);
      TwiceSelects(0x33, 0x3, 4, 2, 1);
      TwiceSelects(0x3333, 0x33, 8, 2, 2);
      TwiceSelects(0x3333_3333, 0x3333, 16, 2, 4);
      TwiceSelects(0x3333_3333_3333_3333, 0x3333_3333, 32, 2, 8);
    } else {
      OnesSelect(0x1, 1);
      TwiceSelects(0x5, 0x1, 2, 1, 1);
      TwiceSelects(0x55, 0x5, 4, 1, 2);
      TwiceSelects(0x5555, 0x55, 8, 1, 4);
      TwiceSelects(0x5555_5555, 0x5555, 16, 1, 8);
      TwiceSelects(0x5555_5555_5555_5555, 0x5555_5555, 32, 1, 16);
    }
  }

  // ---------- one pair of rows ----------

  function Width(i: nat): (w: nat)
    requires i < 7
    ensures w > 0
  {
    [64, 32, 16, 8, 4, 2, 1][i]
  }

  type Lane = w: Word | |w| == 64 witness seq(64, _ => false)

  function Low(b: Block): Lane {
    b.bits[..64]
  }

  function High(b: Block): Lane {
    b.bits[64..]
  }

  function Lanes(lo: Lane, hi: Lane): Block {
    Block(lo + hi)
  }

  // x & n
  function AndWord(x: Lane, n: nat): Lane {
    seq(64, p requires 0 <= p < 64 => x[p] && BitOf(n, p))
  }

  // x & ~n
  function AndNot(x: Lane, n: nat): Lane {
    seq(64, p requires 0 <= p < 64 => x[p] && !BitOf(n, p))
  }

  function Shl(x: Lane, k: nat): Lane {
    ShlWord(x, k)
  }

  function Shr(x: Lane, k: nat): Lane {
    ShrWord(x, k)
  }

  function XorLane(x: Lane, y: Lane): Lane {
    XorW(x, y)
  }

  // x with its bit of weight w flipped.
  function Flip(x: nat, w: nat): (f: nat)
    requires w > 0 && x < 128
    ensures f < 128
  {
    if BitSet(x, w) then (if x >= w then x - w else 0) else (if x + w < 128 then x + w else 0)
  }

  // Entry (r, c) after the bits of weight w of both indices have been exchanged.
  predicate Exchanged(m: seq<Block>, r: nat, c: nat, w: nat)
    requires |m| == 128 && r < 128 && c < 128 && w > 0
  {
    if BitSet(r, w) == BitSet(c, w) then m[r].bits[c] else m[Flip(r, w)].bits[Flip(c, w)]
  }

  function ExchangedRow(m: seq<Block>, r: nat, w: nat): Block
    requires |m| == 128 && r < 128 && w > 0
  {
    Block(seq(128, c requires 0 <= c < 128 => Exchanged(m, r, c, w)))
  }

  // The round with whole lanes.
  method SwapWide(a: Block, b: Block) returns (a': Block, b': Block)
    ensures forall c {:trigger a'.bits[c]} :: 0 <= c < 128 ==> a'.bits[c] == if c < 64 then a.bits[c] else b.bits[c - 64]
    ensures forall c {:trigger b'.bits[c]} :: 0 <= c < 128 ==> b'.bits[c] == if c < 64 then a.bits[c + 64] else b.bits[c]
  {
    var mask1, mask2, width := Mask1(0), Mask2(0), 64;
    var d1, d2, dd1, dd2 := Low(a), High(a), Low(b), High(b);
    var t2 := d2;
    d1 := AndWord(d1, mask1);
    d2 := XorLane(AndWord(t2, mask2), Shr(AndWord(dd1, mask1), 64 - width));
    dd1 := XorLane(AndNot(dd1, mask1), Shl(AndNot(t2, mask2), 64 - width));
    dd2 := AndNot(dd2, mask2);
    hide BitOf;
    a', b' := Lanes(d1, d2), Lanes(dd1, dd2);
    forall p {:trigger BitOf(mask1, p)} {:trigger BitOf(mask2, p)} | 0 <= p < 64
      ensures BitOf(mask1, p) && !BitOf(mask2, p)
    {
      MaskPowers();
      OnesBits(64, p);
      OnesBits(0, p);
    }
  }

  // The lanes of a round with a smaller width.
  method SwapLanes(a: Block, b: Block, mask1: nat, mask2: nat, width: nat) returns (a': Block, b': Block)
    requires 0 < width < 64
    ensures Low(a') == XorLane(AndWord(Low(a), mask1), Shl(AndWord(Low(b), mask1), width))
    ensures High(a')
         == XorLane(XorLane(AndWord(High(a), mask2), Shl(AndWord(High(b), mask2), width)), Shr(AndWord(Low(b), mask1), 64 - width))
    ensures Low(b') == XorLane(XorLane(AndNot(Low(b), mask1), Shr(AndNot(Low(a), mask1), width)), Shl(AndNot(High(a), mask2), 64 - width))
    ensures High(b') == XorLane(AndNot(High(b), mask2), Shr(AndNot(High(a), mask2), width))
  {
    hide AndWord, AndNot, Shl, Shr, XorLane;
    var t1, t2, tt1, tt2 := Low(a), High(a), Low(b), High(b);
    var d1 := XorLane(AndWord(t1, mask1), Shl(AndWord(tt1, mask1), width));
    var d2 := XorLane(XorLane(AndWord(t2, mask2), Shl(AndWord(tt2, mask2), width)), Shr(AndWord(tt1, mask1), 64 - width));
    var dd1 := XorLane(XorLane(AndNot(tt1, mask1), Shr(AndNot(t1, mask1), width)), Shl(AndNot(t2, mask2), 64 - width));
    var dd2 := XorLane(AndNot(tt2, mask2), Shr(AndNot(t2, mask2), width));
    a', b' := Lanes(d1, d2), Lanes(dd1, dd2);
  }

  // The bit of weight w, by the position in its period.
  lemma BitByPeriod(p: nat, w: nat)
    requires w > 0
    ensures BitSet(p, w) <==> p % (2 * w) >= w
  {
    var a, t := p / (2 * w), p % (2 * w);
    Quotient(p, 2 * w);
    assert a * (2 * w) == (2 * a) * w;
    if t < w {
      Fermat.RemainderUnique(p, 2 * a, t, w);
    } else {
      Fermat.RemainderUnique(p, 2 * a + 1, t - w, w);
    }
  }

  // Positions p - w and p + w below a multiple n of 2w.
  lemma Shifted(w: nat, p: nat, q: nat, n: nat)
    requires w > 0 && q * (2 * w) == n && p < n
    ensures BitSet(p, w) ==> p >= w && !BitSet(p - w, w)
    ensures !BitSet(p, w) ==> p + w < n && BitSet(p + w, w)
  {
    hide BitSet;
    BitByPeriod(p, w);
    MovedInPeriod(p, w, 2 * w);
    if p % (2 * w) >= w {
      BitByPeriod(p - w, w);
    } else {
      BitByPeriod(p + w, w);
      RoomAbove(p, 2 * w, q, n);
    }
  }

  lemma MovedInPeriod(p: nat, w: nat, m: nat)
    requires w <= m && m > 0
    ensures p % m >= w ==> p >= w && (p - w) / m == p / m && (p - w) % m == p % m - w
    ensures p % m + w < m ==> (p + w) / m == p / m && (p + w) % m == p % m + w
  {
    var a, t := p / m, p % m;
    Quotient(p, m);
    if t >= w {
      Fermat.RemainderUnique(p - w, a, t - w, m);
    }
    if t + w < m {
      Fermat.RemainderUnique(p + w, a, t + w, m);
    }
  }

  lemma Quotient(p: nat, m: nat)
    requires m > 0
    ensures p / m >= 0 && p == p / m * m + p % m && p / m * m >= 0
  {
  }

  lemma RoomAbove(p: nat, m: nat, q: nat, n: nat)
    requires m > 0 && q * m == n && p < n
    ensures p - p % m + m <= n
  {
    var a := p / m;
    assert p == a * m + p % m;
    assert (q - a) * m == n - a * m;
    Fermat.Magnitude(q - a, m);
    Fermat.Magnitude(q - a - 1, m);
  }

  // Bit p of the new lanes of the upper row, and that the carry between the lanes is zero.
  lemma UpperBit(x: Lane, y: Lane, z: Lane, n: nat, w: nat, q: nat, p: nat)
    requires w > 0 && q * (2 * w) == 64 && SelectsClear(n, 64, w) && p < 64
    ensures BitSet(p, w) ==> p >= w
    ensures XorLane(AndWord(x, n), Shl(AndWord(y, n), w))[p] == if BitSet(p, w) then y[p - w] else x[p]
    ensures !Shr(AndWord(z, n), 64 - w)[p]
  {
    hide BitSet, BitOf;
    assert BitOf(n, p) == !BitSet(p, w);
    Shifted(w, p, q, 64);
    if p >= w {
      Shifted(w, p - w, q, 64);
      assert BitOf(n, p - w) == !BitSet(p - w, w);
    } else {
      Shifted(w, p + 64 - w, q, 64);
      assert BitOf(n, p + 64 - w) == !BitSet(p + 64 - w, w);
    }
  }

  lemma LowerBit(x: Lane, y: Lane, z: Lane, n: nat, w: nat, q: nat, p: nat)
    requires w > 0 && q * (2 * w) == 64 && SelectsClear(n, 64, w) && p < 64
    ensures !BitSet(p, w) ==> p + w < 64
    ensures XorLane(AndNot(y, n), Shr(AndNot(x, n), w))[p] == if BitSet(p, w) then y[p] else x[p + w]
    ensures !Shl(AndNot(z, n), 64 - w)[p]
  {
    hide BitSet, BitOf;
    assert BitOf(n, p) == !BitSet(p, w);
    Shifted(w, p, q, 64);
    if p + w < 64 {
      Shifted(w, p + w, q, 64);
      assert BitOf(n, p + w) == !BitSet(p + w, w);
    } else {
      Shifted(w, p - (64 - w), q, 64);
      assert BitOf(n, p - (64 - w)) == !BitSet(p - (64 - w), w);
    }
  }

  // Bit w of a column is that of its position in the lane.
  lemma LaneBit(c: nat, w: nat, q: nat)
    requires w > 0 && q * (2 * w) == 64 && 64 <= c
    ensures BitSet(c, w) == BitSet(c - 64, w)
  {
    var p := c - 64;
    assert p == p / w * w + p % w && (2 * q) * w == 64;
    Fermat.RemainderUnique(c, p / w + 2 * q, p % w, w);
  }

  // What SwapLanes does to the columns.
  lemma NarrowBits(a: Block, b: Block, a': Block, b': Block, n: nat, w: nat, q: nat, c: nat)
    requires 0 < w < 64 && q * (2 * w) == 64 && SelectsClear(n, 64, w) && c < 128
    requires Low(a') == XorLane(AndWord(Low(a), n), Shl(AndWord(Low(b), n), w))
    requires High(a') == XorLane(XorLane(AndWord(High(a), n), Shl(AndWord(High(b), n), w)), Shr(AndWord(Low(b), n), 64 - w))
    requires Low(b') == XorLane(XorLane(AndNot(Low(b), n), Shr(AndNot(Low(a), n), w)), Shl(AndNot(High(a), n), 64 - w))
    requires High(b') == XorLane(AndNot(High(b), n), Shr(AndNot(High(a), n), w))
    ensures if BitSet(c, w) then c >= w && a'.bits[c] == b.bits[c - w] && b'.bits[c] == b.bits[c]
            else c + w < 128 && a'.bits[c] == a.bits[c] && b'.bits[c] == a.bits[c + w]
  {
    hide BitSet, BitOf, AndWord, AndNot, Shl, Shr, SelectsClear;
    if c < 64 {
      UpperBit(Low(a), Low(b), Low(b), n, w, q, c);
      LowerBit(Low(a), Low(b), High(a), n, w, q, c);
      assert a'.bits[c] == Low(a')[c] && b'.bits[c] == Low(b')[c];
    } else {
      LaneBit(c, w, q);
      UpperBit(High(a), High(b), Low(b), n, w, q, c - 64);
      LowerBit(High(a), High(b), High(a), n, w, q, c - 64);
      assert a'.bits[c] == High(a')[c - 64] && b'.bits[c] == High(b')[c - 64];
    }
  }

  // ---------- the rounds ----------

  // What a round does to a pair of rows, in both cases of the width.
  ghost predicate PairSwapped(a: Block, b: Block, a': Block, b': Block, w: nat)
    requires w > 0
  {
    && (forall c {:trigger a'.bits[c]} :: 0 <= c < 128 ==> a'.bits[c] == if BitSet(c, w) && c >= w then b.bits[c - w] else a.bits[c])
    && (forall c {:trigger b'.bits[c]} :: 0 <= c < 128 ==> b'.bits[c] == if BitSet(c, w) || c + w >= 128 then b.bits[c] else a.bits[c + w])
  }

  method SwapPair(a: Block, b: Block, i: nat) returns (a': Block, b': Block)
    requires i < 7
    ensures PairSwapped(a, b, a', b', Width(i))
  {
    hide Low, High, AndWord, AndNot, Shl, Shr, XorLane, SelectsClear;
    var width := Width(i);
    if width < 64 {
      a', b' := SwapLanes(a, b, Mask1(i), Mask2(i), width);
      ghost var q := WidthDivides(i);
      MasksSelect(i);
      hide BitSet;
      forall c {:trigger a'.bits[c]} {:trigger b'.bits[c]} | 0 <= c < 128
        ensures a'.bits[c] == if BitSet(c, width) && c >= width then b.bits[c - width] else a.bits[c]
        ensures b'.bits[c] == if BitSet(c, width) || c + width >= 128 then b.bits[c] else a.bits[c + width]
      {
        NarrowBits(a, b, a', b', Mask1(i), width, q / 2, c);
      }
    } else {
      a', b' := SwapWide(a, b);
    }
  }

  lemma WidthDivides(i: nat) returns (q: nat)
    requires i < 7
    ensures q * (2 * Width(i)) == 128
  {
    q := [1, 2, 4, 8, 16, 32, 64][i];
  }

  // The rows k and k + w of the block of 2w rows that starts at i1 - k.
  lemma PairRows(m: seq<Block>, i1: nat, i: nat, q: nat, a': Block, b': Block)
    requires |m| == 128 && i < 7 && q * (2 * Width(i)) == 128 && i1 < 128 && !BitSet(i1, Width(i))
    requires i1 + Width(i) < 128 && PairSwapped(m[i1], m[i1 + Width(i)], a', b', Width(i))
    ensures a' == ExchangedRow(m, i1, Width(i)) && b' == ExchangedRow(m, i1 + Width(i), Width(i))
  {
    var w := Width(i);
    Shifted(w, i1, q, 128);
    hide BitSet, Width;
    forall c {:trigger a'.bits[c]} {:trigger b'.bits[c]} | 0 <= c < 128
      ensures a'.bits[c] == Exchanged(m, i1, c, w) && b'.bits[c] == Exchanged(m, i1 + w, c, w)
    {
      Shifted(w, c, q, 128);
    }
    assert a'.bits == ExchangedRow(m, i1, w).bits;
    assert b'.bits == ExchangedRow(m, i1 + w, w).bits;
  }

  // Row r belongs to a pair treated before pair k of block j.
  predicate Treated(r: nat, w: nat, j: nat, k: nat)
    requires w > 0
  {
    r / (2 * w) < j || (r / (2 * w) == j && r % w < k)
  }

  ghost predicate Partly(before: seq<Block>, m: seq<Block>, w: nat, j: nat, k: nat) {
    && |before| == |m| == 128 && w > 0
    && forall r {:trigger m[r]} :: 0 <= r < 128 ==> m[r] == if Treated(r, w, j, k) then ExchangedRow(before, r, w) else before[r]
  }

  lemma NoneTreated(m: seq<Block>, w: nat)
    requires |m| == 128 && w > 0
    ensures Partly(m, m, w, 0, 0)
  {
    hide ExchangedRow, Treated;
    forall r {:trigger m[r]} | 0 <= r < 128
      ensures !Treated(r, w, 0, 0)
    {
      NotTreated(r, w);
    }
  }

  lemma NotTreated(r: nat, w: nat)
    requires w > 0
    ensures !Treated(r, w, 0, 0)
  {
    Quotient(r, 2 * w);
  }

  // Where pair k of block j is.
  lemma PairPlaces(j: nat, k: nat, w: nat, n: nat)
    requires k < w && j < n && n * (2 * w) == 128
    ensures var i1 := k + 2 * w * j;
            i1 + w < 128 && k + w + 2 * w * j == i1 + w && !BitSet(i1, w) && !Treated(i1, w, j, k) && !Treated(i1 + w, w, j, k)
  {
    var i1 := k + 2 * w * j;
    PairPlace(j, k, w, n);
    assert i1 == j * (2 * w) + k;
    assert (n - j) * (2 * w) == 128 - j * (2 * w);
    Fermat.Magnitude(n - j, 2 * w);
  }

  lemma PairPlace(j: nat, k: nat, w: nat, n: nat)
    requires k < w
    ensures var i1 := k + 2 * w * j; i1 / (2 * w) == j == (i1 + w) / (2 * w) && i1 % w == k == (i1 + w) % w && !BitSet(i1, w)
  {
    var i1 := k + 2 * w * j;
    assert i1 == j * (2 * w) + k == (2 * j) * w + k;
    Fermat.RemainderUnique(i1, j, k, 2 * w);
    Fermat.RemainderUnique(i1 + w, j, k + w, 2 * w);
    Fermat.RemainderUnique(i1, 2 * j, k, w);
    Fermat.RemainderUnique(i1 + w, 2 * j + 1, k, w);
  }

  // Only the two rows of the pair change their state.
  lemma TreatedOnce(r: nat, w: nat, j: nat, k: nat)
    requires k < w
    ensures Treated(r, w, j, k + 1) == (Treated(r, w, j, k) || r == k + 2 * w * j || r == k + w + 2 * w * j)
  {
    PairPlace(j, k, w, 0);
    var d := r % (2 * w);
    assert r == r / (2 * w) * (2 * w) + d;
    if r / (2 * w) == j && r % w == k {
      if d < w {
        assert r == (2 * j) * w + d;
        Fermat.RemainderUnique(r, 2 * j, d, w);
      } else {
        assert r == (2 * j + 1) * w + (d - w);
        Fermat.RemainderUnique(r, 2 * j + 1, d - w, w);
      }
    }
  }

  lemma TreatedNext(before: seq<Block>, was: seq<Block>, now: seq<Block>, w: nat, j: nat, k: nat, n: nat)
    requires Partly(before, was, w, j, k) && k < w && j < n && n * (2 * w) == 128
    requires var i1, i2 := k + 2 * w * j, k + w + 2 * w * j;
             i1 < 128 && i2 < 128 && now == was[i1 := ExchangedRow(before, i1, w)][i2 := ExchangedRow(before, i2, w)]
    ensures Partly(before, now, w, j, k + 1)
  {
    hide ExchangedRow, Treated;
    forall r {:trigger now[r]} | 0 <= r < 128
      ensures now[r] == if Treated(r, w, j, k + 1) then ExchangedRow(before, r, w) else before[r]
    {
      TreatedOnce(r, w, j, k);
    }
  }

  lemma BlockTreated(before: seq<Block>, m: seq<Block>, w: nat, j: nat)
    requires Partly(before, m, w, j, w)
    ensures Partly(before, m, w, j + 1, 0)
  {
    hide ExchangedRow;
    forall r {:trigger m[r]} | 0 <= r < 128
      ensures Treated(r, w, j, w) == Treated(r, w, j + 1, 0)
    {
    }
  }

  lemma AllTreated(before: seq<Block>, m: seq<Block>, w: nat, n: nat)
    requires Partly(before, m, w, n, 0) && n * (2 * w) == 128
    ensures forall r {:trigger m[r]} :: 0 <= r < 128 ==> m[r] == ExchangedRow(before, r, w)
  {
    hide ExchangedRow;
    forall r {:trigger m[r]} | 0 <= r < 128
      ensures Treated(r, w, n, 0)
    {
      RoomAbove(r, 2 * w, n, 128);
      var a := r / (2 * w);
      assert r == a * (2 * w) + r % (2 * w);
      assert (a + 1 - n) * (2 * w) == a * (2 * w) + 2 * w - 128;
      Fermat.Magnitude(a + 1 - n, 2 * w);
    }
  }

  // Round i of the loop, whose variables width and nswaps are 64 / 2^i and 2^i.
  method Round(inOut: array<Block>, i: nat, width: nat, nswaps: nat)
    requires inOut.Length == 128 && i < 7 && width == Width(i) && nswaps * (2 * width) == 128
    modifies inOut
    ensures forall r {:trigger inOut[r]} :: 0 <= r < 128 ==> inOut[r] == ExchangedRow(old(inOut[..]), r, width)
  {
    hide ExchangedRow, Width, Treated;
    ghost var before := inOut[..];
    NoneTreated(before, width);
    for j := 0 to nswaps
      invariant Partly(before, inOut[..], width, j, 0)
    {
      for k := 0 to width
        invariant Partly(before, inOut[..], width, j, k)
      {
        PairPlaces(j, k, width, nswaps);
        var i1, i2 := k + 2 * width * j, k + width + 2 * width * j;
        ghost var was := inOut[..];
        assert was[i1] == before[i1] && was[i2] == before[i2];
        var a, b := SwapPair(inOut[i1], inOut[i2], i);
        PairRows(before, i1, i, nswaps, a, b);
        inOut[i1] := a;
        inOut[i2] := b;
        TreatedNext(before, was, inOut[..], width, j, k, nswaps);
      }
      BlockTreated(before, inOut[..], width, j);
    }
    AllTreated(before, inOut[..], width, nswaps);
  }

  // ---------- all rounds ----------

  // x with its bits of weight 128 / 2^i and more replaced by those of y.
  function TopFrom(x: nat, y: nat, period: nat): (z: nat)
    requires period > 0
  {
    y / period * period + x % period
  }

  // The state after the rounds down to the given period: the top bits are exchanged.
  ghost predicate TopExchanged(orig: seq<Block>, m: seq<Block>, period: nat) {
    && |orig| == |m| == 128 && period > 0
    && forall r, c {:trigger m[r].bits[c]} :: 0 <= r < 128 && 0 <= c < 128 ==> FromTop(orig, m[r].bits[c], r, c, period)
  }

  ghost predicate FromTop(orig: seq<Block>, bit: bool, r: nat, c: nat, period: nat)
    requires |orig| == 128 && period > 0
  {
    TopFrom(r, c, period) < 128 && TopFrom(c, r, period) < 128 && bit == orig[TopFrom(r, c, period)].bits[TopFrom(c, r, period)]
  }

  // Replacing one more bit.
  lemma TopNext(x: nat, y: nat, w: nat, q: nat)
    requires w > 0 && q * (2 * w) == 128 && x < 128 && y < 128
    ensures TopFrom(x, y, w) < 128
    ensures TopFrom(x, y, w) == if BitSet(x, w) == BitSet(y, w) then TopFrom(x, y, 2 * w) else TopFrom(Flip(x, w), Flip(y, w), 2 * w)
  {
    hide BitSet, Flip, TopFrom;
    TopFine(x, y, w, 2 * w);
    TopCoarse(x, y, 2 * w);
    FlipDigits(x, w, 2 * w, q);
    FlipDigits(y, w, 2 * w, q);
    TopCoarse(Flip(x, w), Flip(y, w), 2 * w);
    RoomAbove(y, 2 * w, q, 128);
    BitByPeriod(x, w);
    BitByPeriod(y, w);
  }

  // The start of the period that contains y.
  function Start(y: nat, period: nat): nat
    requires period > 0
  {
    y / period * period
  }

  lemma TopCoarse(x: nat, y: nat, m: nat)
    requires m > 0
    ensures TopFrom(x, y, m) == Start(y, m) + x % m && Start(y, m) + y % m == y
  {
  }

  lemma TopFine(x: nat, y: nat, w: nat, m: nat)
    requires w > 0 && m == 2 * w
    ensures TopFrom(x, y, w) == Start(y, m) + (if y % m >= w then w else 0) + (if x % m >= w then x % m - w else x % m)
  {
    HalfPeriod(x, w, m);
    HalfPeriod(y, w, m);
  }

  lemma HalfPeriod(y: nat, w: nat, m: nat)
    requires w > 0 && m == 2 * w
    ensures Start(y, w) == Start(y, m) + (if y % m >= w then w else 0)
    ensures y % w == if y % m >= w then y % m - w else y % m
  {
    var a, t := y / m, y % m;
    assert y == a * m + t && a * m == (2 * a) * w;
    if t < w {
      Fermat.RemainderUnique(y, 2 * a, t, w);
    } else {
      assert (2 * a + 1) * w == (2 * a) * w + w;
      Fermat.RemainderUnique(y, 2 * a + 1, t - w, w);
    }
  }

  lemma FlipDigits(x: nat, w: nat, m: nat, q: nat)
    requires w > 0 && m == 2 * w && q * m == 128 && x < 128
    ensures Start(Flip(x, w), m) == Start(x, m) && Flip(x, w) % m == if BitSet(x, w) then x % m - w else x % m + w
  {
    Shifted(w, x, q, 128);
    BitByPeriod(x, w);
    hide BitSet;
    MovedInPeriod(x, w, m);
  }

  // A round takes the next bit into the exchanged part.
  lemma RoundExchanges(orig: seq<Block>, m: seq<Block>, now: seq<Block>, w: nat, q: nat)
    requires w > 0 && q * (2 * w) == 128 && TopExchanged(orig, m, 2 * w) && |now| == 128
    requires forall r {:trigger now[r]} :: 0 <= r < 128 ==> now[r] == ExchangedRow(m, r, w)
    ensures TopExchanged(orig, now, w)
  {
    hide TopFrom, Flip, BitSet;
    forall r, c {:trigger now[r].bits[c]} | 0 <= r < 128 && 0 <= c < 128
      ensures FromTop(orig, now[r].bits[c], r, c, w)
    {
      TopNext(r, c, w, q);
      TopNext(c, r, w, q);
      assert now[r] == ExchangedRow(m, r, w);
      assert now[r].bits[c] == Exchanged(m, r, c, w);
      if BitSet(r, w) == BitSet(c, w) {
        assert FromTop(orig, m[r].bits[c], r, c, 2 * w);
      } else {
        assert FromTop(orig, m[Flip(r, w)].bits[Flip(c, w)], Flip(r, w), Flip(c, w), 2 * w);
      }
    }
  }

  // now is the transpose of orig.
  ghost predicate Transposed(orig: seq<Block>, now: seq<Block>) {
    && |orig| == |now| == 128
    && forall r, c {:trigger now[r].bits[c]} :: 0 <= r < 128 && 0 <= c < 128 ==> now[r].bits[c] == orig[c].bits[r]
  }

  method Transpose128(inOut: array<Block>)
    requires inOut.Length == 128
    modifies inOut
    ensures Transposed(old(inOut[..]), inOut[..])
    ensures forall r, c {:trigger inOut[r].bits[c]} :: 0 <= r < 128 && 0 <= c < 128 ==> inOut[r].bits[c] == old(inOut[c]).bits[r]
  {
    hide TopExchanged, Transposed, ExchangedRow;
    ghost var orig := inOut[..];
    NothingExchanged(orig);
    var width, nswaps := 64, 1;
    for i := 0 to 7
      invariant i < 7 ==> width == Width(i)
      invariant (if i < 7 then nswaps * (2 * width) else nswaps) == 128
      invariant TopExchanged(orig, inOut[..], if i < 7 then 2 * width else 1)
    {
      ghost var was := inOut[..];
      Round(inOut, i, width, nswaps);
      RoundExchanges(orig, was, inOut[..], width, nswaps);
      nswaps := nswaps * 2;
      width := width / 2;
    }
    AllExchanged(orig, inOut[..]);
    TransposedBits(orig, inOut[..]);
  }

  lemma TransposedBits(orig: seq<Block>, m: seq<Block>)
    requires Transposed(orig, m)
    ensures |orig| == |m| == 128
    ensures forall r, c {:trigger m[r].bits[c]} :: 0 <= r < 128 && 0 <= c < 128 ==> m[r].bits[c] == orig[c].bits[r]
  {
  }

  lemma NothingExchanged(m: seq<Block>)
    requires |m| == 128
    ensures TopExchanged(m, m, 128)
  {
  }

  lemma AllExchanged(orig: seq<Block>, m: seq<Block>)
    requires TopExchanged(orig, m, 1)
    ensures Transposed(orig, m)
  {
    forall r, c {:trigger m[r].bits[c]} | 0 <= r < 128 && 0 <= c < 128
      ensures m[r].bits[c] == orig[c].bits[r]
    {
      assert FromTop(orig, m[r].bits[c], r, c, 1);
      assert TopFrom(r, c, 1) == c && TopFrom(c, r, 1) == r;
    }
  }

  // Transposing twice restores the matrix.
  lemma TwiceIsSame(a: seq<Block>, b: seq<Block>, c: seq<Block>)
    requires Transposed(a, b) && Transposed(b, c)
    ensures a == c
  {
    forall r | 0 <= r < 128
      ensures a[r] == c[r]
    {
      forall p {:trigger c[r].bits[p]} | 0 <= p < 128
        ensures c[r].bits[p] == a[r].bits[p]
      {
        assert b[p].bits[r] == a[r].bits[p];
      }
      assert a[r].bits == c[r].bits;
    }
  }
}

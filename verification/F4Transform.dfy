/**
 The radix-3 transforms over packed F4 lanes (F4.h lines 9 to 69 and its forward
 counterpart foleageFft in FoleageFft.h), as in-place methods, together with the
 algebra the OLE and VOLE protocols rely on: the closed form, inversion, linearity and
 the convolution theorem.
 */
module F4Transform {
  import opened Blocks
  import opened F4Ring
  import opened Radix3
  import opened TritTree

  // The value at a^d of the polynomial l + m X + r X^2, for d < 3: the butterfly of
  // inv_foleageFft.
  function Inverse(d: nat, l: Block, m: Block, r: Block): Block {
    if d == 0 then Xor(Xor(l, m), r)
    else if d == 1 then Xor(Xor(l, AMul(m)), AMul(AMul(r)))
    else Xor(Xor(l, AMul(AMul(m))), AMul(r))
  }

  // Its value at a^2d: the butterfly of foleageFft.
  function Forward(d: nat, l: Block, m: Block, r: Block): Block {
    Inverse(Mirror(d), l, m, r)
  }

  function Mirror(d: nat): nat {
    if d == 0 then 0 else if d == 1 then 2 else 1
  }

  // ---------- the code ----------

  // The byte patterns 0b01010101 (phase 0) and 0b10101010 (phase 1).
  function LaneMask(phase: nat): Block {
    Block(seq(128, i => i % 2 == phase))
  }

  // mult of F4.h lines 52 to 56 on the lanes of d.
  function LaneMult(d: Block): Block {
    var xorH := And(d, LaneMask(1));
    var xorL := And(d, LaneMask(0));
    Or(Xor(SrliEpi64(xorH, 1), xorL), SlliEpi64(xorL, 1))
  }

  // The shifts and masks multiply every lane by a^2 = a + 1: a lane l + h a becomes
  // (l + h) + l a.
  lemma LaneMultIsSquare(d: Block)
    ensures LaneMult(d) == AMul(AMul(d))
    ensures forall i {:trigger d.bits[2 * i]} :: 0 <= i < 64 ==>
      LaneMult(d).bits[2 * i] == (d.bits[2 * i] != d.bits[2 * i + 1]) && LaneMult(d).bits[2 * i + 1] == d.bits[2 * i]
  {
    hide LaneMult, AMul;
    SquareLanes(d);
    LanesTurn(d);
  }

  lemma SquareLanes(d: Block)
    ensures LaneMult(d) == AMul(AMul(d))
  {
    assert LaneMult(d).bits == AMul(AMul(d)).bits;
  }

  lemma LanesTurn(d: Block)
    ensures forall i {:trigger d.bits[2 * i]} :: 0 <= i < 64 ==>
      LaneMult(d).bits[2 * i] == (d.bits[2 * i] != d.bits[2 * i + 1]) && LaneMult(d).bits[2 * i + 1] == d.bits[2 * i]
  {
    hide LaneMult;
    forall i {:trigger d.bits[2 * i]} | 0 <= i < 64
      ensures LaneMult(d).bits[2 * i] == (d.bits[2 * i] != d.bits[2 * i + 1]) && LaneMult(d).bits[2 * i + 1] == d.bits[2 * i]
    {
      LaneTurns(d, i);
    }
  }

  lemma LaneTurns(d: Block, i: nat)
    requires i < 64
    ensures LaneMult(d).bits[2 * i] == (d.bits[2 * i] != d.bits[2 * i + 1]) && LaneMult(d).bits[2 * i + 1] == d.bits[2 * i]
  {
    assert 2 * i % 64 + 1 < 64;
  }

  lemma ButterflyRotations(l: Block, m: Block, r: Block)
    ensures Xor(Xor(l, m), LaneMult(Xor(m, r))) == Inverse(1, l, m, r)
    ensures Xor(Xor(l, r), LaneMult(Xor(m, r))) == Inverse(2, l, m, r)
  {
    SquareLanes(Xor(m, r));
    AMulLinear(m, r);
    AMulLinear(AMul(m), AMul(r));
    AMulSquared(m);
    AMulSquared(r);
    assert Xor(Xor(l, m), LaneMult(Xor(m, r))).bits == Inverse(1, l, m, r).bits;
    assert Xor(Xor(l, r), LaneMult(Xor(m, r))).bits == Inverse(2, l, m, r).bits;
  }

  // ---------- inv_foleageFft and foleageFft ----------

  lemma RunLength(n: nat, f: Butterfly<Block>, t: Tri<Block>)
    requires Perfect(n, t)
    ensures |Leaves(Transform(f, t))| == Pow3(n)
  {
    PerfectTransform(n, f, t);
    LeafCount(n, Transform(f, t));
  }

  // The loop of inv_foleageFft.
  method InvButterflies(coeffs: array<Block>, off: nat, m: nat)
    requires off + 3 * m <= coeffs.Length
    modifies coeffs
    ensures coeffs[..] == Flies(Inverse, old(coeffs[..]), off, m, m)
  {
    hide Fly, Inverse;
    var j := 0;
    while j < m
      invariant 0 <= j <= m
      invariant coeffs[..] == Flies(Inverse, old(coeffs[..]), off, m, j)
    {
      InvButterfly(coeffs, off + j, off + m + j, off + 2 * m + j);
      j := j + 1;
    }
  }

  method InvButterfly(coeffs: array<Block>, p: nat, q: nat, r: nat)
    requires p < q < r < coeffs.Length
    modifies coeffs
    ensures coeffs[..] == Fly(Inverse, old(coeffs[..]), p, q, r)
  {
    var cL, cM, cR := coeffs[p], coeffs[q], coeffs[r];
    var mult := LaneMult(Xor(cM, cR));
    ButterflyRotations(cL, cM, cR);
    coeffs[p] := Xor(Xor(cL, cM), cR);
    coeffs[q] := Xor(Xor(cL, cM), mult);
    coeffs[r] := Xor(Xor(cL, cR), mult);
  }

  // The 3^numVars coefficients at off, the leaves of t, are replaced by their inverse transform.
  method InvFoleageFft(coeffs: array<Block>, off: nat, numVars: nat, numCoeffs: nat,
                       ghost pre: seq<Block>, ghost t: Tri<Block>, ghost post: seq<Block>)
    requires numCoeffs == Pow3(numVars) / 3
    requires coeffs[..] == pre + Leaves(t) + post && |pre| == off && Perfect(numVars, t)
    modifies coeffs
    ensures coeffs[..] == pre + Leaves(Transform(Inverse, t)) + post
    decreases numVars, 1
  {
    if numVars > 0 {
      JoinThirds(pre, Leaves(t.l), Leaves(t.m), Leaves(t.r), post);
      InvThirds(coeffs, off, numVars - 1, numCoeffs, pre, t.l, t.m, t.r, post);
      PerfectThirds(numVars, Inverse, t);
      JoinThirds(pre, Leaves(Transform(Inverse, t.l)), Leaves(Transform(Inverse, t.m)), Leaves(Transform(Inverse, t.r)), post);
      FliesCombine(Inverse, numVars - 1, pre, Transform(Inverse, t.l), Transform(Inverse, t.m), Transform(Inverse, t.r), post);
    }
    InvButterflies(coeffs, off, numCoeffs);
  }

  // The three recursive calls, made only when the thirds have more than one entry.
  method InvThirds(coeffs: array<Block>, off: nat, n: nat, numCoeffs: nat,
                ghost pre: seq<Block>, ghost a: Tri<Block>, ghost b: Tri<Block>, ghost c: Tri<Block>, ghost post: seq<Block>)
    requires numCoeffs == Pow3(n) && Perfect(n, a) && Perfect(n, b) && Perfect(n, c) && |pre| == off
    requires coeffs[..] == pre + Leaves(a) + (Leaves(b) + (Leaves(c) + post))
    modifies coeffs
    ensures coeffs[..] == pre + Leaves(Transform(Inverse, a)) + Leaves(Transform(Inverse, b)) + Leaves(Transform(Inverse, c)) + post
    decreases n, 2
  {
    ghost var ta, tb, tc := Leaves(Transform(Inverse, a)), Leaves(Transform(Inverse, b)), Leaves(Transform(Inverse, c));
    RunLength(n, Inverse, a);
    RunLength(n, Inverse, b);
    if n > 0 {
      InvFoleageFft(coeffs, off, n, numCoeffs / 3, pre, a, Leaves(b) + (Leaves(c) + post));
    }
    Shift(pre, ta, Leaves(b), Leaves(c) + post);
    if n > 0 {
      InvFoleageFft(coeffs, off + numCoeffs, n, numCoeffs / 3, pre + ta, b, Leaves(c) + post);
    }
    Shift(pre + ta, tb, Leaves(c), post);
    if n > 0 {
      InvFoleageFft(coeffs, off + 2 * numCoeffs, n, numCoeffs / 3, pre + ta + tb, c, post);
    }
  }

  // The loop of foleageFft.
  method FwdButterflies(coeffs: array<Block>, off: nat, m: nat)
    requires off + 3 * m <= coeffs.Length
    modifies coeffs
    ensures coeffs[..] == Flies(Forward, old(coeffs[..]), off, m, m)
  {
    hide Fly, Forward;
    var j := 0;
    while j < m
      invariant 0 <= j <= m
      invariant coeffs[..] == Flies(Forward, old(coeffs[..]), off, m, j)
    {
      FwdButterfly(coeffs, off + j, off + m + j, off + 2 * m + j);
      j := j + 1;
    }
  }

  method FwdButterfly(coeffs: array<Block>, p: nat, q: nat, r: nat)
    requires p < q < r < coeffs.Length
    modifies coeffs
    ensures coeffs[..] == Fly(Forward, old(coeffs[..]), p, q, r)
  {
    var cL, cM, cR := coeffs[p], coeffs[q], coeffs[r];
    var mult := LaneMult(Xor(cM, cR));
    ButterflyRotations(cL, cM, cR);
    coeffs[p] := Xor(Xor(cL, cM), cR);
    coeffs[q] := Xor(Xor(cL, cR), mult);
    coeffs[r] := Xor(Xor(cL, cM), mult);
  }

  // The 3^numVars coefficients at off, the leaves of t, are replaced by their forward transform.
  method FoleageFft(coeffs: array<Block>, off: nat, numVars: nat, numCoeffs: nat,
                    ghost pre: seq<Block>, ghost t: Tri<Block>, ghost post: seq<Block>)
    requires numCoeffs == Pow3(numVars) / 3
    requires coeffs[..] == pre + Leaves(t) + post && |pre| == off && Perfect(numVars, t)
    modifies coeffs
    ensures coeffs[..] == pre + Leaves(Transform(Forward, t)) + post
    decreases numVars, 1
  {
    if numVars > 0 {
      JoinThirds(pre, Leaves(t.l), Leaves(t.m), Leaves(t.r), post);
      Thirds(coeffs, off, numVars - 1, numCoeffs, pre, t.l, t.m, t.r, post);
      PerfectThirds(numVars, Forward, t);
      JoinThirds(pre, Leaves(Transform(Forward, t.l)), Leaves(Transform(Forward, t.m)), Leaves(Transform(Forward, t.r)), post);
      FliesCombine(Forward, numVars - 1, pre, Transform(Forward, t.l), Transform(Forward, t.m), Transform(Forward, t.r), post);
    }
    FwdButterflies(coeffs, off, numCoeffs);
  }

  // The three recursive calls, made only when the thirds have more than one entry.
  method Thirds(coeffs: array<Block>, off: nat, n: nat, numCoeffs: nat,
                ghost pre: seq<Block>, ghost a: Tri<Block>, ghost b: Tri<Block>, ghost c: Tri<Block>, ghost post: seq<Block>)
    requires numCoeffs == Pow3(n) && Perfect(n, a) && Perfect(n, b) && Perfect(n, c) && |pre| == off
    requires coeffs[..] == pre + Leaves(a) + (Leaves(b) + (Leaves(c) + post))
    modifies coeffs
    ensures coeffs[..] == pre + Leaves(Transform(Forward, a)) + Leaves(Transform(Forward, b)) + Leaves(Transform(Forward, c)) + post
    decreases n, 2
  {
    ghost var ta, tb, tc := Leaves(Transform(Forward, a)), Leaves(Transform(Forward, b)), Leaves(Transform(Forward, c));
    RunLength(n, Forward, a);
    RunLength(n, Forward, b);
    if n > 0 {
      FoleageFft(coeffs, off, n, numCoeffs / 3, pre, a, Leaves(b) + (Leaves(c) + post));
    }
    Shift(pre, ta, Leaves(b), Leaves(c) + post);
    if n > 0 {
      FoleageFft(coeffs, off + numCoeffs, n, numCoeffs / 3, pre + ta, b, Leaves(c) + post);
    }
    Shift(pre + ta, tb, Leaves(c), post);
    if n > 0 {
      FoleageFft(coeffs, off + 2 * numCoeffs, n, numCoeffs / 3, pre + ta + tb, c, post);
    }
  }

}

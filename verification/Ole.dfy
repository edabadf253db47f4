/**
 Both Extension_Field_OLE functions (OLE.h lines 140 to 432): two parties turn sparse
 polynomials into shares of the pointwise products of their inputs, and the comparison at
 the end of each function never fails.
 */
module Ole {
  import opened Blocks
  import opened F4Ring
  import opened TritTree
  import opened Radix3
  import opened Trits
  import opened IndexSplit
  import opened BlockSums
  import opened SparsePoly
  import opened TernaryDpf
  import opened OleDpf
  import opened OleAlgebra
  import opened VectorTransform
  import opened IntPower
  import Fermat

  // A polynomial with one coefficient in each block: the points, the coefficients and the
  // vector of all coefficients.
  datatype Poly = Poly(points: seq<F3x32>, coeffs: seq<Block>, vector: seq<Block>)

  ghost predicate Regular(b: nat, d: nat, p: Poly) {
    && |p.points| == |p.coeffs| == Pow3(b) && PointsFit(d, p.points)
    && p.vector == RegularVector(b, d, p.points, p.coeffs)
  }

  function RegularVector(b: nat, d: nat, points: seq<F3x32>, coeffs: seq<Block>): (s: seq<Block>)
    requires |points| == |coeffs| == Pow3(b) && PointsFit(d, points)
    ensures |s| == Pow3(b + d)
  {
    OffsetsFit(b, d, points);
    Sparse(Pow3(b + d), Offsets(b, d, points), coeffs, |coeffs|)
  }

  // Everything that is drawn at random: public multipliers, positions and coefficients of
  // the polynomials, and the draws of each run of dpf.
  datatype Draws = Draws(a: (nat, nat) -> Block, position: (nat, nat) -> nat, coeff: (nat, nat) -> Block, run: nat -> Randomness)

  // The points and coefficients of polynomial w.
  function PointsOf(draws: Draws, w: nat, numPoints: nat, domain: nat): (p: seq<F3x32>)
    requires domain > 0
    ensures |p| == numPoints
  {
    seq<F3x32>(numPoints, i requires 0 <= i < numPoints => Digits(draws.position(w, i) % domain))
  }

  function CoeffsOf(draws: Draws, w: nat, numPoints: nat): (c: seq<Block>)
    ensures |c| == numPoints
  {
    seq(numPoints, i requires 0 <= i < numPoints => draws.coeff(w, i))
  }

  lemma PointsOfFit(draws: Draws, w: nat, numPoints: nat, d: nat)
    requires d <= 32
    ensures PointsFit(d, PointsOf(draws, w, numPoints, Pow3(d)))
    ensures forall i {:trigger PointsOf(draws, w, numPoints, Pow3(d))[i]} :: 0 <= i < numPoints ==>
      var p := PointsOf(draws, w, numPoints, Pow3(d))[i]; Value(p, 0, 32) == Value(p, 0, d) == draws.position(w, i) % Pow3(d)
  {
    hide Pow3, Value, Digits;
    forall i | 0 <= i < numPoints
      ensures var p := PointsOf(draws, w, numPoints, Pow3(d))[i];
              Proper(p) && Below(p, d) && Value(p, 0, 32) == Value(p, 0, d) == draws.position(w, i) % Pow3(d)
    {
      FromIntToInt(draws.position(w, i) % Pow3(d), d);
    }
  }

  // The vector of polynomial w: block j holds the drawn coefficient at the drawn position
  // and nothing else.
  ghost predicate DrawnVector(draws: Draws, w: nat, b: nat, d: nat, v: seq<Block>) {
    && |v| == Pow3(b + d)
    && forall m {:trigger v[m]} :: 0 <= m < |v| ==>
         v[m] == if m % Pow3(d) == draws.position(w, m / Pow3(d)) % Pow3(d) then draws.coeff(w, m / Pow3(d)) else ZERO
  }

  // Coefficient i of polynomial w: its point and its index.
  method DrawPoint(draws: Draws, w: nat, i: nat, numPoints: nat, domain: nat, ghost b: nat, ghost d: nat) returns (point: F3x32, at: nat)
    requires numPoints == Pow3(b) && domain == Pow3(d) && d <= 32 && i < numPoints
    ensures point == PointsOf(draws, w, numPoints, domain)[i] && at == Offsets(b, d, PointsOf(draws, w, numPoints, domain))[i]
  {
    hide Pow3, Value, Cat, Digits, PointsOf, CoeffsOf, Offsets;
    point := FromInt(draws.position(w, i) % domain);
    var v := ToInt(point);
    DrawnAt(draws, w, numPoints, domain, i);
    PointsOfFit(draws, w, numPoints, d);
    OffsetsFit(b, d, PointsOf(draws, w, numPoints, domain));
    CatIsOffset(b, d, i, v);
    at := v + i * domain;
  }

  // One polynomial, written into a zero vector entry by entry.
  method DrawPoly(draws: Draws, w: nat, numPoints: nat, domain: nat, length: nat, ghost b: nat, ghost d: nat) returns (p: Poly)
    requires numPoints == Pow3(b) && domain == Pow3(d) && length == Pow3(b + d) && d <= 32
    ensures Regular(b, d, p) && p.points == PointsOf(draws, w, numPoints, domain) && p.coeffs == CoeffsOf(draws, w, numPoints)
  {
    hide Pow3, Value, Cat, Digits, PointsOf, CoeffsOf, Offsets, AllDistinct;
    ghost var allPoints, allCoeffs := PointsOf(draws, w, numPoints, domain), CoeffsOf(draws, w, numPoints);
    PointsOfFit(draws, w, numPoints, d);
    OffsetsFit(b, d, allPoints);
    ghost var x := Offsets(b, d, allPoints);
    var points: seq<F3x32>, coeffs: seq<Block>, vector: seq<Block> := [], [], seq(length, _ => ZERO);
    var i := 0;
    while i < numPoints
      invariant i <= numPoints && points == allPoints[..i] && coeffs == allCoeffs[..i]
      invariant vector == Sparse(length, x, allCoeffs, i)
    {
      var point, at := DrawPoint(draws, w, i, numPoints, domain, b, d);
      DrawnAt(draws, w, numPoints, domain, i);
      points, coeffs := points + [point], coeffs + [draws.coeff(w, i)];
      vector := vector[at := draws.coeff(w, i)];
      i := i + 1;
    }
    assert points == allPoints && coeffs == allCoeffs;
    p := Poly(points, coeffs, vector);
  }

  lemma DrawnAt(draws: Draws, w: nat, numPoints: nat, domain: nat, i: nat)
    requires i < numPoints && domain > 0
    ensures PointsOf(draws, w, numPoints, domain)[i] == Digits(draws.position(w, i) % domain)
    ensures CoeffsOf(draws, w, numPoints)[i] == draws.coeff(w, i)
  {
  }

  // The two vectors after a run of dpf for p and q: each adds up its own party's outputs.
  ghost predicate TermsOf(crypto: Crypto, p: Poly, q: Poly, b: nat, d: nat, rnd: Randomness, tr: Trace, termA: seq<Block>,
                          termB: seq<Block>) {
    && |termA| == |termB| == Pow3(b + d) && RunOf(crypto, p.coeffs, q.coeffs, p.points, q.points, d, rnd, tr)
    && forall m {:trigger termA[m]} {:trigger termB[m]} :: 0 <= m < |termA| ==>
         && termA[m] == Sum2(Received(b, d, tr.out0, m), Pow3(b), Pow3(b))
         && termB[m] == Sum2(Received(b, d, tr.out1, m), Pow3(b), Pow3(b))
  }

  // One run of dpf on zero vectors.
  method CrossTerm(crypto: Crypto, p: Poly, q: Poly, domain: nat, length: nat, rnd: Randomness, ghost b: nat, ghost d: nat)
    returns (termA: seq<Block>, termB: seq<Block>, ghost tr: Trace)
    requires Regular(b, d, p) && Regular(b, d, q) && b <= 32 && domain == Pow3(d) && length == Pow3(b + d)
    ensures SharesProduct(b + d, termA, termB, p.vector, q.vector)
    ensures TermsOf(crypto, p, q, b, d, rnd, tr, termA, termB)
  {
    hide Pow3, Sum2, ProductPair, SharesProduct, Offsets, Sparse, Xor, RunOf, Received;
    var polyA := new Block[length](_ => ZERO);
    var polyB := new Block[length](_ => ZERO);
    tr := Dpf(crypto, p.coeffs, q.coeffs, p.points, q.points, polyA, polyB, domain, rnd, b, d);
    termA, termB := polyA[..], polyB[..];
    ghost var x, y := Offsets(b, d, p.points), Offsets(b, d, q.points);
    OffsetsFit(b, d, p.points);
    OffsetsFit(b, d, q.points);
    forall m {:trigger termA[m]} {:trigger termB[m]} | 0 <= m < length
      ensures termA[m] == Sum2(Received(b, d, tr.out0, m), Pow3(b), Pow3(b))
      ensures termB[m] == Sum2(Received(b, d, tr.out1, m), Pow3(b), Pow3(b))
    {
      assert polyA[m] == Xor(ZERO, Sum2(Received(b, d, tr.out0, m), Pow3(b), Pow3(b)));
      assert polyB[m] == Xor(ZERO, Sum2(Received(b, d, tr.out1, m), Pow3(b), Pow3(b)));
      XorZero(Sum2(Received(b, d, tr.out0, m), Pow3(b), Pow3(b)));
      XorZero(Sum2(Received(b, d, tr.out1, m), Pow3(b), Pow3(b)));
    }
    forall m {:trigger termA[m]} | 0 <= m < length
      ensures Xor(termA[m], termB[m]) == Sum2(ProductPair(b + d, x, p.coeffs, y, q.coeffs, m), |x|, |y|)
    {
      assert Xor(polyA[m], polyB[m]) == Xor(Xor(ZERO, ZERO), Sum2(ProductPair(b + d, x, p.coeffs, y, q.coeffs, m), Pow3(b), Pow3(b)));
      XorZero(ZERO);
      XorZero(Sum2(ProductPair(b + d, x, p.coeffs, y, q.coeffs, m), Pow3(b), Pow3(b)));
    }
    ProductFromEntries(b + d, termA, termB, x, p.coeffs, y, q.coeffs);
  }

  // ---------- the version with four cross terms ----------

  // A party's side after the runs of dpf: transform, then combine with the public a.
  method FourTermSide(depth: nat, length: nat, a: seq<Block>, aSquare: seq<Block>, terms: seq<seq<Block>>, s: seq<Block>, e: seq<Block>)
    returns (additive: seq<Block>, ole: seq<Block>)
    requires length == Pow3(depth) && |a| == |aSquare| == |s| == |e| == length && |terms| == 4
    requires forall j {:trigger terms[j]} :: 0 <= j < 4 ==> |terms[j]| == length
    requires forall i {:trigger aSquare[i]} :: 0 <= i < length ==> aSquare[i] == RingMul(a[i], a[i])
    ensures |additive| == |ole| == length
    ensures forall i {:trigger additive[i]} :: 0 <= i < length ==>
      additive[i] == FourTerms(a[i], Spectrum(depth, terms[0])[i], Spectrum(depth, terms[1])[i], Spectrum(depth, terms[2])[i],
                               Spectrum(depth, terms[3])[i])
    ensures forall i {:trigger ole[i]} :: 0 <= i < length ==> ole[i] == Xor(Spectrum(depth, e)[i], RingMul(a[i], Spectrum(depth, s)[i]))
  {
    hide Xor, RingMul, Mul, Spectrum, Pow3;
    var t0 := Fft(terms[0], depth, length / 3);
    var t1 := Fft(terms[1], depth, length / 3);
    var t2 := Fft(terms[2], depth, length / 3);
    var t3 := Fft(terms[3], depth, length / 3);
    var fs := Fft(s, depth, length / 3);
    var fe := Fft(e, depth, length / 3);
    additive, ole := [], [];
    var i := 0;
    while i < length
      invariant i <= length && |additive| == |ole| == i
      invariant forall q {:trigger additive[q]} :: 0 <= q < i ==> additive[q] == FourTerms(a[q], t0[q], t1[q], t2[q], t3[q])
      invariant forall q {:trigger ole[q]} :: 0 <= q < i ==> ole[q] == Xor(fe[q], RingMul(a[q], fs[q]))
    {
      MulIsRingMul(aSquare[i], t0[i]);
      MulIsRingMul(a[i], t1[i]);
      MulIsRingMul(a[i], t2[i]);
      MulIsRingMul(a[i], fs[i]);
      var sum := Mul(aSquare[i], t0[i]);
      sum := Xor(sum, Mul(a[i], t1[i]));
      sum := Xor(sum, Mul(a[i], t2[i]));
      additive := additive + [Xor(sum, t3[i])];
      ole := ole + [Xor(fe[i], Mul(a[i], fs[i]))];
      i := i + 1;
    }
  }

  // The comparison at the end of both functions; the result tells whether nothing is thrown.
  method Compare(additive0: seq<Block>, additive1: seq<Block>, ole0: seq<Block>, ole1: seq<Block>, length: nat) returns (ok: bool)
    requires |additive0| == |additive1| == |ole0| == |ole1| == length
    ensures ok <==> forall i {:trigger additive0[i]} :: 0 <= i < length ==> Mul(ole0[i], ole1[i]) == Xor(additive0[i], additive1[i])
  {
    hide Mul, Xor;
    var i := 0;
    while i < length
      invariant i <= length
      invariant forall q {:trigger additive0[q]} :: 0 <= q < i ==> Mul(ole0[q], ole1[q]) == Xor(additive0[q], additive1[q])
    {
      if Mul(ole0[i], ole1[i]) != Xor(additive0[i], additive1[i]) {
        return false;
      }
      i := i + 1;
    }
    ok := true;
  }

  lemma FourTermEntry(n: nat, a: Block, s0: seq<Block>, e0: seq<Block>, s1: seq<Block>, e1: seq<Block>, x: seq<seq<Block>>,
                      y: seq<seq<Block>>, i: nat, additive0: Block, additive1: Block, ole0: Block, ole1: Block)
    requires |x| == |y| == 4 && i < Pow3(n)
    requires SharesProduct(n, x[0], y[0], s0, s1) && SharesProduct(n, x[1], y[1], s0, e1)
    requires SharesProduct(n, x[2], y[2], e0, s1) && SharesProduct(n, x[3], y[3], e0, e1)
    requires additive0 == FourTerms(a, Spectrum(n, x[0])[i], Spectrum(n, x[1])[i], Spectrum(n, x[2])[i], Spectrum(n, x[3])[i])
    requires additive1 == FourTerms(a, Spectrum(n, y[0])[i], Spectrum(n, y[1])[i], Spectrum(n, y[2])[i], Spectrum(n, y[3])[i])
    requires ole0 == Xor(Spectrum(n, e0)[i], RingMul(a, Spectrum(n, s0)[i]))
    requires ole1 == Xor(Spectrum(n, e1)[i], RingMul(a, Spectrum(n, s1)[i]))
    ensures Xor(additive0, additive1) == Mul(ole0, ole1)
  {
    hide Xor, RingMul, Mul, Spectrum, FourTerms, Zip, Tree, Convolve;
    SpectraMultiply(n, x[0], y[0], s0, s1, i);
    SpectraMultiply(n, x[1], y[1], s0, e1, i);
    SpectraMultiply(n, x[2], y[2], e0, s1, i);
    SpectraMultiply(n, x[3], y[3], e0, e1, i);
    FourTermProduct(a, Spectrum(n, s0)[i], Spectrum(n, e0)[i], Spectrum(n, s1)[i], Spectrum(n, e1)[i],
                    Spectrum(n, x[0])[i], Spectrum(n, x[1])[i], Spectrum(n, x[2])[i], Spectrum(n, x[3])[i],
                    Spectrum(n, y[0])[i], Spectrum(n, y[1])[i], Spectrum(n, y[2])[i], Spectrum(n, y[3])[i]);
    MulIsRingMul(ole0, ole1);
  }

  // Polynomial w of a run.
  function PolyOf(draws: Draws, w: nat, b: nat, d: nat): (p: Poly)
    requires d <= 32
    ensures |p.vector| == Pow3(b + d)
  {
    PointsOfFit(draws, w, Pow3(b), d);
    var points, coeffs := PointsOf(draws, w, Pow3(b), Pow3(d)), CoeffsOf(draws, w, Pow3(b));
    Poly(points, coeffs, RegularVector(b, d, points, coeffs))
  }

  lemma VectorDrawn(draws: Draws, w: nat, b: nat, d: nat)
    requires d <= 32
    ensures DrawnVector(draws, w, b, d, PolyOf(draws, w, b, d).vector)
  {
    hide Sparse, Offsets, PointsOf, Value, Cat, Pow3, PolyOf;
    var v := PolyOf(draws, w, b, d).vector;
    PowersMultiply(b, d);
    forall m {:trigger v[m]} | 0 <= m < |v|
      ensures v[m] == if m % Pow3(d) == draws.position(w, m / Pow3(d)) % Pow3(d) then draws.coeff(w, m / Pow3(d)) else ZERO
    {
      EntryDrawn(draws, w, b, d, v, m, m / Pow3(d));
    }
  }

  lemma EntryDrawn(draws: Draws, w: nat, b: nat, d: nat, v: seq<Block>, m: nat, q: nat)
    requires d <= 32 && v == PolyOf(draws, w, b, d).vector && m < |v| && q == m / Pow3(d)
    ensures v[m] == if m % Pow3(d) == draws.position(w, q) % Pow3(d) then draws.coeff(w, q) else ZERO
  {
    hide Sparse, Offsets, PointsOf, Value, Cat, Pow3;
    var points, coeffs := PointsOf(draws, w, Pow3(b), Pow3(d)), CoeffsOf(draws, w, Pow3(b));
    PointsOfFit(draws, w, Pow3(b), d);
    OffsetsFit(b, d, points);
    var x := Offsets(b, d, points);
    forall i {:trigger x[i]} | 0 <= i < |x|
      ensures x[i] == i * Pow3(d) + draws.position(w, i) % Pow3(d)
    {
      assert Value(points[i], 0, d) == draws.position(w, i) % Pow3(d);
      CatIsOffset(b, d, i, Value(points[i], 0, d));
    }
    PowersMultiply(b, d);
    PlaceInBlock(m, q, Pow3(d), Pow3(b));
    if m % Pow3(d) == draws.position(w, q) % Pow3(d) {
      SparseAt(Pow3(b + d), x, coeffs, |coeffs|, q);
    } else {
      forall i | 0 <= i < |x|
        ensures x[i] != m
      {
        Fermat.RemainderUnique(x[i], i, draws.position(w, i) % Pow3(d), Pow3(d));
      }
      SparseOff(Pow3(b + d), x, coeffs, |coeffs|, m);
    }
  }

  lemma PlaceInBlock(m: nat, q: nat, d: nat, count: nat)
    requires d > 0 && q == m / d && m < count * d
    ensures q < count && m == q * d + m % d
  {
  }

  method DrawPublics(draws: Draws, k: nat, length: nat) returns (a: seq<Block>, aSquare: seq<Block>)
    ensures |a| == |aSquare| == length && forall i {:trigger a[i]} :: 0 <= i < length ==> a[i] == draws.a(k, i)
    ensures forall i {:trigger aSquare[i]} :: 0 <= i < length ==> aSquare[i] == RingMul(a[i], a[i])
  {
    hide RingMul, Mul;
    a, aSquare := [], [];
    var i := 0;
    while i < length
      invariant i <= length && |a| == |aSquare| == i
      invariant forall q {:trigger a[q]} :: 0 <= q < i ==> a[q] == draws.a(k, q)
      invariant forall q {:trigger aSquare[q]} :: 0 <= q < i ==> aSquare[q] == RingMul(a[q], a[q])
    {
      var x := draws.a(k, i);
      MulIsRingMul(x, x);
      a, aSquare := a + [x], aSquare + [Mul(x, x)];
      i := i + 1;
    }
  }

  // The four runs of dpf.
  method FourCrossTerms(crypto: Crypto, draws: Draws, s0: Poly, e0: Poly, s1: Poly, e1: Poly, domain: nat, length: nat, ghost b: nat,
                        ghost d: nat)
    returns (crossA: seq<seq<Block>>, crossB: seq<seq<Block>>, ghost tr: seq<Trace>)
    requires Regular(b, d, s0) && Regular(b, d, e0) && Regular(b, d, s1) && Regular(b, d, e1)
    requires b <= 32 && domain == Pow3(d) && length == Pow3(b + d)
    ensures |crossA| == |crossB| == 4
    ensures SharesProduct(b + d, crossA[0], crossB[0], s0.vector, s1.vector)
    ensures SharesProduct(b + d, crossA[1], crossB[1], s0.vector, e1.vector)
    ensures SharesProduct(b + d, crossA[2], crossB[2], e0.vector, s1.vector)
    ensures SharesProduct(b + d, crossA[3], crossB[3], e0.vector, e1.vector)
    ensures |tr| == 4 && TermsOf(crypto, s0, s1, b, d, draws.run(0), tr[0], crossA[0], crossB[0])
    ensures TermsOf(crypto, s0, e1, b, d, draws.run(1), tr[1], crossA[1], crossB[1])
    ensures TermsOf(crypto, e0, s1, b, d, draws.run(2), tr[2], crossA[2], crossB[2])
    ensures TermsOf(crypto, e0, e1, b, d, draws.run(3), tr[3], crossA[3], crossB[3])
  {
    hide *;
    ghost var t0, t1, t2, t3;
    var a0, b0, a1, b1, a2, b2, a3, b3;
    a0, b0, t0 := CrossTerm(crypto, s0, s1, domain, length, draws.run(0), b, d);
    a1, b1, t1 := CrossTerm(crypto, s0, e1, domain, length, draws.run(1), b, d);
    a2, b2, t2 := CrossTerm(crypto, e0, s1, domain, length, draws.run(2), b, d);
    a3, b3, t3 := CrossTerm(crypto, e0, e1, domain, length, draws.run(3), b, d);
    crossA, crossB, tr := [a0, a1, a2, a3], [b0, b1, b2, b3], [t0, t1, t2, t3];
  }

  lemma SharesLengths(n: nat, a: seq<Block>, b: seq<Block>, s: seq<Block>, t: seq<Block>)
    requires SharesProduct(n, a, b, s, t)
    ensures |a| == |b| == |s| == |t| == Pow3(n)
  {
  }

  // The additive share of a party in terms of the draws.
  lemma AllSpelt(draws: Draws, n: nat, a: seq<Block>, terms: seq<seq<Block>>, additive: seq<Block>)
    requires |a| == |additive| == Pow3(n) && |terms| == 4
    requires forall i {:trigger a[i]} :: 0 <= i < |a| ==> a[i] == draws.a(0, i)
    requires forall j {:trigger terms[j]} :: 0 <= j < 4 ==> |terms[j]| == Pow3(n)
    requires forall i {:trigger additive[i]} :: 0 <= i < Pow3(n) ==>
      additive[i] == FourTerms(a[i], Spectrum(n, terms[0])[i], Spectrum(n, terms[1])[i], Spectrum(n, terms[2])[i], Spectrum(n, terms[3])[i])
    ensures forall i {:trigger additive[i]} :: 0 <= i < Pow3(n) ==>
      additive[i] == Xor(Xor(Xor(RingMul(RingMul(draws.a(0, i), draws.a(0, i)), Spectrum(n, terms[0])[i]),
                                 RingMul(draws.a(0, i), Spectrum(n, terms[1])[i])),
                             RingMul(draws.a(0, i), Spectrum(n, terms[2])[i])), Spectrum(n, terms[3])[i])
  {
    hide Xor, RingMul, Spectrum, Pow3;
    forall i {:trigger additive[i]} | 0 <= i < Pow3(n)
      ensures additive[i] == Xor(Xor(Xor(RingMul(RingMul(draws.a(0, i), draws.a(0, i)), Spectrum(n, terms[0])[i]),
                                         RingMul(draws.a(0, i), Spectrum(n, terms[1])[i])),
                                     RingMul(draws.a(0, i), Spectrum(n, terms[2])[i])), Spectrum(n, terms[3])[i])
    {
      assert a[i] == draws.a(0, i);
    }
  }

  // Extension_Field_OLE(depth, block_length); s0 to e1 are the drawn vectors before the
  // transform, and terms0 and terms1 what the four runs of dpf leave with the parties.
  method ExtensionFieldOle(crypto: Crypto, draws: Draws, depth: nat, blockLength: nat)
    returns (ok: bool, additive0: seq<Block>, additive1: seq<Block>, ole0: seq<Block>, ole1: seq<Block>,
             ghost s0: seq<Block>, ghost s1: seq<Block>, ghost e0: seq<Block>, ghost e1: seq<Block>,
             ghost terms0: seq<seq<Block>>, ghost terms1: seq<seq<Block>>, ghost tr: seq<Trace>)
    requires blockLength <= depth && blockLength <= 32 && depth - blockLength <= 32
    ensures ok
    ensures |additive0| == |additive1| == |ole0| == |ole1| == Pow3(depth)
    ensures forall i {:trigger additive0[i]} :: 0 <= i < Pow3(depth) ==> Xor(additive0[i], additive1[i]) == Mul(ole0[i], ole1[i])
    ensures DrawnVector(draws, 0, blockLength, depth - blockLength, s0) && DrawnVector(draws, 2, blockLength, depth - blockLength, e0)
    ensures DrawnVector(draws, 1, blockLength, depth - blockLength, s1) && DrawnVector(draws, 3, blockLength, depth - blockLength, e1)
    ensures forall i {:trigger ole0[i]} :: 0 <= i < Pow3(depth) ==>
      ole0[i] == Xor(Spectrum(depth, e0)[i], RingMul(draws.a(0, i), Spectrum(depth, s0)[i]))
    ensures forall i {:trigger ole1[i]} :: 0 <= i < Pow3(depth) ==>
      ole1[i] == Xor(Spectrum(depth, e1)[i], RingMul(draws.a(0, i), Spectrum(depth, s1)[i]))
    ensures |terms0| == |terms1| == |tr| == 4
    ensures var b, d := blockLength, depth - blockLength;
            var p0, p1, q0, q1 := PolyOf(draws, 0, b, d), PolyOf(draws, 1, b, d), PolyOf(draws, 2, b, d), PolyOf(draws, 3, b, d);
            && TermsOf(crypto, p0, p1, b, d, draws.run(0), tr[0], terms0[0], terms1[0])
            && TermsOf(crypto, p0, q1, b, d, draws.run(1), tr[1], terms0[1], terms1[1])
            && TermsOf(crypto, q0, p1, b, d, draws.run(2), tr[2], terms0[2], terms1[2])
            && TermsOf(crypto, q0, q1, b, d, draws.run(3), tr[3], terms0[3], terms1[3])
    ensures forall j {:trigger terms0[j]} {:trigger terms1[j]} :: 0 <= j < 4 ==> |terms0[j]| == |terms1[j]| == Pow3(depth)
    ensures forall i {:trigger additive0[i]} :: 0 <= i < Pow3(depth) ==>
      additive0[i] == Xor(Xor(Xor(RingMul(RingMul(draws.a(0, i), draws.a(0, i)), Spectrum(depth, terms0[0])[i]),
                                  RingMul(draws.a(0, i), Spectrum(depth, terms0[1])[i])),
                              RingMul(draws.a(0, i), Spectrum(depth, terms0[2])[i])), Spectrum(depth, terms0[3])[i])
    ensures forall i {:trigger additive1[i]} :: 0 <= i < Pow3(depth) ==>
      additive1[i] == Xor(Xor(Xor(RingMul(RingMul(draws.a(0, i), draws.a(0, i)), Spectrum(depth, terms1[0])[i]),
                                  RingMul(draws.a(0, i), Spectrum(depth, terms1[1])[i])),
                              RingMul(draws.a(0, i), Spectrum(depth, terms1[2])[i])), Spectrum(depth, terms1[3])[i])
  {
    hide TermsOf;
    hide Xor, Mul, RingMul, Spectrum, Pow3, Pow, SharesProduct, PolyOf, FourTerms, PointsFit, RegularVector, DrawnVector;
    var numPoints := Ipow(3, blockLength);
    var domain := Ipow(3, depth - blockLength);
    var length := Ipow(3, depth);
    ghost var b, d := blockLength, depth - blockLength;
    PowersOfThree(b);
    PowersOfThree(d);
    PowersOfThree(depth);
    var a, aSquare := DrawPublics(draws, 0, length);
    var p0 := DrawKnown(draws, 0, numPoints, domain, length, b, d);
    var p1 := DrawKnown(draws, 1, numPoints, domain, length, b, d);
    var q0 := DrawKnown(draws, 2, numPoints, domain, length, b, d);
    var q1 := DrawKnown(draws, 3, numPoints, domain, length, b, d);
    s0, s1, e0, e1 := p0.vector, p1.vector, q0.vector, q1.vector;
    var crossA, crossB;
    crossA, crossB, tr := FourCrossTerms(crypto, draws, p0, q0, p1, q1, domain, length, b, d);
    terms0, terms1 := crossA, crossB;
    assert b + d == depth;
    SharesLengths(depth, crossA[0], crossB[0], s0, s1);
    SharesLengths(depth, crossA[1], crossB[1], s0, e1);
    SharesLengths(depth, crossA[2], crossB[2], e0, s1);
    SharesLengths(depth, crossA[3], crossB[3], e0, e1);
    additive0, ole0 := FourTermSide(depth, length, a, aSquare, crossA, p0.vector, q0.vector);
    additive1, ole1 := FourTermSide(depth, length, a, aSquare, crossB, p1.vector, q1.vector);
    forall i {:trigger additive0[i]} | 0 <= i < length
      ensures Xor(additive0[i], additive1[i]) == Mul(ole0[i], ole1[i])
    {
      FourTermEntry(depth, a[i], s0, e0, s1, e1, crossA, crossB, i, additive0[i], additive1[i], ole0[i], ole1[i]);
    }
    AllSpelt(draws, depth, a, crossA, additive0);
    AllSpelt(draws, depth, a, crossB, additive1);
    ok := Compare(additive0, additive1, ole0, ole1, length);
  }

  method DrawKnown(draws: Draws, w: nat, numPoints: nat, domain: nat, length: nat, ghost b: nat, ghost d: nat) returns (p: Poly)
    requires numPoints == Pow3(b) && domain == Pow3(d) && length == Pow3(b + d) && d <= 32
    ensures Regular(b, d, p) && p == PolyOf(draws, w, b, d) && DrawnVector(draws, w, b, d, p.vector)
  {
    hide DrawnVector;
    VectorDrawn(draws, w, b, d);
    p := DrawPoly(draws, w, numPoints, domain, length, b, d);
  }
}

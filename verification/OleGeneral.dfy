/**
 The second Extension_Field_OLE (OLE.h lines 270 to 432): c polynomials on each side and
 c * c cross terms.
 */
module OleGeneral {
  import opened Blocks
  import opened F4Ring
  import opened Radix3
  import opened BlockSums
  import opened SparsePoly
  import opened TernaryDpf
  import opened OleDpf
  import opened OleAlgebra
  import opened VectorTransform
  import opened IntPower
  import opened Ole

  // Every vector has the given length.
  ghost predicate AllOf(length: nat, v: seq<seq<Block>>) {
    forall j {:trigger v[j]} :: 0 <= j < |v| ==> |v[j]| == length
  }

  function Spectra(n: nat, v: seq<seq<Block>>): (r: seq<seq<Block>>)
    requires AllOf(Pow3(n), v)
    ensures |r| == |v|
  {
    seq(|v|, j requires 0 <= j < |v| => Spectrum(n, v[j]))
  }

  // Entry i of every vector.
  function EntriesAt(v: seq<seq<Block>>, i: nat): nat -> Block {
    (j: nat) => if j < |v| then Entry(v[j], i) else ZERO
  }

  method FftAll(v: seq<seq<Block>>, depth: nat, length: nat) returns (w: seq<seq<Block>>)
    requires length == Pow3(depth) && AllOf(length, v)
    ensures |w| == |v| && AllOf(length, w) && w == Spectra(depth, v)
  {
    hide Spectrum, Pow3;
    w := [];
    var j := 0;
    while j < |v|
      invariant j <= |v| && |w| == j
      invariant forall q {:trigger w[q]} :: 0 <= q < j ==> w[q] == Spectrum(depth, v[q])
    {
      var x := Fft(v[j], depth, length / 3);
      w := w + [x];
      j := j + 1;
    }
  }

  // sum over j of a[j][i] * v[j][i]; the newest term is added on the left or the right.
  method InnerProduct(a: seq<seq<Block>>, v: seq<seq<Block>>, i: nat, length: nat, termFirst: bool) returns (sum: Block)
    requires |a| == |v| && AllOf(length, a) && AllOf(length, v) && i < length
    ensures sum == SumTo(Times2(EntriesAt(a, i), EntriesAt(v, i)), |a|)
  {
    hide Xor, RingMul, Mul;
    sum := ZERO;
    var j := 0;
    while j < |a|
      invariant j <= |a| && sum == SumTo(Times2(EntriesAt(a, i), EntriesAt(v, i)), j)
    {
      var temp := Mul(a[j][i], v[j][i]);
      MulIsRingMul(a[j][i], v[j][i]);
      XorComm(sum, temp);
      sum := if termFirst then Xor(temp, sum) else Xor(sum, temp);
      j := j + 1;
    }
  }

  // Entry i of the sum of all a[k] times the transform of v[k].
  ghost function WeightedSum(n: nat, a: seq<seq<Block>>, v: seq<seq<Block>>, i: nat): Block
    requires AllOf(Pow3(n), v)
  {
    SumTo(Times2(EntriesAt(a, i), EntriesAt(Spectra(n, v), i)), |v|)
  }

  lemma IsWeightedSum(n: nat, a: seq<seq<Block>>, v: seq<seq<Block>>, i: nat)
    requires AllOf(Pow3(n), v)
    ensures WeightedSum(n, a, v, i) == SumTo(Times2(EntriesAt(a, i), EntriesAt(Spectra(n, v), i)), |v|)
  {
  }

  // A party's side after the runs of dpf.
  method Side(depth: nat, length: nat, a: seq<seq<Block>>, aCross: seq<seq<Block>>, terms: seq<seq<Block>>, s: seq<seq<Block>>)
    returns (additive: seq<Block>, ole: seq<Block>)
    requires length == Pow3(depth) && |aCross| == |terms| && |a| == |s|
    requires AllOf(length, a) && AllOf(length, aCross) && AllOf(length, terms) && AllOf(length, s)
    ensures |additive| == |ole| == length
    ensures forall i {:trigger additive[i]} :: 0 <= i < length ==>
      additive[i] == WeightedSum(depth, aCross, terms, i)
    ensures forall i {:trigger ole[i]} :: 0 <= i < length ==> ole[i] == WeightedSum(depth, a, s, i)
  {
    hide SumTo, Times2, EntriesAt, Spectra;
    var ft := FftAll(terms, depth, length);
    var fs := FftAll(s, depth, length);
    additive, ole := [], [];
    var i := 0;
    while i < length
      invariant i <= length && |additive| == |ole| == i
      invariant forall q {:trigger additive[q]} :: 0 <= q < i ==>
        additive[q] == SumTo(Times2(EntriesAt(aCross, q), EntriesAt(ft, q)), |terms|)
      invariant forall q {:trigger ole[q]} :: 0 <= q < i ==> ole[q] == SumTo(Times2(EntriesAt(a, q), EntriesAt(fs, q)), |s|)
    {
      var sum := InnerProduct(aCross, ft, i, length, true);
      additive := additive + [sum];
      sum := InnerProduct(a, fs, i, length, false);
      ole := ole + [sum];
      i := i + 1;
    }
  }

  // Polynomials first to first + c - 1.
  method DrawAll(draws: Draws, first: nat, c: nat, numPoints: nat, domain: nat, length: nat, ghost b: nat, ghost d: nat)
    returns (p: seq<Poly>)
    requires numPoints == Pow3(b) && domain == Pow3(d) && length == Pow3(b + d) && d <= 32
    ensures |p| == c && forall k {:trigger p[k]} :: 0 <= k < c ==> Regular(b, d, p[k])
    ensures forall k {:trigger p[k]} :: 0 <= k < c ==> DrawnVector(draws, first + k, b, d, p[k].vector)
    ensures forall k {:trigger p[k]} :: 0 <= k < c ==> p[k] == PolyOf(draws, first + k, b, d)
  {
    hide Regular, PolyOf, Pow3, DrawnVector;
    p := [];
    var k := 0;
    while k < c
      invariant k <= c && |p| == k
      invariant forall q {:trigger p[q]} :: 0 <= q < k ==> Regular(b, d, p[q])
      invariant forall q {:trigger p[q]} :: 0 <= q < k ==> DrawnVector(draws, first + q, b, d, p[q].vector)
      invariant forall q {:trigger p[q]} :: 0 <= q < k ==> p[q] == PolyOf(draws, first + q, b, d)
    {
      var x := DrawKnown(draws, first + k, numPoints, domain, length, b, d);
      p := p + [x];
      k := k + 1;
    }
  }

  method DrawAllPublics(draws: Draws, c: nat, length: nat) returns (a: seq<seq<Block>>)
    ensures |a| == c && AllOf(length, a)
    ensures forall k, i {:trigger a[k][i]} :: 0 <= k < c && 0 <= i < length ==> a[k][i] == draws.a(k, i)
  {
    hide RingMul;
    a := [];
    var k := 0;
    while k < c
      invariant k <= c && |a| == k && AllOf(length, a)
      invariant forall q, i {:trigger a[q][i]} :: 0 <= q < k && 0 <= i < length ==> a[q][i] == draws.a(q, i)
    {
      var x, square := DrawPublics(draws, k, length);
      a := a + [x];
      k := k + 1;
    }
  }

  // a_cross[i][j] = a[i / c][j] * a[i % c][j]
  method CrossPublics(a: seq<seq<Block>>, length: nat) returns (aCross: seq<seq<Block>>)
    requires AllOf(length, a)
    ensures |aCross| == Flat(|a|, |a|, 0) && AllOf(length, aCross)
    ensures forall k, i {:trigger aCross[k][i]} :: 0 <= k < |aCross| && 0 <= i < length && |a| > 0 ==>
      aCross[k][i] == RingMul(EntriesAt(a, i)(PairI(|a|, k)), EntriesAt(a, i)(PairJ(|a|, k)))
  {
    hide RingMul, Mul, PairI, PairJ;
    var c := |a|;
    aCross := [];
    var k := 0;
    while k < c * c
      invariant k <= c * c && |aCross| == k && AllOf(length, aCross)
      invariant forall q, i {:trigger aCross[q][i]} :: 0 <= q < k && 0 <= i < length ==>
        aCross[q][i] == RingMul(EntriesAt(a, i)(PairI(c, q)), EntriesAt(a, i)(PairJ(c, q)))
    {
      PairBound(c, k);
      var row: seq<Block> := [];
      var i := 0;
      while i < length
        invariant i <= length && |row| == i
        invariant forall q {:trigger row[q]} :: 0 <= q < i ==> row[q] == RingMul(EntriesAt(a, q)(PairI(c, k)), EntriesAt(a, q)(PairJ(c, k)))
      {
        MulIsRingMul(a[PairI(c, k)][i], a[PairJ(c, k)][i]);
        row := row + [Mul(a[PairI(c, k)][i], a[PairJ(c, k)][i])];
        i := i + 1;
      }
      aCross := aCross + [row];
      k := k + 1;
    }
  }

  lemma PairBound(c: nat, k: nat)
    requires k < c * c
    ensures c > 0 && PairI(c, k) < c
  {
    var q, e := k / c, k / c - c;
    assert k == q * c + k % c;
    assert e * c == q * c - c * c;
  }

  // ---------- the whole run ----------

  // The runs of dpf for all pairs.
  method CrossTerms(crypto: Crypto, draws: Draws, s: seq<Poly>, t: seq<Poly>, domain: nat, length: nat, ghost b: nat, ghost d: nat)
    returns (crossA: seq<seq<Block>>, crossB: seq<seq<Block>>, ghost tr: seq<Trace>)
    requires |s| == |t| && b <= 32 && domain == Pow3(d) && length == Pow3(b + d)
    requires forall k {:trigger s[k]} :: 0 <= k < |s| ==> Regular(b, d, s[k])
    requires forall k {:trigger t[k]} :: 0 <= k < |t| ==> Regular(b, d, t[k])
    ensures |crossA| == |crossB| == Flat(|s|, |s|, 0) && AllOf(length, crossA) && AllOf(length, crossB)
    ensures forall k {:trigger crossA[k]} :: 0 <= k < |crossA| && |s| > 0 ==>
      SharesProduct(b + d, crossA[k], crossB[k], VectorAt(s, PairI(|s|, k)), VectorAt(t, PairJ(|s|, k)))
    ensures |tr| == |crossA| && forall k {:trigger tr[k]} :: 0 <= k < |tr| ==>
      TermAt(crypto, draws, s, t, b, d, k, tr[k], crossA[k], crossB[k])
  {
    hide TermAt;
    hide Regular, SharesProduct, PairI, PairJ, Pow3;
    var c := |s|;
    crossA, crossB, tr := [], [], [];
    var k := 0;
    while k < c * c
      invariant k <= c * c && |crossA| == |crossB| == k && AllOf(length, crossA) && AllOf(length, crossB)
      invariant |tr| == k && forall q {:trigger tr[q]} :: 0 <= q < k ==>
        TermAt(crypto, draws, s, t, b, d, q, tr[q], crossA[q], crossB[q])
      invariant forall q {:trigger crossA[q]} :: 0 <= q < k ==>
        SharesProduct(b + d, crossA[q], crossB[q], VectorAt(s, PairI(c, q)), VectorAt(t, PairJ(c, q)))
    {
      PairBound(c, k);
      ghost var z;
      var x, y;
      x, y, z := CrossTerm(crypto, s[PairI(c, k)], t[PairJ(c, k)], domain, length, draws.run(k), b, d);
      SharesLengths(b + d, x, y, s[PairI(c, k)].vector, t[PairJ(c, k)].vector);
      TermIsAt(crypto, draws, s, t, b, d, k, z, x, y);
      crossA, crossB, tr := crossA + [x], crossB + [y], tr + [z];
      k := k + 1;
    }
  }

  // Run k of dpf is for the pair (k / c, k % c).
  ghost predicate TermAt(crypto: Crypto, draws: Draws, s: seq<Poly>, t: seq<Poly>, b: nat, d: nat, k: nat, tr: Trace, termA: seq<Block>,
                         termB: seq<Block>) {
    && |s| == |t| > 0 && k / |s| < |s|
    && TermsOf(crypto, s[k / |s|], t[k % |s|], b, d, draws.run(k), tr, termA, termB)
  }

  lemma TermIsAt(crypto: Crypto, draws: Draws, s: seq<Poly>, t: seq<Poly>, b: nat, d: nat, k: nat, tr: Trace, termA: seq<Block>,
                 termB: seq<Block>)
    requires |s| == |t| > 0 && PairI(|s|, k) < |s|
    requires TermsOf(crypto, s[PairI(|s|, k)], t[PairJ(|s|, k)], b, d, draws.run(k), tr, termA, termB)
    ensures TermAt(crypto, draws, s, t, b, d, k, tr, termA, termB)
  {
    hide TermsOf;
  }

  function VectorAt(s: seq<Poly>, k: nat): seq<Block> {
    if k < |s| then s[k].vector else []
  }

  function Vectors(s: seq<Poly>): (v: seq<seq<Block>>)
    ensures |v| == |s|
  {
    seq(|s|, k requires 0 <= k < |s| => s[k].vector)
  }

  // The input of a party at every index.
  ghost predicate IsGeneralInput(depth: nat, a: seq<seq<Block>>, s: seq<seq<Block>>, ole: seq<Block>) {
    && |a| == |s| && AllOf(Pow3(depth), a) && AllOf(Pow3(depth), s) && |ole| == Pow3(depth)
    && forall i {:trigger ole[i]} :: 0 <= i < |ole| ==> ole[i] == WeightedSum(depth, a, s, i)
  }

  lemma PairEntry(n: nat, s: seq<seq<Block>>, t: seq<seq<Block>>, x: seq<seq<Block>>, y: seq<seq<Block>>, i: nat, k: nat, p: nat, q: nat)
    requires AllOf(Pow3(n), s) && AllOf(Pow3(n), t) && AllOf(Pow3(n), x) && AllOf(Pow3(n), y) && i < Pow3(n)
    requires k < |x| == |y| && p < |s| && q < |t| && SharesProduct(n, x[k], y[k], s[p], t[q])
    ensures Xor(EntriesAt(Spectra(n, x), i)(k), EntriesAt(Spectra(n, y), i)(k))
         == RingMul(EntriesAt(Spectra(n, s), i)(p), EntriesAt(Spectra(n, t), i)(q))
  {
    hide Xor, RingMul, Spectrum, SharesProduct, Pow3;
    SpectraMultiply(n, x[k], y[k], s[p], t[q], i);
  }

  lemma GeneralEntry(n: nat, a: seq<seq<Block>>, aCross: seq<seq<Block>>, s: seq<seq<Block>>, t: seq<seq<Block>>,
                     x: seq<seq<Block>>, y: seq<seq<Block>>, i: nat)
    requires |a| == |s| == |t| && |aCross| == |x| == |y| == Flat(|a|, |a|, 0) && i < Pow3(n)
    requires AllOf(Pow3(n), s) && AllOf(Pow3(n), t) && AllOf(Pow3(n), x) && AllOf(Pow3(n), y)
    requires forall k {:trigger EntriesAt(aCross, i)(k)} :: 0 <= k < |aCross| && |a| > 0 ==>
      EntriesAt(aCross, i)(k) == RingMul(EntriesAt(a, i)(PairI(|a|, k)), EntriesAt(a, i)(PairJ(|a|, k)))
    requires forall k {:trigger PairI(|a|, k)} :: 0 <= k < |x| && |a| > 0 ==> PairI(|a|, k) < |a|
    requires forall k {:trigger x[k]} :: 0 <= k < |x| && |a| > 0 ==> SharesProduct(n, x[k], y[k], s[PairI(|a|, k)], t[PairJ(|a|, k)])
    ensures Xor(WeightedSum(n, aCross, x, i), WeightedSum(n, aCross, y, i)) == RingMul(WeightedSum(n, a, s, i), WeightedSum(n, a, t, i))
  {
    IsWeightedSum(n, aCross, x, i);
    IsWeightedSum(n, aCross, y, i);
    IsWeightedSum(n, a, s, i);
    IsWeightedSum(n, a, t, i);
    hide *;
    var c := |a|;
    var fx, fy, fs, ft := EntriesAt(Spectra(n, x), i), EntriesAt(Spectra(n, y), i), EntriesAt(Spectra(n, s), i),
                          EntriesAt(Spectra(n, t), i);
    var m := EntriesAt(aCross, i);
    forall k {:trigger m(k)} {:trigger fx(k)} | 0 <= k < Flat(c, c, 0) && c > 0
      ensures m(k) == RingMul(EntriesAt(a, i)(PairI(c, k)), EntriesAt(a, i)(PairJ(c, k)))
           && Xor(fx(k), fy(k)) == RingMul(fs(PairI(c, k)), ft(PairJ(c, k)))
    {
      assert PairI(c, k) < c;
      assert m(k) == RingMul(EntriesAt(a, i)(PairI(c, k)), EntriesAt(a, i)(PairJ(c, k)));
      PairEntry(n, s, t, x, y, i, k, PairI(c, k), PairJ(c, k));
    }
    CrossTermsMultiply(c, EntriesAt(a, i), fs, ft, m, fx, fy);
  }

  // Term k of the input of a party: a drawn public value times the transform of vector k.
  function InputTerms(draws: Draws, depth: nat, s: seq<seq<Block>>, i: nat): nat -> Block
    requires AllOf(Pow3(depth), s) && i < Pow3(depth)
  {
    (k: nat) => if k < |s| then RingMul(draws.a(k, i), Spectrum(depth, s[k])[i]) else ZERO
  }

  lemma {:induction false} SumOfDrawn(draws: Draws, depth: nat, a: seq<seq<Block>>, s: seq<seq<Block>>, i: nat, m: nat)
    requires AllOf(Pow3(depth), s) && AllOf(Pow3(depth), a) && i < Pow3(depth) && m <= |a| == |s|
    requires forall k {:trigger a[k]} :: 0 <= k < |a| ==> a[k][i] == draws.a(k, i)
    ensures SumTo(Times2(EntriesAt(a, i), EntriesAt(Spectra(depth, s), i)), m) == SumTo(InputTerms(draws, depth, s, i), m)
  {
    hide Xor, RingMul, Spectrum, Pow3;
    if m > 0 {
      SumOfDrawn(draws, depth, a, s, i, m - 1);
      assert a[m - 1][i] == draws.a(m - 1, i);
    }
  }

  // The inputs in terms of what was drawn.
  lemma InputDrawn(draws: Draws, depth: nat, a: seq<seq<Block>>, s: seq<seq<Block>>, ole: seq<Block>)
    requires IsGeneralInput(depth, a, s, ole)
    requires forall k, i {:trigger a[k][i]} :: 0 <= k < |a| && 0 <= i < Pow3(depth) ==> a[k][i] == draws.a(k, i)
    ensures forall i {:trigger ole[i]} :: 0 <= i < Pow3(depth) ==>
      ole[i] == SumTo((k: nat) => if k < |s| then RingMul(draws.a(k, i), Spectrum(depth, s[k])[i]) else ZERO, |s|)
  {
    hide SumTo, Times2, EntriesAt, Spectra, WeightedSum, Pow3, Spectrum, RingMul;
    forall i {:trigger ole[i]} | 0 <= i < Pow3(depth)
      ensures ole[i] == SumTo((k: nat) => if k < |s| then RingMul(draws.a(k, i), Spectrum(depth, s[k])[i]) else ZERO, |s|)
    {
      IsWeightedSum(depth, a, s, i);
      SumOfDrawn(draws, depth, a, s, i, |s|);
      var g := (k: nat) => if k < |s| then RingMul(draws.a(k, i), Spectrum(depth, s[k])[i]) else ZERO;
      SumSame(InputTerms(draws, depth, s, i), g, |s|);
    }
  }

  // The product of the two public values of pair k.
  function PublicPair(draws: Draws, c: nat, k: nat, i: nat): Block
    requires c > 0
  {
    RingMul(draws.a(k / c, i), draws.a(k % c, i))
  }

  // The additive share of a party in terms of the draws.
  lemma AdditiveDrawn(draws: Draws, depth: nat, c: nat, a: seq<seq<Block>>, aCross: seq<seq<Block>>, x: seq<seq<Block>>,
                      additive: seq<Block>)
    requires |a| == c && |aCross| == |x| == Flat(c, c, 0) && AllOf(Pow3(depth), a) && AllOf(Pow3(depth), aCross) && AllOf(Pow3(depth), x)
    requires forall k, i {:trigger a[k][i]} :: 0 <= k < c && 0 <= i < Pow3(depth) ==> a[k][i] == draws.a(k, i)
    requires forall k, i {:trigger aCross[k][i]} :: 0 <= k < |aCross| && 0 <= i < Pow3(depth) && c > 0 ==>
      aCross[k][i] == RingMul(EntriesAt(a, i)(PairI(c, k)), EntriesAt(a, i)(PairJ(c, k)))
    requires |additive| == Pow3(depth)
    requires forall i {:trigger additive[i]} :: 0 <= i < Pow3(depth) ==> additive[i] == WeightedSum(depth, aCross, x, i)
    ensures forall i {:trigger additive[i]} :: 0 <= i < Pow3(depth) ==>
      additive[i] == SumTo((k: nat) => if k < |x| && c > 0 then
                                         RingMul(PublicPair(draws, c, k, i), Spectrum(depth, x[k])[i])
                                       else ZERO, |x|)
  {
    hide SumTo, Times2, EntriesAt, Spectra, WeightedSum, Pow3, Spectrum, RingMul, Flat, PublicPair;
    forall i {:trigger additive[i]} | 0 <= i < Pow3(depth)
      ensures additive[i] == SumTo((k: nat) => if k < |x| && c > 0 then
                                                 RingMul(PublicPair(draws, c, k, i), Spectrum(depth, x[k])[i])
                                               else ZERO, |x|)
    {
      var g := (k: nat) => if k < |x| && c > 0 then RingMul(PublicPair(draws, c, k, i), Spectrum(depth, x[k])[i])
                           else ZERO;
      var f := Times2(EntriesAt(aCross, i), EntriesAt(Spectra(depth, x), i));
      forall k {:trigger f(k)} | 0 <= k < |x|
        ensures f(k) == g(k)
      {
        FlatIsSquare(c);
        PairBound(c, k);
        CrossEntry(draws, depth, c, a, aCross, x, i, k);
      }
      IsWeightedSum(depth, aCross, x, i);
      SumSame(f, g, |x|);
    }
  }

  lemma CrossEntry(draws: Draws, depth: nat, c: nat, a: seq<seq<Block>>, aCross: seq<seq<Block>>, x: seq<seq<Block>>, i: nat, k: nat)
    requires |a| == c > 0 && k < |aCross| == |x| && k / c < c && i < Pow3(depth)
    requires AllOf(Pow3(depth), a) && AllOf(Pow3(depth), aCross) && AllOf(Pow3(depth), x)
    requires forall k, i {:trigger a[k][i]} :: 0 <= k < c && 0 <= i < Pow3(depth) ==> a[k][i] == draws.a(k, i)
    requires aCross[k][i] == RingMul(EntriesAt(a, i)(PairI(c, k)), EntriesAt(a, i)(PairJ(c, k)))
    ensures Times2(EntriesAt(aCross, i), EntriesAt(Spectra(depth, x), i))(k)
         == RingMul(PublicPair(draws, c, k, i), Spectrum(depth, x[k])[i])
  {
    hide Pow3, Spectrum, RingMul;
    assert a[k / c][i] == draws.a(k / c, i) && a[k % c][i] == draws.a(k % c, i);
  }

  // The entries of all outputs.
  lemma AllEntries(n: nat, c: nat, a: seq<seq<Block>>, aCross: seq<seq<Block>>, s: seq<Poly>, t: seq<Poly>, x: seq<seq<Block>>,
                   y: seq<seq<Block>>, additive0: seq<Block>, additive1: seq<Block>, ole0: seq<Block>, ole1: seq<Block>)
    requires |a| == |s| == |t| == c && |aCross| == |x| == |y| == Flat(c, c, 0)
    requires |additive0| == |additive1| == |ole0| == |ole1| == Pow3(n)
    requires AllOf(Pow3(n), a) && AllOf(Pow3(n), aCross) && AllOf(Pow3(n), Vectors(s)) && AllOf(Pow3(n), Vectors(t))
    requires AllOf(Pow3(n), x) && AllOf(Pow3(n), y)
    requires forall k, i {:trigger aCross[k][i]} :: 0 <= k < |aCross| && 0 <= i < Pow3(n) && c > 0 ==>
      aCross[k][i] == RingMul(EntriesAt(a, i)(PairI(c, k)), EntriesAt(a, i)(PairJ(c, k)))
    requires forall k {:trigger x[k]} :: 0 <= k < |x| && c > 0 ==>
      SharesProduct(n, x[k], y[k], VectorAt(s, PairI(c, k)), VectorAt(t, PairJ(c, k)))
    requires forall i {:trigger additive0[i]} :: 0 <= i < Pow3(n) ==>
      additive0[i] == WeightedSum(n, aCross, x, i)
    requires forall i {:trigger additive1[i]} :: 0 <= i < Pow3(n) ==>
      additive1[i] == WeightedSum(n, aCross, y, i)
    requires IsGeneralInput(n, a, Vectors(s), ole0) && IsGeneralInput(n, a, Vectors(t), ole1)
    ensures forall i {:trigger additive0[i]} :: 0 <= i < Pow3(n) ==> Mul(ole0[i], ole1[i]) == Xor(additive0[i], additive1[i])
  {
    hide *;
    forall i {:trigger additive0[i]} | 0 <= i < Pow3(n)
      ensures Mul(ole0[i], ole1[i]) == Xor(additive0[i], additive1[i])
    {
      assert additive1[i] == WeightedSum(n, aCross, y, i);
      OneEntry(n, c, a, aCross, s, t, x, y, i);
      InputEntry(n, a, Vectors(s), ole0, i);
      InputEntry(n, a, Vectors(t), ole1, i);
      MulIsRingMul(ole0[i], ole1[i]);
    }
  }

  lemma InputEntry(depth: nat, a: seq<seq<Block>>, s: seq<seq<Block>>, ole: seq<Block>, i: nat)
    requires IsGeneralInput(depth, a, s, ole) && i < |ole|
    ensures ole[i] == WeightedSum(depth, a, s, i)
  {
  }

  lemma OneEntry(n: nat, c: nat, a: seq<seq<Block>>, aCross: seq<seq<Block>>, s: seq<Poly>, t: seq<Poly>, x: seq<seq<Block>>,
                 y: seq<seq<Block>>, i: nat)
    requires |a| == |s| == |t| == c && |aCross| == |x| == |y| == Flat(c, c, 0) && i < Pow3(n)
    requires AllOf(Pow3(n), aCross) && AllOf(Pow3(n), Vectors(s)) && AllOf(Pow3(n), Vectors(t)) && AllOf(Pow3(n), x) && AllOf(Pow3(n), y)
    requires forall k, i {:trigger aCross[k][i]} :: 0 <= k < |aCross| && 0 <= i < Pow3(n) && c > 0 ==>
      aCross[k][i] == RingMul(EntriesAt(a, i)(PairI(c, k)), EntriesAt(a, i)(PairJ(c, k)))
    requires forall k {:trigger x[k]} :: 0 <= k < |x| && c > 0 ==>
      SharesProduct(n, x[k], y[k], VectorAt(s, PairI(c, k)), VectorAt(t, PairJ(c, k)))
    ensures Xor(WeightedSum(n, aCross, x, i), WeightedSum(n, aCross, y, i))
         == RingMul(WeightedSum(n, a, Vectors(s), i), WeightedSum(n, a, Vectors(t), i))
  {
    hide SumTo, Times2, Spectra, SharesProduct, Xor, RingMul, Pow3, Flat, PairI, PairJ;
    forall k {:trigger PairI(c, k)} {:trigger x[k]} | 0 <= k < |x| && c > 0
      ensures PairI(c, k) < c && SharesProduct(n, x[k], y[k], Vectors(s)[PairI(c, k)], Vectors(t)[PairJ(c, k)])
    {
      FlatIsSquare(c);
      PairBound(c, k);
      assert SharesProduct(n, x[k], y[k], VectorAt(s, PairI(c, k)), VectorAt(t, PairJ(c, k)));
    }
    forall k {:trigger EntriesAt(aCross, i)(k)} | 0 <= k < |aCross| && c > 0
      ensures EntriesAt(aCross, i)(k) == RingMul(EntriesAt(a, i)(PairI(c, k)), EntriesAt(a, i)(PairJ(c, k)))
    {
      assert aCross[k][i] == EntriesAt(aCross, i)(k);
    }
    GeneralEntry(n, a, aCross, Vectors(s), Vectors(t), x, y, i);
  }

  lemma FlatIsSquare(c: nat)
    ensures Flat(c, c, 0) == c * c
  {
  }

  // The vectors of c drawn polynomials.
  lemma VectorsDrawn(draws: Draws, first: nat, c: nat, b: nat, d: nat, p: seq<Poly>)
    requires |p| == c && forall k {:trigger p[k]} :: 0 <= k < c ==> DrawnVector(draws, first + k, b, d, p[k].vector)
    ensures AllOf(Pow3(b + d), Vectors(p))
    ensures forall k {:trigger Vectors(p)[k]} :: 0 <= k < c ==> DrawnVector(draws, first + k, b, d, Vectors(p)[k])
  {
    hide Pow3;
    forall k {:trigger Vectors(p)[k]} | 0 <= k < c
      ensures DrawnVector(draws, first + k, b, d, Vectors(p)[k]) && |Vectors(p)[k]| == Pow3(b + d)
    {
      assert DrawnVector(draws, first + k, b, d, p[k].vector);
    }
  }

  // Extension_Field_OLE(depth, block_length, c); the polynomials 0 to c - 1 belong to the
  // first party, c to 2c - 1 to the second; s and t are their vectors before the transform.
  method ExtensionFieldOle(crypto: Crypto, draws: Draws, depth: nat, blockLength: nat, c: nat)
    returns (ok: bool, additive0: seq<Block>, additive1: seq<Block>, ole0: seq<Block>, ole1: seq<Block>,
             ghost s: seq<seq<Block>>, ghost t: seq<seq<Block>>,
             ghost p: seq<Poly>, ghost q: seq<Poly>, ghost terms0: seq<seq<Block>>, ghost terms1: seq<seq<Block>>, ghost tr: seq<Trace>)
    requires blockLength <= depth && blockLength <= 32 && depth - blockLength <= 32
    ensures ok
    ensures |additive0| == |additive1| == |ole0| == |ole1| == Pow3(depth)
    ensures forall i {:trigger additive0[i]} :: 0 <= i < Pow3(depth) ==> Mul(ole0[i], ole1[i]) == Xor(additive0[i], additive1[i])
    ensures |s| == |t| == c && AllOf(Pow3(depth), s) && AllOf(Pow3(depth), t)
    ensures forall k {:trigger s[k]} :: 0 <= k < c ==> DrawnVector(draws, k, blockLength, depth - blockLength, s[k])
    ensures forall k {:trigger t[k]} :: 0 <= k < c ==> DrawnVector(draws, c + k, blockLength, depth - blockLength, t[k])
    ensures forall i {:trigger ole0[i]} :: 0 <= i < Pow3(depth) ==>
      ole0[i] == SumTo((k: nat) => if k < |s| then RingMul(draws.a(k, i), Spectrum(depth, s[k])[i]) else ZERO, |s|)
    ensures forall i {:trigger ole1[i]} :: 0 <= i < Pow3(depth) ==>
      ole1[i] == SumTo((k: nat) => if k < |t| then RingMul(draws.a(k, i), Spectrum(depth, t[k])[i]) else ZERO, |t|)
    ensures |p| == |q| == c
    ensures forall k {:trigger p[k]} :: 0 <= k < c ==> p[k] == PolyOf(draws, k, blockLength, depth - blockLength)
    ensures forall k {:trigger q[k]} :: 0 <= k < c ==> q[k] == PolyOf(draws, c + k, blockLength, depth - blockLength)
    ensures |terms0| == |terms1| == |tr| == c * c && AllOf(Pow3(depth), terms0) && AllOf(Pow3(depth), terms1)
    ensures forall k {:trigger tr[k]} :: 0 <= k < |tr| ==>
      TermAt(crypto, draws, p, q, blockLength, depth - blockLength, k, tr[k], terms0[k], terms1[k])
    ensures forall i {:trigger additive0[i]} :: 0 <= i < Pow3(depth) ==>
      additive0[i] == SumTo((k: nat) => if k < |terms0| && c > 0 then
                                          RingMul(PublicPair(draws, c, k, i), Spectrum(depth, terms0[k])[i])
                                        else ZERO, |terms0|)
    ensures forall i {:trigger additive1[i]} :: 0 <= i < Pow3(depth) ==>
      additive1[i] == SumTo((k: nat) => if k < |terms1| && c > 0 then
                                          RingMul(PublicPair(draws, c, k, i), Spectrum(depth, terms1[k])[i])
                                        else ZERO, |terms1|)
  {
    hide TermAt, PolyOf, Spectrum, PublicPair;
    hide SumTo, Times2, Spectra, SharesProduct, Xor, RingMul, Mul, Pow3, Flat;
    hide PairI, PairJ, EntriesAt, Regular, Pow, Vectors, DrawnVector, InputTerms, WeightedSum;
    var numPoints := Ipow(3, blockLength);
    var domain := Ipow(3, depth - blockLength);
    var length := Ipow(3, depth);
    ghost var b, d := blockLength, depth - blockLength;
    PowersOfThree(b);
    PowersOfThree(d);
    PowersOfThree(depth);
    assert b + d == depth;
    var a := DrawAllPublics(draws, c, length);
    var aCross := CrossPublics(a, length);
    var x := DrawAll(draws, 0, c, numPoints, domain, length, b, d);
    var y := DrawAll(draws, c, c, numPoints, domain, length, b, d);
    p, q := x, y;
    VectorsDrawn(draws, 0, c, b, d, p);
    VectorsDrawn(draws, c, c, b, d, q);
    s, t := Vectors(p), Vectors(q);
    var crossA, crossB;
    crossA, crossB, tr := CrossTerms(crypto, draws, x, y, domain, length, b, d);
    terms0, terms1 := crossA, crossB;
    additive0, ole0 := Side(depth, length, a, aCross, crossA, Vectors(x));
    additive1, ole1 := Side(depth, length, a, aCross, crossB, Vectors(y));
    FlatIsSquare(c);
    AdditiveDrawn(draws, depth, c, a, aCross, crossA, additive0);
    AdditiveDrawn(draws, depth, c, a, aCross, crossB, additive1);
    AllEntries(depth, c, a, aCross, p, q, crossA, crossB, additive0, additive1, ole0, ole1);
    InputDrawn(draws, depth, a, s, ole0);
    InputDrawn(draws, depth, a, t, ole1);
    ok := Compare(additive0, additive1, ole0, ole1, length);
  }
}

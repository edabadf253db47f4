/**
 Whole runs of silent VOLE: when the compressed vectors are correlated, for every length and
 every product with delta.  The punctured PRF is given by what its two outputs promise.
 */
module VoleRun {
  import opened Blocks
  import opened F4Ring
  import opened Radix3
  import opened PprfPoints
  import opened SparsePoly
  import opened TransformLaws
  import opened VectorTransform
  import opened Vole
  import opened VoleContext
  import opened VoleLength
  import opened VoleProtocol

  // ---------- compression ----------

  // The entries that resizing adds are correlated.
  ghost predicate TailCorrelated(from: nat, to: nat, fillA: nat -> Block, fillB: nat -> Block, fillC: nat -> Block, times: Block -> Block) {
    forall j: nat {:trigger fillA(j)} {:trigger fillB(j)} :: from <= j < to ==> fillA(j) == Xor(fillB(j), times(fillC(j)))
  }

  // The compressed vectors for given contents of new entries are correlated.
  ghost predicate StaysCorrelated(a: seq<Block>, b: seq<Block>, c: seq<Block>, times: Block -> Block,
                                  fillA: nat -> Block, fillB: nat -> Block, fillC: nat -> Block) {
    |a| == |b| == |c| > 0 && Correlated(Compressed(a, fillA), Compressed(b, fillB), Compressed(c, fillC), times)
  }

  lemma ResizedCorrelated(a: seq<Block>, b: seq<Block>, c: seq<Block>, times: Block -> Block, n: nat,
                          fillA: nat -> Block, fillB: nat -> Block, fillC: nat -> Block)
    requires Correlated(a, b, c, times)
    ensures Correlated(Resized(a, n, fillA), Resized(b, n, fillB), Resized(c, n, fillC), times) <==>
      TailCorrelated(|a|, n, fillA, fillB, fillC, times)
  {
    hide Xor;
    var x, y, z := Resized(a, n, fillA), Resized(b, n, fillB), Resized(c, n, fillC);
    if Correlated(x, y, z, times) {
      forall j: nat {:trigger fillA(j)} {:trigger fillB(j)} | |a| <= j < n
        ensures fillA(j) == Xor(fillB(j), times(fillC(j)))
      {
        assert x[j] == Xor(y[j], times(z[j]));
      }
    }
    if TailCorrelated(|a|, n, fillA, fillB, fillC, times) {
      forall j {:trigger x[j]} {:trigger y[j]} {:trigger z[j]} | 0 <= j < n
        ensures x[j] == Xor(y[j], times(z[j]))
      {
        if j < |a| {
          assert a[j] == Xor(b[j], times(c[j]));
        } else {
          assert fillA(j) == Xor(fillB(j), times(fillC(j)));
        }
      }
    }
  }

  // The compressed vectors are correlated exactly when nothing uncorrelated was added.
  lemma CompressionKeeps(a: seq<Block>, b: seq<Block>, c: seq<Block>, times: Block -> Block, fillA: nat -> Block, fillB: nat -> Block,
                         fillC: nat -> Block)
    requires |a| > 0 && Correlated(a, b, c, times) && LaneLinear(times)
    ensures StaysCorrelated(a, b, c, times, fillA, fillB, fillC)
       <==> TailCorrelated(|a|, Pow3(RoundedLog3(|a|)), fillA, fillB, fillC, times)
  {
    SameLengths(a, b, c, times);
    hide Correlated, TailCorrelated, Resized, Spectrum, Pow3, LaneLinear;
    var k := RoundedLog3(|a|);
    var x, y, z := Resized(a, Pow3(k), fillA), Resized(b, Pow3(k), fillB), Resized(c, Pow3(k), fillC);
    ResizedCorrelated(a, b, c, times, Pow3(k), fillA, fillB, fillC);
    if Correlated(x, y, z, times) {
      SpectraCorrelate(k, x, y, z, times);
    }
    if Correlated(Spectrum(k, x), Spectrum(k, y), Spectrum(k, z), times) {
      SpectraReveal(k, x, y, z, times);
    }
  }

  lemma SameLengths(a: seq<Block>, b: seq<Block>, c: seq<Block>, times: Block -> Block)
    requires Correlated(a, b, c, times)
    ensures |a| == |b| == |c|
  {
  }

  // No contents of new entries can break the correlation.
  ghost predicate AlwaysStays(a: seq<Block>, b: seq<Block>, c: seq<Block>, times: Block -> Block) {
    forall fillA: nat -> Block, fillB: nat -> Block, fillC: nat -> Block {:trigger StaysCorrelated(a, b, c, times, fillA, fillB, fillC)} ::
      StaysCorrelated(a, b, c, times, fillA, fillB, fillC)
  }

  // That is so exactly at the safe lengths.
  lemma SafeSizes(a: seq<Block>, b: seq<Block>, c: seq<Block>, times: Block -> Block)
    requires |a| > 0 && Correlated(a, b, c, times) && LaneLinear(times)
    ensures AlwaysStays(a, b, c, times) <==> SafeLength(|a|)
  {
    hide Correlated, StaysCorrelated, LaneLinear, Pow3, RoundedLog3, SafeLength, Xor;
    var k := RoundedLog3(|a|);
    SafeLengthIff(|a|);
    if Pow3(k) <= |a| {
      forall fillA: nat -> Block, fillB: nat -> Block, fillC: nat -> Block {:trigger StaysCorrelated(a, b, c, times, fillA, fillB, fillC)}
        ensures StaysCorrelated(a, b, c, times, fillA, fillB, fillC)
      {
        CompressionKeeps(a, b, c, times, fillA, fillB, fillC);
      }
    } else {
      var zero: nat -> Block, one: nat -> Block := _ => ZERO, _ => Saturate(true);
      CompressionKeeps(a, b, c, times, one, zero, zero);
      ZeroOfLinear(times);
      XorZero(ZERO);
      assert one(|a|).bits[0] != zero(|a|).bits[0];
      assert !StaysCorrelated(a, b, c, times, one, zero, zero);
    }
  }

  lemma ZeroOfLinear(times: Block -> Block)
    requires LaneLinear(times)
    ensures KeepsSums(times) && times(ZERO) == ZERO
  {
    ZeroKept(times);
  }

  // A length the parties accept at which the outputs can fail: 640 entries grow to 729.
  lemma GrowthBreaks(a: seq<Block>, b: seq<Block>, c: seq<Block>, times: Block -> Block)
    requires |a| == 640 && Correlated(a, b, c, times) && LaneLinear(times)
    ensures Admissible(640) && !AlwaysStays(a, b, c, times)
  {
    hide AlwaysStays, Correlated, SafeLength, LaneLinear;
    SmallLengths();
    SafeSizes(a, b, c, times);
  }

  // ---------- every length and every product ----------

  // The middle of the nearest power of three is inside the vector.
  lemma MiddleInside(n: nat)
    requires n > 1
    ensures var k := RoundedLog3(n); k > 0 && Pow3(k - 1) < Pow3(k) && Pow3(k - 1) < n
  {
    var k := RoundedLog3(n);
    assert n * n >= 4;
    assert Pow3(1) == 3;
    SquareOfPower(k - 1);
    assert Pow3(2 * k) == 3 * (3 * Pow3(2 * k - 2));
    if n <= Pow3(k - 1) {
      Squares(n, Pow3(k - 1));
    }
  }

  function ZeroFill(j: nat): Block {
    ZERO
  }

  lemma UnitResized(size: nat, to: nat, p: nat, x: Block)
    requires p < size && p < to
    ensures Resized(UnitVector(size, p, x), to, ZeroFill) == UnitVector(to, p, x)
    ensures Resized(ZeroVector(size), to, ZeroFill) == ZeroVector(to)
  {
    var fill: nat -> Block := ZeroFill;
    assert forall j: nat {:trigger fill(j)} :: fill(j) == ZERO;
  }

  // Vectors with one entry that the compression does not keep correlated, even if the
  // entries it adds are zero.
  lemma UnitBreaks(n: nat, x: Block, times: Block -> Block)
    requires n > 1 && KeepsSums(times) && times(AMul(x)) != AMul(times(x))
    ensures var p := Pow3(RoundedLog3(n) - 1);
            && p < n && Correlated(UnitVector(n, p, times(x)), ZeroVector(n), UnitVector(n, p, x), times)
            && !StaysCorrelated(UnitVector(n, p, times(x)), ZeroVector(n), UnitVector(n, p, x), times, ZeroFill, ZeroFill, ZeroFill)
  {
    hide Correlated, Spectrum, UnitVector, ZeroVector, Resized, KeepsSums, AMul, Pow3, RoundedLog3;
    MiddleInside(n);
    ZeroKept(times);
    var k := RoundedLog3(n);
    var p := Pow3(k - 1);
    UnitsCorrelated(n, p, x, times);
    UnitResized(n, Pow3(k), p, x);
    UnitResized(n, Pow3(k), p, times(x));
    UnitSeparates(k, x, times);
  }

  // The compression of n entries is safe for all vectors: exactly at the safe lengths, and
  // for the F4-linear products.
  lemma CompressionSafeIff(n: nat, times: Block -> Block)
    requires n > 1 && KeepsSums(times)
    ensures (forall a: seq<Block>, b: seq<Block>, c: seq<Block> {:trigger Correlated(a, b, c, times)} ::
               |a| == n && Correlated(a, b, c, times) ==> AlwaysStays(a, b, c, times))
         <==> SafeLength(n) && LaneLinear(times)
  {
    hide Correlated, AlwaysStays, SafeLength, UnitVector, ZeroVector, Pow3, RoundedLog3;
    if LaneLinear(times) {
      forall a: seq<Block>, b: seq<Block>, c: seq<Block> {:trigger Correlated(a, b, c, times)} | |a| == n && Correlated(a, b, c, times)
        ensures AlwaysStays(a, b, c, times) <==> SafeLength(n)
      {
        SafeSizes(a, b, c, times);
      }
      ZeroOfLinear(times);
      MiddleInside(n);
      UnitsCorrelated(n, 0, ZERO, times);
    } else {
      var x: Block :| times(AMul(x)) != AMul(times(x));
      MiddleInside(n);
      UnitBreaks(n, x, times);
      var p := Pow3(RoundedLog3(n) - 1);
      NotAlways(UnitVector(n, p, times(x)), ZeroVector(n), UnitVector(n, p, x), times, ZeroFill, ZeroFill, ZeroFill);
    }
  }

  lemma NotAlways(a: seq<Block>, b: seq<Block>, c: seq<Block>, times: Block -> Block, fillA: nat -> Block, fillB: nat -> Block,
                  fillC: nat -> Block)
    requires !StaysCorrelated(a, b, c, times, fillA, fillB, fillC)
    ensures !AlwaysStays(a, b, c, times)
  {
    hide StaysCorrelated;
  }

  // ---------- both parties ----------

  // -b for every entry, which is b itself
  function Negated(b: seq<Block>): (r: seq<Block>)
    ensures |r| == |b|
  {
    seq(|b|, i requires 0 <= i < |b| => Xor(ZERO, b[i]))
  }

  lemma NegatedCorrelates(shareB: seq<Block>, shareA: seq<Block>, noise: seq<Block>, times: Block -> Block)
    requires Correlated(shareA, shareB, noise, times)
    ensures BaseCorrelated(shareA, Negated(shareB), noise, times)
  {
    hide Xor;
    var stored := Negated(shareB);
    forall i {:trigger shareA[i]} | 0 <= i < |stored|
      ensures Xor(shareA[i], stored[i]) == times(noise[i])
    {
      XorZero(shareB[i]);
      XorComm(ZERO, shareB[i]);
      var x := times(noise[i]);
      XorComm(shareB[i], x);
      XorAssoc(x, shareB[i], shareB[i]);
      XorSelf(shareB[i]);
      XorZero(x);
    }
  }

  lemma StoredIsNegated(stored: seq<Block>, shareB: seq<Block>)
    requires Negates(stored, shareB)
    ensures stored == Negated(shareB)
  {
    hide Xor;
    forall i {:trigger stored[i]} | 0 <= i < |stored|
      ensures stored[i] == Negated(shareB)[i]
    {
      XorZeroMeansEqual(stored[i], shareB[i]);
      XorComm(ZERO, shareB[i]);
      XorZero(shareB[i]);
    }
  }

  // The drawn words, the noise, and the base shares of the products of the noise.
  datatype Base = Base(draws: seq<nat>, noise: seq<Block>, shareA: seq<Block>, shareB: seq<Block>)

  ghost predicate BaseOk(base: Base, times: Block -> Block) {
    && |base.draws| == |base.noise| == |base.shareA| == |base.shareB| == PARTITIONS
    && Correlated(base.shareA, base.shareB, base.noise, times)
  }

  // What the receiver plants.
  function PlantedBy(base: Base, requestSize: nat): (p: Planted)
    requires Admissible(requestSize)
  {
    assert requestSize / PARTITIONS > 0;
    Planted(Points(Drawn(base.draws, requestSize / PARTITIONS), requestSize / PARTITIONS), base.shareA, base.noise)
  }

  // What the punctured PRF delivers for it.
  ghost predicate ExpandedTo(base: Base, requestSize: nat, outA: seq<Block>, outB: seq<Block>) {
    && |outA| == |outB| == requestSize
    && (Admissible(requestSize) ==> Programmed(outA, outB, PlantedBy(base, requestSize).points, Negated(base.shareB)))
  }

  // Both parties configured for the same size, with their base transfers and shares set
  // beforehand if preset.
  method Setup(snd: Sender, rcv: Receiver, requestSize: nat, preset: bool, base: Base, ghost times: Block -> Block) returns (ok: bool)
    requires snd.Valid() && rcv.Valid() && BaseOk(base, times)
    modifies snd, rcv
    ensures snd.Valid() && rcv.Valid() && (Admissible(requestSize) ==> ok)
    ensures ok ==> snd.configured && rcv.configured && snd.requestSize == rcv.requestSize == requestSize
    ensures ok ==> (snd.gen.HasBase() ==> Negates(snd.baseB, base.shareB)) && (rcv.gen.HasBase() ==> rcv.Sampled())
    ensures ok && Admissible(requestSize) ==>
      rcv.NextNoise(base.draws, base.noise, base.shareA, requestSize / PARTITIONS) == PlantedBy(base, requestSize)
  {
    hide Correlated, Points, Drawn, Sound, Sized, Negates, Generator.BaseOtCount;
    var okS := snd.Configure(requestSize);
    ok := rcv.Configure(requestSize);
    if Admissible(requestSize) {
      AdmissibleAccepts(requestSize);
    }
    if ok && preset {
      BaseTaken(snd.gen);
      BaseTaken(rcv.gen);
      var taken := rcv.SampleBaseChoiceBits(base.draws);
      taken := rcv.SampleBaseVoleVals(base.noise);
      DrawnPoints(base.draws, rcv.gen.domain);
      taken := rcv.SetSilentBaseOts(rcv.gen.BaseOtCount(), base.shareA);
      taken := snd.SetSilentBaseOts(snd.gen.BaseOtCount(), base.shareB);
    }
  }

  // A run of both parties on base shares with share_a = share_b + noise * delta, which are
  // set before (preset) or generated on the way.  The sender programs the negated share.
  // With an F4-linear product the outputs are correlated exactly when nothing uncorrelated
  // is added, and so whenever the vectors are cut and not grown.
  method SilentVole(snd: Sender, rcv: Receiver, requestSize: nat, n: nat, preset: bool, base: Base, ghost times: Block -> Block,
                    outA: seq<Block>, outB: seq<Block>, fillA: nat -> Block, fillB: nat -> Block, fillC: nat -> Block)
    returns (ok: bool, ghost values: seq<Block>, ghost fullA: seq<Block>, ghost fullB: seq<Block>, ghost fullC: seq<Block>)
    requires snd.Valid() && rcv.Valid() && BaseOk(base, times) && KeepsSums(times) && ExpandedTo(base, requestSize, outA, outB)
    modifies snd, rcv
    ensures ok <==> Admissible(requestSize) && n <= requestSize
    ensures ok ==> values == Negated(base.shareB) && requestSize > 0
    ensures ok ==> NoisePlanted(outA, base.draws, base.noise, base.shareA, fillA, fillC, fullA, fullC)
    ensures ok ==> |fullB| == |fullA| && forall j {:trigger fullB[j]} :: 0 <= j < |fullB| ==>
      fullB[j] == if j < |outB| then outB[j] else fillB(j)
    ensures ok ==> var k := RoundedLog3(requestSize);
                   |fullA| == Pow3(k) && rcv.a == Spectrum(k, fullA) && snd.b == Spectrum(k, fullB) && rcv.c == Spectrum(k, fullC)
    ensures ok ==> snd.b == Compressed(outB, fillB) && Received(outA, PlantedBy(base, requestSize), fillA, fillC, rcv.a, rcv.c)
    ensures ok && LaneLinear(times) ==>
      (Correlated(rcv.a, snd.b, rcv.c, times) <==> TailCorrelated(requestSize, Pow3(RoundedLog3(requestSize)), fillA, fillB, fillC, times))
    ensures ok && LaneLinear(times) && SafeLength(requestSize) ==> Correlated(rcv.a, snd.b, rcv.c, times)
  {
    hide Correlated, Compressed, Received, Pow3, RoundedLog3, SafeLength;
    hide TailCorrelated, LaneLinear, KeepsSums, PlantedBy, ExpandedTo, Negates, NoiseAt, Spectrum;
    values, fullA, fullB, fullC := [], [], [], [];
    ok := Setup(snd, rcv, requestSize, preset, base, times);
    if !ok {
      return;
    }
    OutputSizes(base, requestSize, outA, outB);
    ok, values, fullB := snd.SilentSendInplace(n, base.shareB, outB, fillB);
    if !ok {
      return;
    }
    ok, fullA, fullC := rcv.SilentReceiveInplace(n, base.draws, base.noise, base.shareA, outA, fillA, fillC);
    fullA, fullC := PlantedSpelt(base, requestSize, outA, fillA, fillC, rcv.a, rcv.c);
    StoredIsNegated(values, base.shareB);
    RunCorrelated(base, requestSize, times, outA, outB, fillA, fillB, fillC, rcv.a, snd.b, rcv.c);
  }

  lemma PlantedSpelt(base: Base, requestSize: nat, outA: seq<Block>, fillA: nat -> Block, fillC: nat -> Block, a: seq<Block>,
                     c: seq<Block>) returns (fullA: seq<Block>, fullC: seq<Block>)
    requires |base.draws| == |base.noise| == |base.shareA| == PARTITIONS && Admissible(requestSize) && |outA| == requestSize
    requires Received(outA, PlantedBy(base, requestSize), fillA, fillC, a, c)
    ensures NoisePlanted(outA, base.draws, base.noise, base.shareA, fillA, fillC, fullA, fullC)
    ensures a == Spectrum(RoundedLog3(requestSize), fullA) && c == Spectrum(RoundedLog3(requestSize), fullC)
  {
    hide Received, NoisePlanted, Spectrum, RoundedLog3, Points, Drawn;
    AdmissibleAccepts(requestSize);
    fullA, fullC := ReceivedSpelt(outA, base.draws, base.noise, base.shareA, fillA, fillC, a, c);
  }

  lemma OutputSizes(base: Base, requestSize: nat, outA: seq<Block>, outB: seq<Block>)
    requires ExpandedTo(base, requestSize, outA, outB)
    ensures |outA| == |outB| == requestSize
  {
  }

  // What the outputs of a run have to do with each other.
  lemma RunCorrelated(base: Base, requestSize: nat, times: Block -> Block, outA: seq<Block>, outB: seq<Block>,
                      fillA: nat -> Block, fillB: nat -> Block, fillC: nat -> Block, a: seq<Block>, b: seq<Block>, c: seq<Block>)
    requires Admissible(requestSize) && BaseOk(base, times) && KeepsSums(times) && ExpandedTo(base, requestSize, outA, outB) && |outB| > 0
    requires Received(outA, PlantedBy(base, requestSize), fillA, fillC, a, c) && b == Compressed(outB, fillB)
    ensures LaneLinear(times) ==>
      (Correlated(a, b, c, times) <==> TailCorrelated(requestSize, Pow3(RoundedLog3(requestSize)), fillA, fillB, fillC, times))
    ensures LaneLinear(times) && SafeLength(requestSize) ==> Correlated(a, b, c, times)
  {
    if LaneLinear(times) {
      hide Correlated, Compressed, Pow3, RoundedLog3, SafeLength, TailCorrelated, LaneLinear, KeepsSums, PlantedBy, PatchedA, Sparse;
      var p := PlantedBy(base, requestSize);
      PlantedCorrelated(base, requestSize, times, outA, outB);
      CompressionKeeps(PatchedA(outA, p.points, p.share, PARTITIONS), outB, Sparse(|outA|, p.points, p.noise, PARTITIONS), times, fillA,
                       fillB, fillC);
      SafeLengthIff(requestSize);
      NoTail(requestSize, Pow3(RoundedLog3(requestSize)), fillA, fillB, fillC, times);
    }
  }

  // The vectors before the compression are correlated.
  lemma PlantedCorrelated(base: Base, requestSize: nat, times: Block -> Block, outA: seq<Block>, outB: seq<Block>)
    requires Admissible(requestSize) && BaseOk(base, times) && KeepsSums(times) && ExpandedTo(base, requestSize, outA, outB)
    ensures var p := PlantedBy(base, requestSize);
            && Fits(p, requestSize) && |outA| == requestSize
            && Correlated(PatchedA(outA, p.points, p.share, PARTITIONS), outB, Sparse(|outA|, p.points, p.noise, PARTITIONS), times)
  {
    hide Correlated, KeepsSums, PatchedA, Sparse, Points, Drawn, Negated, BaseCorrelated, AllDistinct;
    var p := PlantedBy(base, requestSize);
    AdmissibleAccepts(requestSize);
    DrawnPoints(base.draws, requestSize / PARTITIONS);
    NegatedCorrelates(base.shareB, base.shareA, base.noise, times);
    ZeroKept(times);
    PatchedCorrelated(outA, outB, p.points, p.share, Negated(base.shareB), p.noise, times);
  }

  lemma NoTail(from: nat, to: nat, fillA: nat -> Block, fillB: nat -> Block, fillC: nat -> Block, times: Block -> Block)
    ensures to <= from ==> TailCorrelated(from, to, fillA, fillB, fillC, times)
  {
  }

  // ---------- the entry points that copy ----------

  // silentSend and silentReceive of both parties.  The outputs are correlated if the copies
  // stay inside the vectors, nothing is added to them, and the product is F4-linear.
  method SilentOutputs(snd: Sender, rcv: Receiver, requestSize: nat, n: nat, preset: bool, base: Base, ghost times: Block -> Block,
                       outA: seq<Block>, outB: seq<Block>, fillA: nat -> Block, fillB: nat -> Block, fillC: nat -> Block)
    returns (ok: bool, inside: bool, a: seq<Block>, b: seq<Block>, c: seq<Block>)
    requires snd.Valid() && rcv.Valid() && BaseOk(base, times) && KeepsSums(times) && ExpandedTo(base, requestSize, outA, outB)
    modifies snd, rcv
    ensures ok <==> Admissible(requestSize) && n <= requestSize
    ensures ok ==> (inside <==> n <= Pow3(RoundedLog3(requestSize)))
    ensures ok && inside ==> |a| == |b| == |c| == n
    ensures ok && inside && LaneLinear(times) && SafeLength(requestSize) ==> Correlated(a, b, c, times)
  {
    hide Correlated, Compressed, Begins, Pow3, RoundedLog3, SafeLength, LaneLinear, KeepsSums, PlantedBy, ExpandedTo, Negates;
    inside, a, b, c := false, [], [], [];
    ok := Setup(snd, rcv, requestSize, preset, base, times);
    if !ok {
      return;
    }
    OutputSizes(base, requestSize, outA, outB);
    ghost var values, fullA, fullB, fullC;
    ok, inside, b, values, fullB := snd.SilentSend(n, base.shareB, outB, fillB);
    if !ok {
      return;
    }
    ok, inside, a, c, fullA, fullC := rcv.SilentReceive(n, base.draws, base.noise, base.shareA, outA, fillA, fillC);
    if inside {
      PrefixCorrelated(base, requestSize, n, times, outA, outB, fillA, fillB, fillC, a, b, c);
    }
  }

  lemma PrefixCorrelated(base: Base, requestSize: nat, n: nat, times: Block -> Block, outA: seq<Block>, outB: seq<Block>,
                         fillA: nat -> Block, fillB: nat -> Block, fillC: nat -> Block, a: seq<Block>, b: seq<Block>, c: seq<Block>)
    requires Admissible(requestSize) && BaseOk(base, times) && KeepsSums(times) && ExpandedTo(base, requestSize, outA, outB) && |outB| > 0
    requires Begins(n, outA, PlantedBy(base, requestSize), fillA, fillC, a, c)
    requires n <= Pow3(RoundedLog3(|outB|)) && b == Compressed(outB, fillB)[..n]
    ensures |a| == |b| == |c| == n && (LaneLinear(times) && SafeLength(requestSize) ==> Correlated(a, b, c, times))
  {
    hide PatchedA, Sparse, Compressed, Pow3, RoundedLog3, SafeLength, LaneLinear, KeepsSums, PlantedBy, TailCorrelated, Xor;
    var p := PlantedBy(base, requestSize);
    var a', b', c' := Compressed(PatchedA(outA, p.points, p.share, PARTITIONS), fillA), Compressed(outB, fillB),
                      Compressed(Sparse(|outA|, p.points, p.noise, PARTITIONS), fillC);
    RunCorrelated(base, requestSize, times, outA, outB, fillA, fillB, fillC, a', b', c');
    if Correlated(a', b', c', times) {
      forall i {:trigger a[i]} {:trigger b[i]} {:trigger c[i]} | 0 <= i < n
        ensures a[i] == Xor(b[i], times(c[i]))
      {
        assert a'[i] == Xor(b'[i], times(c'[i]));
      }
    }
  }

  // A request for as many entries as were configured cannot come out well: either the copy
  // leaves the vector or the vector has grown.
  lemma NeverWhole(n: nat)
    requires Admissible(n)
    ensures SafeLength(n) <==> !(n <= Pow3(RoundedLog3(n)))
  {
    hide SafeLength, Pow3, RoundedLog3;
    SafeLengthIff(n);
    NeverKept(n);
  }

  // 128 entries are cut to 81.
  lemma CopyLeaves()
    ensures Admissible(128) && SafeLength(128) && Pow3(RoundedLog3(128)) == 81
  {
    hide SafeLength;
    SmallLengths();
  }
  // ---------- a product that is not F4-linear ----------

  lemma PlantedUnit(size: nat, points: seq<nat>, j: nat, x: Block)
    requires |points| == PARTITIONS && AllDistinct(points) && j < PARTITIONS
    requires forall i {:trigger points[i]} :: 0 <= i < |points| ==> points[i] < size
    ensures PatchedA(ZeroVector(size), points, UnitVector(PARTITIONS, j, x), PARTITIONS) == UnitVector(size, points[j], x)
    ensures Sparse(size, points, UnitVector(PARTITIONS, j, x), PARTITIONS) == UnitVector(size, points[j], x)
  {
    hide Xor, PatchedA, Sparse, AllDistinct;
    var values := UnitVector(PARTITIONS, j, x);
    var a, c, unit := PatchedA(ZeroVector(size), points, values, PARTITIONS), Sparse(size, points, values, PARTITIONS),
                      UnitVector(size, points[j], x);
    forall m | 0 <= m < size
      ensures a[m] == unit[m] && c[m] == unit[m]
    {
      if m in points {
        var q :| 0 <= q < |points| && points[q] == m;
        PatchedAt(ZeroVector(size), points, values, PARTITIONS, q);
        SparseAt(size, points, values, PARTITIONS, q);
        XorComm(ZERO, values[q]);
        XorZero(values[q]);
        PlaceOnce(points, j, q);
      } else {
        PatchedOff(ZeroVector(size), points, values, PARTITIONS, m);
        SparseOff(size, points, values, PARTITIONS, m);
      }
    }
    assert a == unit && c == unit;
  }

  lemma PlaceOnce(points: seq<nat>, j: nat, q: nat)
    requires AllDistinct(points) && j < |points| && q < |points|
    ensures points[j] == points[q] <==> j == q
  {
  }

  // One noise value x with share y, in the tree of the given place.
  function UnitBase(requestSize: nat, place: nat, x: Block, y: Block): (base: Base)
    requires Admissible(requestSize) && place < requestSize
  {
    AdmissibleAccepts(requestSize);
    var domain := requestSize / PARTITIONS;
    EveryPlace(place, domain);
    var j := TreeAt(place, domain);
    Base(seq(PARTITIONS, _ => LeafAt(place, domain)), UnitVector(PARTITIONS, j, x), UnitVector(PARTITIONS, j, y), ZeroVector(PARTITIONS))
  }

  // Its noise ends up at the place.
  lemma UnitPlanted(requestSize: nat, place: nat, x: Block, y: Block)
    requires Admissible(requestSize) && place < requestSize
    ensures var base := UnitBase(requestSize, place, x, y);
            var p := PlantedBy(base, requestSize);
            && Fits(p, requestSize) && PatchedA(ZeroVector(requestSize), p.points, p.share, PARTITIONS) == UnitVector(requestSize, place, y)
            && Sparse(requestSize, p.points, p.noise, PARTITIONS) == UnitVector(requestSize, place, x)
            && ExpandedTo(base, requestSize, ZeroVector(requestSize), ZeroVector(requestSize))
  {
    hide PointOf, TreeAt, LeafAt, UnitVector, PatchedA, Sparse, AllDistinct, Xor;
    AdmissibleAccepts(requestSize);
    var domain := requestSize / PARTITIONS;
    EveryPlace(place, domain);
    var base := UnitBase(requestSize, place, x, y);
    var points := PlantedBy(base, requestSize).points;
    DrawnPoints(base.draws, domain);
    SmallMod(LeafAt(place, domain), domain);
    assert points[TreeAt(place, domain)] == place;
    PlantedUnit(requestSize, points, TreeAt(place, domain), x);
    PlantedUnit(requestSize, points, TreeAt(place, domain), y);
    XorZero(ZERO);
  }

  lemma SmallMod(x: nat, m: nat)
    requires x < m
    ensures x % m == x
  {
  }

  // A run whose outputs are not correlated, at any length: one noise value x for which the
  // product does not commute with a.  The sender's vectors are zero, and so are the entries
  // that the compression may add.
  method UnitRun(requestSize: nat, x: Block, times: Block -> Block) returns (a: seq<Block>, b: seq<Block>, c: seq<Block>)
    requires Admissible(requestSize) && KeepsSums(times) && times(AMul(x)) != AMul(times(x))
    ensures !Correlated(a, b, c, times)
  {
    hide Correlated, UnitVector, ZeroVector, PatchedA, Sparse, Compressed, UnitBase;
    hide PlantedBy, ExpandedTo, KeepsSums, AMul, LaneLinear, Pow3, RoundedLog3;
    MiddleInside(requestSize);
    var place := Pow3(RoundedLog3(requestSize) - 1);
    var base := UnitBase(requestSize, place, x, times(x));
    UnitPlanted(requestSize, place, x, times(x));
    UnitBreaks(requestSize, x, times);
    UnitShares(requestSize, place, x, times);
    var snd := new Sender();
    var rcv := new Receiver();
    var zeros := ZeroVector(requestSize);
    var ok, values, fullA, fullB, fullC := SilentVole(snd, rcv, requestSize, requestSize, false, base, times, zeros, zeros, ZeroFill,
                                                      ZeroFill, ZeroFill);
    a, b, c := rcv.a, snd.b, rcv.c;
  }

  lemma UnitShares(requestSize: nat, place: nat, x: Block, times: Block -> Block)
    requires Admissible(requestSize) && place < requestSize && KeepsSums(times)
    ensures BaseOk(UnitBase(requestSize, place, x, times(x)), times)
  {
    hide Correlated, UnitVector, KeepsSums, TreeAt, LeafAt;
    AdmissibleAccepts(requestSize);
    EveryPlace(place, requestSize / PARTITIONS);
    ZeroKept(times);
    UnitsCorrelated(PARTITIONS, TreeAt(place, requestSize / PARTITIONS), x, times);
  }
}

/**
 The two parties of silent VOLE: base correlation, planted noise, truncation to a power of
 three and compression (SilentWalshVoleReceiver.h and SilentWalshVoleSender.h).
 */
module VoleProtocol {
  import opened Blocks
  import opened Radix3
  import opened PprfPoints
  import opened SparsePoly
  import opened VectorTransform
  import opened Vole
  import opened VoleLength

  // What the programmed punctured PRF delivers: equal vectors, except that the sender's
  // values are added at the points.
  ghost predicate Programmed(outA: seq<Block>, outB: seq<Block>, points: seq<nat>, values: seq<Block>) {
    && |outA| == |outB| && |points| == |values|
    && (forall i {:trigger points[i]} :: 0 <= i < |points| ==> points[i] < |outA| && outA[points[i]] == Xor(outB[points[i]], values[i]))
    && (forall j {:trigger outA[j]} {:trigger outB[j]} :: 0 <= j < |outA| && j !in points ==> outA[j] == outB[j])
  }

  // v resized to n entries; entries beyond the old size come from fill.
  function Resized(v: seq<Block>, n: nat, fill: nat -> Block): (r: seq<Block>)
    ensures |r| == n
  {
    seq(n, j requires 0 <= j < n => if j < |v| then v[j] else fill(j))
  }

  // A vector after the compression: resized to the nearest power of three, and transformed.
  function Compressed(v: seq<Block>, fill: nat -> Block): (r: seq<Block>)
    requires |v| > 0
    ensures |r| == Pow3(RoundedLog3(|v|))
  {
    var k := RoundedLog3(|v|);
    Spectrum(k, Resized(v, Pow3(k), fill))
  }

  // The sizes of a configured party, and its generator when it took them.
  ghost predicate Sized(g: Generator, requestSize: nat, noiseVecSize: nat, sizePer: nat) {
    && noiseVecSize == requestSize && sizePer == requestSize / PARTITIONS
    && (Accepts(sizePer) ==> g.domain == sizePer && g.points == PARTITIONS)
  }

  // Expansion goes ahead exactly at the admissible sizes.
  lemma CanExpand(g: Generator, requestSize: nat, noiseVecSize: nat, sizePer: nat)
    requires Sound(g) && Sized(g, requestSize, noiseVecSize, sizePer)
    ensures Admissible(requestSize) <==> g.points == PARTITIONS && ExpandAccepts(g, noiseVecSize)
    ensures Sound(g.(base := 0))
    ensures Admissible(requestSize) ==> g.domain == requestSize / PARTITIONS && requestSize == g.domain * PARTITIONS && requestSize > 0
  {
    AdmissibleDomain(requestSize, g);
    BaseTaken(g);
  }

  // Entry by entry minus the share.
  ghost predicate Negates(stored: seq<Block>, share: seq<Block>) {
    |stored| == |share| && forall i {:trigger stored[i]} :: 0 <= i < |share| ==> Xor(stored[i], share[i]) == ZERO
  }

  method NegatedCopy(share: seq<Block>) returns (r: seq<Block>)
    ensures Negates(r, share)
  {
    hide Xor;
    r := seq(|share|, _ => ZERO);
    var i := 0;
    while i < |r|
      invariant i <= |r| == |share|
      invariant forall q {:trigger r[q]} :: 0 <= q < i ==> Xor(r[q], share[q]) == ZERO
      invariant forall q {:trigger r[q]} :: i <= q < |share| ==> r[q] == ZERO
    {
      Negation(share[i]);
      r := r[i := Xor(r[i], share[i])];
      i := i + 1;
    }
  }

  class Sender {
    var configured: bool
    var requestSize: nat
    var noiseVecSize: nat
    var sizePer: nat
    var gen: Generator
    var baseB: seq<Block>
    var b: seq<Block>

    // What holds between calls.
    ghost predicate Valid()
      reads this
    {
      && Sound(gen) && (gen.HasBase() ==> configured && |baseB| == PARTITIONS)
      && (configured ==> Sized(gen, requestSize, noiseVecSize, sizePer))
    }

    constructor ()
      ensures Valid() && !configured && requestSize == noiseVecSize == sizePer == 0 && baseB == b == []
    {
      configured, requestSize, noiseVecSize, sizePer := false, 0, 0, 0;
      gen := Generator(0, 0, 0, 0);
      baseB, b := [], [];
    }

    // The sizes are stored whether or not the generator takes them.
    method Configure(requestSize: nat) returns (ok: bool)
      requires Valid()
      modifies `configured, `requestSize, `noiseVecSize, `sizePer, `gen
      ensures Valid() && configured && this.requestSize == noiseVecSize == requestSize && sizePer == requestSize / PARTITIONS
      ensures ok <==> Accepts(requestSize / PARTITIONS)
      ensures if ok then gen.domain == sizePer && gen.points == PARTITIONS && !gen.HasBase() else gen == old(gen)
    {
      this.requestSize := requestSize;
      configured := true;
      noiseVecSize := 1 * requestSize;
      sizePer := noiseVecSize / PARTITIONS;
      ok, gen := Configured(gen, sizePer);
    }

    // Takes the messages of count transfers and stores the negated base share; the result
    // tells whether the call returns normally.
    method SetSilentBaseOts(count: nat, share: seq<Block>) returns (ok: bool)
      requires Valid()
      modifies `gen, `baseB
      ensures Valid()
      ensures ok <==> configured && count == gen.BaseOtCount() && |share| == PARTITIONS
      ensures ok ==> gen == old(gen).(base := count) && Negates(baseB, share)
      ensures !ok ==> unchanged(this)
    {
      if !configured || count != gen.BaseOtCount() {
        return false;
      }
      hide Xor, Sound, Generator.BaseOtCount;
      if |share| != PARTITIONS {
        return false;
      }
      BaseTaken(gen);
      gen := gen.(base := count);
      baseB := NegatedCopy(share);
      ok := true;
    }

    // The configuration and the base transfers, where they are missing; share is what the
    // noisy VOLE delivers when they are generated.
    method Prepare(n: nat, share: seq<Block>) returns (ok: bool)
      requires Valid() && |share| == PARTITIONS
      modifies this
      ensures Valid() && (ok ==> configured)
      ensures requestSize == if old(configured) then old(requestSize) else n
      ensures ok <==> (old(configured) || Accepts(n / PARTITIONS)) && n <= requestSize
      ensures ok ==> |baseB| == PARTITIONS && if old(gen.HasBase()) then baseB == old(baseB) else Negates(baseB, share)
    {
      hide Xor;
      if !configured {
        ok := Configure(n);
        if !ok {
          return false;
        }
      }
      if requestSize < n {
        return false;
      }
      if !gen.HasBase() {
        ok := SetSilentBaseOts(gen.BaseOtCount(), share);
      }
      ok := true;
    }

    // The request size of the next call.
    ghost function NextSize(n: nat): nat
      reads this
    {
      if configured then requestSize else n
    }

    // silentSendInplace: values is what it hands to the punctured PRF, expanded what that
    // writes to mB.
    method SilentSendInplace(n: nat, share: seq<Block>, expanded: seq<Block>, fill: nat -> Block)
      returns (ok: bool, ghost values: seq<Block>, ghost full: seq<Block>)
      requires Valid() && |share| == PARTITIONS && |expanded| == NextSize(n)
      modifies this
      ensures Valid()
      ensures ok <==> Admissible(|expanded|) && n <= |expanded|
      ensures ok ==> b == Compressed(expanded, fill)
      ensures ok ==> |expanded| > 0 && |full| == Pow3(RoundedLog3(|expanded|)) && b == Spectrum(RoundedLog3(|expanded|), full)
      ensures ok ==> forall j {:trigger full[j]} :: 0 <= j < |full| ==> full[j] == if j < |expanded| then expanded[j] else fill(j)
      ensures ok ==> !configured && baseB == [] && !gen.HasBase()
      ensures ok ==> if old(gen.HasBase()) then values == old(baseB) else Negates(values, share)
    {
      hide Spectrum, Resized, Pow3, Xor;
      values, full := [], [];
      ok := Prepare(n, share);
      if !ok {
        return false, [], [];
      }
      CanExpand(gen, requestSize, noiseVecSize, sizePer);
      if gen.points != |baseB| || !ExpandAccepts(gen, noiseVecSize) {
        return false, [], [];
      }
      values := baseB;
      b := expanded;
      gen := gen.(base := 0);
      var numVar := RoundedLog3(|b|);
      b := Resized(b, Pow3(numVar), fill);
      full := b;
      ResizedAt(expanded, Pow3(numVar), fill);
      b := Fft(b, numVar, |b| / 3);
      configured := false;
      baseB := [];
      ok := true;
    }

    // silentSend: the first n entries are copied out, and the vectors cleared.  The second
    // result tells whether the copy stays inside the vector; past its end nothing is known.
    method SilentSend(n: nat, share: seq<Block>, expanded: seq<Block>, fill: nat -> Block)
      returns (ok: bool, inside: bool, out: seq<Block>, ghost values: seq<Block>, ghost full: seq<Block>)
      requires Valid() && |share| == PARTITIONS && |expanded| == NextSize(n)
      modifies this
      ensures Valid()
      ensures ok <==> Admissible(|expanded|) && n <= |expanded|
      ensures ok ==> (inside <==> n <= Pow3(RoundedLog3(|expanded|)))
      ensures ok && inside ==> out == Compressed(expanded, fill)[..n]
      ensures ok && inside ==> |expanded| > 0 && n <= |full| == Pow3(RoundedLog3(|expanded|))
      ensures ok && inside ==> out == Spectrum(RoundedLog3(|expanded|), full)[..n]
      ensures ok && inside ==> forall j {:trigger full[j]} :: 0 <= j < |full| ==> full[j] == if j < |expanded| then expanded[j] else fill(j)
      ensures ok ==> !configured && baseB == b == [] && gen == Generator(0, 0, 0, 0)
      ensures ok ==> if old(gen.HasBase()) then values == old(baseB) else Negates(values, share)
    {
      hide Compressed, Pow3, Negates, Admissible;
      inside, out := false, [];
      ok, values, full := SilentSendInplace(n, share, expanded, fill);
      if ok {
        inside := n <= |b|;
        if inside {
          out := b[..n];
        }
        b := [];
        gen := Generator(0, 0, 0, 0);
      }
    }
  }

  lemma ResizedAt(v: seq<Block>, n: nat, fill: nat -> Block)
    ensures forall j {:trigger Resized(v, n, fill)[j]} :: 0 <= j < n ==> Resized(v, n, fill)[j] == if j < |v| then v[j] else fill(j)
  {
  }

  lemma Negation(x: Block)
    ensures Xor(Xor(ZERO, x), x) == ZERO
  {
    XorZero(x);
    XorSelf(x);
  }

  // The vectors after the first n noisy positions have been patched.
  function PatchedA(a: seq<Block>, points: seq<nat>, baseA: seq<Block>, n: nat): (r: seq<Block>)
    requires n <= |points| && n <= |baseA| && forall i {:trigger points[i]} :: 0 <= i < |points| ==> points[i] < |a|
    ensures |r| == |a|
  {
    if n == 0 then a
    else
      var r := PatchedA(a, points, baseA, n - 1);
      r[points[n - 1] := Xor(r[points[n - 1]], baseA[n - 1])]
  }

  class Receiver {
    var configured: bool
    var requestSize: nat
    var noiseVecSize: nat
    var sizePer: nat
    var gen: Generator
    // the leaf of each tree, of which the choice bits are the binary digits
    var leaves: seq<nat>
    var points: seq<nat>
    var baseA: seq<Block>
    var baseC: seq<Block>
    var a: seq<Block>
    var c: seq<Block>

    ghost predicate Valid()
      reads this
    {
      && Sound(gen) && (gen.HasBase() ==> configured)
      && (configured ==> Sized(gen, requestSize, noiseVecSize, sizePer))
    }

    // The noise and the base share are there, for the points of the present configuration.
    ghost predicate Sampled()
      reads this
    {
      && |points| == |baseA| == |baseC| == PARTITIONS
      && forall i {:trigger points[i]} :: 0 <= i < |points| ==> points[i] < gen.domain * PARTITIONS
    }

    constructor ()
      ensures Valid() && !configured && requestSize == noiseVecSize == sizePer == 0 && points == [] && baseA == baseC == a == c == []
    {
      configured, requestSize, noiseVecSize, sizePer := false, 0, 0, 0;
      gen := Generator(0, 0, 0, 0);
      leaves, points, baseA, baseC, a, c := [], [], [], [], [], [];
    }

    method Configure(requestSize: nat) returns (ok: bool)
      requires Valid()
      modifies `configured, `requestSize, `noiseVecSize, `sizePer, `gen
      ensures Valid() && configured && this.requestSize == noiseVecSize == requestSize && sizePer == requestSize / PARTITIONS
      ensures ok <==> Accepts(requestSize / PARTITIONS)
      ensures if ok then gen.domain == sizePer && gen.points == PARTITIONS && !gen.HasBase() else gen == old(gen)
    {
      this.requestSize := requestSize;
      configured := true;
      noiseVecSize := requestSize;
      sizePer := noiseVecSize / PARTITIONS;
      ok, gen := Configured(gen, sizePer);
    }

    // One leaf for each tree, from the drawn words.
    method SampleBaseChoiceBits(draws: seq<nat>) returns (ok: bool)
      requires Valid() && |draws| == PARTITIONS
      modifies `leaves
      ensures ok <==> configured
      ensures leaves == if !ok then old(leaves) else if gen.points == 0 then [] else Drawn(draws, gen.domain)
      ensures ok && gen.points > 0 ==> |leaves| == PARTITIONS && gen.domain > 0
      ensures ok && gen.points > 0 ==> forall j {:trigger leaves[j]} :: 0 <= j < |leaves| ==> leaves[j] == draws[j] % gen.domain
    {
      ok := configured;
      if ok {
        if gen.points == 0 {
          leaves := [];
        } else {
          leaves := SampleChoices(draws, gen.domain);
        }
      }
    }

    // Keeps the drawn noise, and the places of the leaves in the output.
    method SampleBaseVoleVals(values: seq<Block>) returns (ok: bool)
      requires Valid() && |values| == PARTITIONS && |leaves| == gen.points
      modifies `baseC, `points
      ensures ok <==> configured && gen.points == PARTITIONS
      ensures ok ==> baseC == values && points == Points(leaves, gen.domain)
    {
      if !configured {
        return false;
      }
      baseC := values;
      if gen.points != PARTITIONS {
        return false;
      }
      points := GetPoints(leaves, gen.domain);
      ok := true;
    }

    // Takes the messages of count transfers, and the base share.
    method SetSilentBaseOts(count: nat, share: seq<Block>) returns (ok: bool)
      requires Valid()
      modifies `gen, `baseA
      ensures Valid()
      ensures ok <==> configured && count == gen.BaseOtCount()
      ensures ok ==> baseA == share && gen == old(gen).(base := count)
      ensures !ok ==> unchanged(this)
    {
      BaseTaken(gen);
      hide Sound, Generator.BaseOtCount;
      ok := configured && count == gen.BaseOtCount();
      if ok {
        gen := gen.(base := count);
        baseA := share;
      }
    }

    // The noise as a sparse vector, and the expanded vector with the base share added.
    method Patch(expanded: seq<Block>)
      requires |points| == |baseA| == |baseC| == PARTITIONS && forall i {:trigger points[i]} :: 0 <= i < |points| ==> points[i] < |expanded|
      modifies `a, `c
      ensures a == PatchedA(expanded, points, baseA, PARTITIONS) && c == Sparse(|expanded|, points, baseC, PARTITIONS)
    {
      a := expanded;
      c := seq(|expanded|, _ => ZERO);
      var i := 0;
      while i < PARTITIONS
        invariant i <= PARTITIONS && a == PatchedA(expanded, points, baseA, i) && c == Sparse(|expanded|, points, baseC, i)
      {
        var pnt := points[i];
        c := c[pnt := baseC[i]];
        a := a[pnt := Xor(a[pnt], baseA[i])];
        i := i + 1;
      }
    }

    // Both vectors resized to the nearest power of three, and transformed.
    method Compress(fillA: nat -> Block, fillC: nat -> Block)
      requires |a| == |c| > 0
      modifies `a, `c
      ensures a == Compressed(old(a), fillA) && c == Compressed(old(c), fillC)
    {
      hide Spectrum, Resized, Pow3, RoundedLog3;
      var numVar := RoundedLog3(|a|);
      a := Resized(a, Pow3(numVar), fillA);
      c := Resized(c, Pow3(numVar), fillC);
      a := Fft(a, numVar, |a| / 3);
      c := Fft(c, numVar, |c| / 3);
    }

    // The configuration and the base transfers, where they are missing.
    method Prepare(n: nat, draws: seq<nat>, noise: seq<Block>, share: seq<Block>) returns (ok: bool)
      requires Valid() && |draws| == |noise| == |share| == PARTITIONS && (gen.HasBase() ==> Sampled())
      modifies this
      ensures Valid() && (ok ==> configured && Sampled())
      ensures requestSize == if old(configured) then old(requestSize) else n
      ensures Admissible(requestSize) && n <= requestSize ==> ok
      ensures ok ==> n <= requestSize && gen.points == PARTITIONS && gen.domain > 0
      ensures ok && old(gen.HasBase()) ==> points == old(points) && baseA == old(baseA) && baseC == old(baseC)
      ensures ok && !old(gen.HasBase()) ==> points == Points(Drawn(draws, gen.domain), gen.domain) && baseA == share && baseC == noise
      ensures ok && !old(gen.HasBase()) ==> LeavesDrawn(points, draws, gen.domain)
    {
      hide LeavesDrawn, Points, Drawn, Sound, Generator.BaseOtCount, Accepts, Admissible;
      ghost var size := if configured then requestSize else n;
      if Admissible(size) {
        AdmissibleAccepts(size);
      }
      BaseTaken(gen);
      if !configured {
        ok := Configure(n);
        if !ok {
          return false;
        }
      }
      if requestSize < n {
        return false;
      }
      BaseTaken(gen);
      if !gen.HasBase() {
        ok := SampleBaseChoiceBits(draws);
        ok := SampleBaseVoleVals(noise);
        if !ok {
          return false;
        }
        ok := SetSilentBaseOts(gen.BaseOtCount(), share);
        DrawnPoints(draws, gen.domain);
        PointsPlaced(draws, gen.domain);
      }
      ok := true;
    }

    // The request size of the next call.
    ghost function NextSize(n: nat): nat
      reads this
    {
      if configured then requestSize else n
    }

    // What the next call uses: the stored noise and share, or the given ones.
    ghost function NextNoise(draws: seq<nat>, noise: seq<Block>, share: seq<Block>, domain: nat): Planted
      requires domain > 0
      reads this
    {
      if gen.HasBase() then Planted(points, baseA, baseC) else Planted(Points(Drawn(draws, domain), domain), share, noise)
    }

    // silentReceiveInplace: expanded is what the punctured PRF writes to mA.
    method SilentReceiveInplace(n: nat, draws: seq<nat>, noise: seq<Block>, share: seq<Block>, expanded: seq<Block>, fillA: nat -> Block,
                                fillC: nat -> Block)
      returns (ok: bool, ghost fullA: seq<Block>, ghost fullC: seq<Block>)
      requires Valid() && |draws| == |noise| == |share| == PARTITIONS && (gen.HasBase() ==> Sampled())
      requires |expanded| == NextSize(n)
      modifies this
      ensures Valid()
      ensures ok <==> Admissible(|expanded|) && n <= |expanded|
      ensures ok ==> |expanded| / PARTITIONS > 0
      ensures ok ==> var p := old(NextNoise(draws, noise, share, |expanded| / PARTITIONS));
                     Received(expanded, p, fillA, fillC, a, c) && points == p.points
      ensures ok ==> !configured && baseA == baseC == [] && !gen.HasBase()
      ensures ok && !old(gen.HasBase()) ==> LeavesDrawn(points, draws, |expanded| / PARTITIONS)
      ensures ok && !old(gen.HasBase()) ==> NoisePlanted(expanded, draws, noise, share, fillA, fillC, fullA, fullC)
      ensures ok && !old(gen.HasBase()) ==>
        a == Spectrum(RoundedLog3(|expanded|), fullA) && c == Spectrum(RoundedLog3(|expanded|), fullC)
    {
      fullA, fullC := [], [];
      hide LeavesDrawn, NoisePlanted, RoundedLog3;
      hide Spectrum, Resized, Pow3, PatchedA, Sparse, Points, Drawn, Compressed;
      ok := Prepare(n, draws, noise, share);
      if !ok {
        return false, [], [];
      }
      CanExpand(gen, requestSize, noiseVecSize, sizePer);
      if !ExpandAccepts(gen, noiseVecSize) {
        return false, [], [];
      }
      hide Sound, Sized, ExpandAccepts, Accepts;
      gen := gen.(base := 0);
      Patch(expanded);
      Compress(fillA, fillC);
      if !old(gen.HasBase()) {
        fullA, fullC := ReceivedSpelt(expanded, draws, noise, share, fillA, fillC, a, c);
      }
      baseC, baseA := [], [];
      configured := false;
      ok := true;
    }

    // silentReceive: the first n entries of both vectors are copied out, and the vectors
    // cleared.
    method SilentReceive(n: nat, draws: seq<nat>, noise: seq<Block>, share: seq<Block>, expanded: seq<Block>, fillA: nat -> Block,
                         fillC: nat -> Block)
      returns (ok: bool, inside: bool, outA: seq<Block>, outC: seq<Block>, ghost fullA: seq<Block>, ghost fullC: seq<Block>)
      requires Valid() && |draws| == |noise| == |share| == PARTITIONS && (gen.HasBase() ==> Sampled())
      requires |expanded| == NextSize(n)
      modifies this
      ensures Valid()
      ensures ok <==> Admissible(|expanded|) && n <= |expanded|
      ensures ok ==> (inside <==> n <= Pow3(RoundedLog3(|expanded|)))
      ensures ok && inside ==> |expanded| / PARTITIONS > 0
      ensures ok && inside ==> Begins(n, expanded, old(NextNoise(draws, noise, share, |expanded| / PARTITIONS)), fillA, fillC, outA, outC)
      ensures ok && inside && !old(gen.HasBase()) ==>
        NoisePlanted(expanded, draws, noise, share, fillA, fillC, fullA, fullC) && n <= |fullA|
      ensures ok && inside && !old(gen.HasBase()) ==>
        outA == Spectrum(RoundedLog3(|expanded|), fullA)[..n] && outC == Spectrum(RoundedLog3(|expanded|), fullC)[..n]
      ensures ok ==> !configured && points == [] && a == c == baseA == baseC == [] && gen == Generator(0, 0, 0, 0)
    {
      hide Fits, PatchedA, Sparse, Compressed, Pow3, Admissible, NextNoise, Spectrum, LeavesDrawn;
      inside, outA, outC := false, [], [];
      ok, fullA, fullC := SilentReceiveInplace(n, draws, noise, share, expanded, fillA, fillC);
      if ok {
        inside := n <= |a|;
        if inside {
          outA, outC := a[..n], c[..n];
        }
        points, a, c := [], [], [];
        gen := Generator(0, 0, 0, 0);
      }
    }
  }

  // The places of the noise, the share added there and the noise.
  datatype Planted = Planted(points: seq<nat>, share: seq<Block>, noise: seq<Block>)

  ghost predicate Fits(p: Planted, size: nat) {
    && size > 0 && |p.points| == |p.share| == |p.noise| == PARTITIONS
    && forall i {:trigger p.points[i]} :: 0 <= i < |p.points| ==> p.points[i] < size
  }

  // The receiver's output: both vectors patched and compressed.
  ghost predicate Received(expanded: seq<Block>, p: Planted, fillA: nat -> Block, fillC: nat -> Block, a: seq<Block>, c: seq<Block>) {
    && Fits(p, |expanded|) && a == Compressed(PatchedA(expanded, p.points, p.share, PARTITIONS), fillA)
    && c == Compressed(Sparse(|expanded|, p.points, p.noise, PARTITIONS), fillC)
  }

  // ... and its first n entries.
  ghost predicate Begins(n: nat, expanded: seq<Block>, p: Planted, fillA: nat -> Block, fillC: nat -> Block, a: seq<Block>, c: seq<Block>) {
    && Fits(p, |expanded|) && n <= Pow3(RoundedLog3(|expanded|))
    && a == Compressed(PatchedA(expanded, p.points, p.share, PARTITIONS), fillA)[..n]
    && c == Compressed(Sparse(|expanded|, p.points, p.noise, PARTITIONS), fillC)[..n]
  }

  // The vectors the receiver transforms, entry by entry: at the leaf drawn for a tree the noise
  // of the tree, with the tree's share added to what the punctured PRF wrote; zero noise
  // elsewhere; and any content past the expanded vector.
  ghost predicate NoisePlanted(expanded: seq<Block>, draws: seq<nat>, noise: seq<Block>, share: seq<Block>, fillA: nat -> Block,
                               fillC: nat -> Block, fullA: seq<Block>, fullC: seq<Block>) {
    && |expanded| / 64 > 0 && |fullA| == |fullC| == Pow3(RoundedLog3(|expanded|))
    && forall m {:trigger fullA[m]} {:trigger fullC[m]} :: 0 <= m < |fullA| ==>
         NoiseAt(m, |expanded| / 64, expanded, draws, noise, share, fillA, fillC, fullA[m], fullC[m])
  }

  ghost predicate NoiseAt(m: nat, domain: nat, expanded: seq<Block>, draws: seq<nat>, noise: seq<Block>, share: seq<Block>,
                          fillA: nat -> Block, fillC: nat -> Block, x: Block, y: Block)
    requires domain > 0
  {
    if m >= |expanded| then x == fillA(m) && y == fillC(m)
    else
      var tree := 8 * (m / 8 / domain) + m % 8;
      && tree < |draws| == |noise| == |share|
      && if m / 8 % domain == draws[tree] % domain then x == Xor(expanded[m], share[tree]) && y == noise[tree]
         else x == expanded[m] && y == ZERO
  }

  lemma ReceivedSpelt(expanded: seq<Block>, draws: seq<nat>, noise: seq<Block>, share: seq<Block>, fillA: nat -> Block,
                      fillC: nat -> Block, a: seq<Block>, c: seq<Block>) returns (fullA: seq<Block>, fullC: seq<Block>)
    requires |draws| == |noise| == |share| == PARTITIONS && Admissible(|expanded|) && |expanded| / PARTITIONS > 0
    requires var domain := |expanded| / PARTITIONS;
             Received(expanded, Planted(Points(Drawn(draws, domain), domain), share, noise), fillA, fillC, a, c)
    ensures NoisePlanted(expanded, draws, noise, share, fillA, fillC, fullA, fullC)
    ensures a == Spectrum(RoundedLog3(|expanded|), fullA) && c == Spectrum(RoundedLog3(|expanded|), fullC)
  {
    hide PatchedA, Sparse, Points, Drawn, Spectrum, Pow3, RoundedLog3, NoiseAt;
    var domain := |expanded| / PARTITIONS;
    var points, len := Points(Drawn(draws, domain), domain), Pow3(RoundedLog3(|expanded|));
    fullA := Resized(PatchedA(expanded, points, share, PARTITIONS), len, fillA);
    fullC := Resized(Sparse(|expanded|, points, noise, PARTITIONS), len, fillC);
    forall m {:trigger fullA[m]} {:trigger fullC[m]} | 0 <= m < len
      ensures NoiseAt(m, domain, expanded, draws, noise, share, fillA, fillC, fullA[m], fullC[m])
    {
      if m < |expanded| {
        NoisePlace(m, expanded, draws, noise, share, fillA, fillC);
      } else {
        PastEnd(m, domain, expanded, draws, noise, share, fillA, fillC);
      }
    }
  }

  lemma PastEnd(m: nat, domain: nat, expanded: seq<Block>, draws: seq<nat>, noise: seq<Block>, share: seq<Block>,
                fillA: nat -> Block, fillC: nat -> Block)
    requires domain > 0 && m >= |expanded|
    ensures NoiseAt(m, domain, expanded, draws, noise, share, fillA, fillC, fillA(m), fillC(m))
  {
  }

  // A place at a leaf that was not drawn is no point.
  lemma NoPoint(points: seq<nat>, draws: seq<nat>, domain: nat, m: nat)
    requires domain > 0 && LeavesDrawn(points, draws, domain) && 8 * (m / 8 / domain) + m % 8 < |draws|
    requires m / 8 % domain != draws[8 * (m / 8 / domain) + m % 8] % domain
    ensures m !in points
  {
    forall q | 0 <= q < |points|
      ensures points[q] != m
    {
      assert points[q] % 8 == q % 8 && points[q] / 8 / domain == q / 8 && points[q] / 8 % domain == draws[q] % domain;
      assert 8 * (points[q] / 8 / domain) + points[q] % 8 == q;
    }
  }

  // One place of the expanded vector.
  lemma NoisePlace(m: nat, expanded: seq<Block>, draws: seq<nat>, noise: seq<Block>, share: seq<Block>, fillA: nat -> Block,
                   fillC: nat -> Block)
    requires |draws| == |noise| == |share| == PARTITIONS && Admissible(|expanded|) && |expanded| / PARTITIONS > 0 && m < |expanded|
    ensures var domain := |expanded| / PARTITIONS;
            var points := Points(Drawn(draws, domain), domain);
            && |points| == PARTITIONS && (forall i {:trigger points[i]} :: 0 <= i < |points| ==> points[i] < |expanded|)
            && NoiseAt(m, domain, expanded, draws, noise, share, fillA, fillC, PatchedA(expanded, points, share, PARTITIONS)[m],
                       Sparse(|expanded|, points, noise, PARTITIONS)[m])
  {
    hide PatchedA, Sparse, Points, Drawn, AllDistinct, Xor, PointOf;
    var domain := |expanded| / PARTITIONS;
    AdmissibleAccepts(|expanded|);
    var points, tree := Points(Drawn(draws, domain), domain), 8 * (m / 8 / domain) + m % 8;
    DrawnPoints(draws, domain);
    PointsPlaced(draws, domain);
    EveryPlace(m, domain);
    if m / 8 % domain == draws[tree] % domain {
      SamePlace(points[tree], m, domain);
      PatchedAt(expanded, points, share, PARTITIONS, tree);
      SparseAt(|expanded|, points, noise, PARTITIONS, tree);
    } else {
      NoPoint(points, draws, domain, m);
      PatchedOff(expanded, points, share, PARTITIONS, m);
      SparseOff(|expanded|, points, noise, PARTITIONS, m);
    }
  }

  lemma SamePlace(x: nat, y: nat, domain: nat)
    requires domain > 0 && x % 8 == y % 8 && x / 8 / domain == y / 8 / domain && x / 8 % domain == y / 8 % domain
    ensures x == y
  {
    assert x / 8 == (x / 8 / domain) * domain + x / 8 % domain;
    assert y / 8 == (y / 8 / domain) * domain + y / 8 % domain;
  }

  lemma DrawnPoints(draws: seq<nat>, domain: nat)
    requires |draws| == PARTITIONS && domain > 0
    ensures |Points(Drawn(draws, domain), domain)| == PARTITIONS && AllDistinct(Points(Drawn(draws, domain), domain))
    ensures forall i {:trigger Points(Drawn(draws, domain), domain)[i]} :: 0 <= i < PARTITIONS ==>
      Points(Drawn(draws, domain), domain)[i] < domain * PARTITIONS
  {
    PointsDistinct(Drawn(draws, domain), domain);
  }

  // ---------- the planted correlation ----------

  lemma {:induction false} PatchedAt(a: seq<Block>, points: seq<nat>, baseA: seq<Block>, n: nat, q: nat)
    requires n <= |points| && n <= |baseA| && (forall i {:trigger points[i]} :: 0 <= i < |points| ==> points[i] < |a|)
    requires AllDistinct(points) && q < |points|
    ensures PatchedA(a, points, baseA, n)[points[q]] == if q < n then Xor(a[points[q]], baseA[q]) else a[points[q]]
  {
    hide Xor;
    if n > 0 {
      PatchedAt(a, points, baseA, n - 1, q);
      assert q != n - 1 ==> points[q] != points[n - 1];
    }
  }

  lemma {:induction false} PatchedOff(a: seq<Block>, points: seq<nat>, baseA: seq<Block>, n: nat, j: nat)
    requires n <= |points| && n <= |baseA| && forall i {:trigger points[i]} :: 0 <= i < |points| ==> points[i] < |a|
    requires j < |a| && j !in points
    ensures PatchedA(a, points, baseA, n)[j] == a[j]
  {
    hide Xor;
    if n > 0 {
      PatchedOff(a, points, baseA, n - 1, j);
      assert points[n - 1] in points;
    }
  }

  // The base correlation: a = b + c * times, of which the sender stored -b.
  ghost predicate BaseCorrelated(baseA: seq<Block>, stored: seq<Block>, baseC: seq<Block>, times: Block -> Block) {
    && |baseA| == |stored| == |baseC|
    && forall i {:trigger baseA[i]} :: 0 <= i < |baseA| ==> Xor(baseA[i], stored[i]) == times(baseC[i])
  }

  // After patching, the correlation holds on the whole vector.
  lemma PatchedCorrelated(outA: seq<Block>, outB: seq<Block>, points: seq<nat>, baseA: seq<Block>, stored: seq<Block>, baseC: seq<Block>,
                          times: Block -> Block)
    requires Programmed(outA, outB, points, stored) && AllDistinct(points) && BaseCorrelated(baseA, stored, baseC, times)
    requires times(ZERO) == ZERO
    ensures Correlated(PatchedA(outA, points, baseA, |points|), outB, Sparse(|outA|, points, baseC, |points|), times)
  {
    hide Xor, PatchedA, Sparse, AllDistinct;
    var a, c := PatchedA(outA, points, baseA, |points|), Sparse(|outA|, points, baseC, |points|);
    forall j {:trigger a[j]} {:trigger outB[j]} {:trigger c[j]} | 0 <= j < |outA|
      ensures a[j] == Xor(outB[j], times(c[j]))
    {
      if j in points {
        var q :| 0 <= q < |points| && points[q] == j;
        PatchedAt(outA, points, baseA, |points|, q);
        SparseAt(|outA|, points, baseC, |points|, q);
        XorAssoc(outB[j], stored[q], baseA[q]);
        XorComm(stored[q], baseA[q]);
      } else {
        PatchedOff(outA, points, baseA, |points|, j);
        SparseOff(|outA|, points, baseC, |points|, j);
        XorZero(outB[j]);
      }
    }
  }
}

/**
 The interactive ternary distributed point function of TernaryDpf.h.  A party is an
 object; the segments of its coroutine between two messages are methods, and the exchange
 of messages is done by the methods of TernaryProtocol and TernaryExpand.
 */
module TernaryDpf {
  import opened Blocks
  import opened Radix3
  import opened Trits
  import opened DpfRows
  import opened ObliviousTransfer
  import opened TernaryCorrection

  // The primitives the protocol is built on: three fixed-key hashes for the children, the
  // fixed-key hash of expand3, and the AES round function.
  datatype Crypto = Crypto(aes: (nat, Block) -> Block, fixedKey: Block -> Block, roundFn: (Block, Block) -> Block)

  function Expand3(crypto: Crypto, k: Block): Triple {
    [crypto.fixedKey(k),
     crypto.fixedKey(Xor(k, BlockOf(3450136502437610243, 6108362938092146510))),
     crypto.fixedKey(Xor(k, BlockOf(3428970074314387014, 2030711220607601239)))]
  }

  function Expander(crypto: Crypto): Block -> Triple {
    k => Expand3(crypto, k)
  }

  // The keys of the three table entries, whose bits are 00, 10 and 01; each is hashed for the
  // three children, and the shift r is added to entry j at child j + a.
  ghost predicate TableSpelt(crypto: Crypto, p: SendOt, q: SendOt, correction: (bool, bool), a: nat, r: Block, mask: Triple, t1: Triple,
                             t2: Triple) {
    var k0 := Xor(if correction.0 then p.one else p.zero, if correction.1 then q.one else q.zero);
    var k1 := Xor(if correction.0 then p.zero else p.one, if correction.1 then q.one else q.zero);
    var k2 := Xor(if correction.0 then p.one else p.zero, if correction.1 then q.zero else q.one);
    forall c {:trigger mask[c]} {:trigger t1[c]} {:trigger t2[c]} :: 0 <= c < 3 ==>
      var x := if c == 0 then ZERO else if c == 1 then BlockOf(3450136502437610243, 6108362938092146510)
               else BlockOf(3428970074314387014, 2030711220607601239);
      var m, e1, e2 := crypto.fixedKey(Xor(k0, x)), crypto.fixedKey(Xor(k1, x)), crypto.fixedKey(Xor(k2, x));
      && mask[c] == (if c == a then Xor(m, r) else m)
      && t1[c] == (if c == (1 + a) % 3 then Xor(Xor(e1, mask[c]), r) else Xor(e1, mask[c]))
      && t2[c] == (if c == (2 + a) % 3 then Xor(Xor(e2, mask[c]), r) else Xor(e2, mask[c]))
  }

  lemma TableIsSpelt(crypto: Crypto, p: SendOt, q: SendOt, correction: (bool, bool), a: nat, r: Block)
    requires a < 3
    ensures var mask := XorAt(Expand3(crypto, TableKey(p, q, correction, 0)), a, r);
            TableSpelt(crypto, p, q, correction, a, r, mask,
                       XorAt(XorTriple(Expand3(crypto, TableKey(p, q, correction, 1)), mask), (1 + a) % 3, r),
                       XorAt(XorTriple(Expand3(crypto, TableKey(p, q, correction, 2)), mask), (2 + a) % 3, r))
  {
    hide Xor, BlockOf;
    XorZero(TableKey(p, q, correction, 0));
    XorZero(TableKey(p, q, correction, 1));
    XorZero(TableKey(p, q, correction, 2));
  }

  method Log3Ceil(x: nat) returns (i: nat)
    ensures x <= Pow3(i) && (i > 0 ==> Pow3(i - 1) < x)
  {
    if x == 0 {
      return 0;
    }
    i := 0;
    var v := 1;
    while v < x
      invariant v == Pow3(i) && (i > 0 ==> Pow3(i - 1) < x)
      decreases x - v
    {
      v := v * 3;
      i := i + 1;
    }
  }

  // The transfers used by the given number of levels.
  function OtsFor(levels: nat, n: nat): nat {
    if levels == 0 then 0 else OtsFor(levels - 1, n) + 2 * n
  }

  lemma {:induction false} OtsForIsProduct(levels: nat, n: nat)
    ensures OtsFor(levels, n) == levels * n * 2
  {
    if levels > 0 {
      OtsForIsProduct(levels - 1, n);
      assert levels * n == (levels - 1) * n + n;
    }
  }

  // count consecutive transfers
  function Run(from: nat, count: nat): (r: seq<nat>)
    ensures |r| == count
  {
    seq(count, q requires 0 <= q < count => from + q)
  }

  lemma RunGrows(from: nat, count: nat)
    ensures Run(from, count) + [from + count] + [from + count + 1] == Run(from, count + 2)
  {
  }

  lemma RunJoins(log: seq<nat>, from: nat, x: nat, y: nat)
    ensures (log + Run(from, x)) + Run(from + x, y) == log + Run(from, x + y)
  {
  }

  // Three rows of n blocks.
  ghost predicate Rows3(n: nat, m: seq<Row>) {
    |m| == 3 && AllRows(n, m)
  }

  // Entry i of the three rows.
  function Triple3(m: seq<Row>, i: nat): Triple
    requires |m| == 3
  {
    [Cell(m[0], i), Cell(m[1], i), Cell(m[2], i)]
  }

  // Entries 2i and 2i + 1 of a buffer.
  function PairAt(buffer: seq<Triple>, i: nat): (p: seq<Triple>)
    requires 2 * i + 1 < |buffer|
    ensures |p| == 2
  {
    [buffer[2 * i], buffer[2 * i + 1]]
  }

  lemma PairsGrow(buffer: seq<Triple>, x: Triple, y: Triple, n: nat)
    requires |buffer| == 2 * n
    ensures forall i {:trigger PairAt(buffer, i)} {:trigger PairAt(buffer + [x, y], i)} :: 0 <= i < n ==>
      PairAt(buffer + [x, y], i) == PairAt(buffer, i)
    ensures PairAt(buffer + [x, y], n) == [x, y]
  {
    var after := buffer + [x, y];
    forall i | 0 <= i < n
      ensures PairAt(after, i) == PairAt(buffer, i)
    {
      assert after[2 * i] == buffer[2 * i] && after[2 * i + 1] == buffer[2 * i + 1];
    }
    assert after[2 * n] == x && after[2 * n + 1] == y;
  }

  lemma RowsGrow(m: seq<Row>, s: Triple, n: nat)
    requires Rows3(n, m)
    ensures var after := [m[0] + [s[0]], m[1] + [s[1]], m[2] + [s[2]]];
            && Rows3(n + 1, after) && Triple3(after, n) == s
            && forall i {:trigger Triple3(after, i)} :: 0 <= i < n ==> Triple3(after, i) == Triple3(m, i)
  {
    assert |m[0]| == |m[1]| == |m[2]| == n;
  }

  class TernaryDpf {
    var partyIdx: nat
    var domain: nat
    var depth: nat
    var numPoints: nat
    var otIdx: nat
    var sendOts: seq<SendOt>
    var recvOts: seq<Block>
    var choices: seq<bool>
    // The transfers used so far, in order: messages sent under, choice bits revealed in
    // masked form, and messages received under.
    ghost var sent: seq<nat>
    ghost var masked: seq<nat>
    ghost var received: seq<nat>

    constructor ()
      ensures partyIdx == domain == depth == numPoints == otIdx == 0 && sendOts == [] && recvOts == [] && choices == []
      ensures sent == masked == received == []
    {
      partyIdx, domain, depth, numPoints, otIdx := 0, 0, 0, 0, 0;
      sendOts, recvOts, choices := [], [], [];
      sent, masked, received := [], [], [];
    }

    // The result tells whether the call returns normally.
    method Init(partyIdx: nat, domain: nat, numPoints: nat) returns (ok: bool)
      modifies this
      ensures ok <==> partyIdx <= 1 && domain > 0 && numPoints > 0
      ensures ok ==> this.partyIdx == partyIdx && this.domain == domain && this.numPoints == numPoints && otIdx == 0
      ensures ok ==> domain <= Pow3(depth) && (depth > 0 ==> Pow3(depth - 1) < domain)
      ensures !ok ==> unchanged(this)
      ensures unchanged(`sendOts) && unchanged(`recvOts) && unchanged(`choices) && unchanged(`sent) && unchanged(`masked)
      ensures unchanged(`received)
    {
      if partyIdx > 1 || domain == 0 || numPoints == 0 {
        return false;
      }
      depth := Log3Ceil(domain);
      this.partyIdx := partyIdx;
      this.domain := domain;
      this.numPoints := numPoints;
      otIdx := 0;
      ok := true;
    }

    method BaseOtCount() returns (count: nat)
      ensures count == depth * numPoints * 2
    {
      count := depth * numPoints * 2;
    }

    method SetBaseOts(baseSendOts: seq<SendOt>, baseRecvOts: seq<Block>, baseChoices: seq<bool>) returns (ok: bool)
      modifies `sendOts, `recvOts, `choices
      ensures ok <==> |baseSendOts| == |baseRecvOts| == |baseChoices| == depth * numPoints * 2
      ensures ok ==> sendOts == baseSendOts && recvOts == baseRecvOts && choices == baseChoices
      ensures !ok ==> unchanged(this)
    {
      var count := BaseOtCount();
      if |baseSendOts| != count || |baseRecvOts| != count || |baseChoices| != count {
        return false;
      }
      sendOts, recvOts, choices := [], [], [];
      var i := 0;
      while i < count
        invariant i <= count && sendOts == baseSendOts[..i] && recvOts == baseRecvOts[..i] && choices == baseChoices[..i]
      {
        sendOts := sendOts + [baseSendOts[i]];
        recvOts := recvOts + [baseRecvOts[i]];
        choices := choices + [baseChoices[i]];
        i := i + 1;
      }
      ok := true;
    }

    // What one level needs: the trits of that level and 2 numPoints more transfers.
    ghost predicate Usable(points: seq<F3x32>, iter: nat)
      reads `partyIdx, `numPoints, `depth, `otIdx, `sendOts, `recvOts, `choices
    {
      && partyIdx <= 1 && |points| == numPoints && 1 <= iter <= depth <= 32
      && (forall i {:trigger points[i]} :: 0 <= i < numPoints ==> points[i][depth - iter] < 3)
      && otIdx + 2 * numPoints <= |sendOts| && |sendOts| == |recvOts| == |choices|
    }

    // The view of tree i; its random shift is drawn at position at + i with the party
    // index as low bit.
    ghost function ViewAt(points: seq<F3x32>, iter: nat, rand: nat -> Block, at: nat, i: nat): (v: View)
      requires Usable(points, iter) && i < numPoints
      reads `partyIdx, `numPoints, `depth, `otIdx, `sendOts, `recvOts, `choices
      ensures v.a == points[i][depth - iter] < 3 && Lsb(v.r) == (partyIdx == 1)
    {
      var o := otIdx + i * 2;
      assert points[i][depth - iter] < 3;
      View(sendOts[o], sendOts[o + 1], RecvOt(choices[o], recvOts[o]), RecvOt(choices[o + 1], recvOts[o + 1]),
           points[i][depth - iter], SetLsb(rand(at + i), partyIdx == 1))
    }

    // Every use of a transfer goes through one of these.
    method SendPair(o: nat) returns (pair: SendOt)
      requires o < |sendOts|
      modifies `sent
      ensures pair == sendOts[o] && sent == old(sent) + [o]
    {
      pair := sendOts[o];
      sent := sent + [o];
    }

    method MaskChoice(o: nat, bit: bool) returns (c: bool)
      requires o < |choices|
      modifies `masked
      ensures c == (bit != choices[o]) && masked == old(masked) + [o]
    {
      c := bit != choices[o];
      masked := masked + [o];
    }

    method RecvMessage(o: nat) returns (m: Block)
      requires o < |recvOts|
      modifies `received
      ensures m == recvOts[o] && received == old(received) + [o]
    {
      m := recvOts[o];
      received := received + [o];
    }

    // recver, first message; bits 2i and 2i + 1 of the bit vector are entry i.
    method Corrections(points: seq<F3x32>, iter: nat, ghost rand: nat -> Block, ghost at: nat) returns (correction: seq<(bool, bool)>)
      requires Usable(points, iter)
      modifies `masked
      ensures |correction| == numPoints && masked == old(masked) + Run(otIdx, 2 * numPoints)
      ensures forall i {:trigger correction[i]} :: 0 <= i < numPoints ==>
        var v := ViewAt(points, iter, rand, at, i); correction[i] == Correction(v.a, v.r0, v.r1)
    {
      correction := [];
      var i := 0;
      while i < numPoints
        invariant i <= numPoints && |correction| == i && masked == old(masked) + Run(otIdx, 2 * i)
        invariant forall q {:trigger correction[q]} :: 0 <= q < i ==>
          var v := ViewAt(points, iter, rand, at, q); correction[q] == Correction(v.a, v.r0, v.r1)
      {
        var a := points[i][depth - iter];
        var c0 := MaskChoice(otIdx + i * 2, Bit0(a));
        var c1 := MaskChoice(otIdx + i * 2 + 1, Bit1(a));
        RunGrows(otIdx, 2 * i);
        correction := correction + [(c0, c1)];
        i := i + 1;
      }
    }

    // sender; the send buffer holds entries 2i and 2i + 1 for tree i.
    method Sender(crypto: Crypto, points: seq<F3x32>, iter: nat, correction: seq<(bool, bool)>, rand: nat -> Block, at: nat)
      returns (mask: seq<Triple>, table: seq<Triple>)
      requires Usable(points, iter) && |correction| == numPoints
      modifies `sent
      ensures |mask| == numPoints && |table| == 2 * numPoints && sent == old(sent) + Run(otIdx, 2 * numPoints)
      ensures forall i {:trigger mask[i]} :: 0 <= i < numPoints ==>
        var v := ViewAt(points, iter, rand, at, i);
        mask[i] == MaskOf(Expander(crypto), v, correction[i])
      ensures forall i {:trigger PairAt(table, i)} :: 0 <= i < numPoints ==>
        var v := ViewAt(points, iter, rand, at, i);
        PairAt(table, i) == TableOf(Expander(crypto), v, correction[i])
    {
      hide Expander, MaskOf, TableOf, PairAt, TableSpelt;
      mask, table := [], [];
      var i := 0;
      while i < numPoints
        invariant i <= numPoints && |mask| == i && |table| == 2 * i && sent == old(sent) + Run(otIdx, 2 * i)
        invariant forall q {:trigger mask[q]} :: 0 <= q < i ==>
          var v := ViewAt(points, iter, rand, at, q);
          mask[q] == MaskOf(Expander(crypto), v, correction[q])
        invariant forall q {:trigger PairAt(table, q)} :: 0 <= q < i ==>
          var v := ViewAt(points, iter, rand, at, q);
          PairAt(table, q) == TableOf(Expander(crypto), v, correction[q])
      {
        var m, t1, t2 := SendTree(crypto, points, iter, correction[i], rand, at, i);
        RunGrows(otIdx, 2 * i);
        PairsGrow(table, t1, t2, i);
        mask := mask + [m];
        table := table + [t1, t2];
        i := i + 1;
      }
    }

    // The sender's work for tree i.
    method SendTree(crypto: Crypto, points: seq<F3x32>, iter: nat, correction: (bool, bool), rand: nat -> Block, at: nat, i: nat)
      returns (mask: Triple, t1: Triple, t2: Triple)
      requires Usable(points, iter) && i < numPoints
      modifies `sent
      ensures sent == old(sent) + [otIdx + i * 2] + [otIdx + i * 2 + 1]
      ensures var v := ViewAt(points, iter, rand, at, i);
              && mask == MaskOf(Expander(crypto), v, correction)
              && [t1, t2] == TableOf(Expander(crypto), v, correction)
      ensures TableSpelt(crypto, sendOts[otIdx + i * 2], sendOts[otIdx + i * 2 + 1], correction, points[i][depth - iter],
                         SetLsb(rand(at + i), partyIdx == 1), mask, t1, t2)
    {
      hide TableSpelt;
      var keys0 := SendPair(otIdx + i * 2);
      var keys1 := SendPair(otIdx + i * 2 + 1);
      var k: seq<Block> := [];
      var j := 0;
      while j < 3
        invariant j <= 3 && |k| == j
        invariant forall q {:trigger k[q]} :: 0 <= q < j ==> k[q] == TableKey(keys0, keys1, correction, q)
      {
        var b0, b1 := Bit0(j) != correction.0, Bit1(j) != correction.1;
        k := k + [Xor(Pick(keys0, b0), Pick(keys1, b1))];
        j := j + 1;
      }
      var r := SetLsb(rand(at + i), partyIdx == 1);
      var a := points[i][depth - iter];
      mask := XorAt(Expand3(crypto, k[0]), a, r);
      t1 := XorAt(XorTriple(Expand3(crypto, k[1]), mask), (1 + a) % 3, r);
      t2 := XorAt(XorTriple(Expand3(crypto, k[2]), mask), (2 + a) % 3, r);
      TableIsSpelt(crypto, keys0, keys1, correction, a, r);
    }

    // The share of sigma from the received table.
    method ShareSigma(crypto: Crypto, points: seq<F3x32>, iter: nat, mask: seq<Triple>, recvBuffer: seq<Triple>, z: seq<Row>,
                      ghost rand: nat -> Block, ghost at: nat) returns (sigma: seq<Row>)
      requires Usable(points, iter) && |mask| == numPoints && |recvBuffer| == 2 * numPoints && Rows3(numPoints, z)
      modifies `received
      ensures Rows3(numPoints, sigma) && received == old(received) + Run(otIdx, 2 * numPoints)
      ensures forall i {:trigger Triple3(sigma, i)} :: 0 <= i < numPoints ==>
        var v := ViewAt(points, iter, rand, at, i);
        Triple3(sigma, i) == SigmaShare(Expander(crypto), Xor(v.r0.message, v.r1.message), mask[i], Triple3(z, i), v.a,
                                        PairAt(recvBuffer, i))
    {
      hide Expander, SigmaShare, Triple3, PairAt, Xor;
      sigma := [[], [], []];
      var i := 0;
      while i < numPoints
        invariant i <= numPoints && Rows3(i, sigma) && received == old(received) + Run(otIdx, 2 * i)
        invariant forall q {:trigger Triple3(sigma, q)} :: 0 <= q < i ==>
          var v := ViewAt(points, iter, rand, at, q);
          Triple3(sigma, q) == SigmaShare(Expander(crypto), Xor(v.r0.message, v.r1.message), mask[q], Triple3(z, q), v.a,
                                          PairAt(recvBuffer, q))
      {
        var s := ShareTree(crypto, points, iter, mask[i], recvBuffer, z, rand, at, i);
        RunGrows(otIdx, 2 * i);
        RowsGrow(sigma, s, i);
        sigma := [sigma[0] + [s[0]], sigma[1] + [s[1]], sigma[2] + [s[2]]];
        i := i + 1;
      }
    }

    method ShareTree(crypto: Crypto, points: seq<F3x32>, iter: nat, mask: Triple, recvBuffer: seq<Triple>, z: seq<Row>,
                     ghost rand: nat -> Block, ghost at: nat, i: nat) returns (s: Triple)
      requires Usable(points, iter) && i < numPoints && |recvBuffer| == 2 * numPoints && Rows3(numPoints, z)
      modifies `received
      ensures received == old(received) + [otIdx + i * 2] + [otIdx + i * 2 + 1]
      ensures var v := ViewAt(points, iter, rand, at, i);
              s == SigmaShare(Expander(crypto), Xor(v.r0.message, v.r1.message), mask, Triple3(z, i), v.a, PairAt(recvBuffer, i))
    {
      hide Expand3, Xor, XorTriple;
      var a := points[i][depth - iter];
      var m0 := RecvMessage(otIdx + i * 2);
      var m1 := RecvMessage(otIdx + i * 2 + 1);
      var k := Xor(m0, m1);
      s := XorTriple(XorTriple(Expand3(crypto, k), mask), [z[0][i], z[1][i], z[2][i]]);
      if a != 0 {
        s := XorTriple(s, recvBuffer[i * 2 + a - 1]);
      }
    }

    // sigma after the other party's share has been added; the transfers are spent.
    method Reveal(sigma: seq<Row>, shares: seq<Row>) returns (sigma': seq<Row>)
      requires Rows3(numPoints, sigma) && Rows3(numPoints, shares)
      modifies `otIdx
      ensures Rows3(numPoints, sigma') && otIdx == old(otIdx) + numPoints * 2
      ensures forall i {:trigger Triple3(sigma', i)} :: 0 <= i < numPoints ==>
        Triple3(sigma', i) == XorTriple(Triple3(sigma, i), Triple3(shares, i))
    {
      sigma' := sigma;
      var c := 0;
      while c < 3
        invariant c <= 3 && Rows3(numPoints, sigma')
        invariant forall d, i {:trigger sigma'[d][i]} :: 0 <= d < 3 && 0 <= i < numPoints ==>
          sigma'[d][i] == if d < c then Xor(sigma[d][i], shares[d][i]) else sigma[d][i]
      {
        sigma' := sigma'[c := RowAdd(numPoints, sigma'[c], shares[c])];
        c := c + 1;
      }
      otIdx := otIdx + numPoints * 2;
    }
  }

  // The given number of further transfers has been used, each once and in order, for
  // sending, masking and receiving alike.
  twostate predicate Used(d: TernaryDpf, from: nat, count: nat)
    reads d`sent, d`masked, d`received
  {
    && d.sent == old(d.sent) + Run(from, count)
    && d.masked == old(d.masked) + Run(from, count)
    && d.received == old(d.received) + Run(from, count)
  }
}

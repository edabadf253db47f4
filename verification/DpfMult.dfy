/**
 DpfMult.h: multiplication of a shared bit by a shared block.  Two transfers in opposite
 directions are turned into a Beaver triple, which is used once.
 */
module DpfMult {
  import opened Blocks
  import opened ObliviousTransfer

  // What one multiplication uses of a party's transfers, and the shares of the triple
  // [a] [b] = [c] made of them.
  datatype Triple = Triple(a: bool, b: Block, c: Block)

  function TripleOf(send: SendOt, choice: bool, received: Block): Triple {
    var b := Xor(send.zero, send.one);
    Triple(choice, b, Xor(Xor(received, send.zero), And(b, Saturate(choice))))
  }

  // A party's message for one multiplication.
  datatype Opening = Opening(theta: Block, phi: bool)

  function OpeningOf(t: Triple, x: bool, y: Block): Opening {
    Opening(Xor(y, t.b), x != t.a)
  }

  // A party's share of the product, after both openings.
  function ProductShare(party: bool, t: Triple, mine: Opening, yours: Opening): Block {
    var theta, phi := Xor(mine.theta, yours.theta), Saturate(mine.phi != yours.phi);
    var xy := Xor(Xor(t.c, And(theta, Saturate(t.a))), And(phi, t.b));
    if party then Xor(xy, And(theta, phi)) else xy
  }

  lemma TripleMultiplies(send0: SendOt, choice0: bool, received0: Block, send1: SendOt, choice1: bool, received1: Block)
    requires received0 == Pick(send1, choice0) && received1 == Pick(send0, choice1)
    ensures var t0, t1 := TripleOf(send0, choice0, received0), TripleOf(send1, choice1, received1);
            Xor(t0.c, t1.c) == Mask(Xor(t0.b, t1.b), t0.a != t1.a)
  {
    var t0, t1 := TripleOf(send0, choice0, received0), TripleOf(send1, choice1, received1);
    assert Xor(t0.c, t1.c).bits == Mask(Xor(t0.b, t1.b), t0.a != t1.a).bits;
  }

  lemma SharesMultiply(t0: Triple, t1: Triple, x0: bool, x1: bool, y0: Block, y1: Block)
    requires Xor(t0.c, t1.c) == Mask(Xor(t0.b, t1.b), t0.a != t1.a)
    ensures var o0, o1 := OpeningOf(t0, x0, y0), OpeningOf(t1, x1, y1);
            Xor(ProductShare(false, t0, o0, o1), ProductShare(true, t1, o1, o0)) == Mask(Xor(y0, y1), x0 != x1)
  {
    var o0, o1 := OpeningOf(t0, x0, y0), OpeningOf(t1, x1, y1);
    var xy := Xor(ProductShare(false, t0, o0, o1), ProductShare(true, t1, o1, o0));
    var c := Xor(t0.c, t1.c);
    forall i | 0 <= i < 128
      ensures xy.bits[i] == Mask(Xor(y0, y1), x0 != x1).bits[i]
    {
      assert c.bits[i] == (t0.c.bits[i] != t1.c.bits[i]);
    }
    assert xy.bits == Mask(Xor(y0, y1), x0 != x1).bits;
  }

  // The multiplications used by the given number of levels.
  function MultsFor(levels: nat, n: nat): nat {
    if levels == 0 then 0 else MultsFor(levels - 1, n) + n
  }

  lemma {:induction false} MultsForIsProduct(levels: nat, n: nat)
    ensures MultsFor(levels, n) == n * levels
  {
    if levels > 0 {
      MultsForIsProduct(levels - 1, n);
      assert n * levels == n * (levels - 1) + n;
    }
  }

  lemma {:induction false} MultsForGrows(levels: nat, more: nat, n: nat)
    requires levels <= more
    ensures MultsFor(levels, n) <= MultsFor(more, n)
  {
    if levels < more {
      MultsForGrows(levels, more - 1, n);
    }
  }

  lemma MultsZero(n: nat)
    ensures MultsFor(0, n) == 0
  {
  }

  lemma MultsNext(levels: nat, n: nat)
    requires levels > 0
    ensures MultsFor(levels, n) == MultsFor(levels - 1, n) + n
  {
  }

  class DpfMult {
    var partyIdx: nat
    var totalMults: nat
    var otIdx: nat
    var choiceBits: seq<bool>
    var recvOts: seq<Block>
    var sendOts: seq<SendOt>

    constructor ()
      ensures partyIdx == totalMults == otIdx == 0 && choiceBits == [] && recvOts == [] && sendOts == []
    {
      partyIdx, totalMults, otIdx := 0, 0, 0;
      choiceBits, recvOts, sendOts := [], [], [];
    }

    // The result tells whether the call returns normally; the same for the other methods.
    method Init(partyIdx: nat, n: nat) returns (ok: bool)
      modifies this
      ensures ok <==> partyIdx <= 1
      ensures ok ==> this.partyIdx == partyIdx && totalMults == n && otIdx == 0 && sendOts == [] && recvOts == [] && choiceBits == []
      ensures !ok ==> unchanged(this)
    {
      if partyIdx > 1 {
        return false;
      }
      this.partyIdx := partyIdx;
      totalMults := n;
      otIdx := 0;
      sendOts, recvOts, choiceBits := [], [], [];
      ok := true;
    }

    method SetBaseOts(baseSendOts: seq<SendOt>, baseRecvOts: seq<Block>, baseChoices: seq<bool>) returns (ok: bool)
      modifies this
      ensures ok <==> |baseSendOts| == |baseRecvOts| == |baseChoices| == totalMults
      ensures ok ==> sendOts == baseSendOts && recvOts == baseRecvOts && choiceBits == baseChoices && otIdx == 0
      ensures !ok ==> unchanged(this)
      ensures unchanged(`partyIdx) && unchanged(`totalMults)
    {
      if |baseSendOts| != totalMults || |baseRecvOts| != totalMults || |baseChoices| != totalMults {
        return false;
      }
      sendOts, recvOts, choiceBits := baseSendOts, baseRecvOts, baseChoices;
      otIdx := 0;
      ok := true;
    }

    ghost predicate Valid()
      reads this
    {
      partyIdx <= 1 && (|choiceBits| == 0 || |choiceBits| == |recvOts| == |sendOts| == totalMults)
    }

    // The checks at the start of multiply, for outputs of the size of the inputs.
    predicate Accepts(n: nat, m: nat)
      reads this
    {
      n == m && n + otIdx <= totalMults && |choiceBits| > 0
    }

    // The triple used by product j of the next call.
    ghost function TripleAt(j: nat): Triple
      requires Valid() && |choiceBits| > 0 && otIdx + j < totalMults
      reads this
    {
      TripleOf(sendOts[otIdx + j], choiceBits[otIdx + j], recvOts[otIdx + j])
    }

    // multiply up to the message.
    method Open(x: seq<bool>, y: seq<Block>) returns (a: seq<bool>, b: seq<Block>, c: seq<Block>, theta: seq<Block>, phi: seq<bool>)
      requires Valid() && Accepts(|x|, |y|)
      ensures |a| == |b| == |c| == |theta| == |phi| == |x|
      ensures forall j {:trigger c[j]} :: 0 <= j < |x| ==> Triple(a[j], b[j], c[j]) == TripleAt(j)
      ensures forall j {:trigger theta[j]} {:trigger phi[j]} :: 0 <= j < |x| ==>
        Opening(theta[j], phi[j]) == OpeningOf(TripleAt(j), x[j], y[j])
    {
      hide Xor, And, Saturate;
      a, b, c, theta, phi := [], [], [], [], [];
      var j := 0;
      while j < |x|
        invariant j <= |x| && |a| == |b| == |c| == |theta| == |phi| == j
        invariant forall q {:trigger c[q]} :: 0 <= q < j ==> Triple(a[q], b[q], c[q]) == TripleAt(q)
        invariant forall q {:trigger theta[q]} {:trigger phi[q]} :: 0 <= q < j ==>
          Opening(theta[q], phi[q]) == OpeningOf(TripleAt(q), x[q], y[q])
      {
        var choice, received, send := choiceBits[otIdx + j], recvOts[otIdx + j], sendOts[otIdx + j];
        var b1 := Xor(send.zero, send.one);
        a, b := a + [choice], b + [b1];
        c := c + [Xor(Xor(received, send.zero), And(b1, Saturate(choice)))];
        theta, phi := theta + [Xor(y[j], b1)], phi + [x[j] != choice];
        j := j + 1;
      }
    }

    // multiply after the exchange.
    method Close(a: seq<bool>, b: seq<Block>, c: seq<Block>, theta: seq<Block>, phi: seq<bool>, theta': seq<Block>, phi': seq<bool>)
      returns (xy: seq<Block>)
      requires |a| == |b| == |c| == |theta| == |phi| == |theta'| == |phi'|
      modifies `otIdx
      ensures |xy| == |a| && otIdx == old(otIdx) + |a|
      ensures forall j {:trigger xy[j]} :: 0 <= j < |a| ==>
        xy[j] == ProductShare(partyIdx != 0, Triple(a[j], b[j], c[j]), Opening(theta[j], phi[j]), Opening(theta'[j], phi'[j]))
    {
      hide Xor, And, Saturate;
      xy := [];
      var j := 0;
      while j < |a|
        invariant j <= |a| && |xy| == j
        invariant forall q {:trigger xy[q]} :: 0 <= q < j ==>
          xy[q] == ProductShare(partyIdx != 0, Triple(a[q], b[q], c[q]), Opening(theta[q], phi[q]), Opening(theta'[q], phi'[q]))
      {
        var phiJ, thetaJ := Saturate(phi[j] != phi'[j]), Xor(theta[j], theta'[j]);
        var p := Xor(Xor(c[j], And(thetaJ, Saturate(a[j]))), And(phiJ, b[j]));
        if partyIdx != 0 {
          p := Xor(p, And(thetaJ, phiJ));
        }
        xy := xy + [p];
        j := j + 1;
      }
      otIdx := otIdx + |a|;
    }
  }

  // Both parties with correlated transfers at the same position.
  ghost predicate MultsPaired(m0: DpfMult, m1: DpfMult)
    reads m0, m1
  {
    && m0 != m1 && m0.Valid() && m1.Valid() && m0.partyIdx == 0 && m1.partyIdx == 1
    && m0.totalMults == m1.totalMults && m0.otIdx == m1.otIdx && |m0.choiceBits| == |m1.choiceBits|
    && (forall i {:trigger m0.recvOts[i]} :: 0 <= i < |m0.choiceBits| ==> m0.recvOts[i] == Pick(m1.sendOts[i], m0.choiceBits[i]))
    && (forall i {:trigger m1.recvOts[i]} :: 0 <= i < |m1.choiceBits| ==> m1.recvOts[i] == Pick(m0.sendOts[i], m1.choiceBits[i]))
  }

  lemma TriplesPaired(m0: DpfMult, m1: DpfMult, j: nat)
    requires MultsPaired(m0, m1) && |m0.choiceBits| > 0 && m0.otIdx + j < m0.totalMults
    ensures var t0, t1 := m0.TripleAt(j), m1.TripleAt(j);
            Xor(t0.c, t1.c) == Mask(Xor(t0.b, t1.b), t0.a != t1.a)
  {
    hide Xor, Mask, TripleOf, Pick;
    var o := m0.otIdx + j;
    TripleMultiplies(m0.sendOts[o], m0.choiceBits[o], m0.recvOts[o], m1.sendOts[o], m1.choiceBits[o], m1.recvOts[o]);
  }

  // Both shares of one product, from the two transfers it uses up: the local terms, the opened
  // differences times the own choice and the own block, and for party 1 the opened product.
  ghost predicate ExactShares(send0: SendOt, choice0: bool, received0: Block, send1: SendOt, choice1: bool, received1: Block,
                              x0: bool, x1: bool, y0: Block, y1: Block, xy0: Block, xy1: Block) {
    var b0, b1 := Xor(send0.zero, send0.one), Xor(send1.zero, send1.one);
    var theta, phi := Xor(Xor(y0, b0), Xor(y1, b1)), (x0 != choice0) != (x1 != choice1);
    && xy0 == Xor(Xor(Xor(Xor(received0, send0.zero), Mask(b0, choice0)), Mask(theta, choice0)), Mask(b0, phi))
    && xy1 == Xor(Xor(Xor(Xor(Xor(received1, send1.zero), Mask(b1, choice1)), Mask(theta, choice1)), Mask(b1, phi)), Mask(theta, phi))
  }

  lemma SharesExact(send0: SendOt, choice0: bool, received0: Block, send1: SendOt, choice1: bool, received1: Block,
                    x0: bool, x1: bool, y0: Block, y1: Block)
    ensures var t0, t1 := TripleOf(send0, choice0, received0), TripleOf(send1, choice1, received1);
            var o0, o1 := OpeningOf(t0, x0, y0), OpeningOf(t1, x1, y1);
            ExactShares(send0, choice0, received0, send1, choice1, received1, x0, x1, y0, y1, ProductShare(false, t0, o0, o1),
                        ProductShare(true, t1, o1, o0))
  {
    hide Xor, And, Saturate, Mask;
    var t0, t1 := TripleOf(send0, choice0, received0), TripleOf(send1, choice1, received1);
    var o0, o1 := OpeningOf(t0, x0, y0), OpeningOf(t1, x1, y1);
    var theta, phi := Xor(o0.theta, o1.theta), o0.phi != o1.phi;
    XorComm(o0.theta, o1.theta);
    AndSaturate(t0.b, choice0);
    AndSaturate(t1.b, choice1);
    AndSaturate(theta, choice0);
    AndSaturate(theta, choice1);
    AndSaturate(t0.b, phi);
    AndSaturate(t1.b, phi);
    AndSaturate(theta, phi);
  }

  // multiply, run by both parties: the results share the products.
  method Multiply(m0: DpfMult, m1: DpfMult, x0: seq<bool>, x1: seq<bool>, y0: seq<Block>, y1: seq<Block>)
    returns (ok: bool, xy0: seq<Block>, xy1: seq<Block>)
    requires MultsPaired(m0, m1) && |x0| == |x1|
    modifies m0`otIdx, m1`otIdx
    ensures ok <==> |x0| == |y0| == |y1| && |x0| + old(m0.otIdx) <= m0.totalMults && |m0.choiceBits| > 0
    ensures MultsPaired(m0, m1) && m0.otIdx == old(m0.otIdx) + if ok then |x0| else 0
    ensures ok ==> |xy0| == |xy1| == |x0| == |y0| == |y1|
    ensures ok ==>
      forall j {:trigger xy0[j]} {:trigger xy1[j]} :: 0 <= j < |x0| ==> Xor(xy0[j], xy1[j]) == Mask(Xor(y0[j], y1[j]), x0[j] != x1[j])
    ensures ok ==> forall j {:trigger xy0[j]} {:trigger xy1[j]} :: 0 <= j < |x0| ==>
      var at := old(m0.otIdx) + j;
      ExactShares(m0.sendOts[at], m0.choiceBits[at], m0.recvOts[at], m1.sendOts[at], m1.choiceBits[at], m1.recvOts[at],
                  x0[j], x1[j], y0[j], y1[j], xy0[j], xy1[j])
  {
    hide Xor, Mask, TripleOf, ProductShare, OpeningOf, Pick, ExactShares;
    xy0, xy1 := [], [];
    ok := m0.Accepts(|x0|, |y0|) && m1.Accepts(|x1|, |y1|);
    if !ok {
      return;
    }
    var a0, b0, c0, theta0, phi0 := m0.Open(x0, y0);
    var a1, b1, c1, theta1, phi1 := m1.Open(x1, y1);
    forall j {:trigger theta0[j]} | 0 <= j < |x0|
      ensures Xor(c0[j], c1[j]) == Mask(Xor(b0[j], b1[j]), a0[j] != a1[j])
      ensures Opening(theta0[j], phi0[j]) == OpeningOf(Triple(a0[j], b0[j], c0[j]), x0[j], y0[j])
      ensures Opening(theta1[j], phi1[j]) == OpeningOf(Triple(a1[j], b1[j], c1[j]), x1[j], y1[j])
    {
      TriplesPaired(m0, m1, j);
      assert Triple(a0[j], b0[j], c0[j]) == m0.TripleAt(j) && Triple(a1[j], b1[j], c1[j]) == m1.TripleAt(j);
    }
    xy0 := m0.Close(a0, b0, c0, theta0, phi0, theta1, phi1);
    xy1 := m1.Close(a1, b1, c1, theta1, phi1, theta0, phi0);
    forall j {:trigger xy0[j]} {:trigger xy1[j]} | 0 <= j < |x0|
      ensures Xor(xy0[j], xy1[j]) == Mask(Xor(y0[j], y1[j]), x0[j] != x1[j])
    {
      assert Opening(theta0[j], phi0[j]) == OpeningOf(Triple(a0[j], b0[j], c0[j]), x0[j], y0[j]);
      SharesMultiply(Triple(a0[j], b0[j], c0[j]), Triple(a1[j], b1[j], c1[j]), x0[j], x1[j], y0[j], y1[j]);
    }
    forall j {:trigger xy0[j]} {:trigger xy1[j]} | 0 <= j < |x0|
      ensures var at := old(m0.otIdx) + j;
              ExactShares(m0.sendOts[at], m0.choiceBits[at], m0.recvOts[at], m1.sendOts[at], m1.choiceBits[at], m1.recvOts[at],
                          x0[j], x1[j], y0[j], y1[j], xy0[j], xy1[j])
    {
      var at := old(m0.otIdx) + j;
      assert Triple(a0[j], b0[j], c0[j]) == old(m0.TripleAt(j)) && Triple(a1[j], b1[j], c1[j]) == old(m1.TripleAt(j));
      SharesExact(m0.sendOts[at], m0.choiceBits[at], m0.recvOts[at], m1.sendOts[at], m1.choiceBits[at], m1.recvOts[at],
                  x0[j], x1[j], y0[j], y1[j]);
    }
  }
}

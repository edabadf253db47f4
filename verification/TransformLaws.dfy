/**
 What foleageFft and inv_foleageFft compute: each undoes the other, applied twice one of
 them negates every index trit, both are F4-linear and commute with multiplication by a
 ring element, both turn convolution under tritwise index addition into pointwise
 products, and output k of the inverse transform is the sum of a^<j, k> in[j].
 */
module TransformLaws {
  import opened Blocks
  import opened F4Ring
  import opened TritTree
  import opened F4Transform

  // ---------- the butterflies ----------

  lemma XorThree(a: Block, b: Block, c: Block, a': Block, b': Block, c': Block)
    ensures Xor(Xor(Xor(a, a'), Xor(b, b')), Xor(c, c')) == Xor(Xor(Xor(a, b), c), Xor(Xor(a', b'), c'))
  {
    XorSwap(a, a', b, b');
    XorSwap(Xor(a, b), Xor(a', b'), c, c');
  }

  lemma AMul2Linear(a: Block, b: Block)
    ensures AMul(AMul(Xor(a, b))) == Xor(AMul(AMul(a)), AMul(AMul(b)))
  {
    AMulLinear(a, b);
    AMulLinear(AMul(a), AMul(b));
  }

  lemma InverseAdds(d: nat, l: Block, m: Block, r: Block, l': Block, m': Block, r': Block)
    ensures Inverse(d, Xor(l, l'), Xor(m, m'), Xor(r, r')) == Xor(Inverse(d, l, m, r), Inverse(d, l', m', r'))
  {
    AMulLinear(m, m');
    AMulLinear(r, r');
    AMul2Linear(m, m');
    AMul2Linear(r, r');
    if d == 0 {
      XorThree(l, m, r, l', m', r');
    } else if d == 1 {
      XorThree(l, AMul(m), AMul(AMul(r)), l', AMul(m'), AMul(AMul(r')));
    } else {
      XorThree(l, AMul(AMul(m)), AMul(r), l', AMul(AMul(m')), AMul(r'));
    }
  }

  lemma InverseScales(d: nat, l: Block, m: Block, r: Block)
    ensures Inverse(d, AMul(l), AMul(m), AMul(r)) == AMul(Inverse(d, l, m, r))
  {
    if d == 0 {
      AMulLinear(Xor(l, m), r);
      AMulLinear(l, m);
    } else if d == 1 {
      AMulLinear(Xor(l, AMul(m)), AMul(AMul(r)));
      AMulLinear(l, AMul(m));
    } else {
      AMulLinear(Xor(l, AMul(AMul(m))), AMul(r));
      AMulLinear(l, AMul(AMul(m)));
    }
  }

  // x times a^e, for e < 3.
  function Power(e: nat, x: Block): Block {
    if e == 0 then x else if e == 1 then AMul(x) else AMul(AMul(x))
  }

  // Exponents modulo 3.
  function Plus(d: nat, e: nat): nat
    requires d < 3 && e < 3
  {
    if d + e < 3 then d + e else d + e - 3
  }

  lemma PowerPower(d: nat, e: nat, x: Block)
    requires d < 3 && e < 3
    ensures Power(d, Power(e, x)) == Power(Plus(d, e), x)
  {
    AMulCubed(x);
    AMulCubed(AMul(x));
  }

  lemma InverseIsPowers(d: nat, l: Block, m: Block, r: Block)
    requires d < 3
    ensures Inverse(d, l, m, r) == Xor(Xor(l, Power(d, m)), Power(Plus(d, d), r))
  {
  }

  lemma InversePower(d: nat, e: nat, l: Block, m: Block, r: Block)
    ensures Inverse(d, Power(e, l), Power(e, m), Power(e, r)) == Power(e, Inverse(d, l, m, r))
  {
    InverseScales(d, l, m, r);
    InverseScales(d, AMul(l), AMul(m), AMul(r));
  }

  // Rows and columns of butterflies can be evaluated in either order.
  lemma InverseExchanges(d: nat, e: nat, l: Block, m: Block, r: Block, l': Block, m': Block, r': Block, l'': Block, m'': Block, r'': Block)
    requires e < 3
    ensures Inverse(d, Inverse(e, l, l', l''), Inverse(e, m, m', m''), Inverse(e, r, r', r''))
         == Inverse(e, Inverse(d, l, m, r), Inverse(d, l', m', r'), Inverse(d, l'', m'', r''))
  {
    var x', y', z' := Power(e, l'), Power(e, m'), Power(e, r');
    var x'', y'', z'' := Power(Plus(e, e), l''), Power(Plus(e, e), m''), Power(Plus(e, e), r'');
    InverseAdds(d, Xor(l, x'), Xor(m, y'), Xor(r, z'), x'', y'', z'');
    InverseAdds(d, l, m, r, x', y', z');
    InversePower(d, e, l', m', r');
    InversePower(d, Plus(e, e), l'', m'', r'');
    InverseIsPowers(e, l, l', l'');
    InverseIsPowers(e, m, m', m'');
    InverseIsPowers(e, r, r', r'');
    InverseIsPowers(e, Inverse(d, l, m, r), Inverse(d, l', m', r'), Inverse(d, l'', m'', r''));
  }

  lemma InverseUndoes(l: Block, m: Block, r: Block)
    ensures Inverse(0, Inverse(0, l, m, r), Inverse(1, l, m, r), Inverse(2, l, m, r)) == l
    ensures Inverse(1, Inverse(0, l, m, r), Inverse(1, l, m, r), Inverse(2, l, m, r)) == r
    ensures Inverse(2, Inverse(0, l, m, r), Inverse(1, l, m, r), Inverse(2, l, m, r)) == m
  {
    var am, ar := AMul(m), AMul(r);
    var aam, aar := AMul(am), AMul(ar);
    AMulCubed(m);
    AMulCubed(r);
    AMulSquared(l);
    AMulSquared(m);
    AMulSquared(r);
    AMulLinear(Xor(l, am), aar);
    AMulLinear(l, am);
    AMulLinear(Xor(l, aam), ar);
    AMulLinear(l, aam);
    AMul2Linear(Xor(l, am), aar);
    AMul2Linear(l, am);
    AMul2Linear(Xor(l, aam), ar);
    AMul2Linear(l, aam);
    assert Inverse(0, Inverse(0, l, m, r), Inverse(1, l, m, r), Inverse(2, l, m, r)).bits == l.bits;
    assert Inverse(1, Inverse(0, l, m, r), Inverse(1, l, m, r), Inverse(2, l, m, r)).bits == r.bits;
    assert Inverse(2, Inverse(0, l, m, r), Inverse(1, l, m, r), Inverse(2, l, m, r)).bits == m.bits;
  }

  lemma PowerAdds(e: nat, x: Block, y: Block)
    ensures Power(e, Xor(x, y)) == Xor(Power(e, x), Power(e, y))
  {
    AMulLinear(x, y);
    AMul2Linear(x, y);
  }

  lemma PowerAdds3(e: nat, x: Block, y: Block, z: Block)
    ensures Power(e, Xor(Xor(x, y), z)) == Xor(Xor(Power(e, x), Power(e, y)), Power(e, z))
  {
    PowerAdds(e, Xor(x, y), z);
    PowerAdds(e, x, y);
  }

  lemma MulPowerRight(e: nat, x: Block, y: Block)
    ensures RingMul(x, Power(e, y)) == Power(e, RingMul(x, y))
  {
    MulScalar(x, y);
    MulScalar(x, AMul(y));
  }

  lemma MulPowers(d: nat, e: nat, x: Block, y: Block)
    requires d < 3 && e < 3
    ensures RingMul(Power(d, x), Power(e, y)) == Power(Plus(d, e), RingMul(x, y))
  {
    MulPowerRight(e, Power(d, x), y);
    MulCommutes(Power(d, x), y);
    MulPowerRight(d, y, x);
    MulCommutes(y, x);
    PowerPower(e, d, RingMul(x, y));
  }

  lemma MulSum3(x: Block, y: Block, z: Block, w: Block)
    ensures RingMul(w, Xor(Xor(x, y), z)) == Xor(Xor(RingMul(w, x), RingMul(w, y)), RingMul(w, z))
    ensures RingMul(Xor(Xor(x, y), z), w) == Xor(Xor(RingMul(x, w), RingMul(y, w)), RingMul(z, w))
  {
    MulDistributesRight(w, Xor(x, y), z);
    MulDistributesRight(w, x, y);
    MulDistributesLeft(Xor(x, y), z, w);
    MulDistributesLeft(x, y, w);
  }

  // (a + b X + c X^2) (a' + b' X + c' X^2) modulo X^3 - 1, at a cube root of unity.
  lemma InverseMultiplies(d: nat, a: Block, b: Block, c: Block, a': Block, b': Block, c': Block)
    requires d < 3
    ensures Inverse(d, Xor(Xor(RingMul(a, a'), RingMul(b, c')), RingMul(c, b')),
                       Xor(Xor(RingMul(a, b'), RingMul(b, a')), RingMul(c, c')),
                       Xor(Xor(RingMul(a, c'), RingMul(b, b')), RingMul(c, a')))
         == RingMul(Inverse(d, a, b, c), Inverse(d, a', b', c'))
  {
    var e := Plus(d, d);
    var ab, bc, ca := RingMul(a, b'), RingMul(b, c'), RingMul(c, a');
    var ac, ba, cb := RingMul(a, c'), RingMul(b, a'), RingMul(c, b');
    var aa, bb, cc := RingMul(a, a'), RingMul(b, b'), RingMul(c, c');
    assert RingMul(Inverse(d, a, b, c), Inverse(d, a', b', c'))
        == Xor(Xor(Xor(Xor(aa, Power(d, ab)), Power(e, ac)),
                   Xor(Xor(Power(d, ba), Power(e, bb)), bc)),
               Xor(Xor(Power(e, ca), cb), Power(d, cc))) by {
      ProductOfSums(d, a, b, c, a', b', c');
    }
    assert Inverse(d, Xor(Xor(aa, bc), cb), Xor(Xor(ab, ba), cc), Xor(Xor(ac, bb), ca))
        == Xor(Xor(Xor(Xor(aa, bc), cb), Xor(Xor(Power(d, ab), Power(d, ba)), Power(d, cc))),
               Xor(Xor(Power(e, ac), Power(e, bb)), Power(e, ca))) by {
      InverseIsPowers(d, Xor(Xor(aa, bc), cb), Xor(Xor(ab, ba), cc), Xor(Xor(ac, bb), ca));
      PowerAdds3(d, ab, ba, cc);
      PowerAdds3(e, ac, bb, ca);
    }
    NineTerms(aa, Power(d, ab), Power(e, ac), Power(d, ba), Power(e, bb), bc, Power(e, ca), cb, Power(d, cc));
  }

  lemma ProductOfSums(d: nat, a: Block, b: Block, c: Block, a': Block, b': Block, c': Block)
    requires d < 3
    ensures var e := Plus(d, d);
            RingMul(Inverse(d, a, b, c), Inverse(d, a', b', c')) ==
            Xor(Xor(Xor(Xor(RingMul(a, a'), Power(d, RingMul(a, b'))), Power(e, RingMul(a, c'))),
                    Xor(Xor(Power(d, RingMul(b, a')), Power(e, RingMul(b, b'))), RingMul(b, c'))),
                Xor(Xor(Power(e, RingMul(c, a')), RingMul(c, b')), Power(d, RingMul(c, c'))))
  {
    var e := Plus(d, d);
    assert Plus(0, d) == d && Plus(0, e) == e && Plus(d, e) == 0 && Plus(e, d) == 0 && Plus(e, e) == d && Plus(d, 0) == d;
    assert Plus(e, 0) == e;
    InverseIsPowers(d, a, b, c);
    InverseIsPowers(d, a', b', c');
    MulSum3(a, Power(d, b), Power(e, c), Inverse(d, a', b', c'));
    MulRow(0, a, d, a', b', c');
    MulRow(d, b, d, a', b', c');
    MulRow(e, c, d, a', b', c');
  }

  lemma MulRow(f: nat, x: Block, d: nat, a: Block, b: Block, c: Block)
    requires f < 3 && d < 3
    ensures RingMul(Power(f, x), Inverse(d, a, b, c))
         == Xor(Xor(Power(f, RingMul(x, a)), Power(Plus(f, d), RingMul(x, b))), Power(Plus(f, Plus(d, d)), RingMul(x, c)))
  {
    var e := Plus(d, d);
    InverseIsPowers(d, a, b, c);
    MulSum3(a, Power(d, b), Power(e, c), Power(f, x));
    MulPowers(f, 0, x, a);
    MulPowers(f, d, x, b);
    MulPowers(f, e, x, c);
  }

  lemma NineTerms(p: Block, q: Block, r: Block, s: Block, t: Block, u: Block, v: Block, w: Block, x: Block)
    ensures Xor(Xor(Xor(Xor(p, u), w), Xor(Xor(q, s), x)), Xor(Xor(r, t), v))
         == Xor(Xor(Xor(Xor(p, q), r), Xor(Xor(s, t), u)), Xor(Xor(v, w), x))
  {
    assert Xor(Xor(Xor(Xor(p, u), w), Xor(Xor(q, s), x)), Xor(Xor(r, t), v)).bits
        == Xor(Xor(Xor(Xor(p, q), r), Xor(Xor(s, t), u)), Xor(Xor(v, w), x)).bits;
  }

  // ---------- hypotheses of the general laws ----------

  // Both butterflies meet the hypotheses of the laws in TritTree.
  lemma InverseSums(d: nat, l: Block, m: Block, r: Block, l': Block, m': Block, r': Block, l'': Block, m'': Block, r'': Block)
    ensures Inverse(d, Xor(Xor(l, l'), l''), Xor(Xor(m, m'), m''), Xor(Xor(r, r'), r''))
         == Xor(Xor(Inverse(d, l, m, r), Inverse(d, l', m', r')), Inverse(d, l'', m'', r''))
  {
    InverseAdds(d, Xor(l, l'), Xor(m, m'), Xor(r, r'), l'', m'', r'');
    InverseAdds(d, l, m, r, l', m', r');
  }

  lemma ForwardIsMirrored(d: nat)
    ensures forall x: Block, y: Block, z: Block :: Output(Forward, d)(x, y, z) == Inverse(Mirror(d), x, y, z)
  {
    forall x: Block, y: Block, z: Block
      ensures Output(Forward, d)(x, y, z) == Inverse(Mirror(d), x, y, z)
    {
      assert Output(Forward, d)(x, y, z) == Forward(d, x, y, z);
    }
  }

  lemma InverseOutputSums(d: nat)
    ensures Exchange(Output(Inverse, d), Sum3(Xor))
  {
    forall l: Block, m: Block, r: Block, l': Block, m': Block, r': Block, l'': Block, m'': Block, r'': Block
      ensures Output(Inverse, d)(Sum3(Xor)(l, l', l''), Sum3(Xor)(m, m', m''), Sum3(Xor)(r, r', r''))
           == Sum3(Xor)(Output(Inverse, d)(l, m, r), Output(Inverse, d)(l', m', r'), Output(Inverse, d)(l'', m'', r''))
    {
      InverseSums(d, l, m, r, l', m', r', l'', m'', r'');
    }
  }

  lemma InverseProducts(d: nat)
    requires d < 3
    ensures Multiplicative(Output(Inverse, d), Xor, RingMul)
  {
    forall a: Block, b: Block, c: Block, a': Block, b': Block, c': Block
      ensures Output(Inverse, d)(Xor(Xor(RingMul(a, a'), RingMul(b, c')), RingMul(c, b')),
                                 Xor(Xor(RingMul(a, b'), RingMul(b, a')), RingMul(c, c')),
                                 Xor(Xor(RingMul(a, c'), RingMul(b, b')), RingMul(c, a')))
           == RingMul(Output(Inverse, d)(a, b, c), Output(Inverse, d)(a', b', c'))
    {
      InverseMultiplies(d, a, b, c, a', b', c');
    }
  }

  lemma ForwardOutputSums(d: nat)
    ensures Exchange(Output(Forward, d), Sum3(Xor))
  {
    ForwardIsMirrored(d);
    forall l: Block, m: Block, r: Block, l': Block, m': Block, r': Block, l'': Block, m'': Block, r'': Block
      ensures Output(Forward, d)(Sum3(Xor)(l, l', l''), Sum3(Xor)(m, m', m''), Sum3(Xor)(r, r', r''))
           == Sum3(Xor)(Output(Forward, d)(l, m, r), Output(Forward, d)(l', m', r'), Output(Forward, d)(l'', m'', r''))
    {
      InverseSums(Mirror(d), l, m, r, l', m', r', l'', m'', r'');
    }
  }

  lemma ForwardProducts(d: nat)
    requires d < 3
    ensures Multiplicative(Output(Forward, d), Xor, RingMul)
  {
    ForwardIsMirrored(d);
    forall a: Block, b: Block, c: Block, a': Block, b': Block, c': Block
      ensures Output(Forward, d)(Xor(Xor(RingMul(a, a'), RingMul(b, c')), RingMul(c, b')),
                                 Xor(Xor(RingMul(a, b'), RingMul(b, a')), RingMul(c, c')),
                                 Xor(Xor(RingMul(a, c'), RingMul(b, b')), RingMul(c, a')))
           == RingMul(Output(Forward, d)(a, b, c), Output(Forward, d)(a', b', c'))
    {
      InverseMultiplies(Mirror(d), a, b, c, a', b', c');
    }
  }

  lemma InverseInverseExchange(d: nat, e: nat)
    requires d < 3 && e < 3
    ensures Exchange(Output(Inverse, d), Output(Inverse, e))
  {
    forall l: Block, m: Block, r: Block, l': Block, m': Block, r': Block, l'': Block, m'': Block, r'': Block
      ensures Output(Inverse, d)(Output(Inverse, e)(l, l', l''), Output(Inverse, e)(m, m', m''), Output(Inverse, e)(r, r', r''))
           == Output(Inverse, e)(Output(Inverse, d)(l, m, r), Output(Inverse, d)(l', m', r'), Output(Inverse, d)(l'', m'', r''))
    {
      InverseExchanges(d, e, l, m, r, l', m', r', l'', m'', r'');
    }
  }

  lemma InverseForwardExchange(d: nat, e: nat)
    requires d < 3 && e < 3
    ensures Exchange(Output(Inverse, d), Output(Forward, e))
  {
    ForwardIsMirrored(e);
    forall l: Block, m: Block, r: Block, l': Block, m': Block, r': Block, l'': Block, m'': Block, r'': Block
      ensures Output(Inverse, d)(Output(Forward, e)(l, l', l''), Output(Forward, e)(m, m', m''), Output(Forward, e)(r, r', r''))
           == Output(Forward, e)(Output(Inverse, d)(l, m, r), Output(Inverse, d)(l', m', r'), Output(Inverse, d)(l'', m'', r''))
    {
      InverseExchanges(d, Mirror(e), l, m, r, l', m', r', l'', m'', r'');
    }
  }

  lemma ForwardInverseExchange(d: nat, e: nat)
    requires d < 3 && e < 3
    ensures Exchange(Output(Forward, d), Output(Inverse, e))
  {
    ForwardIsMirrored(d);
    forall l: Block, m: Block, r: Block, l': Block, m': Block, r': Block, l'': Block, m'': Block, r'': Block
      ensures Output(Forward, d)(Output(Inverse, e)(l, l', l''), Output(Inverse, e)(m, m', m''), Output(Inverse, e)(r, r', r''))
           == Output(Inverse, e)(Output(Forward, d)(l, m, r), Output(Forward, d)(l', m', r'), Output(Forward, d)(l'', m'', r''))
    {
      InverseExchanges(Mirror(d), e, l, m, r, l', m', r', l'', m'', r'');
    }
  }

  lemma ButterfliesUndo()
    ensures Undoes(Inverse, Forward, false) && Undoes(Forward, Inverse, false)
    ensures Undoes(Inverse, Inverse, true) && Undoes(Forward, Forward, true)
  {
    forall l: Block, m: Block, r: Block
      ensures Inverse(0, Inverse(0, l, m, r), Inverse(1, l, m, r), Inverse(2, l, m, r)) == l
      ensures Inverse(1, Inverse(0, l, m, r), Inverse(1, l, m, r), Inverse(2, l, m, r)) == r
      ensures Inverse(2, Inverse(0, l, m, r), Inverse(1, l, m, r), Inverse(2, l, m, r)) == m
    {
      InverseUndoes(l, m, r);
    }
  }

  lemma InverseAdditive(d: nat)
    ensures Additive(Output(Inverse, d), Xor) && Additive(Output(Forward, d), Xor)
  {
    ForwardIsMirrored(d);
    forall e: nat, l: Block, m: Block, r: Block, l': Block, m': Block, r': Block
      ensures Inverse(e, Xor(l, l'), Xor(m, m'), Xor(r, r')) == Xor(Inverse(e, l, m, r), Inverse(e, l', m', r'))
    {
      InverseAdds(e, l, m, r, l', m', r');
    }
  }

  // ---------- linear maps ----------

  ghost predicate KeepsSums(h: Block -> Block) {
    forall x, y {:trigger h(Xor(x, y))} :: h(Xor(x, y)) == Xor(h(x), h(y))
  }

  // F4-linear on the lanes: additive, and commuting with the scalar a.
  ghost predicate LaneLinear(h: Block -> Block) {
    KeepsSums(h) && forall x {:trigger h(AMul(x))} :: h(AMul(x)) == AMul(h(x))
  }

  // Multiplication by a fixed ring element.
  function Times(c: Block): Block -> Block {
    x => RingMul(c, x)
  }

  lemma TimesIsLinear(c: Block)
    ensures LaneLinear(Times(c))
  {
    forall x, y
      ensures RingMul(c, Xor(x, y)) == Xor(RingMul(c, x), RingMul(c, y))
    {
      MulDistributesRight(c, x, y);
    }
    forall x
      ensures RingMul(c, AMul(x)) == AMul(RingMul(c, x))
    {
      MulPowerRight(1, c, x);
    }
  }

  lemma ZeroKept(h: Block -> Block)
    requires KeepsSums(h)
    ensures h(ZERO) == ZERO
  {
    hide Xor;
    XorSelf(ZERO);
    assert h(Xor(ZERO, ZERO)) == Xor(h(ZERO), h(ZERO));
    XorSelf(h(ZERO));
  }

  lemma PowerLinear(h: Block -> Block, e: nat, x: Block)
    requires LaneLinear(h)
    ensures h(Power(e, x)) == Power(e, h(x))
  {
    hide AMul, Xor;
    assert h(AMul(AMul(x))) == AMul(h(AMul(x)));
  }

  lemma InverseLinear(d: nat, h: Block -> Block)
    requires d < 3 && LaneLinear(h)
    ensures Linear(Output(Inverse, d), h) && Linear(Output(Forward, d), h)
  {
    ForwardIsMirrored(d);
    forall e: nat, l: Block, m: Block, r: Block | e < 3
      ensures Inverse(e, h(l), h(m), h(r)) == h(Inverse(e, l, m, r))
    {
      InverseMaps(e, h, l, m, r);
    }
  }

  lemma InverseMaps(d: nat, h: Block -> Block, l: Block, m: Block, r: Block)
    requires d < 3 && LaneLinear(h)
    ensures Inverse(d, h(l), h(m), h(r)) == h(Inverse(d, l, m, r))
  {
    hide AMul, Xor;
    InverseIsPowers(d, l, m, r);
    InverseIsPowers(d, h(l), h(m), h(r));
    PowerLinear(h, d, m);
    PowerLinear(h, Plus(d, d), r);
  }

  // ---------- the transforms ----------

  lemma InverseCommutesForward(e: nat)
    requires e < 3
    ensures Commutes3(Inverse, Output(Forward, e))
  {
    InverseForwardExchange(0, e);
    InverseForwardExchange(1, e);
    InverseForwardExchange(2, e);
  }

  lemma ForwardCommutesInverse(e: nat)
    requires e < 3
    ensures Commutes3(Forward, Output(Inverse, e))
  {
    ForwardInverseExchange(0, e);
    ForwardInverseExchange(1, e);
    ForwardInverseExchange(2, e);
  }

  lemma InverseCommutesInverse(e: nat)
    requires e < 3
    ensures Commutes3(Inverse, Output(Inverse, e))
  {
    InverseInverseExchange(0, e);
    InverseInverseExchange(1, e);
    InverseInverseExchange(2, e);
  }

  // foleageFft and inv_foleageFft undo each other on every input.
  lemma InverseAfterForward(n: nat, t: Tri<Block>)
    requires Perfect(n, t)
    ensures Transform(Inverse, Transform(Forward, t)) == t
  {
    InverseCommutesForward(0);
    InverseCommutesForward(1);
    InverseCommutesForward(2);
    ButterfliesUndo();
    TransformTwice(n, Inverse, Forward, false, t);
  }

  lemma ForwardAfterInverse(n: nat, t: Tri<Block>)
    requires Perfect(n, t)
    ensures Transform(Forward, Transform(Inverse, t)) == t
  {
    ForwardCommutesInverse(0);
    ForwardCommutesInverse(1);
    ForwardCommutesInverse(2);
    ButterfliesUndo();
    TransformTwice(n, Forward, Inverse, false, t);
  }

  // Applied twice, the inverse transform negates every trit of the index ...
  lemma InverseTwice(n: nat, t: Tri<Block>)
    requires Perfect(n, t)
    ensures Transform(Inverse, Transform(Inverse, t)) == Negated(t)
  {
    InverseCommutesInverse(0);
    InverseCommutesInverse(1);
    InverseCommutesInverse(2);
    ButterfliesUndo();
    TransformTwice(n, Inverse, Inverse, true, t);
  }

  lemma PerfectNegated<T>(n: nat, t: Tri<T>)
    requires Perfect(n, t)
    ensures Perfect(n, Negated(t))
    decreases t
  {
  }

  // The transforms turn the group-algebra product into the pointwise product.
  lemma InverseConvolution(n: nat, s: Tri<Block>, t: Tri<Block>)
    requires Perfect(n, s) && Perfect(n, t)
    ensures Transform(Inverse, Convolve(Xor, RingMul, s, t)) == Zip(RingMul, Transform(Inverse, s), Transform(Inverse, t))
  {
    InverseOutputSums(0);
    InverseOutputSums(1);
    InverseOutputSums(2);
    InverseProducts(0);
    InverseProducts(1);
    InverseProducts(2);
    ConvolutionTheorem(n, Inverse, Xor, RingMul, s, t);
  }

  lemma ForwardConvolution(n: nat, s: Tri<Block>, t: Tri<Block>)
    requires Perfect(n, s) && Perfect(n, t)
    ensures Transform(Forward, Convolve(Xor, RingMul, s, t)) == Zip(RingMul, Transform(Forward, s), Transform(Forward, t))
  {
    ForwardOutputSums(0);
    ForwardOutputSums(1);
    ForwardOutputSums(2);
    ForwardProducts(0);
    ForwardProducts(1);
    ForwardProducts(2);
    ConvolutionTheorem(n, Forward, Xor, RingMul, s, t);
  }

  // They are additive and commute with F4-linear maps, such as multiplication by a ring element.
  lemma TransformsAdd(n: nat, s: Tri<Block>, t: Tri<Block>)
    requires Perfect(n, s) && Perfect(n, t)
    ensures Transform(Inverse, Zip(Xor, s, t)) == Zip(Xor, Transform(Inverse, s), Transform(Inverse, t))
    ensures Transform(Forward, Zip(Xor, s, t)) == Zip(Xor, Transform(Forward, s), Transform(Forward, t))
  {
    InverseAdditive(0);
    InverseAdditive(1);
    InverseAdditive(2);
    TransformZip(n, Inverse, Xor, s, t);
    TransformZip(n, Forward, Xor, s, t);
  }

  lemma TransformsMap(n: nat, h: Block -> Block, t: Tri<Block>)
    requires Perfect(n, t) && LaneLinear(h)
    ensures Transform(Inverse, Map(h, t)) == Map(h, Transform(Inverse, t))
    ensures Transform(Forward, Map(h, t)) == Map(h, Transform(Forward, t))
  {
    InverseLinear(0, h);
    InverseLinear(1, h);
    InverseLinear(2, h);
    TransformMap(n, Inverse, h, t);
    TransformMap(n, Forward, h, t);
  }

}

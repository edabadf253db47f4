/**
 The maps of blocks that commute with foleageFft: the F4-linear ones and no others.
 */
module LinearMaps {
  import opened Blocks
  import opened F4Ring
  import opened TritTree
  import opened F4Transform

  function Constant(n: nat, x: Block): (t: Tri<Block>)
    ensures Perfect(n, t)
  {
    if n == 0 then Leaf(x) else Node(Constant(n - 1, x), Constant(n - 1, x), Constant(n - 1, x))
  }

  // x at index 0 and nothing else.
  function AtOrigin(n: nat, x: Block): (t: Tri<Block>)
    ensures Perfect(n, t)
  {
    if n == 0 then Leaf(x) else Node(AtOrigin(n - 1, x), Constant(n - 1, ZERO), Constant(n - 1, ZERO))
  }

  // x at index 3^(n - 1) and nothing else.
  function AtMiddle(n: nat, x: Block): (t: Tri<Block>)
    requires n > 0
    ensures Perfect(n, t)
  {
    Node(Constant(n - 1, ZERO), AtOrigin(n - 1, x), Constant(n - 1, ZERO))
  }

  lemma {:induction false} ZipConstants(n: nat, d: nat, x: Block, y: Block, z: Block)
    ensures Zip3(Output(Forward, d), Constant(n, x), Constant(n, y), Constant(n, z)) == Constant(n, Forward(d, x, y, z))
  {
    hide Forward;
    if n > 0 {
      ZipConstants(n - 1, d, x, y, z);
    }
  }

  lemma ForwardUnits(x: Block)
    ensures Forward(0, x, ZERO, ZERO) == Forward(1, x, ZERO, ZERO) == Forward(2, x, ZERO, ZERO) == x
    ensures Forward(0, ZERO, ZERO, ZERO) == Forward(1, ZERO, ZERO, ZERO) == Forward(2, ZERO, ZERO, ZERO) == ZERO
    ensures Forward(0, ZERO, x, ZERO) == x && Forward(1, ZERO, x, ZERO) == AMul(AMul(x)) && Forward(2, ZERO, x, ZERO) == AMul(x)
  {
    AMulZero();
    hide Xor, AMul;
    XorZero(x);
    XorZero(ZERO);
    XorComm(ZERO, x);
    XorComm(ZERO, AMul(x));
    XorComm(ZERO, AMul(AMul(x)));
    XorZero(AMul(x));
    XorZero(AMul(AMul(x)));
  }

  lemma AMulZero()
    ensures AMul(ZERO) == ZERO
  {
    assert AMul(ZERO).bits == ZERO.bits;
  }

  lemma {:induction false} TransformZero(n: nat)
    ensures Transform(Forward, Constant(n, ZERO)) == Constant(n, ZERO)
  {
    hide Forward, Zip3;
    if n > 0 {
      TransformZero(n - 1);
      ForwardUnits(ZERO);
      ZipConstants(n - 1, 0, ZERO, ZERO, ZERO);
      ZipConstants(n - 1, 1, ZERO, ZERO, ZERO);
      ZipConstants(n - 1, 2, ZERO, ZERO, ZERO);
    }
  }

  lemma {:induction false} TransformOrigin(n: nat, x: Block)
    ensures Transform(Forward, AtOrigin(n, x)) == Constant(n, x)
  {
    hide Forward, Zip3;
    if n > 0 {
      TransformOrigin(n - 1, x);
      TransformZero(n - 1);
      ForwardUnits(x);
      ZipConstants(n - 1, 0, x, ZERO, ZERO);
      ZipConstants(n - 1, 1, x, ZERO, ZERO);
      ZipConstants(n - 1, 2, x, ZERO, ZERO);
    }
  }

  // The transform of x at index 3^(n - 1): all powers of a times x.
  lemma TransformMiddle(n: nat, x: Block)
    requires n > 0
    ensures Transform(Forward, AtMiddle(n, x)) == Node(Constant(n - 1, x), Constant(n - 1, AMul(AMul(x))), Constant(n - 1, AMul(x)))
  {
    hide Forward, Zip3, AMul;
    TransformZero(n - 1);
    TransformOrigin(n - 1, x);
    ForwardUnits(x);
    ZipConstants(n - 1, 0, ZERO, x, ZERO);
    ZipConstants(n - 1, 1, ZERO, x, ZERO);
    ZipConstants(n - 1, 2, ZERO, x, ZERO);
  }

  lemma {:induction false} MapUnits(n: nat, h: Block -> Block, x: Block)
    requires h(ZERO) == ZERO
    ensures Map(h, Constant(n, x)) == Constant(n, h(x)) && Map(h, AtOrigin(n, x)) == AtOrigin(n, h(x))
  {
    if n > 0 {
      MapUnits(n - 1, h, x);
      MapUnits(n - 1, h, ZERO);
    }
  }

  // If the map does not commute with a at x, the transform does not commute with the map.
  lemma TransformSeparates(n: nat, h: Block -> Block, x: Block)
    requires n > 0 && h(ZERO) == ZERO && h(AMul(x)) != AMul(h(x))
    ensures Map(h, AtMiddle(n, x)) == AtMiddle(n, h(x))
    ensures Transform(Forward, AtMiddle(n, h(x))) != Map(h, Transform(Forward, AtMiddle(n, x)))
  {
    hide AMul, Transform;
    TransformMiddle(n, x);
    TransformMiddle(n, h(x));
    MapUnits(n - 1, h, x);
    MapUnits(n - 1, h, ZERO);
    MapUnits(n - 1, h, AMul(x));
    ConstantsDiffer(n - 1, h(AMul(x)), AMul(h(x)));
  }

  lemma {:induction false} ConstantsDiffer(n: nat, x: Block, y: Block)
    requires x != y
    ensures Constant(n, x) != Constant(n, y)
  {
    if n > 0 {
      ConstantsDiffer(n - 1, x, y);
    }
  }
}

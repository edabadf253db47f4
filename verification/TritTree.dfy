/**
 Data indexed by vectors of trits, as perfect ternary trees: pointwise operations, the
 radix-3 transform of a tree, convolution, and the laws that relate them.  Every law
 holds for any element type and is proved by structural induction.
 */
module TritTree {

  datatype Tri<T> = Leaf(value: T) | Node(l: Tri<T>, m: Tri<T>, r: Tri<T>)

  // A butterfly: output number d from the inputs l, m and r.
  type Butterfly<!T> = (nat, T, T, T) -> T

  // All 3^n leaves are at depth n.
  predicate Perfect<T>(n: nat, t: Tri<T>) {
    match t
    case Leaf(_) => n == 0
    case Node(l, m, r) => n > 0 && Perfect(n - 1, l) && Perfect(n - 1, m) && Perfect(n - 1, r)
  }

  // Pointwise operations; only used on trees of one shape.
  function Zip<T>(h: (T, T) -> T, s: Tri<T>, t: Tri<T>): Tri<T> {
    if s.Leaf? then (if t.Leaf? then Leaf(h(s.value, t.value)) else s)
    else if t.Leaf? then s
    else Node(Zip(h, s.l, t.l), Zip(h, s.m, t.m), Zip(h, s.r, t.r))
  }

  function Zip3<T>(h: (T, T, T) -> T, s: Tri<T>, t: Tri<T>, u: Tri<T>): Tri<T> {
    if s.Leaf? then (if t.Leaf? && u.Leaf? then Leaf(h(s.value, t.value, u.value)) else s)
    else if t.Leaf? || u.Leaf? then s
    else Node(Zip3(h, s.l, t.l, u.l), Zip3(h, s.m, t.m, u.m), Zip3(h, s.r, t.r, u.r))
  }

  function Map<T>(h: T -> T, s: Tri<T>): Tri<T> {
    match s
    case Leaf(x) => Leaf(h(x))
    case Node(l, m, r) => Node(Map(h, l), Map(h, m), Map(h, r))
  }

  function Output<T>(f: Butterfly<T>, d: nat): (T, T, T) -> T {
    (x, y, z) => f(d, x, y, z)
  }

  function Combine<T>(f: Butterfly<T>, a: Tri<T>, b: Tri<T>, c: Tri<T>): Tri<T> {
    Node(Zip3(Output(f, 0), a, b, c), Zip3(Output(f, 1), a, b, c), Zip3(Output(f, 2), a, b, c))
  }

  function Transform<T>(f: Butterfly<T>, t: Tri<T>): Tri<T> {
    match t
    case Leaf(_) => t
    case Node(l, m, r) => Combine(f, Transform(f, l), Transform(f, m), Transform(f, r))
  }

  lemma PerfectZip<T>(n: nat, h: (T, T) -> T, s: Tri<T>, t: Tri<T>)
    requires Perfect(n, s) && Perfect(n, t)
    ensures Perfect(n, Zip(h, s, t))
  {
  }

  lemma PerfectZip3<T>(n: nat, h: (T, T, T) -> T, s: Tri<T>, t: Tri<T>, u: Tri<T>)
    requires Perfect(n, s) && Perfect(n, t) && Perfect(n, u)
    ensures Perfect(n, Zip3(h, s, t, u))
  {
  }

  lemma PerfectTransform<T>(n: nat, f: Butterfly<T>, t: Tri<T>)
    requires Perfect(n, t)
    ensures Perfect(n, Transform(f, t))
    decreases t
  {
    match t
    case Leaf(_) =>
    case Node(l, m, r) =>
      PerfectTransform(n - 1, f, l);
      PerfectTransform(n - 1, f, m);
      PerfectTransform(n - 1, f, r);
      PerfectCombine(n - 1, f, Transform(f, l), Transform(f, m), Transform(f, r));
  }

  lemma PerfectCombine<T>(n: nat, f: Butterfly<T>, a: Tri<T>, b: Tri<T>, c: Tri<T>)
    requires Perfect(n, a) && Perfect(n, b) && Perfect(n, c)
    ensures Perfect(n + 1, Combine(f, a, b, c))
  {
    PerfectZip3(n, Output(f, 0), a, b, c);
    PerfectZip3(n, Output(f, 1), a, b, c);
    PerfectZip3(n, Output(f, 2), a, b, c);
  }

  // ---------- commutation ----------

  // g of three columns of h, or h of three rows of g.
  ghost predicate Exchange<T(!new)>(g: (T, T, T) -> T, h: (T, T, T) -> T) {
    forall l, m, r, l', m', r', l'', m'', r'' {:trigger g(h(l, l', l''), h(m, m', m''), h(r, r', r''))} ::
      g(h(l, l', l''), h(m, m', m''), h(r, r', r'')) == h(g(l, m, r), g(l', m', r'), g(l'', m'', r''))
  }

  lemma {:induction false} ZipExchange<T(!new)>(n: nat, g: (T, T, T) -> T, h: (T, T, T) -> T,
      a: Tri<T>, b: Tri<T>, c: Tri<T>, a': Tri<T>, b': Tri<T>, c': Tri<T>, a'': Tri<T>, b'': Tri<T>, c'': Tri<T>)
    requires Exchange(g, h)
    requires Perfect(n, a) && Perfect(n, b) && Perfect(n, c) && Perfect(n, a') && Perfect(n, b') && Perfect(n, c')
    requires Perfect(n, a'') && Perfect(n, b'') && Perfect(n, c'')
    ensures Zip3(g, Zip3(h, a, a', a''), Zip3(h, b, b', b''), Zip3(h, c, c', c''))
         == Zip3(h, Zip3(g, a, b, c), Zip3(g, a', b', c'), Zip3(g, a'', b'', c''))
    decreases a
  {
    if a.Leaf? {
    } else {
      ZipExchange(n - 1, g, h, a.l, b.l, c.l, a'.l, b'.l, c'.l, a''.l, b''.l, c''.l);
      ZipExchange(n - 1, g, h, a.m, b.m, c.m, a'.m, b'.m, c'.m, a''.m, b''.m, c''.m);
      ZipExchange(n - 1, g, h, a.r, b.r, c.r, a'.r, b'.r, c'.r, a''.r, b''.r, c''.r);
    }
  }

  ghost predicate Commutes3<T(!new)>(f: Butterfly<T>, h: (T, T, T) -> T) {
    Exchange(Output(f, 0), h) && Exchange(Output(f, 1), h) && Exchange(Output(f, 2), h)
  }

  lemma {:induction false} TransformZip3<T(!new)>(n: nat, f: Butterfly<T>, h: (T, T, T) -> T, u: Tri<T>, v: Tri<T>, w: Tri<T>)
    requires Commutes3(f, h) && Perfect(n, u) && Perfect(n, v) && Perfect(n, w)
    ensures Transform(f, Zip3(h, u, v, w)) == Zip3(h, Transform(f, u), Transform(f, v), Transform(f, w))
    decreases u
  {
    if u.Leaf? {
    } else {
      TransformZip3(n - 1, f, h, u.l, v.l, w.l);
      TransformZip3(n - 1, f, h, u.m, v.m, w.m);
      TransformZip3(n - 1, f, h, u.r, v.r, w.r);
      PerfectThirds(n, f, u);
      PerfectThirds(n, f, v);
      PerfectThirds(n, f, w);
      var a, b, c := Transform(f, u.l), Transform(f, u.m), Transform(f, u.r);
      var a', b', c' := Transform(f, v.l), Transform(f, v.m), Transform(f, v.r);
      var a'', b'', c'' := Transform(f, w.l), Transform(f, w.m), Transform(f, w.r);
      ZipExchange(n - 1, Output(f, 0), h, a, b, c, a', b', c', a'', b'', c'');
      ZipExchange(n - 1, Output(f, 1), h, a, b, c, a', b', c', a'', b'', c'');
      ZipExchange(n - 1, Output(f, 2), h, a, b, c, a', b', c', a'', b'', c'');
      CombineRows(f, h, a, b, c, a', b', c', a'', b'', c'');
    }
  }

  lemma PerfectThirds<T>(n: nat, f: Butterfly<T>, t: Tri<T>)
    requires t.Node? && Perfect(n, t)
    ensures Perfect(n - 1, Transform(f, t.l)) && Perfect(n - 1, Transform(f, t.m)) && Perfect(n - 1, Transform(f, t.r))
  {
    PerfectTransform(n - 1, f, t.l);
    PerfectTransform(n - 1, f, t.m);
    PerfectTransform(n - 1, f, t.r);
  }

  lemma Zip3Nodes<T>(h: (T, T, T) -> T, a: Tri<T>, b: Tri<T>, c: Tri<T>, a': Tri<T>, b': Tri<T>, c': Tri<T>, a'': Tri<T>, b'': Tri<T>,
                     c'': Tri<T>)
    ensures Zip3(h, Node(a, b, c), Node(a', b', c'), Node(a'', b'', c''))
         == Node(Zip3(h, a, a', a''), Zip3(h, b, b', b''), Zip3(h, c, c', c''))
  {
  }

  lemma CombineRows<T>(f: Butterfly<T>, h: (T, T, T) -> T,
      a: Tri<T>, b: Tri<T>, c: Tri<T>, a': Tri<T>, b': Tri<T>, c': Tri<T>, a'': Tri<T>, b'': Tri<T>, c'': Tri<T>)
    requires var p, q, r := Zip3(h, a, a', a''), Zip3(h, b, b', b''), Zip3(h, c, c', c'');
             forall d: nat {:trigger Output(f, d)} :: d < 3 ==>
               Zip3(Output(f, d), p, q, r) == Zip3(h, Zip3(Output(f, d), a, b, c), Zip3(Output(f, d), a', b', c'),
                                                   Zip3(Output(f, d), a'', b'', c''))
    ensures Combine(f, Zip3(h, a, a', a''), Zip3(h, b, b', b''), Zip3(h, c, c', c''))
         == Zip3(h, Combine(f, a, b, c), Combine(f, a', b', c'), Combine(f, a'', b'', c''))
  {
    var o0, o1, o2 := Output(f, 0), Output(f, 1), Output(f, 2);
    Zip3Nodes(h, Zip3(o0, a, b, c), Zip3(o1, a, b, c), Zip3(o2, a, b, c), Zip3(o0, a', b', c'), Zip3(o1, a', b', c'), Zip3(o2, a', b', c'),
      Zip3(o0, a'', b'', c''), Zip3(o1, a'', b'', c''), Zip3(o2, a'', b'', c''));
  }

  // Pointwise binary and unary operations, as special cases.
  ghost predicate Additive<T(!new)>(g: (T, T, T) -> T, h: (T, T) -> T) {
    forall l, m, r, l', m', r' {:trigger g(h(l, l'), h(m, m'), h(r, r'))} :: g(h(l, l'), h(m, m'), h(r, r')) == h(g(l, m, r), g(l', m', r'))
  }

  function Binary<T>(h: (T, T) -> T): (T, T, T) -> T {
    (x, y, z) => h(x, y)
  }

  lemma {:induction false} ZipIsZip3<T>(n: nat, h: (T, T) -> T, u: Tri<T>, v: Tri<T>)
    requires Perfect(n, u) && Perfect(n, v)
    ensures Zip(h, u, v) == Zip3(Binary(h), u, v, v)
    decreases u
  {
    if u.Leaf? {
    } else {
      ZipIsZip3(n - 1, h, u.l, v.l);
      ZipIsZip3(n - 1, h, u.m, v.m);
      ZipIsZip3(n - 1, h, u.r, v.r);
    }
  }

  lemma TransformZip<T(!new)>(n: nat, f: Butterfly<T>, h: (T, T) -> T, u: Tri<T>, v: Tri<T>)
    requires Additive(Output(f, 0), h) && Additive(Output(f, 1), h) && Additive(Output(f, 2), h)
    requires Perfect(n, u) && Perfect(n, v)
    ensures Transform(f, Zip(h, u, v)) == Zip(h, Transform(f, u), Transform(f, v))
  {
    TransformZip3(n, f, Binary(h), u, v, v);
    ZipIsZip3(n, h, u, v);
    PerfectTransform(n, f, u);
    PerfectTransform(n, f, v);
    ZipIsZip3(n, h, Transform(f, u), Transform(f, v));
  }

  ghost predicate Linear<T(!new)>(g: (T, T, T) -> T, h: T -> T) {
    forall l, m, r {:trigger g(h(l), h(m), h(r))} :: g(h(l), h(m), h(r)) == h(g(l, m, r))
  }

  function Unary<T>(h: T -> T): (T, T, T) -> T {
    (x, y, z) => h(x)
  }

  lemma {:induction false} MapIsZip3<T>(h: T -> T, u: Tri<T>)
    ensures Map(h, u) == Zip3(Unary(h), u, u, u)
  {
    if u.Leaf? {
    } else {
      MapIsZip3(h, u.l);
      MapIsZip3(h, u.m);
      MapIsZip3(h, u.r);
    }
  }

  lemma TransformMap<T(!new)>(n: nat, f: Butterfly<T>, h: T -> T, u: Tri<T>)
    requires Linear(Output(f, 0), h) && Linear(Output(f, 1), h) && Linear(Output(f, 2), h)
    requires Perfect(n, u)
    ensures Transform(f, Map(h, u)) == Map(h, Transform(f, u))
  {
    TransformZip3(n, f, Unary(h), u, u, u);
    MapIsZip3(h, u);
    MapIsZip3(h, Transform(f, u));
  }

  // ---------- one transform after another ----------

  // t with every trit of the index negated: the last two subtrees exchange places.
  function Negated<T>(t: Tri<T>): Tri<T> {
    match t
    case Leaf(_) => t
    case Node(l, m, r) => Node(Negated(l), Negated(r), Negated(m))
  }

  // g after f returns the three inputs, in their own places or with the last two exchanged.
  ghost predicate Undoes<T(!new)>(g: Butterfly<T>, f: Butterfly<T>, swap: bool) {
    forall l, m, r ::
      && g(0, f(0, l, m, r), f(1, l, m, r), f(2, l, m, r)) == l
      && g(1, f(0, l, m, r), f(1, l, m, r), f(2, l, m, r)) == (if swap then r else m)
      && g(2, f(0, l, m, r), f(1, l, m, r), f(2, l, m, r)) == (if swap then m else r)
  }

  lemma {:induction false} UndoZip<T(!new)>(n: nat, g: Butterfly<T>, f: Butterfly<T>, swap: bool, a: Tri<T>, b: Tri<T>, c: Tri<T>)
    requires Undoes(g, f, swap) && Perfect(n, a) && Perfect(n, b) && Perfect(n, c)
    ensures var p, q, r := Zip3(Output(f, 0), a, b, c), Zip3(Output(f, 1), a, b, c), Zip3(Output(f, 2), a, b, c);
            Combine(g, p, q, r) == if swap then Node(a, c, b) else Node(a, b, c)
    decreases a
  {
    if a.Leaf? {
    } else {
      UndoZip(n - 1, g, f, swap, a.l, b.l, c.l);
      UndoZip(n - 1, g, f, swap, a.m, b.m, c.m);
      UndoZip(n - 1, g, f, swap, a.r, b.r, c.r);
    }
  }

  lemma {:induction false} TransformTwice<T(!new)>(n: nat, g: Butterfly<T>, f: Butterfly<T>, swap: bool, t: Tri<T>)
    requires Commutes3(g, Output(f, 0)) && Commutes3(g, Output(f, 1)) && Commutes3(g, Output(f, 2))
    requires Undoes(g, f, swap) && Perfect(n, t)
    ensures Transform(g, Transform(f, t)) == if swap then Negated(t) else t
    decreases t
  {
    if t.Leaf? {
    } else {
      var a, b, c := Transform(f, t.l), Transform(f, t.m), Transform(f, t.r);
      PerfectThirds(n, f, t);
      TransformZip3(n - 1, g, Output(f, 0), a, b, c);
      TransformZip3(n - 1, g, Output(f, 1), a, b, c);
      TransformZip3(n - 1, g, Output(f, 2), a, b, c);
      TransformTwice(n - 1, g, f, swap, t.l);
      TransformTwice(n - 1, g, f, swap, t.m);
      TransformTwice(n - 1, g, f, swap, t.r);
      var x, y, z := Transform(g, a), Transform(g, b), Transform(g, c);
      PerfectTransform(n - 1, g, a);
      PerfectTransform(n - 1, g, b);
      PerfectTransform(n - 1, g, c);
      UndoZip(n - 1, g, f, swap, x, y, z);
    }
  }

  // ---------- convolution over trit vectors ----------

  function Sum3<T>(add: (T, T) -> T): (T, T, T) -> T {
    (x, y, z) => add(add(x, y), z)
  }

  // The product in the group algebra of Z_3^n.
  function Convolve<T>(add: (T, T) -> T, mul: (T, T) -> T, s: Tri<T>, t: Tri<T>): Tri<T> {
    if s.Leaf? then (if t.Leaf? then Leaf(mul(s.value, t.value)) else s)
    else if t.Leaf? then s
    else
      Node(Zip3(Sum3(add), Convolve(add, mul, s.l, t.l), Convolve(add, mul, s.m, t.r), Convolve(add, mul, s.r, t.m)),
           Zip3(Sum3(add), Convolve(add, mul, s.l, t.m), Convolve(add, mul, s.m, t.l), Convolve(add, mul, s.r, t.r)),
           Zip3(Sum3(add), Convolve(add, mul, s.l, t.r), Convolve(add, mul, s.m, t.m), Convolve(add, mul, s.r, t.l)))
  }

  lemma {:induction false} PerfectConvolve<T>(n: nat, add: (T, T) -> T, mul: (T, T) -> T, s: Tri<T>, t: Tri<T>)
    requires Perfect(n, s) && Perfect(n, t)
    ensures Perfect(n, Convolve(add, mul, s, t))
    decreases n, 0
  {
    if s.Leaf? {
    } else {
      PerfectSum(n - 1, add, mul, s.l, t.l, s.m, t.r, s.r, t.m);
      PerfectSum(n - 1, add, mul, s.l, t.m, s.m, t.l, s.r, t.r);
      PerfectSum(n - 1, add, mul, s.l, t.r, s.m, t.m, s.r, t.l);
    }
  }

  lemma PerfectSum<T>(n: nat, add: (T, T) -> T, mul: (T, T) -> T, a: Tri<T>, a': Tri<T>, b: Tri<T>, b': Tri<T>, c: Tri<T>, c': Tri<T>)
    requires Perfect(n, a) && Perfect(n, b) && Perfect(n, c) && Perfect(n, a') && Perfect(n, b') && Perfect(n, c')
    ensures Perfect(n, Convolve(add, mul, a, a')) && Perfect(n, Convolve(add, mul, b, b')) && Perfect(n, Convolve(add, mul, c, c'))
    ensures Perfect(n, Zip3(Sum3(add), Convolve(add, mul, a, a'), Convolve(add, mul, b, b'), Convolve(add, mul, c, c')))
    decreases n, 1
  {
    PerfectConvolve(n, add, mul, a, a');
    PerfectConvolve(n, add, mul, b, b');
    PerfectConvolve(n, add, mul, c, c');
    PerfectZip3(n, Sum3(add), Convolve(add, mul, a, a'), Convolve(add, mul, b, b'), Convolve(add, mul, c, c'));
  }

  // The butterfly multiplies polynomials of degree two modulo X^3 - 1.
  ghost predicate Multiplicative<T(!new)>(g: (T, T, T) -> T, add: (T, T) -> T, mul: (T, T) -> T) {
    forall a, b, c, a', b', c' {:trigger mul(g(a, b, c), g(a', b', c'))} ::
      g(add(add(mul(a, a'), mul(b, c')), mul(c, b')), add(add(mul(a, b'), mul(b, a')), mul(c, c')),
        add(add(mul(a, c'), mul(b, b')), mul(c, a')))
      == mul(g(a, b, c), g(a', b', c'))
  }

  ghost predicate RingButterfly<T(!new)>(f: Butterfly<T>, add: (T, T) -> T, mul: (T, T) -> T) {
    && Commutes3(f, Sum3(add))
    && Multiplicative(Output(f, 0), add, mul) && Multiplicative(Output(f, 1), add, mul) && Multiplicative(Output(f, 2), add, mul)
  }

  lemma {:induction false} ZipProducts<T(!new)>(n: nat, g: (T, T, T) -> T, add: (T, T) -> T, mul: (T, T) -> T,
      a: Tri<T>, b: Tri<T>, c: Tri<T>, a': Tri<T>, b': Tri<T>, c': Tri<T>)
    requires Multiplicative(g, add, mul)
    requires Perfect(n, a) && Perfect(n, b) && Perfect(n, c) && Perfect(n, a') && Perfect(n, b') && Perfect(n, c')
    ensures Zip3(g, Zip3(Sum3(add), Zip(mul, a, a'), Zip(mul, b, c'), Zip(mul, c, b')),
                    Zip3(Sum3(add), Zip(mul, a, b'), Zip(mul, b, a'), Zip(mul, c, c')),
                    Zip3(Sum3(add), Zip(mul, a, c'), Zip(mul, b, b'), Zip(mul, c, a')))
         == Zip(mul, Zip3(g, a, b, c), Zip3(g, a', b', c'))
    decreases a
  {
    if a.Leaf? {
    } else {
      ZipProducts(n - 1, g, add, mul, a.l, b.l, c.l, a'.l, b'.l, c'.l);
      ZipProducts(n - 1, g, add, mul, a.m, b.m, c.m, a'.m, b'.m, c'.m);
      ZipProducts(n - 1, g, add, mul, a.r, b.r, c.r, a'.r, b'.r, c'.r);
    }
  }

  lemma {:induction false} ConvolutionTheorem<T(!new)>(n: nat, f: Butterfly<T>, add: (T, T) -> T, mul: (T, T) -> T, s: Tri<T>, t: Tri<T>)
    requires RingButterfly(f, add, mul) && Perfect(n, s) && Perfect(n, t)
    ensures Transform(f, Convolve(add, mul, s, t)) == Zip(mul, Transform(f, s), Transform(f, t))
    decreases n, 0
  {
    if s.Leaf? {
    } else {
      SumOfProducts(n - 1, f, add, mul, s.l, t.l, s.m, t.r, s.r, t.m);
      SumOfProducts(n - 1, f, add, mul, s.l, t.m, s.m, t.l, s.r, t.r);
      SumOfProducts(n - 1, f, add, mul, s.l, t.r, s.m, t.m, s.r, t.l);
      PerfectThirds(n, f, s);
      PerfectThirds(n, f, t);
      var a, b, c := Transform(f, s.l), Transform(f, s.m), Transform(f, s.r);
      var a', b', c' := Transform(f, t.l), Transform(f, t.m), Transform(f, t.r);
      ZipProducts(n - 1, Output(f, 0), add, mul, a, b, c, a', b', c');
      ZipProducts(n - 1, Output(f, 1), add, mul, a, b, c, a', b', c');
      ZipProducts(n - 1, Output(f, 2), add, mul, a, b, c, a', b', c');
      CombineProducts(f, mul,
        Zip3(Sum3(add), Zip(mul, a, a'), Zip(mul, b, c'), Zip(mul, c, b')),
        Zip3(Sum3(add), Zip(mul, a, b'), Zip(mul, b, a'), Zip(mul, c, c')),
        Zip3(Sum3(add), Zip(mul, a, c'), Zip(mul, b, b'), Zip(mul, c, a')), a, b, c, a', b', c');
    }
  }

  lemma CombineProducts<T>(f: Butterfly<T>, mul: (T, T) -> T, p: Tri<T>, q: Tri<T>, r: Tri<T>,
      a: Tri<T>, b: Tri<T>, c: Tri<T>, a': Tri<T>, b': Tri<T>, c': Tri<T>)
    requires forall d: nat {:trigger Output(f, d)} :: d < 3 ==>
               Zip3(Output(f, d), p, q, r) == Zip(mul, Zip3(Output(f, d), a, b, c), Zip3(Output(f, d), a', b', c'))
    ensures Combine(f, p, q, r) == Zip(mul, Combine(f, a, b, c), Combine(f, a', b', c'))
  {
    var o0, o1, o2 := Output(f, 0), Output(f, 1), Output(f, 2);
  }

  lemma SumOfProducts<T(!new)>(n: nat, f: Butterfly<T>, add: (T, T) -> T, mul: (T, T) -> T,
      a: Tri<T>, a': Tri<T>, b: Tri<T>, b': Tri<T>, c: Tri<T>, c': Tri<T>)
    requires RingButterfly(f, add, mul)
    requires Perfect(n, a) && Perfect(n, b) && Perfect(n, c) && Perfect(n, a') && Perfect(n, b') && Perfect(n, c')
    ensures Transform(f, Zip3(Sum3(add), Convolve(add, mul, a, a'), Convolve(add, mul, b, b'), Convolve(add, mul, c, c')))
         == Zip3(Sum3(add), Zip(mul, Transform(f, a), Transform(f, a')), Zip(mul, Transform(f, b), Transform(f, b')),
                            Zip(mul, Transform(f, c), Transform(f, c')))
    decreases n, 1
  {
    ConvolutionTheorem(n, f, add, mul, a, a');
    ConvolutionTheorem(n, f, add, mul, b, b');
    ConvolutionTheorem(n, f, add, mul, c, c');
    PerfectSum(n, add, mul, a, a', b, b', c, c');
    TransformZip3(n, f, Sum3(add), Convolve(add, mul, a, a'), Convolve(add, mul, b, b'), Convolve(add, mul, c, c'));
  }
}

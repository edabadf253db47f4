/**
 Ternary trees laid out as sequences of 3^n entries, and the in-place evaluation order of
 foleageFft: transform the three thirds, then combine them entry by entry.
 */
module Radix3 {
  import opened TritTree

  function Pow3(n: nat): (p: nat)
    ensures p > 0
  {
    if n == 0 then 1 else 3 * Pow3(n - 1)
  }

  // The leaves of t in index order, most significant trit first.
  function Leaves<T>(t: Tri<T>): (s: seq<T>)
    ensures |s| > 0
  {
    match t
    case Leaf(x) => [x]
    case Node(l, m, r) => Leaves(l) + Leaves(m) + Leaves(r)
  }

  function Tree<T>(n: nat, s: seq<T>): (t: Tri<T>)
    requires |s| == Pow3(n)
    ensures Perfect(n, t)
  {
    if n == 0 then Leaf(s[0])
    else
      var m := Pow3(n - 1);
      Node(Tree(n - 1, s[..m]), Tree(n - 1, s[m..2 * m]), Tree(n - 1, s[2 * m..]))
  }

  lemma LeafCount<T>(n: nat, t: Tri<T>)
    requires Perfect(n, t)
    ensures |Leaves(t)| == Pow3(n)
    decreases t
  {
    match t
    case Leaf(_) =>
    case Node(l, m, r) =>
      LeafCount(n - 1, l);
      LeafCount(n - 1, m);
      LeafCount(n - 1, r);
  }

  lemma {:induction false} LeavesOfTree<T>(n: nat, s: seq<T>)
    requires |s| == Pow3(n)
    ensures Leaves(Tree(n, s)) == s
  {
    if n == 0 {
    } else {
      var m := Pow3(n - 1);
      var a, b, c := s[..m], s[m..2 * m], s[2 * m..];
      LeavesOfTree(n - 1, a);
      LeavesOfTree(n - 1, b);
      LeavesOfTree(n - 1, c);
      assert a + b + c == s;
    }
  }

  lemma {:induction false} TreeOfLeaves<T>(n: nat, t: Tri<T>)
    requires Perfect(n, t)
    ensures |Leaves(t)| == Pow3(n) && Tree(n, Leaves(t)) == t
    decreases t
  {
    match t
    case Leaf(_) =>
    case Node(l, m, r) =>
      TreeOfLeaves(n - 1, l);
      TreeOfLeaves(n - 1, m);
      TreeOfLeaves(n - 1, r);
      var s := Leaves(t);
      assert s[..Pow3(n - 1)] == Leaves(l) && s[Pow3(n - 1)..2 * Pow3(n - 1)] == Leaves(m) && s[2 * Pow3(n - 1)..] == Leaves(r);
  }

  // An index k < 3^n is its top trit followed by the remaining n - 1 trits.
  function Top(n: nat, k: nat): (d: nat)
    requires n > 0 && k < Pow3(n)
    ensures d < 3
  {
    if k < Pow3(n - 1) then 0 else if k < 2 * Pow3(n - 1) then 1 else 2
  }

  function Rest(n: nat, k: nat): (r: nat)
    requires n > 0 && k < Pow3(n)
    ensures r < Pow3(n - 1)
  {
    if k < Pow3(n - 1) then k else if k < 2 * Pow3(n - 1) then k - Pow3(n - 1) else k - 2 * Pow3(n - 1)
  }

  function Join(n: nat, d: nat, r: nat): (k: nat)
    requires n > 0 && d < 3 && r < Pow3(n - 1)
    ensures k < Pow3(n) && Top(n, k) == d && Rest(n, k) == r
  {
    if d == 0 then r else if d == 1 then Pow3(n - 1) + r else 2 * Pow3(n - 1) + r
  }

  function Child<T>(t: Tri<T>, d: nat): Tri<T>
    requires t.Node?
  {
    if d == 0 then t.l else if d == 1 then t.m else t.r
  }

  // The leaf at index k.
  function At<T>(n: nat, t: Tri<T>, k: nat): T
    requires Perfect(n, t) && k < Pow3(n)
    decreases t
  {
    match t
    case Leaf(x) => x
    case Node(l, m, r) =>
      var i := Rest(n, k);
      if Top(n, k) == 0 then At(n - 1, l, i) else if Top(n, k) == 1 then At(n - 1, m, i) else At(n - 1, r, i)
  }

  lemma AtChild<T>(n: nat, t: Tri<T>, k: nat)
    requires n > 0 && Perfect(n, t) && k < Pow3(n)
    ensures Perfect(n - 1, Child(t, Top(n, k))) && At(n, t, k) == At(n - 1, Child(t, Top(n, k)), Rest(n, k))
  {
  }

  // Three runs of 3^(n-1) entries, indexed by top trit and rest.
  lemma RunAt<T>(n: nat, a: seq<T>, b: seq<T>, c: seq<T>, k: nat)
    requires n > 0 && |a| == |b| == |c| == Pow3(n - 1) && k < Pow3(n)
    ensures var i := Rest(n, k);
            (a + b + c)[k] == if Top(n, k) == 0 then a[i] else if Top(n, k) == 1 then b[i] else c[i]
  {
  }

  lemma {:induction false} LeavesAt<T>(n: nat, t: Tri<T>, k: nat)
    requires Perfect(n, t) && k < Pow3(n)
    ensures |Leaves(t)| == Pow3(n) && Leaves(t)[k] == At(n, t, k)
    decreases t
  {
    LeafCount(n, t);
    match t
    case Leaf(_) =>
    case Node(l, m, r) =>
      var p := Pow3(n - 1);
      LeafCount(n - 1, l);
      LeafCount(n - 1, m);
      LeafCount(n - 1, r);
      if k < p {
        LeavesAt(n - 1, l, k);
      } else if k < 2 * p {
        LeavesAt(n - 1, m, k - p);
      } else {
        LeavesAt(n - 1, r, k - 2 * p);
      }
  }

  lemma {:induction false} AtZip<T>(n: nat, h: (T, T) -> T, s: Tri<T>, t: Tri<T>, k: nat)
    requires Perfect(n, s) && Perfect(n, t) && k < Pow3(n)
    ensures Perfect(n, Zip(h, s, t)) && At(n, Zip(h, s, t), k) == h(At(n, s, k), At(n, t, k))
    decreases s
  {
    PerfectZip(n, h, s, t);
    if s.Node? {
      var p := Pow3(n - 1);
      if k < p {
        AtZip(n - 1, h, s.l, t.l, k);
      } else if k < 2 * p {
        AtZip(n - 1, h, s.m, t.m, k - p);
      } else {
        AtZip(n - 1, h, s.r, t.r, k - 2 * p);
      }
    }
  }

  lemma {:induction false} AtMap<T>(n: nat, h: T -> T, t: Tri<T>, k: nat)
    requires Perfect(n, t) && k < Pow3(n)
    ensures Perfect(n, Map(h, t)) && At(n, Map(h, t), k) == h(At(n, t, k))
    decreases t
  {
    match t
    case Leaf(_) =>
    case Node(l, m, r) =>
      var i := Rest(n, k);
      AtMap(n - 1, h, l, i);
      AtMap(n - 1, h, m, i);
      AtMap(n - 1, h, r, i);
  }

  lemma TreeEntry<T>(n: nat, s: seq<T>, k: nat)
    requires |s| == Pow3(n) && k < Pow3(n)
    ensures At(n, Tree(n, s), k) == s[k]
  {
    LeavesAt(n, Tree(n, s), k);
    LeavesOfTree(n, s);
  }

  // Trees with the same leaves are equal.
  lemma {:induction false} SameTree<T>(n: nat, s: Tri<T>, t: Tri<T>)
    requires Perfect(n, s) && Perfect(n, t)
    requires forall k {:trigger At(n, s, k)} :: 0 <= k < Pow3(n) ==> At(n, s, k) == At(n, t, k)
    ensures s == t
  {
    LeafCount(n, s);
    LeafCount(n, t);
    forall k | 0 <= k < Pow3(n)
      ensures Leaves(s)[k] == Leaves(t)[k]
    {
      LeavesAt(n, s, k);
      LeavesAt(n, t, k);
      assert At(n, s, k) == At(n, t, k);
    }
    assert Leaves(s) == Leaves(t);
    TreeOfLeaves(n, s);
    TreeOfLeaves(n, t);
  }

  lemma {:induction false} AtZip3<T>(n: nat, h: (T, T, T) -> T, s: Tri<T>, t: Tri<T>, u: Tri<T>, k: nat)
    requires Perfect(n, s) && Perfect(n, t) && Perfect(n, u) && k < Pow3(n)
    ensures Perfect(n, Zip3(h, s, t, u)) && At(n, Zip3(h, s, t, u), k) == h(At(n, s, k), At(n, t, k), At(n, u, k))
    decreases s
  {
    PerfectZip3(n, h, s, t, u);
    if s.Node? {
      var p := Pow3(n - 1);
      if k < p {
        AtZip3(n - 1, h, s.l, t.l, u.l, k);
      } else if k < 2 * p {
        AtZip3(n - 1, h, s.m, t.m, u.m, k - p);
      } else {
        AtZip3(n - 1, h, s.r, t.r, u.r, k - 2 * p);
      }
    }
  }

  // ---------- in-place evaluation ----------

  // s after one loop iteration at positions p, q and r.
  ghost function Fly<T>(f: Butterfly<T>, s: seq<T>, p: nat, q: nat, r: nat): (t: seq<T>)
    requires p < q < r < |s|
    ensures |t| == |s|
  {
    s[p := f(0, s[p], s[q], s[r])][q := f(1, s[p], s[q], s[r])][r := f(2, s[p], s[q], s[r])]
  }

  // s after the first j iterations over three adjacent runs of m entries from off on.
  ghost function Flies<T>(f: Butterfly<T>, s: seq<T>, off: nat, m: nat, j: nat): (t: seq<T>)
    requires off + 3 * m <= |s| && j <= m
    ensures |t| == |s|
  {
    if j == 0 then s else Fly(f, Flies(f, s, off, m, j - 1), off + j - 1, off + m + j - 1, off + 2 * m + j - 1)
  }

  lemma {:induction false} FliesInside<T>(f: Butterfly<T>, s: seq<T>, off: nat, m: nat, j: nat, i: nat)
    requires off + 3 * m <= |s| && j <= m && i < m
    ensures var t := Flies(f, s, off, m, j);
            var a, b, c := s[off + i], s[off + m + i], s[off + 2 * m + i];
            if i < j then
              t[off + i] == f(0, a, b, c) && t[off + m + i] == f(1, a, b, c) && t[off + 2 * m + i] == f(2, a, b, c)
            else t[off + i] == a && t[off + m + i] == b && t[off + 2 * m + i] == c
  {
    if j == 0 {
    } else {
      FliesInside(f, s, off, m, j - 1, i);
    }
  }

  lemma {:induction false} FliesOutside<T>(f: Butterfly<T>, s: seq<T>, off: nat, m: nat, j: nat, p: nat)
    requires off + 3 * m <= |s| && j <= m && p < |s| && !(off <= p < off + 3 * m)
    ensures Flies(f, s, off, m, j)[p] == s[p]
  {
    if j == 0 {
    } else {
      FliesOutside(f, s, off, m, j - 1, p);
    }
  }

  // s holds the runs a, b and c one after the other from off on.
  ghost predicate Runs<T>(s: seq<T>, off: nat, a: seq<T>, b: seq<T>, c: seq<T>) {
    && |a| == |b| == |c| && off + 3 * |a| <= |s|
    && forall i {:trigger a[i]} {:trigger b[i]} {:trigger c[i]} :: 0 <= i < |a| ==>
         s[off + i] == a[i] && s[off + |a| + i] == b[i] && s[off + 2 * |a| + i] == c[i]
  }

  ghost predicate SameOutside<T>(s: seq<T>, t: seq<T>, lo: nat, hi: nat) {
    |s| == |t| && forall p {:trigger s[p]} {:trigger t[p]} :: 0 <= p < |s| && !(lo <= p < hi) ==> s[p] == t[p]
  }

  lemma ConcatRuns<T>(pre: seq<T>, a: seq<T>, b: seq<T>, c: seq<T>, post: seq<T>)
    requires |a| == |b| == |c|
    ensures Runs(pre + (a + b + c) + post, |pre|, a, b, c)
  {
  }

  lemma ConcatOutside<T>(pre: seq<T>, s: seq<T>, t: seq<T>, post: seq<T>)
    requires |s| == |t|
    ensures SameOutside(pre + s + post, pre + t + post, |pre|, |pre| + |s|)
  {
  }

  // All iterations over three runs write the three outputs next to each other.
  lemma FliesOverwrite<T>(f: Butterfly<T>, pre: seq<T>, a: seq<T>, b: seq<T>, c: seq<T>, post: seq<T>, x: seq<T>, y: seq<T>, z: seq<T>)
    requires |a| == |b| == |c| == |x| == |y| == |z|
    requires forall i {:trigger x[i]} :: 0 <= i < |a| ==> x[i] == f(0, a[i], b[i], c[i])
    requires forall i {:trigger y[i]} :: 0 <= i < |a| ==> y[i] == f(1, a[i], b[i], c[i])
    requires forall i {:trigger z[i]} :: 0 <= i < |a| ==> z[i] == f(2, a[i], b[i], c[i])
    ensures Flies(f, pre + (a + b + c) + post, |pre|, |a|, |a|) == pre + (x + y + z) + post
  {
    hide *;
    ConcatRuns(pre, a, b, c, post);
    ConcatRuns(pre, x, y, z, post);
    ConcatOutside(pre, a + b + c, x + y + z, post);
    FliesOverRuns(f, pre + (a + b + c) + post, pre + (x + y + z) + post, |pre|, a, b, c, x, y, z);
  }

  lemma FliesOverRuns<T>(f: Butterfly<T>, s: seq<T>, w: seq<T>, off: nat, a: seq<T>, b: seq<T>, c: seq<T>, x: seq<T>, y: seq<T>, z: seq<T>)
    requires Runs(s, off, a, b, c) && Runs(w, off, x, y, z) && |a| == |x| && SameOutside(s, w, off, off + 3 * |a|)
    requires forall i {:trigger x[i]} :: 0 <= i < |a| ==> x[i] == f(0, a[i], b[i], c[i])
    requires forall i {:trigger y[i]} :: 0 <= i < |a| ==> y[i] == f(1, a[i], b[i], c[i])
    requires forall i {:trigger z[i]} :: 0 <= i < |a| ==> z[i] == f(2, a[i], b[i], c[i])
    ensures Flies(f, s, off, |a|, |a|) == w
  {
    hide Flies;
    var t := Flies(f, s, off, |a|, |a|);
    forall p | 0 <= p < |t|
      ensures t[p] == w[p]
    {
      if off <= p < off + 3 * |a| {
        var i := Within(p - off, |a|);
        assert x[i] == f(0, a[i], b[i], c[i]) && y[i] == f(1, a[i], b[i], c[i]) && z[i] == f(2, a[i], b[i], c[i]);
        FliesInside(f, s, off, |a|, |a|, i);
      } else {
        FliesOutside(f, s, off, |a|, |a|, p);
      }
    }
  }

  // The place of p in its run, for three runs of m.
  function Within(p: nat, m: nat): (i: nat)
    requires p < 3 * m
    ensures i < m && (p == i || p == m + i || p == 2 * m + i)
  {
    if p < m then p else if p < 2 * m then p - m else p - 2 * m
  }

  lemma CombinedLeaf<T>(f: Butterfly<T>, n: nat, d: nat, a: Tri<T>, b: Tri<T>, c: Tri<T>, i: nat)
    requires Perfect(n, a) && Perfect(n, b) && Perfect(n, c) && i < Pow3(n)
    ensures |Leaves(Zip3(Output(f, d), a, b, c))| == Pow3(n)
    ensures |Leaves(a)| == |Leaves(b)| == |Leaves(c)| == Pow3(n)
    ensures Leaves(Zip3(Output(f, d), a, b, c))[i] == f(d, Leaves(a)[i], Leaves(b)[i], Leaves(c)[i])
  {
    LeavesAt(n, a, i);
    LeavesAt(n, b, i);
    LeavesAt(n, c, i);
    AtZip3(n, Output(f, d), a, b, c, i);
    LeavesAt(n, Zip3(Output(f, d), a, b, c), i);
  }

  lemma CombinedRun<T>(f: Butterfly<T>, n: nat, d: nat, a: Tri<T>, b: Tri<T>, c: Tri<T>, x: seq<T>)
    requires Perfect(n, a) && Perfect(n, b) && Perfect(n, c) && x == Leaves(Zip3(Output(f, d), a, b, c))
    ensures |Leaves(a)| == |Leaves(b)| == |Leaves(c)| == |x| == Pow3(n)
    ensures forall i {:trigger x[i]} :: 0 <= i < |x| ==> x[i] == f(d, Leaves(a)[i], Leaves(b)[i], Leaves(c)[i])
  {
    hide *;
    PerfectZip3(n, Output(f, d), a, b, c);
    LeafCount(n, a);
    LeafCount(n, b);
    LeafCount(n, c);
    LeafCount(n, Zip3(Output(f, d), a, b, c));
    forall i | 0 <= i < |x|
      ensures x[i] == f(d, Leaves(a)[i], Leaves(b)[i], Leaves(c)[i])
    {
      CombinedLeaf(f, n, d, a, b, c, i);
    }
  }

  // All iterations over the leaves of three subtrees write the leaves of the combined node.
  lemma FliesCombine<T>(f: Butterfly<T>, n: nat, pre: seq<T>, a: Tri<T>, b: Tri<T>, c: Tri<T>, post: seq<T>)
    requires Perfect(n, a) && Perfect(n, b) && Perfect(n, c)
    ensures |Leaves(a)| == |Leaves(b)| == |Leaves(c)| == Pow3(n)
    ensures Flies(f, pre + (Leaves(a) + Leaves(b) + Leaves(c)) + post, |pre|, Pow3(n), Pow3(n))
         == pre + Leaves(Combine(f, a, b, c)) + post
  {
    var x, y, z := Leaves(Zip3(Output(f, 0), a, b, c)), Leaves(Zip3(Output(f, 1), a, b, c)), Leaves(Zip3(Output(f, 2), a, b, c));
    CombinedRun(f, n, 0, a, b, c, x);
    CombinedRun(f, n, 1, a, b, c, y);
    CombinedRun(f, n, 2, a, b, c, z);
    FliesOverwrite(f, pre, Leaves(a), Leaves(b), Leaves(c), post, x, y, z);
  }

  // The cursor moves from run x to run y.
  lemma Shift<T>(pre: seq<T>, x: seq<T>, y: seq<T>, z: seq<T>)
    ensures pre + x + (y + z) == (pre + x) + y + z
  {
  }

  lemma JoinThirds<T>(pre: seq<T>, a: seq<T>, b: seq<T>, c: seq<T>, post: seq<T>)
    ensures pre + (a + b + c) + post == pre + a + (b + (c + post)) == pre + a + b + c + post
  {
  }
}

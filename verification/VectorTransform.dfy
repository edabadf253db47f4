/**
 foleageFft on a whole vector of 3^n entries.
 */
module VectorTransform {
  import opened Blocks
  import opened TritTree
  import opened Radix3
  import opened F4Transform

  // The vector after foleageFft.
  function Spectrum(n: nat, s: seq<Block>): (r: seq<Block>)
    requires |s| == Pow3(n)
    ensures |r| == Pow3(n)
  {
    PerfectTransform(n, Forward, Tree(n, s));
    LeafCount(n, Transform(Forward, Tree(n, s)));
    Leaves(Transform(Forward, Tree(n, s)))
  }

  // foleageFft on a vector.
  method Fft(v: seq<Block>, depth: nat, numCoeffs: nat) returns (w: seq<Block>)
    requires |v| == Pow3(depth) && numCoeffs == Pow3(depth) / 3
    ensures w == Spectrum(depth, v)
  {
    hide Pow3, Transform, Tree, Leaves;
    var coeffs := CopyOf(v);
    LeavesOfTree(depth, v);
    Unpadded(v);
    FoleageFft(coeffs, 0, depth, numCoeffs, [], Tree(depth, v), []);
    w := coeffs[..];
    Unpadded(Leaves(Transform(Forward, Tree(depth, v))));
  }

  method CopyOf<T>(v: seq<T>) returns (a: array<T>)
    ensures fresh(a) && a[..] == v
  {
    a := new T[|v|](i requires 0 <= i < |v| => v[i]);
    assert a[..] == v;
  }

  lemma Unpadded<T>(s: seq<T>)
    ensures [] + s + [] == s
  {
  }
}

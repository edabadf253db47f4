/**
 partition of SparseDpf.h (lines 139 to 164): a range of increasing points is split at the
 highest bit in which two of them differ.
 */
module SparseSplit {
  import opened Blocks

  // p >> u
  function High(p: nat, u: nat): nat {
    if u == 0 then p else High(p / 2, u - 1)
  }

  ghost predicate Increasing(points: seq<nat>) {
    forall i, j {:trigger points[i], points[j]} :: 0 <= i < j < |points| ==> points[i] < points[j]
  }

  // The points of the range agree on all bits from u on.
  ghost predicate SameHigh(points: seq<nat>, lo: nat, hi: nat, u: nat) {
    lo < hi <= |points| && forall i {:trigger points[i]} :: lo <= i < hi ==> High(points[i], u) == High(points[lo], u)
  }

  // Bit u is clear before mid and set from mid on.
  ghost predicate SplitAt(points: seq<nat>, lo: nat, mid: nat, hi: nat, u: nat) {
    && lo <= mid <= hi <= |points|
    && (forall i {:trigger points[i]} :: lo <= i < mid ==> !BitOf(points[i], u))
    && (forall i {:trigger points[i]} :: mid <= i < hi ==> BitOf(points[i], u))
  }

  lemma {:induction false} HighStep(p: nat, u: nat)
    ensures High(p, u) == 2 * High(p, u + 1) + if BitOf(p, u) then 1 else 0
  {
    if u > 0 {
      HighStep(p / 2, u - 1);
    }
  }

  lemma {:induction false} HighMonotone(p: nat, q: nat, u: nat)
    requires p <= q
    ensures High(p, u) <= High(q, u)
  {
    if u > 0 {
      HighMonotone(p / 2, q / 2, u - 1);
    }
  }

  // Below a common prefix the next bit can only rise.
  lemma BitRises(points: seq<nat>, lo: nat, hi: nat, u: nat, i: nat, j: nat)
    requires Increasing(points) && SameHigh(points, lo, hi, u + 1) && lo <= i < j < hi && BitOf(points[i], u)
    ensures BitOf(points[j], u)
  {
    HighStep(points[i], u);
    HighStep(points[j], u);
    HighMonotone(points[i], points[j], u);
  }

  // std::upper_bound: the first point of the range with bit u set.
  method UpperBound(points: seq<nat>, lo: nat, hi: nat, u: nat) returns (mid: nat)
    requires Increasing(points) && SameHigh(points, lo, hi, u + 1)
    ensures SplitAt(points, lo, mid, hi, u)
  {
    hide High, BitOf;
    var l, h := lo, hi;
    while l < h
      invariant lo <= l <= h <= hi
      invariant forall i {:trigger points[i]} :: lo <= i < l ==> !BitOf(points[i], u)
      invariant forall i {:trigger points[i]} :: h <= i < hi ==> BitOf(points[i], u)
    {
      var m := (l + h) / 2;
      if BitOf(points[m], u) {
        forall i {:trigger points[i]} | m < i < hi
          ensures BitOf(points[i], u)
        {
          BitRises(points, lo, hi, u, m, i);
        }
        h := m;
      } else {
        forall i {:trigger points[i]} | lo <= i < m
          ensures !BitOf(points[i], u)
        {
          if BitOf(points[i], u) {
            BitRises(points, lo, hi, u, i, m);
          }
        }
        l := m + 1;
      }
    }
    mid := l;
  }

  // The range halves at mid: level - 1 is the highest bit on which its points differ.  A
  // range of one point is a leaf on level 0.
  ghost predicate IsSplit(points: seq<nat>, lo: nat, hi: nat, level: nat, mid: nat) {
    if hi - lo == 1 then level == 0 && mid == hi
    else level > 0 && lo < mid < hi && SameHigh(points, lo, hi, level) && SplitAt(points, lo, mid, hi, level - 1)
  }

  // A split is determined by the range.
  lemma SplitUnique(points: seq<nat>, lo: nat, hi: nat, level: nat, mid: nat, level': nat, mid': nat)
    requires lo < hi <= |points| && IsSplit(points, lo, hi, level, mid) && IsSplit(points, lo, hi, level', mid')
    ensures level == level' && mid == mid'
  {
    hide High, BitOf;
    if hi - lo > 1 {
      assert !BitOf(points[lo], level - 1) && BitOf(points[hi - 1], level - 1) && !BitOf(points[lo], level' - 1);
      assert BitOf(points[hi - 1], level' - 1);
      if level < level' {
        HighBits(points[lo], points[hi - 1], level, level' - 1);
      } else if level' < level {
        HighBits(points[lo], points[hi - 1], level', level - 1);
      } else {
        SplitPoint(points, lo, mid, hi, level - 1, mid');
      }
    }
  }

  lemma SplitPoint(points: seq<nat>, lo: nat, mid: nat, hi: nat, u: nat, mid': nat)
    requires SplitAt(points, lo, mid, hi, u) && SplitAt(points, lo, mid', hi, u)
    ensures mid == mid'
  {
    hide BitOf;
    var m := if mid < mid' then mid else mid';
    assert m < hi ==> (m < mid <==> !BitOf(points[m], u)) && (m < mid' <==> !BitOf(points[m], u));
  }

  // Equal high parts have equal bits above.
  lemma {:induction false} HighBits(p: nat, q: nat, u: nat, i: nat)
    requires High(p, u) == High(q, u) && u <= i
    ensures High(p, i) == High(q, i) && BitOf(p, i) == BitOf(q, i)
  {
    if u < i {
      HighStep(p, i - 1);
      HighStep(q, i - 1);
      HighBits(p, q, u, i - 1);
    }
    HighStep(p, i);
    HighStep(q, i);
  }

  // partition terminates with two non-empty halves; the level is at most upper.
  method Partition(points: seq<nat>, lo: nat, hi: nat, upper: nat) returns (level: nat, mid: nat)
    requires Increasing(points) && lo < hi <= |points| && SameHigh(points, lo, hi, upper)
    ensures IsSplit(points, lo, hi, level, mid) && level <= upper
  {
    hide High, BitOf;
    if hi - lo == 1 {
      return 0, hi;
    }
    var u: nat := upper;
    DifferSomewhere(points, lo, hi, u);
    u := u - 1;
    mid := UpperBound(points, lo, hi, u);
    while mid == lo || mid == hi
      invariant u < upper && SameHigh(points, lo, hi, u + 1) && SplitAt(points, lo, mid, hi, u)
      decreases u
    {
      SameBit(points, lo, mid, hi, u);
      DifferSomewhere(points, lo, hi, u);
      u := u - 1;
      mid := UpperBound(points, lo, hi, u);
    }
    level := u + 1;
  }

  // Two different points differ in some bit.
  lemma DifferSomewhere(points: seq<nat>, lo: nat, hi: nat, u: nat)
    requires Increasing(points) && hi - lo > 1 && SameHigh(points, lo, hi, u)
    ensures u > 0
  {
    assert points[lo] < points[lo + 1] && High(points[lo + 1], u) == High(points[lo], u);
  }

  lemma SameBit(points: seq<nat>, lo: nat, mid: nat, hi: nat, u: nat)
    requires SameHigh(points, lo, hi, u + 1) && SplitAt(points, lo, mid, hi, u) && (mid == lo || mid == hi)
    ensures SameHigh(points, lo, hi, u)
  {
    hide High, BitOf;
    forall i {:trigger points[i]} | lo <= i < hi
      ensures High(points[i], u) == High(points[lo], u)
    {
      HighStep(points[i], u);
      HighStep(points[lo], u);
      assert BitOf(points[i], u) == (mid == lo) == BitOf(points[lo], u);
    }
  }

  // Both halves of a split agree on the bit they were split at, so their levels are lower.
  lemma HalvesAgree(points: seq<nat>, lo: nat, hi: nat, level: nat, mid: nat)
    requires hi - lo > 1 && hi <= |points| && IsSplit(points, lo, hi, level, mid)
    ensures SameHigh(points, lo, mid, level - 1) && SameHigh(points, mid, hi, level - 1)
  {
    hide High, BitOf;
    forall i {:trigger points[i]} | lo <= i < hi
      ensures High(points[i], level - 1) == High(if i < mid then points[lo] else points[mid], level - 1)
    {
      HighStep(points[i], level - 1);
      HighStep(points[lo], level - 1);
      HighStep(points[mid], level - 1);
    }
  }
}

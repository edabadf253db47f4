/**
 Configuration and points of the punctured PRF (RegularPprf.h lines 69 to 113, 567 to 724 and
 PprfUtil.h lines 162 to 192), as the silent VOLE uses it: 64 trees, interleaved output.
 */
module PprfPoints {
  import opened SparsePoly
  import Fermat
  import RegularDpf

  const PARTITIONS: nat := 64

  // The fields of a generator; base is the number of base transfers it holds.
  datatype Generator = Generator(domain: nat, depth: nat, points: nat, base: nat) {
    predicate HasBase() {
      base > 0
    }

    function BaseOtCount(): nat {
      depth * points
    }
  }

  // Neither odd nor empty.
  predicate Accepts(domain: nat) {
    domain % 2 == 0 && domain >= 2
  }

  // A generator is new or was last configured with an accepted domain.
  ghost predicate Sound(g: Generator) {
    || g == Generator(0, 0, 0, 0)
    || (Accepts(g.domain) && g.depth == RegularDpf.CeilLog2(g.domain) && g.points == PARTITIONS
        && (g.base == 0 || g.base == g.BaseOtCount()))
  }

  method Configured(g: Generator, domain: nat) returns (ok: bool, r: Generator)
    requires Sound(g)
    ensures ok <==> Accepts(domain)
    ensures Sound(r) && if ok then r.domain == domain && r.points == PARTITIONS && r.base == 0 else r == g
  {
    if domain % 2 == 1 || domain < 2 {
      return false, g;
    }
    var depth := RegularDpf.Log2Ceil(domain);
    return true, Generator(domain, depth, PARTITIONS, 0);
  }

  // Whether expansion into size entries in interleaved format goes ahead.
  predicate ExpandAccepts(g: Generator, size: nat) {
    g.points % 8 == 0 && size == g.domain * g.points
  }

  // Holding its transfers, a generator stays sound; it has some when it has points.
  lemma BaseTaken(g: Generator)
    requires Sound(g)
    ensures Sound(g.(base := 0)) && Sound(g.(base := g.BaseOtCount()))
    ensures g.(base := g.BaseOtCount()).HasBase() <==> g.points == PARTITIONS
    ensures g.HasBase() ==> g.points == PARTITIONS
    ensures g.points == PARTITIONS ==> Accepts(g.domain) && g.domain > 0
    ensures g.points == PARTITIONS || g.points == g.domain == 0
  {
    var h := g.(base := g.BaseOtCount());
    assert h.BaseOtCount() == g.BaseOtCount();
    if g.points == PARTITIONS {
      assert g.depth > 0;
    }
  }

  // The place of leaf number leaf of tree j, when eight trees are interleaved.
  function PointOf(j: nat, leaf: nat, domain: nat): nat {
    ((j / 8) * domain + leaf) * 8 + j % 8
  }

  // The tree and the leaf of a place.
  function TreeAt(place: nat, domain: nat): nat
    requires domain > 0
  {
    8 * (place / 8 / domain) + place % 8
  }

  function LeafAt(place: nat, domain: nat): (leaf: nat)
    requires domain > 0
    ensures leaf < domain
  {
    place / 8 % domain
  }

  lemma EveryPlace(place: nat, domain: nat)
    requires domain > 0 && place < domain * PARTITIONS
    ensures TreeAt(place, domain) < PARTITIONS && PointOf(TreeAt(place, domain), LeafAt(place, domain), domain) == place
  {
    var q := place / 8;
    QuotientBelow(q, domain, 8);
    var t, leaf := q / domain, q % domain;
    var j := 8 * t + place % 8;
    assert j / 8 == t && j % 8 == place % 8;
    assert (t * domain + leaf) * 8 + place % 8 == place;
  }

  lemma QuotientBelow(q: nat, d: nat, m: nat)
    requires d > 0 && q < d * m
    ensures q / d < m && (q / d) * d + q % d == q
  {
  }

  function Points(leaves: seq<nat>, domain: nat): (r: seq<nat>)
    ensures |r| == |leaves|
  {
    seq(|leaves|, j requires 0 <= j < |leaves| => PointOf(j, leaves[j], domain))
  }

  method GetPoints(leaves: seq<nat>, domain: nat) returns (points: seq<nat>)
    ensures points == Points(leaves, domain)
  {
    hide PointOf;
    points := leaves;
    var j := 0;
    while j < |points|
      invariant j <= |points| == |leaves|
      invariant forall i {:trigger points[i]} :: 0 <= i < j ==> points[i] == PointOf(i, leaves[i], domain)
      invariant forall i {:trigger points[i]} :: j <= i < |points| ==> points[i] == leaves[i]
    {
      var subTree, batch := j % 8, j / 8;
      points := points[j := (batch * domain + points[j]) * 8 + subTree];
      PointStep(j, leaves[j], domain);
      j := j + 1;
    }
  }

  lemma PointStep(j: nat, leaf: nat, domain: nat)
    ensures PointOf(j, leaf, domain) == ((j / 8) * domain + leaf) * 8 + j % 8
  {
  }

  // One leaf for each tree, from the drawn words.
  method SampleChoices(draws: seq<nat>, domain: nat) returns (leaves: seq<nat>)
    requires domain > 0
    ensures leaves == Drawn(draws, domain)
    ensures |leaves| == |draws| && forall i {:trigger leaves[i]} :: 0 <= i < |leaves| ==> leaves[i] == draws[i] % domain
  {
    leaves := [];
    var i := 0;
    while i < |draws|
      invariant i <= |draws| && leaves == Drawn(draws, domain)[..i]
    {
      leaves := leaves + [draws[i] % domain];
      i := i + 1;
    }
  }

  function Drawn(draws: seq<nat>, domain: nat): (r: seq<nat>)
    requires domain > 0
    ensures |r| == |draws|
  {
    seq(|draws|, i requires 0 <= i < |draws| => draws[i] % domain)
  }

  ghost predicate Leaves(leaves: seq<nat>, count: nat, domain: nat) {
    |leaves| == count && forall i {:trigger leaves[i]} :: 0 <= i < |leaves| ==> leaves[i] < domain
  }

  // The tree can be read off a point.
  lemma TreeOfPoint(j: nat, leaf: nat, domain: nat)
    requires leaf < domain
    ensures PointOf(j, leaf, domain) % 8 == j % 8 && PointOf(j, leaf, domain) / 8 / domain == j / 8
    ensures PointOf(j, leaf, domain) / 8 % domain == leaf
  {
    var q := (j / 8) * domain + leaf;
    assert PointOf(j, leaf, domain) / 8 == q;
    hide PointOf;
    Fermat.RemainderUnique(q, j / 8, leaf, domain);
  }

  // Tree j has its point at the leaf drawn for it: trees 8t to 8t + 7 share a run of the output
  // and take turns in it.
  ghost predicate LeavesDrawn(points: seq<nat>, draws: seq<nat>, domain: nat)
    requires domain > 0
  {
    |points| == |draws| && forall j {:trigger points[j]} :: 0 <= j < |points| ==>
      points[j] % 8 == j % 8 && points[j] / 8 / domain == j / 8 && points[j] / 8 % domain == draws[j] % domain
  }

  lemma PointsPlaced(draws: seq<nat>, domain: nat)
    requires domain > 0
    ensures LeavesDrawn(Points(Drawn(draws, domain), domain), draws, domain)
  {
    hide PointOf;
    var points := Points(Drawn(draws, domain), domain);
    forall j {:trigger points[j]} | 0 <= j < |points|
      ensures points[j] % 8 == j % 8 && points[j] / 8 / domain == j / 8 && points[j] / 8 % domain == draws[j] % domain
    {
      TreeOfPoint(j, draws[j] % domain, domain);
    }
  }

  lemma PointBelow(j: nat, leaf: nat, domain: nat)
    requires leaf < domain && j < PARTITIONS
    ensures PointOf(j, leaf, domain) < domain * PARTITIONS
  {
    var b := j / 8;
    assert b * domain <= 7 * domain;
  }

  // One point in each of the 64 parts: they are distinct.
  lemma PointsDistinct(leaves: seq<nat>, domain: nat)
    requires Leaves(leaves, PARTITIONS, domain)
    ensures AllDistinct(Points(leaves, domain))
    ensures forall j {:trigger Points(leaves, domain)[j]} :: 0 <= j < PARTITIONS ==> Points(leaves, domain)[j] < domain * PARTITIONS
  {
    hide PointOf;
    var p := Points(leaves, domain);
    forall i, j {:trigger p[i], p[j]} | 0 <= i < j < PARTITIONS
      ensures p[i] != p[j]
    {
      TreeOfPoint(i, leaves[i], domain);
      TreeOfPoint(j, leaves[j], domain);
    }
    forall j {:trigger p[j]} | 0 <= j < PARTITIONS
      ensures p[j] < domain * PARTITIONS
    {
      PointBelow(j, leaves[j], domain);
    }
  }
}

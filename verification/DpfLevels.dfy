/**
 One level of a distributed point function tree and the step to the next level, shared
 by the binary and the ternary protocols.  A level holds the control tags of the parents
 and the still uncorrected seeds of their children.

 Everything is generic in the type S of a seed: a block for a single tree, a row of
 blocks for a batch of trees that advance together.
 */
module DpfLevels {

  datatype Arity = Two | Three

  function Width(a: Arity): nat {
    if a.Two? then 2 else 3
  }

  function Parent(a: Arity, r: nat): nat {
    if a.Two? then r / 2 else r / 3
  }

  function Slot(a: Arity, r: nat): (c: nat)
    ensures c < Width(a)
  {
    if a.Two? then r % 2 else r % 3
  }

  function Child(a: Arity, p: nat, c: nat): nat
    requires c < Width(a)
  {
    if a.Two? then 2 * p + c else 3 * p + c
  }

  // seed ^ (tag & sigma), the tag of a seed, the children of a seed, and addition.
  datatype Ops<!S> = Ops(correct: (S, S, S) -> S, tag: S -> S, child: (nat, S) -> S, add: (S, S) -> S, zero: S)

  datatype Level<S> = Level(tags: seq<S>, seeds: seq<S>)

  ghost predicate Shaped<S>(a: Arity, lv: Level<S>) {
    |lv.seeds| == Width(a) * |lv.tags|
  }

  function Corrected<S>(a: Arity, o: Ops<S>, lv: Level<S>, sigma: seq<S>): (s: seq<S>)
    requires |lv.seeds| == Width(a) * |lv.tags| && |sigma| == Width(a)
    ensures |s| == |lv.seeds|
  {
    seq(|lv.seeds|, r requires 0 <= r < |lv.seeds| => o.correct(lv.seeds[r], lv.tags[Parent(a, r)], sigma[Slot(a, r)]))
  }

  function TagsOf<S>(o: Ops<S>, seeds: seq<S>): (t: seq<S>)
    ensures |t| == |seeds|
  {
    seq(|seeds|, r requires 0 <= r < |seeds| => o.tag(seeds[r]))
  }

  function ChildrenOf<S>(a: Arity, o: Ops<S>, seeds: seq<S>): (t: seq<S>)
    ensures |t| == Width(a) * |seeds|
  {
    seq(Width(a) * |seeds|, r requires 0 <= r < Width(a) * |seeds| => o.child(Slot(a, r), seeds[Parent(a, r)]))
  }

  // The next level, after correction with sigma.
  function Step<S>(a: Arity, o: Ops<S>, lv: Level<S>, sigma: seq<S>): (next: Level<S>)
    requires |lv.seeds| == Width(a) * |lv.tags| && |sigma| == Width(a)
    ensures |next.tags| == |lv.seeds| && |next.seeds| == Width(a) * |next.tags|
  {
    var seeds := Corrected(a, o, lv, sigma);
    Level(TagsOf(o, seeds), ChildrenOf(a, o, seeds))
  }

  // The sum of the first n seeds in slot c.
  ghost function SlotSum<S>(a: Arity, o: Ops<S>, seeds: seq<S>, c: nat, n: nat): S
    requires c < Width(a) && Width(a) * n <= |seeds|
  {
    if n == 0 then o.zero else o.add(SlotSum(a, o, seeds, c, n - 1), seeds[Child(a, n - 1, c)])
  }

  lemma ChildParent(a: Arity, p: nat, c: nat)
    requires c < Width(a)
    ensures Parent(a, Child(a, p, c)) == p && Slot(a, Child(a, p, c)) == c
  {
  }

  lemma ParentChild(a: Arity, r: nat)
    ensures Child(a, Parent(a, r), Slot(a, r)) == r
  {
  }

  lemma ParentBound(a: Arity, r: nat, n: nat)
    requires r < Width(a) * n
    ensures Parent(a, r) < n
  {
  }

  lemma ChildBound(a: Arity, p: nat, c: nat, n: nat)
    requires p < n && c < Width(a)
    ensures Child(a, p, c) < Width(a) * n
  {
  }
}

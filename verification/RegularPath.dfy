/**
 What a key computes at one node of one tree, written out along the path from the root
 (RegularDpf.h lines 326 to 357, 494 to 545, 560 to 602 and 693 to 773): the seeds a party
 draws and derives, their corrections, and the correction words and leaf values that two
 parties reveal for the seeds they hold on the active path.
 */
module RegularPath {
  import opened Blocks
  import opened DpfLevels
  import opened DpfRows
  import opened DpfBuffers
  import opened DpfLastLayer
  import opened RegularJoint
  import opened RegularKey

  // Node r of level iter of tree k before its correction: two words of the key's stream for
  // each tree at the top, and below it the two expansions of the parent's corrected seed.
  ghost function RawSeed(crypto: Crypto, party: bool, n: nat, depth: nat, key: RegularDpfKey, k: nat, iter: nat, r: nat): Block
    requires KeyShape(n, depth, key) && k < n && 1 <= iter <= depth
    decreases iter, 0
  {
    if iter == 1 then crypto.prng(key.seed)(2 * k + r)
    else
      var x := NodeSeed(crypto, party, n, depth, key, k, iter - 1, r / 2);
      if r % 2 == 0 then crypto.roundEnc(crypto.enc(x), x) else crypto.add64(crypto.enc(x), x)
  }

  // ... and after it: the word of the level is added if the parent's low bit is set, with the
  // key's own low bit at a right child.
  ghost function NodeSeed(crypto: Crypto, party: bool, n: nat, depth: nat, key: RegularDpfKey, k: nat, iter: nat, r: nat): Block
    requires KeyShape(n, depth, key) && k < n && 1 <= iter <= depth
    decreases iter, 1
  {
    assert |key.correctionWords[iter - 1]| == n && |key.correctionBits[iter - 1]| == n;
    var raw := RawSeed(crypto, party, n, depth, key, k, iter, r);
    var tag := if iter == 1 then party else NodeSeed(crypto, party, n, depth, key, k, iter - 1, r / 2).bits[0];
    var word, bit := key.correctionWords[iter - 1][k], key.correctionBits[iter - 1][k];
    if !tag then raw else if r % 2 == 0 then Xor(raw, word) else Xor(raw, Block(word.bits[0 := bit]))
  }

  lemma RowsOfStep(crypto: Crypto, n: nat, lv: Level<Row>, sigma: seq<Row>, r: nat, k: nat)
    requires BatchLevel(Two, n, lv) && |sigma| == 2 && r / 2 < |lv.seeds| && k < n
    ensures var next, x := Step(Two, RowOps(n, Prf(crypto)), lv, sigma), SeedRowAt(Two, n, lv, sigma, r / 2)[k];
            && r < |next.seeds| && |next.seeds[r]| == |next.tags[r / 2]| == n
            && next.seeds[r][k] == (if r % 2 == 0 then crypto.roundEnc(crypto.enc(x), x) else crypto.add64(crypto.enc(x), x))
            && next.tags[r / 2][k] == Saturate(Lsb(x))
  {
    hide RowCorrect, Saturate, Lsb;
    ParentBound(Two, r / 2, |lv.tags|);
    var next, x := Step(Two, RowOps(n, Prf(crypto)), lv, sigma), SeedRowAt(Two, n, lv, sigma, r / 2);
    var rows := Corrected(Two, RowOps(n, Prf(crypto)), lv, sigma);
    assert rows[r / 2] == x;
    assert next.seeds[r] == RowChild(n, Prf(crypto), Slot(Two, r), rows[Parent(Two, r)]);
    assert next.tags[r / 2] == RowTag(n, x);
  }

  lemma CorrectedEntry(n: nat, depth: nat, key: RegularDpfKey, lv: Level<Row>, iter: nat, r: nat, k: nat, tag: bool)
    requires KeyShape(n, depth, key) && 1 <= iter <= depth && BatchLevel(Two, n, lv) && r < |lv.seeds| && k < n
    requires lv.tags[r / 2][k] == Saturate(tag)
    ensures |key.correctionWords[iter - 1]| == n && |key.correctionBits[iter - 1]| == n
    ensures var word, bit := key.correctionWords[iter - 1][k], key.correctionBits[iter - 1][k];
            SeedRowAt(Two, n, lv, KeySigma(n, depth, key, iter), r)[k]
            == if !tag then lv.seeds[r][k] else if r % 2 == 0 then Xor(lv.seeds[r][k], word)
               else Xor(lv.seeds[r][k], Block(word.bits[0 := bit]))
  {
    hide Saturate, Xor, And;
    var sigma := KeySigma(n, depth, key, iter);
    AndSaturate(sigma[r % 2][k], tag);
    XorZero(lv.seeds[r][k]);
    assert sigma[0][k] == key.correctionWords[iter - 1][k];
    assert sigma[1][k] == SetLsb(key.correctionWords[iter - 1][k], key.correctionBits[iter - 1][k]);
  }

  // The level of a key holds exactly these seeds.
  lemma {:induction false} LevelOnPath(crypto: Crypto, party: bool, n: nat, depth: nat, key: RegularDpfKey, iter: nat, r: nat, k: nat)
    requires KeyShape(n, depth, key) && 1 <= iter <= depth && r < Nodes(Two, iter) && k < n
    ensures var lv := KeyLevel(crypto, party, n, depth, key, iter);
            && r < |lv.seeds| && |lv.seeds[r]| == n && lv.seeds[r][k] == RawSeed(crypto, party, n, depth, key, k, iter, r)
            && SeedRowAt(Two, n, lv, KeySigma(n, depth, key, iter), r)[k] == NodeSeed(crypto, party, n, depth, key, k, iter, r)
  {
    hide SeedRowAt, KeySigma, Saturate, Xor, Step, RowOps;
    var lv := KeyLevel(crypto, party, n, depth, key, iter);
    if iter == 1 {
      CorrectedEntry(n, depth, key, lv, iter, r, k, party);
    } else {
      LevelOnPath(crypto, party, n, depth, key, iter - 1, r / 2, k);
      var above := KeyLevel(crypto, party, n, depth, key, iter - 1);
      RowsOfStep(crypto, n, above, KeySigma(n, depth, key, iter - 1), r, k);
      CorrectedEntry(n, depth, key, lv, iter, r, k, Lsb(NodeSeed(crypto, party, n, depth, key, k, iter - 1, r / 2)));
    }
  }

  // ---------- what two keys reveal ----------

  // The correction word of level t + 1 of tree k, whose point is shared as p and q: from what
  // both parties hold under the active node, the inactive sum and a low bit for each child.
  // Both keys have the same.
  ghost predicate WordReveals(crypto: Crypto, n: nat, depth: nat, key0: RegularDpfKey, key1: RegularDpfKey, p: nat, q: nat, k: nat, t: nat)
    requires KeyShape(n, depth, key0) && KeyShape(n, depth, key1) && k < n && t < depth
  {
    var alpha, pos := BitOf(p, depth - t - 1) != BitOf(q, depth - t - 1), XorBits(p, q, depth - t, depth);
    var left := Xor(RawSeed(crypto, false, n, depth, key0, k, t + 1, 2 * pos), RawSeed(crypto, true, n, depth, key1, k, t + 1, 2 * pos));
    var right := Xor(RawSeed(crypto, false, n, depth, key0, k, t + 1, 2 * pos + 1),
                     RawSeed(crypto, true, n, depth, key1, k, t + 1, 2 * pos + 1));
    && |key0.correctionWords[t]| == |key1.correctionWords[t]| == |key0.correctionBits[t]| == |key1.correctionBits[t]| == n
    && key0.correctionWords[t][k] == key1.correctionWords[t][k] && key0.correctionBits[t][k] == key1.correctionBits[t][k]
    && key0.correctionWords[t][k] == (if alpha then Block(left.bits[0 := left.bits[0]]) else Block(right.bits[0 := !left.bits[0]]))
    && key0.correctionBits[t][k] == (right.bits[0] != alpha)
  }

  // The leaf value of tree k, from the value and both parties' leaves at the point.
  ghost predicate LeafReveals(crypto: Crypto, n: nat, depth: nat, key0: RegularDpfKey, key1: RegularDpfKey, p: nat, q: nat, k: nat,
                              value: Block)
    requires KeyShape(n, depth, key0) && KeyShape(n, depth, key1) && k < n && |key0.leafVals| == |key1.leafVals| == n
  {
    var target := XorBits(p, q, 0, depth);
    var x0, x1 := NodeSeed(crypto, false, n, depth, key0, k, depth, target), NodeSeed(crypto, true, n, depth, key1, k, depth, target);
    key0.leafVals[k] == key1.leafVals[k] == Xor(value, Xor(crypto.roundEnc(x0, x0), crypto.roundEnc(x1, x1)))
  }
}

/**
 Keys of the binary protocol (RegularDpf.h lines 17 to 71): what a key expands to, and its
 byte encoding.
 */
module RegularKey {
  import opened Blocks
  import opened DpfLevels
  import opened DpfLeaves
  import opened DpfRows
  import opened DpfBuffers
  import opened DpfExpansion
  import opened DpfLastLayer
  import opened RegularSigma
  import opened RegularJoint

  datatype RegularDpfKey = RegularDpfKey(seed: Block, correctionWords: seq<seq<Block>>, correctionBits: seq<seq<bool>>,
                                         leafVals: seq<Block>)

  // A key for n trees of the given depth.
  ghost predicate KeyShape(n: nat, depth: nat, key: RegularDpfKey) {
    && depth > 0 && |key.correctionWords| == |key.correctionBits| == depth
    && (forall t {:trigger key.correctionWords[t]} :: 0 <= t < depth ==> |key.correctionWords[t]| == n)
    && (forall t {:trigger key.correctionBits[t]} :: 0 <= t < depth ==> |key.correctionBits[t]| == n)
    && (|key.leafVals| == 0 || |key.leafVals| == n)
  }

  // The second correction word differs from the first in the low bit.
  function WithBits(word: Row, bits: seq<bool>): (r: Row)
    requires |word| == |bits|
    ensures |r| == |word|
  {
    seq(|word|, k requires 0 <= k < |word| => SetLsb(word[k], bits[k]))
  }

  function KeySigma(n: nat, depth: nat, key: RegularDpfKey, iter: nat): (s: seq<Row>)
    requires KeyShape(n, depth, key) && 1 <= iter <= depth
    ensures |s| == 2 && AllRows(n, s)
  {
    assert |key.correctionWords[iter - 1]| == n && |key.correctionBits[iter - 1]| == n;
    [key.correctionWords[iter - 1], WithBits(key.correctionWords[iter - 1], key.correctionBits[iter - 1])]
  }

  // Level iter of the tree of a key.
  ghost function KeyLevel(crypto: Crypto, party: bool, n: nat, depth: nat, key: RegularDpfKey, iter: nat): (lv: Level<Row>)
    requires KeyShape(n, depth, key) && 1 <= iter <= depth
    ensures BatchLevel(Two, n, lv) && |lv.tags| == Nodes(Two, iter - 1)
  {
    if iter == 1 then RootLevel(Two, n, party, crypto.prng(key.seed), 0)
    else
      var lv := KeyLevel(crypto, party, n, depth, key, iter - 1);
      StepKeepsBatch(Two, n, Prf(crypto), lv, KeySigma(n, depth, key, iter - 1));
      Step(Two, RowOps(n, Prf(crypto)), lv, KeySigma(n, depth, key, iter - 1))
  }

  // The leaves and tags of the first rows of a level after its correction.
  ghost function LeafTable(crypto: Crypto, n: nat, lv: Level<Row>, sigma: seq<Row>, rows: nat): (leaf: seq<seq<Block>>)
    requires Shaped(Two, lv) && |sigma| == 2 && rows <= |lv.seeds|
    ensures Table(rows, n, leaf)
  {
    seq(rows, r requires 0 <= r < rows => LeafRow(BlockCtx(), crypto.roundEnc, SeedRowAt(Two, n, lv, sigma, r)))
  }

  ghost function TagTable(n: nat, lv: Level<Row>, sigma: seq<Row>, rows: nat): (t: seq<seq<bool>>)
    requires Shaped(Two, lv) && |sigma| == 2 && rows <= |lv.seeds|
    ensures Table(rows, n, t)
  {
    seq(rows, r requires 0 <= r < rows => TagRow(SeedRowAt(Two, n, lv, sigma, r)))
  }

  lemma LayerTables(crypto: Crypto, n: nat, lv: Level<Row>, sigma: seq<Row>, leaf: seq<seq<Block>>, t: seq<seq<bool>>, sums: seq<Block>,
                    rows: nat)
    requires Layer(BlockCtx(), crypto.roundEnc, Two, n, lv, sigma, leaf, t, sums, rows)
    ensures leaf == LeafTable(crypto, n, lv, sigma, rows) && t == TagTable(n, lv, sigma, rows)
    ensures sums == RowSums(BlockCtx(), n, leaf, rows)
  {
    hide LeafRow, TagRow, SeedRowAt, RowSums;
    assert leaf == LeafTable(crypto, n, lv, sigma, rows);
    assert t == TagTable(n, lv, sigma, rows);
  }

  // The outputs for the first domain leaves, with gamma added where the tag is set.
  ghost function Programmed(n: nat, domain: nat, leaf: seq<seq<Block>>, t: seq<seq<bool>>, gamma: seq<Block>): (out: seq<seq<Block>>)
    requires domain <= |leaf| == |t| && Table(|leaf|, n, leaf) && Table(|t|, n, t) && (|gamma| == 0 || |gamma| == n)
    ensures Table(domain, n, out)
  {
    seq(domain, i requires 0 <= i < domain => seq(n, k requires 0 <= k < n =>
      if |gamma| == 0 then leaf[i][k] else LeafOutput(BlockCtx(), gamma[k], t[i][k], leaf[i][k])))
  }

  // What a key expands to: outputs and tags.
  ghost function KeyOutputs(crypto: Crypto, party: bool, n: nat, depth: nat, domain: nat,
                            key: RegularDpfKey): (r: (seq<seq<Block>>, seq<seq<bool>>))
    requires KeyShape(n, depth, key) && domain <= Nodes(Two, depth)
    ensures Table(domain, n, r.0) && Table(domain, n, r.1)
  {
    var lv, sigma := KeyLevel(crypto, party, n, depth, key, depth), KeySigma(n, depth, key, depth);
    var leaf, t := LeafTable(crypto, n, lv, sigma, domain), TagTable(n, lv, sigma, domain);
    (Programmed(n, domain, leaf, t, key.leafVals), t)
  }

  // ---------- the key of an interactive run ----------

  ghost function JointWords(crypto: Crypto, i: Inputs): (w: seq<seq<Block>>)
    requires WellFormed(i)
    ensures |w| == i.depth && forall t {:trigger w[t]} :: 0 <= t < |w| ==> |w[t]| == i.n
  {
    seq(i.depth, t requires 0 <= t < i.depth => FirstWord(crypto, i, t + 1))
  }

  ghost function FirstWord(crypto: Crypto, i: Inputs, iter: nat): (w: Row)
    requires WellFormed(i) && 1 <= iter <= i.depth
    ensures |w| == i.n
  {
    WordAt(crypto, i, iter)[0]
  }

  ghost function LowBits(crypto: Crypto, i: Inputs, iter: nat): (b: seq<bool>)
    requires WellFormed(i) && 1 <= iter <= i.depth
    ensures |b| == i.n
  {
    TagRow(WordAt(crypto, i, iter)[1])
  }

  ghost function JointBits(crypto: Crypto, i: Inputs): (b: seq<seq<bool>>)
    requires WellFormed(i)
    ensures |b| == i.depth && forall t {:trigger b[t]} :: 0 <= t < |b| ==> |b[t]| == i.n
  {
    seq(i.depth, t requires 0 <= t < i.depth => LowBits(crypto, i, t + 1))
  }

  ghost function JointKey(crypto: Crypto, i: Inputs, party: bool, leafVals: seq<Block>): (key: RegularDpfKey)
    requires WellFormed(i) && (|leafVals| == 0 || |leafVals| == i.n)
    ensures KeyShape(i.n, i.depth, key)
  {
    RegularDpfKey(if party then i.seed1 else i.seed0, JointWords(crypto, i), JointBits(crypto, i), leafVals)
  }

  // The correction words of the key are those of the run.
  lemma JointKeySigma(crypto: Crypto, i: Inputs, party: bool, leafVals: seq<Block>, iter: nat)
    requires WellFormed(i) && (|leafVals| == 0 || |leafVals| == i.n) && 1 <= iter <= i.depth
    ensures KeySigma(i.n, i.depth, JointKey(crypto, i, party, leafVals), iter) == WordAt(crypto, i, iter)
  {
    hide SumsOf, Xor, SigmaPair, AlphaBits, Joint, JointSums, WordAt, SetLsb, Lsb, KeyShape;
    var w, b := FirstWord(crypto, i, iter), LowBits(crypto, i, iter);
    WordFromBits(crypto, i, iter);
    assert JointWords(crypto, i)[iter - 1] == w && JointBits(crypto, i)[iter - 1] == b;
  }

  lemma WordFromBits(crypto: Crypto, i: Inputs, iter: nat)
    requires WellFormed(i) && 1 <= iter <= i.depth
    ensures WordAt(crypto, i, iter) == [FirstWord(crypto, i, iter), WithBits(FirstWord(crypto, i, iter), LowBits(crypto, i, iter))]
  {
    hide SumsOf, Xor, SigmaPair, AlphaBits, Joint, JointSigma, SetLsb, Lsb;
    var w, p := WordAt(crypto, i, iter), Joint(crypto, i, iter);
    forall k | 0 <= k < i.n
      ensures WithBits(w[0], TagRow(w[1]))[k] == w[1][k]
    {
      SecondFromFirst(SumsOf(i.n, Prf(crypto), p.l0), SumsOf(i.n, Prf(crypto), p.l1), AlphaBits(i.points0, i.points1, i.depth - iter), k);
    }
    assert w[1] == WithBits(w[0], TagRow(w[1]));
  }

  lemma SecondFromFirst(z0: seq<Row>, z1: seq<Row>, alpha: seq<bool>, k: nat)
    requires |z0| == |z1| == 2 && k < |alpha|
    ensures var s := JointSigma(z0, z1, alpha); SetLsb(s[0][k], Lsb(s[1][k])) == s[1][k]
  {
    hide Xor;
    var s := JointSigma(z0, z1, alpha);
    assert s[0][k] == PairOf(z0, z1, alpha[k], k).0 && s[1][k] == PairOf(z0, z1, alpha[k], k).1;
  }

  // The tree of the key is the tree of the run.
  lemma {:induction false} JointKeyLevel(crypto: Crypto, i: Inputs, party: bool, leafVals: seq<Block>, iter: nat)
    requires WellFormed(i) && (|leafVals| == 0 || |leafVals| == i.n) && 1 <= iter <= i.depth
    ensures KeyLevel(crypto, party, i.n, i.depth, JointKey(crypto, i, party, leafVals), iter)
         == if party then Joint(crypto, i, iter).l1 else Joint(crypto, i, iter).l0
  {
    hide Step, RowOps, RootLevel, KeySigma, WordAt, JointWords, JointBits;
    if iter > 1 {
      JointKeyLevel(crypto, i, party, leafVals, iter - 1);
      JointNext(crypto, i, iter - 1);
      JointKeySigma(crypto, i, party, leafVals, iter - 1);
    }
  }
}

# Verified model of a two-party correlation library

The library lets two parties produce correlated randomness: oblivious linear evaluation
(OLE) and vector OLE (VOLE) over F4[x] / (x^64 + a x^3 + a x + 1). It does so with
distributed point functions (DPFs), a radix-3 transform over F4 and packed binary-field
arithmetic. This project models that code in Dafny and proves what the code promises:

* **OLE.** The comparison that closes `Extension_Field_OLE` can never fail, for any depth,
  block length, number of polynomials, public values, positions, coefficients, base
  transfers and seeds. The theorem goes through all layers: DPF, index split, transform and
  multiplication.
* **Distributed point functions.** Binary, ternary and path-compressed trees, run by both
  parties in lockstep. Off the secret path both parties hold the same seeds and tags, on
  it their tags are complementary; this holds at every level, through the rotating
  matrices and for batches of trees, and yields the point function at the leaves. Two key
  generators and three ways to expand a key agree. Next to these two-party laws, every seed,
  correction word and output of either party is written out as the chain of hashes on its own
  path.
* **Transform and field.** `inv_foleageFft` computes the sum of a^<j,k> in[j] in place;
  the convolution theorem; `F4_mul` with its two folding passes is the ring product.
* **VOLE.** The linear correlation survives noise programming, truncation and transform;
  the exact sizes for which a run ends, and the exact lengths and products by delta for
  which the compression is safe.
* **Primality.** Over all 64-bit numbers, which ones are accepted for every draw of bases
  (the primes up to 2^32), and up to 2^32 which ones are rejected for every draw, as a
  condition on prime factors.
* **Tools.** The table-driven encoder, Eklundh and tiled transposition, folding modulo
  x^p - 1, with the exact moduli for which `power` is right.

## How the model is laid out

`Blocks` holds bit-level words. `F4Ring`, `F4Mul`, `TritTree`, `Radix3`, `F4Transform`,
`TransformLaws`, `LinearMaps`, `GroupAlgebra`, `VectorTransform` and `VectorLaws` are F4.h and its forward
counterpart. `DpfLevels` to `DpfReconstruct` are what the binary and the ternary DPF share,
generic in the arity and in the type of a seed, so that a row of trees is one seed.
`Ternary*`, `Regular*`, `DpfMult` and `Sparse*` are the protocols; among them `RegularPath`,
`RegularReveal`, `TernaryPath`, `SparsePath` and `SparseEnds` follow single paths. `IndexSplit` to
`OleGeneral` is OLE.h, `PprfPoints` and `Vole*` the VOLE files, `Fermat`, `Primes`,
`PowerSums`, `Residues` and `StrongLiars` the primality test, `Powers`, `Eklundh`,
`TiledTranspose`, `QuasiCyclic`, `CodeTable` and `LinearCode` the tools.

Protocols are state machines over their steps: a method runs one step of both parties, a
message is a value that one party's part returns and the other's takes. Objects whose
methods update fields are classes; matrices that are rewritten in place are arrays. AES,
hashing and the round function are arbitrary functions, a PRNG is an arbitrary sequence,
base transfers are a given correlation (received = sent[choice]), and the punctured PRF is
what its two outputs promise. The forward transform and the packed trits of type `F3x32`
follow FoleageFft.h and FoleageUtils.h of the library. A result `ok` says whether a call
returns normally, where the source throws. Statements are for all inputs, functions and
sequences.

Two readings of the lanes meet in F4.h. In the reading of `F4_mul` (bit 2i is the constant,
bit 2i + 1 the coefficient of a) the shifts of the transform multiply by a^2, where the
comment in FoleageFft.h line 72 says a; the model follows the code and uses the reading of
`F4_mul` throughout. `millerTest` draws bases from 2 to n - 3, not to n - 2 as its comment
says (Tools.cpp lines 52 to 54).

## Where the code does less than it says

* `isPrime` is documented to return false for composites (Tools.cpp line 80). It may accept
  one in any number of rounds (`Primes.CompositeMayPass`, `StrongLiars.EvenMayPass`). Which
  numbers it never accepts shows in their prime factors (`StrongLiars.NeverAcceptedIff`).
* Past 2^32 the products of `power` and `millerTest` wrap around: base 2^32 fails for every n
  from 2^32 + 3 on, so every larger prime is rejected for some words
  (`Primes.AcceptedIffPrime`).
* The VOLE files round the logarithm of the length, so the vectors may grow instead of being
  cut. The added entries are whatever memory holds, and the correlation is safe exactly for
  the lengths of `VoleRun.SafeSizes`; 640 is not one of them.
* `silentSend` and `silentReceive` then copy n entries out. For n = L this never comes out
  well: vectors that are not grown are too short for the copy (`VoleRun.NeverWhole`), as for
  L = n = 128 (`VoleRun.CopyLeaves`).
* The VOLE classes take the coefficient context as a parameter. Only products that are
  F4-linear on the lanes survive the transform (`VoleRun.CompressionSafeIff`). That of
  `CoeffCtxGF128_F4`, with which main.cpp runs them, is one; that of the default context
  need not be (`VoleContext.FieldContextFails`, `VoleRun.UnitRun`).
* With a dense part, the sparse protocol sets the leaf of a bin with one listed point at
  once and leaves it out of the sum that becomes gamma (SparseDpf.h lines 298 to 304 and
  484 to 490). If that point is the secret one, the outputs share its value only if the two
  parties' leaves in that bin happen to be equal. `SparseExpand.Expand` states when the
  value is right, in both directions; `SparseLone.LoneRun` is a run in which it is not.

## Model

| member | source | states |
|---|---|---|
| Ole.ExtensionFieldOle | OLE.h:140-265 | For every depth, block length and all random draws: additive0 ^ additive1 equals the product ole0 * ole1 at every one of the 3^depth indices, so the closing comparison never fails. ole of each party is, index by index, the transform of e plus the drawn public value times the transform of s, with e and s written out from the drawn positions and coefficients; each additive share is the public combination of the transforms of what the four runs of dpf leave with that party |
| OleGeneral.ExtensionFieldOle | OLE.h:269-433 | The same for the version with c polynomials on each side and c * c cross terms, for every c: ole is the sum over k of the drawn public value a_k times the transform of polynomial k, each additive share the sum over all pairs of public products times the transforms of the party's own terms |
| OleDpf.Dpf | OLE.h:31-137 | polyA ^ polyB gains exactly the double sum of the products of the two sparse polynomials at tritwise-added positions over all depth trits, although each DPF covers only the low trits; polyA gains the outputs of party 0 and polyB those of party 1, each read off that party's own trees |
| OleDpf.ReceivedSpelt | OLE.h:94-130 | Index m of a vector receives, from tree (i, j), its output at leaf m mod 3^d if the tritwise sum of i and j is m div 3^d, and nothing otherwise |
| SparsePoly.SparseConvolution | OLE.h:99-106 | That double sum is, at every index, the product of the two sparse vectors in the group algebra of Z_3^n |
| OleAlgebra.SpectraMultiply | OLE.h:200-206 | Shares of a group-algebra product become, after the transform, shares of the pointwise product |
| OleAlgebra.CrossTermsMultiply | OLE.h:354-373 | Shares of the c * c cross terms, weighted by products of public values, add up to the product of the two inner products, for every c |
| OleDpf.GenerateAdditiveSharing | OLE.h:12-29 | Entry k of the two outputs shares the product of coefficient k div t of the first list and coefficient k mod t of the second, which has t entries: the first output is the drawn block, the second the product with it added |
| OleDpf.Accumulate | OLE.h:94-106 | Each output run is added to the block whose number is the tritwise sum of the two block numbers, and to no other |
| Ole.Compare | OLE.h:250-264 | The comparison succeeds exactly when the shares add up to the products at all indices |
| VectorLaws.InvTransform | F4.h:9-69 | In place on any vector of 3^n blocks: output k is the sum over all j of a^<j,k> times input j, in every lane |
| VectorLaws.SpectraSplit | F4.h:9-69 | Both transforms written out: on one entry the identity; on three thirds the transforms of the thirds, combined with 1, a, a^2 by the inverse one and with 1, a^2, a by the forward one |
| VectorLaws.SpectraInvert | test.h:294-300 | foleageFft and inv_foleageFft undo each other, in both orders |
| VectorLaws.InvSpectrumTwice | F4.h:9-69 | Two applications negate every trit of the index |
| VectorLaws.InvSpectrumFourTimes | F4.h:9-69 | Four applications are the identity |
| VectorLaws.SpectraOfProduct | F4.h:9-69 | Both transforms turn the product of the group algebra (tritwise addition of indices) into pointwise products of F4_mul |
| F4Transform.InvFoleageFft | F4.h:9-69 | The recursion on three subspans writes exactly the transform of the tree stored in its part of the array and leaves everything before and after unchanged |
| F4Transform.FoleageFft | OLE.h:200-205 | The same for the forward transform foleageFft (FoleageFft.h lines 25 to 101), as the OLE and VOLE files call it |
| F4Transform.LaneMultIsSquare | F4.h:45-56 | The shifts and masks multiply each of the 64 lanes by a^2: bits (l, h) of a lane become (l ^ h, l) |
| TransformLaws.TransformsAdd | F4.h:9-69 | Both transforms are additive |
| TransformLaws.TransformsMap | F4.h:9-69 | Both transforms commute with every F4-linear map of the lanes; multiplication by a ring element is one |
| F4Mul.F4MulIsRingMul | F4.h:131-147 | F4_mul on machine words equals the reference product of F4[x] modulo x^64 + a x^3 + a x + 1 |
| F4Mul.ReduceIsExact | F4.h:107-128 | Two folding passes reduce every pair of 128-bit products completely |
| F4Mul.F4MulLaws | F4.h:131-147 | F4_mul is commutative, associative, distributive, F4-bilinear, has unit 1 and absorbs 0 |
| F4Mul.PackUnpack | F4.h:73-105 | Interleaving the extracted halves of a block restores it |
| F4Ring.Modulus | F4.h:107-109 | Multiplying by x moves all bits up by one lane while the top one is zero, and doing it 64 times equals 1 + a x + a x^3 on every block |
| RegularAgreement.ExpandReconstructs | libOTe/libOTe/Dpf/RegularDpf.h:281-660 | For every domain of at least 2, all seeds and all XOR shares of values and of points the tree has leaves for: the parties' outputs XOR to the value at the point and to zero elsewhere, and their tags differ exactly at the point |
| RegularAgreement.GeneratorsAgree | libOTe/libOTe/Dpf/RegularDpf.h:255-263 | With the same seeds and values, interactive full-tree generation and the path-only dealer produce the same seeds, correction words and low bits for all points, the same leaf value for every point among the leaves that are summed, and so identical keys when the points lie in the domain |
| RegularAgreement.ExpansionsAgree | libOTe/libOTe/Dpf/RegularDpf.h:776-787 | Expanding generated keys offline gives the outputs and tags of interactive expansion, with and without values |
| RegularAgreement.ThroughBytes | libOTe/libOTe/Dpf/RegularDpf.h:45-69 | A key written with toBytes and read back with fromBytes expands to the same outputs as the key itself |
| RegularExpand.Expand | libOTe/libOTe/Dpf/RegularDpf.h:281-660 | The run returns exactly when the input checks pass and enough multiplications are left; it uses one multiplication for each level and point; both outputs are those of the key of the same run |
| RegularKeys.KeyGen | libOTe/libOTe/Dpf/RegularDpf.h:255-263 | Returns exactly when the input checks pass and enough multiplications are left. Both keys are those of the reference run; for every level and point the correction word and bit are the sums of both keys' children of the active node, hashed from the seeds on the path, and the leaf value is the value plus both leaves of the point |
| RegularKeys.ExpandKey | libOTe/libOTe/Dpf/RegularDpf.h:776-787 | Throws exactly for a bad party, domain or size. Every output and tag is read off the corrected seed of its leaf, reached from the root seed by AES and the round function; for domain 4 the whole path is spelled out |
| RegularPath.RowsOfStep | libOTe/libOTe/Dpf/RegularDpf.h:533-535 | For every level: if x is the corrected seed of a node, the next level holds the round function of AES(x) and x at its left child, and the sum of AES(x) and x in 64-bit lanes at its right child; the tag is the low bit of x |
| RegularPath.LevelOnPath | libOTe/libOTe/Dpf/RegularDpf.h:486-544 | Every seed of every level of an expansion is the one on its own path from the root, before and after the correction |
| RegularReveal.WordRevealed | libOTe/libOTe/Dpf/RegularDpf.h:393-431 | The word of every level in terms of the two keys: the off-path sum of both parties' raw children, with the low bits corrected |
| RegularReveal.LeafRevealed | libOTe/libOTe/Dpf/RegularDpf.h:598-659 | The leaf value in terms of the two keys: the value plus both leaves at the point |
| RegularReveal.XorBitsAt | libOTe/libOTe/Dpf/RegularDpf.h:393-431 | The active node of a level is numbered by the top bits of the XOR of the two shares of the point |
| RegularKeys.ExpansionsShare | libOTe/libOTe/Dpf/RegularDpf.h:598-659 | Reference expansions share the point function, or agree off the points when no values are given; tags share the indicator |
| RegularExpand.KeyExpandsToRun | libOTe/libOTe/Dpf/RegularDpf.h:338-391 | Reading seed and correction words from a key reproduces the levels of the run that wrote them |
| RegularExpand.Climb | libOTe/libOTe/Dpf/RegularDpf.h:367-545 | The loop over the levels: after every iteration the matrices of both parties hold the reference level |
| RegularDpf.CorrectionWord | libOTe/libOTe/Dpf/RegularDpf.h:393-431 | Both parties obtain the same two correction words: the sum of the off-path children with the low bits set, from one multiplication for each point |
| RegularJoint.JointOnPath | libOTe/libOTe/Dpf/RegularDpf.h:360-367 | At every level of every run: equal seeds and tags off the secret path, complementary tags on it |
| RegularDealer.KeyGen | libOTe/libOTe/Dpf/RegularDpf.h:676-774 | The dealer returns exactly when the sizes are accepted and the domain has at least two leaves; seeds, words and bits are those of the reference run for all points, leaf values for the points among the leaves; without values it deals no tree. Every word and leaf value is written out from the two dealt keys |
| RegularReveal.ChecksPass | libOTe/libOTe/Dpf/RegularDpf.h:736-741 | The three internal checks of the dealer hold at every level |
| RegularDealer.DealTree | libOTe/libOTe/Dpf/RegularDpf.h:708-753 | Following only the path yields the correction words of the full tree |
| RegularDealer.KeysSame | libOTe/libOTe/Dpf/RegularDpf.h:281-660 | Keys depend on shares of points and values only through what they share |
| RegularKeyBytes.ToBytes | libOTe/libOTe/Dpf/RegularDpf.h:45-56 | Byte by byte: byte j of a block holds its bits 8j to 8j + 7; the seed comes first, the correction words follow row by row from offset 16, then one byte for each flag, 0 or 1, then the leaf values. A buffer of any other size throws and stays as it was |
| RegularKeyBytes.FromBytes | libOTe/libOTe/Dpf/RegularDpf.h:58-69 | The same layout read back: blocks from their bytes, each flag from the low bit of its byte; any other size throws |
| RegularKeyBytes.WriteAndRead | libOTe/libOTe/Dpf/RegularDpf.h:45-69 | A key written to a buffer and read back from it is the same key, for every shape; only a buffer of the wrong size is refused |
| RegularDpf.RegularDpf.Init | libOTe/libOTe/Dpf/RegularDpf.h:219-236 | init accepts exactly parties 0 and 1, domains of at least 2 and at least one point, and asks for depth multiplications a point |
| DpfPath.StepKeepsPath | libOTe/libOTe/Dpf/RegularDpf.h:360-366 | One level for one tree, binary or ternary: a good correction word keeps the path invariant and moves it to the active child |
| DpfBatch.BatchStep | libOTe/libOTe/Dpf/TernaryDpf.h:225-290 | The same for a batch of trees that advance together |
| DpfBuffers.ExpandLevel | libOTe/libOTe/Dpf/RegularDpf.h:486-544 | Expanding a level through the three rotating matrices: seeds become tags in place, all children land in the third matrix, the sums are those of the children |
| DpfExpansion.Expansion.Advance | libOTe/libOTe/Dpf/TernaryDpf.h:206-291 | One iteration moves the object from level to level; the level still needed by the next iteration is intact |
| DpfReconstruct.OutputPair | libOTe/libOTe/Dpf/TernaryDpf.h:349-394 | One leaf of one tree: both outputs add up to the shared value at the point and to zero elsewhere |
| DpfReconstruct.LeavesShare | libOTe/libOTe/Dpf/TernaryDpf.h:399-416 | Without values: outputs agree off the point, and the tags share the indicator |
| DpfMult.Multiply | libOTe/libOTe/Dpf/DpfMult.h:89-142 | Both parties' results share x * y for every pair, and each is the party's own sum of the terms that its transfers and the exchanged differences give; the call returns exactly when the sizes agree and enough transfers are left, and advances the index by the number of products |
| DpfMult.DpfMult.SetBaseOts | libOTe/libOTe/Dpf/DpfMult.h:146-162 | Wrong sizes throw; otherwise the transfers are stored and the index restarts |
| TernaryExpand.Expand | libOTe/libOTe/Dpf/TernaryDpf.h:79-417 | For every domain, also ones that are not powers of 3, and points shared tritwise: outputs reconstruct the point function and tags its indicator, for any context whose plus is XOR-like; accepted exactly when the input checks pass; each party sends, masks and receives with every transfer of the run exactly once and in order. Every output and tag is read off its own path from the drawn root seeds, every word and leaf value off both parties' seeds |
| TernaryPath.LevelOnPath | libOTe/libOTe/Dpf/TernaryDpf.h:206-291 | Every seed of every level is the one on its own path: block 3k + r of the stream at the top, below it AES of the parent's corrected seed under the key of the child |
| TernaryPath.RevealNext | libOTe/libOTe/Dpf/TernaryDpf.h:420-557 | The next correction word: the sums of both parties' children of the active node, the active one shifted by the two drawn blocks with their low bits set to 0 and 1 |
| TernaryDpf.TernaryDpf.SendTree | libOTe/libOTe/Dpf/TernaryDpf.h:446-498 | What a party sends for one tree, from its four transfer messages, its trit and its drawn block: every entry of the mask and of the two tables |
| TernaryProtocol.CorrectionWord | libOTe/libOTe/Dpf/TernaryDpf.h:420-557 | Both parties end with the same three correction words, after two transfers a point: the sum of both parties' sums, shifted at the sum of the two trits |
| TernaryCorrection.RevealedSigma | libOTe/libOTe/Dpf/TernaryDpf.h:446-555 | For every pair of trits and correlated transfers: the revealed word is the XOR of both parties' sums, shifted at the active child by r0 ^ r1 |
| TernaryCorrection.ReceiverKey | libOTe/libOTe/Dpf/TernaryDpf.h:500-505 | A 1-of-3 key from two 1-of-2 transfers: the receiver gets the key of its own trit |
| TernaryExpand.Trivial | libOTe/libOTe/Dpf/TernaryDpf.h:98-125 | Domain 1: the shares themselves, or, when no values are given, block i of the stream for point i; all tags are those of party 1 |
| Trits.FromIntToInt | OLE.h:176-188 | F3x32 built from a number below 3^n and read back with toInt is that number, n up to 32 |
| Trits.FromInt | OLE.h:176-188 | Field i is v div 3^i mod 3 |
| Trits.ToInt | OLE.h:185-188 | The number below 3^32 whose digit i in base 3 is field i |
| Trits.SumIsAddIdx | OLE.h:96-100 | The sum of two F3x32 read with toInt is the tritwise sum of the two indices |
| IntPower.Ipow | OLE.h:144-146 | ipow, by repeated squaring, returns the power for every base and exponent |
| SparseExpand.Expand | libOTe/libOTe/Dpf/SparseDpf.h:221-515 | For every dense depth and increasing points below the domain in every row, when the XOR-shared point is a listed one: tags share its indicator and outputs share zero at all other listed points; at the point they share the value, plus the difference of the dense leaves of its bin if the bin lists no other point. So the value is right if and only if another listed point has the same high bits or the two leaves are equal; without a dense part it always is. A run ends normally exactly when the transfers left cover the dense levels and, below them, the points times the levels on which two points of some row separate; it uses exactly these |
| SparseExpand.RunCost | libOTe/libOTe/Dpf/SparseDpf.h:371-395 | That cost written out: the points times the dense depth, and the points times the number of bits in which, for some row, two neighbouring points differ that agree above it |
| SparseEnds.RootRow | libOTe/libOTe/Dpf/SparseDpf.h:329-358 | Without a dense part every output and tag is read off the path from the two drawn seeds of the row: a seed is corrected with the words of the level it hangs from and hashed, with its low bit flipped for the right half, at every bit in which the points left with it differ |
| SparseEnds.BinsRow | libOTe/libOTe/Dpf/SparseDpf.h:280-328 | With a dense part the path starts with two hashes of the leaf of the bin in the tree of the party's own key, or ends with that leaf if the bin lists one point |
| SparseEnds.BinOf | libOTe/libOTe/Dpf/SparseDpf.h:280-304 | Every listed point lies in a bin: a maximal run of points with the same high bits |
| SparsePath.StepTraces | libOTe/libOTe/Dpf/SparseDpf.h:429-468 | Expanding one node changes the leaf and tag of no point, for any words that are revealed later |
| SparseExpand.SuppliedCanRun | libOTe/libOTe/Dpf/SparseDpf.h:58-87 | The transfers that setBaseOts asks for cover every choice of rows |
| SparseLone.LoneRun | libOTe/libOTe/Dpf/SparseDpf.h:298-304 | A run on listed points 0 and 1 with a dense part of depth 1, for all seeds, values and transfers and either secret point: with the identity as round function the outputs do not share the value |
| SparseDense.Dense | libOTe/libOTe/Dpf/SparseDpf.h:265-289 | The dense part gives both parties the same seed and tag in every bin, except that the tags differ in the bin of the secret point |
| SparsePlant.PlantBins | libOTe/libOTe/Dpf/SparseDpf.h:280-328 | The loop over the bins of a row: bins of one point set their leaf at once, every other bin starts two nodes whose seeds are the hashes of its leaf and of its leaf with the low bit flipped; both parties stay paired |
| SparseRow.GraftTogether | libOTe/libOTe/Dpf/SparseDpf.h:306-325 | One more bin keeps the two-party invariant, also when its sums meet those of other bins on the same level |
| SparseDpf.SparseDpf.SetBaseOts | libOTe/libOTe/Dpf/SparseDpf.h:58-87 | The first transfers go to the dense part and the others to the levels below it; wrong sizes throw |
| SparseDpf.CloseLevel | libOTe/libOTe/Dpf/SparseDpf.h:361-416 | The correction words of one level for all rows. It costs one multiplication for each row if two points of some row separate on the level, and none otherwise; the step fails exactly when these are not left |
| SparseLevels.UsedIff | libOTe/libOTe/Dpf/SparseDpf.h:371-395 | When a level comes up, its flag is set exactly if two neighbouring listed points agree above that bit and differ in it |
| SparseRow.RevealedWords | libOTe/libOTe/Dpf/SparseDpf.h:376-405 | What the parties reveal: the sum of the off-path side, and both low bits corrected |
| SparseRow.ExpandLevel | libOTe/libOTe/Dpf/SparseDpf.h:424-469 | Expanding all nodes of a level keeps the two-party invariant |
| SparsePair.StepTogether | libOTe/libOTe/Dpf/SparseDpf.h:429-468 | One node: both parties stay paired, each point keeps exactly one pending node, the path moves into the half that holds the point |
| SparsePair.CloseTogether | libOTe/libOTe/Dpf/SparseDpf.h:410-415 | Setting the correction words of a level closes it |
| SparseRow.LeafRow | libOTe/libOTe/Dpf/SparseDpf.h:471-495 | Every listed point gets exactly one leaf, at its own place |
| SparseSplit.Partition | libOTe/libOTe/Dpf/SparseDpf.h:139-164 | Terminates on every increasing range with the highest bit in which two points differ, and two non-empty halves that split it |
| SparseSplit.SplitUnique | libOTe/libOTe/Dpf/SparseDpf.h:139-164 | Level and middle are determined by the range, so both parties split alike |
| SparseTree.ExpandNode | libOTe/libOTe/Dpf/SparseDpf.h:429-468 | One iteration of the inner loop; both halves go to strictly lower levels |
| VoleRun.SilentVole | SilentWalshVoleReceiver.h:424-548 | Both parties configured for L correlations run to the end exactly when L is a positive multiple of 128 and n <= L, with base transfers set before or generated on the way; the sender programs the negated shares at the points of the receiver. The vectors before the transform are written out entry by entry: at leaf draw mod domain of every tree the tree's noise and share, nothing elsewhere. For every F4-linear product by delta, mA = mB + mC * delta then holds on the whole compressed vectors if and only if the entries that the resize adds are correlated, and always when it adds none |
| VoleRun.CompressionSafeIff | SilentWalshVoleReceiver.h:523-529 | For every additive product and every length L > 1: all correlated vectors stay correlated, whatever the added entries hold, if and only if the product is F4-linear and some power of three 3^m <= L has L^2 < 3^(2m + 1) |
| VoleRun.SafeSizes | SilentWalshVoleReceiver.h:523-529 | The same for one triple of vectors and an F4-linear product: only the length matters |
| VoleRun.GrowthBreaks | SilentWalshVoleReceiver.h:523-529 | A length that both parties accept and that fails: 640 entries grow to 729 |
| VoleRun.UnitRun | SilentWalshVoleSender.h:30-36 | For a product that is additive and not F4-linear, as the context parameter allows, a whole run at every accepted length whose outputs are not correlated, although added entries are zero |
| VoleContext.SpectraKeepIff | SilentWalshVoleReceiver.h:528-529 | foleageFft keeps the correlation of all vectors of 3^k entries, k > 0, if and only if the product is F4-linear |
| VoleContext.F4ContextKeeps | Coeff128.h:125-131 | The product of CoeffCtxGF128_F4 is one that is kept, for every delta |
| VoleContext.FieldContextFails | libOTe/libOTe/Tools/CoeffCtx.h:373-379 | The product of the default context, for delta = X: multiplication by X in GF(2)[X] / (X^128 + X^7 + X^2 + X + 1) is additive and not F4-linear: it fails on the block 1 |
| VoleRun.SilentOutputs | SilentWalshVoleReceiver.h:397-415 | silentSend and silentReceive of both parties: the copies stay inside the vectors exactly when n is at most the power of three nearest to L; then the n outputs are correlated if L is a safe length and the product F4-linear |
| VoleRun.NeverWhole | SilentWalshVoleReceiver.h:408-411 | If as many entries are requested as were configured, either the vectors have grown or the copies leave them, and never both |
| VoleRun.CopyLeaves | SilentWalshVoleSender.h:297-299 | L = n = 128 is accepted and leaves 81 entries to copy 128 from |
| VoleLength.RoundsUnique | SilentWalshVoleReceiver.h:523-524 | The rounded logarithm in integers, 3^(2k - 1) <= L^2 < 3^(2k + 1), determines k |
| VoleLength.NeverKept | SilentWalshVoleReceiver.h:523-529 | No length that both parties accept is a power of three: the vectors are always cut or grown |
| PprfPoints.PointsDistinct | libOTe/libOTe/Tools/Pprf/RegularPprf.h:661-697 | Points in interleaved format lie in different partitions, so they are distinct and inside the vector |
| PprfPoints.PointsPlaced | libOTe/libOTe/Tools/Pprf/RegularPprf.h:661-697 | Point j lies in lane j mod 8 and partition j div 8, at the leaf that the draw for tree j gives: draw mod domain |
| VoleProtocol.Receiver.SampleBaseChoiceBits | libOTe/libOTe/Tools/Pprf/RegularPprf.h:585-600 | Leaf j is draw j mod domain, for every tree |
| VoleProtocol.Sender.SilentSend | SilentWalshVoleSender.h:291-303 | The same sizes; the first n entries if they are there, and everything cleared |
| VoleProtocol.Receiver.SilentReceive | SilentWalshVoleReceiver.h:397-415 | The same for both vectors of the receiver, with the planted noise written out |
| VoleProtocol.Sender.SilentSendInplace | SilentWalshVoleSender.h:310-400 | Returns exactly when the size in force is a positive multiple of 128 and at least n; leaves the expanded vector, resized and transformed |
| VoleProtocol.Receiver.SilentReceiveInplace | SilentWalshVoleReceiver.h:424-548 | The same for the receiver: both vectors patched at the points, with leaf draw mod domain for every tree and its noise and share at that place, resized and transformed, and the state reset |
| VoleProtocol.PatchedCorrelated | SilentWalshVoleReceiver.h:463-492 | Patching the noisy positions correlates the whole sparse vector |
| Vole.SpectraReveal | SilentWalshVoleReceiver.h:528-529 | Correlated transforms come from correlated vectors only |
| Primes.AcceptedIffPrime | libOTe/libOTe/Tools/Tools.cpp:83-100 | For all 64-bit n and any number of rounds: n is accepted whatever words are drawn if and only if n is a prime up to 2^32. Past 2^32 products wrap around and every prime is rejected for some words |
| Primes.IsPrime | libOTe/libOTe/Tools/Tools.cpp:83-100 | For 4 < n <= 2^32: true if and only if n passes to the base 2 + word mod (n - 4) of every one of the k words; the words are used one by one, up to the first that rejects |
| StrongLiars.NeverAcceptedIff | libOTe/libOTe/Tools/Tools.cpp:80-100 | For n up to 2^32 and any number of rounds: n is rejected whatever words are drawn if and only if n < 2, n = 4, or no odd prime divides both n - 1 and p - 1 for a prime factor p of n and n is even or has a prime factor 3 modulo 4 |
| StrongLiars.LiarsIff | libOTe/libOTe/Tools/Tools.cpp:50-78 | For every n > 4, without bound: n fails to every base the code can draw if and only if its prime factors meet that condition |
| Primes.CompositeMayPass | libOTe/libOTe/Tools/Tools.cpp:80-82 | A composite number can be accepted in any number of rounds: 25 to base 7 |
| StrongLiars.EvenMayPass | libOTe/libOTe/Tools/Tools.cpp:80-82 | So can an even one: 28 to base 9 |
| Primes.MillerTest | libOTe/libOTe/Tools/Tools.cpp:50-78 | The loop on wrapping words answers as the chain of wrapped squarings says, for all 64-bit n |
| Primes.TestedExact | libOTe/libOTe/Tools/Tools.cpp:50-78 | Up to 2^32 that chain is the chain of powers, so the test is the mathematical one |
| Primes.PrimeIffAllPass | libOTe/libOTe/Tools/Tools.cpp:50-78 | n > 4 is prime if and only if it passes to every base the code can draw, 2 to n - 3 |
| Primes.NextPrime | libOTe/libOTe/Tools/Tools.cpp:109-116 | No prime up to 2^32 is skipped: the result lies between n and every such prime that is at least n, and was accepted |
| PowerSums.NotAllOnes | libOTe/libOTe/Tools/Tools.cpp:50-78 | For 0 < e < p - 1 some unit modulo a prime p has a power x^e other than 1 |
| Primes.PowerExactIff | libOTe/libOTe/Tools/Tools.cpp:27-44 | power equals x^y mod p on all 64-bit inputs if and only if p > 1 and (p <= 2^32 or p divides 2^64): otherwise a product wraps around |
| Primes.Power | libOTe/libOTe/Tools/Tools.cpp:27-44 | The loop on wrapping words, and its exactness for those moduli |
| Eklundh.Transpose128 | libOTe/libOTe/Tools/Tools.cpp:141-263 | Seven rounds leave the exact transpose of every 128 x 128 bit matrix: bit c of row r is what bit r of row c was |
| Eklundh.RoundExchanges | libOTe/libOTe/Tools/Tools.cpp:162-246 | After round i the top i + 1 bits of row and column index are exchanged for every entry |
| Eklundh.Round | libOTe/libOTe/Tools/Tools.cpp:162-246 | One round exchanges the bit of weight 64 / 2^i of row and column index, and touches every pair of rows once |
| Eklundh.TwiceIsSame | libOTe/libOTe/Tools/Tools.cpp:141-263 | Transposing twice restores the matrix |
| TiledTranspose.Transpose | libOTe/libOTe/Tools/Tools.cpp:717-834 | For every number of rows and columns, with partial bytes and partial squares: bit (r, c) goes to bit (c, r) for all r and c with a place on both sides, the rest of the last byte of a row is cleared, nothing else changes, and no access leaves a buffer |
| TiledTranspose.ThereAndBack | libOTe/libOTe/Tools/Tools.cpp:717-834 | Transposing into a matrix of matching size and back restores every matrix |
| QuasiCyclic.BitShiftXor | libOTe/libOTe/Tools/QuasiCyclicCode.h:55-140 | For shifts 0 to 127 bit b of block i of dest gains bit 128 i + b + shift of the input, zero past its end; larger shifts throw |
| QuasiCyclic.Modp | libOTe/libOTe/Tools/QuasiCyclicCode.h:142-187 | For every p and all lengths the checks admit: dest[j] is the XOR of in[i p + j] for j < p and zero above, whatever dest held before |
| QuasiCyclic.FoldIsParity | libOTe/libOTe/Tools/QuasiCyclicCode.h:142-187 | The folded bit j is the parity of the input bits at all positions that leave remainder j modulo p |
| QuasiCyclic.FoldIsRemainder | libOTe/libOTe/Tools/QuasiCyclicCode.h:142-187 | The folded bits are the remainder of the division by x^p - 1, with an explicit quotient |
| LinearCode.LinearCode.Encode | libOTe/libOTe/Tools/LinearCode.cpp:447-707 | On every path the codeword is the XOR of the generator rows that the plaintext selects, for every content of the rest of the local byte buffer; bytes past the codeword are unchanged |
| LinearCode.CodewordBit | libOTe/libOTe/Tools/LinearCode.cpp:447-455 | A bit of the codeword is the parity of the rows that the plaintext selects and that have this bit set |
| LinearCode.LinearCode.EncodeBch511 | libOTe/libOTe/Tools/LinearCode.cpp:709-804 | The unrolled version yields the same codeword where its asserts hold |
| LinearCode.LinearCode.GenerateMod8Table | libOTe/libOTe/Tools/LinearCode.cpp:229-309 | The table is built exactly when the plaintext has at most 512 bits |
| CodeTable.Fill | libOTe/libOTe/Tools/LinearCode.cpp:286-308 | Entry (i, v) is the sum of the rows of byte i that value v selects, zero beyond the codeword |
| LinearCode.TotalIsPlain | libOTe/libOTe/Tools/LinearCode.cpp:450-455 | Summing table entries over the byte buffer selects the rows of the plaintext, whatever follows it |
| LinearCode.PlainIsLinear | libOTe/libOTe/Tools/LinearCode.cpp:447-455 | The code is linear in the plaintext |
| LinearCode.UnitSelectsRow | libOTe/libOTe/Tools/LinearCode.cpp:447-455 | A plaintext with one bit set has that row of the matrix as its codeword |

## Left out

- Secrecy and simulation: only functional correctness is stated.
- Sockets, coroutines, threads, timers, base-OT generation and the inside of AES, hashing, PRNG and punctured PRF.
- Integer width where it cannot matter: sizes, indices and loop counters are unbounded except in `Primes`, where the 64-bit wrap-around is part of the model; `int num_points` and 64-bit powers of three overflow only for vectors that cannot be stored.
- The eight-fold unrolled bodies (`SIMD8`): they repeat the scalar loops that follow them.
- Debug-only code: assertions on zero leaves, `checkRT`, and the disabled comparison of correction words in RegularDpf.h.
- Ole.ExtensionFieldOle: block number and offset of a position have at most 32 trits each, the width of F3x32 (the same holds for the general version).
- OleDpf.Dpf: the coefficient context is that of F4; the ternary DPF below it is proved for every context whose plus is XOR-like.
- RegularExpand.Expand: both parties give values or neither does (otherwise one of them waits for a message that is never sent; the same holds for the ternary and sparse protocols); the last layer returns the leaves as a table, where the code overwrites the seeds of the last matrix.
- RegularAgreement.GeneratorsAgree: at least one value is given; without values the dealer produces no correction words at all, because its loop runs over the values.
- RegularKeyBytes.FromBytes: flags are bits; of a byte other than 0 and 1, which toBytes never writes, the model keeps the low bit.
- DpfMult.Multiply: the result is a new sequence, where callers of the source pass the same buffer for input and output; the loop reads each entry before it writes it.
- SparseExpand.Expand: the five parallel vectors of a level are one vector of records, and trees are values; without a dense part a row lists at least two points, as `partition` needs.
- SparseDpf.SparseDpf.SetBaseOts: the dense part is as `init` of the same object left it; an object that was used with a dense part before and is initialised without one is not covered.
- VoleRun.SilentVole: the product by delta is any additive map, where the context gives one for each delta; the malicious check and the configuration from a code are not modelled; choice bits are kept as the leaf numbers they spell; the logarithm is rounded exactly, not in floating point, and 3^k is not cut to an `int`; contents of entries added by a resize are arbitrary.
- VoleProtocol.Receiver.SilentReceiveInplace: base transfers that are set from outside come with 64 points, values and shares for the present configuration; the source reads past its vectors otherwise.
- VoleContext.FieldContextFails: `gf128Mul` itself is not part of this model; the modulus is that of GCM, of which the proof needs only that X times 1 is X and X times X is X^2.
- VoleProtocol.Receiver.SilentReceive: both output vectors have the same length n (the source throws otherwise), and nothing is said of entries copied from past the end.
- Primes.NextPrime: past 2^32 nothing is said about which numbers are skipped.
- TiledTranspose.Transpose: the primitive is `eklundh_transpose128`, proved exact here, in place of the template recursion of `avx_transpose128`; the input view is a value and does not overlap the output.
- LinearCode.LinearCode.Encode: loading and writing of matrices, and the overload on blocks.
- The alignment check of `bitShiftXor`; blocks are always aligned in the model.
- The SSE transpositions, `mul190`, the polynomial FFT kernels, chosen-message wrappers of OT, parameter tables that use floating point, front end, tests and benchmarks.
- Irreducibility of the degree-64 modulus: the ring laws are all that the OLE and VOLE theorems use.

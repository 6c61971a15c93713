# TorchInferno: verified models of its kernels, protocols and layouts

This project models the parts of TorchInferno whose correctness is least visible in their code, and proves what
they promise for all inputs, all runs and all interleavings. Each module follows one component; helper modules
hold sums (`RealSums`, `IndexSums`), magnitudes (`RealMath`), rounding (`Rounding`), quotients (`IntMath`),
optional values (`Options`) and nibbles (`Nibbles`).

* **Speculative decoding** (`SpecDecode`). A causal network is two functions over the cache entries of the
  earlier positions. The cache is one array of slots with a length; a forward reads whatever the slots hold, so a
  stale slot would show. The draft, verify and roll-back loop emits exactly the greedy stream, for every prompt,
  length, n-gram size, draft length and, for the stream itself, every proposer. The script's docstring puts the
  length back to `pos + J`; its code to `pos + len(emit)`, which is `pos + J + 1` for `J` accepted drafts. The
  model follows the code, whose value is the one that keeps the cache invariant.
* **Numeric kernels**, in exact real arithmetic with any positive `exp` that turns sums into products.
  `OnlineSoftmax` (blocked attention with a running maximum, with infinities and NaN written out),
  `BlockGemm` (FP8 and FP4 block-scaled products), `PrenormGemm` (strided and warp-reduced dot products),
  `Sinkhorn`, and `RoundScale` and `ScaleProduct` (the power-of-two scale, on 32-bit patterns, with the product that
  leads to it rounded to single precision).
* **FX subgraph extraction** (`FxGraph`, `FxSubgraph`): graphs with an interpreter, extraction with its environment,
  the capture that stops early, and the replay.
* **Protocols and parsers**: the kernel-artifact directory shared by builders and readers that may crash at any
  file-system step (`ArtifactProtocol`, `ArtifactInstall`), the incremental HTTP reader (`HttpHead`, `HttpReader`,
  `HttpPipeline`), the chunked event stream (`SseStream`, `SseHead`), and the engine's request and cancel state (`Engine`).
* **Packed layouts**: NVFP4 (`Nvfp4`), four-bit groups (`Int4`), and the Marlin tiles, permutation, words and scales
  (`MarlinLayout`, `MarlinWords`, `MarlinRepack`, `MarlinScales`, `MarlinInt4`), and the routing buffers
  (`RoutingBuffers`).

Six properties turned out to hold only under a condition; each is proved as an exact condition:

* attention: the kernel equals the direct formula exactly when the list is empty or its first 64 entries hold a
  valid index, and is NaN otherwise (`OnlineSoftmax.SparseAttention`);
* request reading does not depend on how bytes arrive exactly for the streams of `HttpReader.DeliveryProof`: a header
  that ends between 65538 and 131072 bytes, or a negative Content-Length that reaches into what was received, makes
  the result depend on the segmentation (`HttpReader.IndependentIff`);
* the rounded scale is the least power of two exactly from half the smallest normal number up to 2^127
  (`RoundScale.RoundScaleIff`);
* the projection kernel is right for every input exactly when every warp is full, the thread count divides the width,
  there is an output, and no tile has more outputs than a warp has lanes (`PrenormGemm.CorrectIff`);
* a load of an artifact raises, in some run, exactly when a directory without some file, or with a parsed file cut
  short, was there before any process ran (`ArtifactProtocol.LoadFailsIff`), and accepts a truncated file exactly when
  one with only other files cut short was (`ArtifactProtocol.TruncatedLoadIff`); a directory with metadata is never
  repaired;
* the last cancel of an open stream is lost exactly when another stream of the same id begins or leaves before the
  stream's next turn (`Engine.CancelLostIff`, with schedules that lose it).

## Model

| member | source | states |
|---|---|---|
| SpecDecode.SlotCache.Forward | scripts/validate_prompt_lookup_specdecode.py:40-46 | writes the entries of `toks` behind `start`, computed from whatever the slots before hold, sets the length behind them, leaves later slots alone, and predicts at every position |
| SpecDecode.Baseline | scripts/validate_prompt_lookup_specdecode.py:50-53 | one forward a token gives exactly the greedy stream, with the cache holding the true sequence and every write beginning at the cache length |
| SpecDecode.Propose | scripts/validate_prompt_lookup_specdecode.py:59-62 | the draft is what followed the most recent earlier occurrence of the last n-gram, at most K tokens of it, and empty when there is none |
| SpecDecode.Accept | scripts/validate_prompt_lookup_specdecode.py:66-69 | takes the predictions up to and including the first whose draft disagrees, and no more and no fewer |
| SpecDecode.VerifyDraft | scripts/validate_prompt_lookup_specdecode.py:63-71 | whatever is drafted, a verification adds the greedy tokens up to the first draft token that is wrong and one more, cut only to `room`, and the slots up to the last but one of them hold the true sequence |
| SpecDecode.DraftStep | scripts/validate_prompt_lookup_specdecode.py:63-73 | one step for any draft: after the length is set back, every slot below it holds the true sequence and the next write starts there |
| SpecDecode.VerifiedIsGreedy | scripts/validate_prompt_lookup_specdecode.py:64-69 | every prediction up to the first disagreement is the token greedy decoding would emit |
| SpecDecode.RollbackHolds | scripts/validate_prompt_lookup_specdecode.py:72-73 | cutting the cache behind the emitted tokens leaves exactly the entries of the true sequence but its last token |
| SpecDecode.StepKeeps | scripts/validate_prompt_lookup_specdecode.py:63-73 | both of the above from the cache invariant alone |
| SpecDecode.PromptLookup | scripts/validate_prompt_lookup_specdecode.py:55-73 | the emitted tokens are the greedy ones; forwards are the calls of the cache, one for every jump over the greedy text, and each jump goes exactly as far as what lookup proposes agrees with that text, and one token more; forwards + accepted = emitted, and no write leaves the first prompt + target + K slots |
| SpecDecode.SameJumps | scripts/validate_prompt_lookup_specdecode.py:57-70 | the jumps, and so the number of forwards, are determined by the greedy text, the n-gram size and the draft length |
| SpecDecode.Compare | scripts/validate_prompt_lookup_specdecode.py:48-74 | the script's comparison always succeeds, both counts are the forwards the two caches saw, the speculative ones are the jumps over the greedy text, and with the accepted tokens they add up to the baseline forwards |
| SpecDecode.AnyProposer | scripts/validate_prompt_lookup_specdecode.py:56-71 | with any function of the tokens so far as the proposer, the stream is the greedy one |
| SpecDecode.ReservedPagesSuffice | scripts/validate_prompt_lookup_specdecode.py:38-49 | for every prompt the block table and the reserved pages cover prompt + target + draft length |
| SpecDecode.Validate | scripts/validate_prompt_lookup_specdecode.py:28-74 | with the script's own constants and reserved pages the comparison succeeds for every model and prompt |
| SpecDecode.PredsAt | scripts/validate_prompt_lookup_specdecode.py:45-46 | the prediction at each position depends only on the entries before it and its own token |
| SpecDecode.GreedyPrefix | scripts/validate_prompt_lookup_specdecode.py:51-53 | shorter greedy streams are prefixes of longer ones |
| OnlineSoftmax.SparseAttention | src/torchinferno/kernels/deepseek_v4_tilelang_definitions.py:549-583 | for every index list and placement of -1, each output is the direct softmax with sink over the valid entries if the list is empty or one of its first 64 entries is not -1, and NaN otherwise |
| OnlineSoftmax.KernelIsAttention | src/torchinferno/kernels/deepseek_v4_tilelang_definitions.py:554-581 | folding any number of blocks and dividing gives that value |
| OnlineSoftmax.GoodStep | src/torchinferno/kernels/deepseek_v4_tilelang_definitions.py:564-576 | a block keeps: the maximum is the largest score so far, the sum and the accumulator are the sums of weights and weighted values relative to it |
| OnlineSoftmax.FirstStep | src/torchinferno/kernels/deepseek_v4_tilelang_definitions.py:549-576 | the first block establishes that, or NaN if it has no valid index |
| OnlineSoftmax.BrokenStep | src/torchinferno/kernels/deepseek_v4_tilelang_definitions.py:572-576 | NaN in sum and accumulator is never repaired by a later block |
| OnlineSoftmax.Rescaled | src/torchinferno/kernels/deepseek_v4_tilelang_definitions.py:566-575 | changing the reference maximum multiplies both sums by exp of the difference |
| OnlineSoftmax.RunMaxIs | src/torchinferno/kernels/deepseek_v4_tilelang_definitions.py:564-565 | the reduction is the largest of the previous maximum and the valid scores |
| OnlineSoftmax.FoldIs | src/torchinferno/kernels/deepseek_v4_tilelang_definitions.py:554-576 | after any number of blocks the state is good for exactly the entries read, padding included, or broken from the first block on |
| OnlineSoftmax.FinishGood | src/torchinferno/kernels/deepseek_v4_tilelang_definitions.py:578-581 | adding the sink and dividing removes the reference maximum |
| OnlineSoftmax.AttentionPadded | src/torchinferno/kernels/deepseek_v4_tilelang_definitions.py:555-560 | padding the last block with -1 does not change the formula |
| OnlineSoftmax.OrderDoesNotMatter | src/torchinferno/kernels/deepseek_v4_tilelang_definitions.py:549-582 | permuting the index list leaves the result, as long as in both orders one of the first 64 entries is not -1 |
| OnlineSoftmax.ScoreIs | src/torchinferno/kernels/deepseek_v4_tilelang_definitions.py:561-563 | the score of a valid index is the sum of the products of query and key over the columns, scaled |
| OnlineSoftmax.EarlyIsFirstBlock | src/torchinferno/kernels/deepseek_v4_tilelang_definitions.py:554-560 | the first block holds a valid index if and only if one of the first 64 entries of the list is not -1 |
| RealSums.SumReorder | src/torchinferno/kernels/deepseek_v4_tilelang_definitions.py:570-576 | a sum depends on the multiset of its entries only |
| BlockGemm.Fp8IsDequantised | src/torchinferno/kernels/deepseek_v4_tilelang_definitions.py:470-483 | per-tile products times both scales accumulate to the sum over k < K of the products of the dequantised entries, a ragged last tile included; outside the matrices to zero |
| BlockGemm.Fp4IsDequantised | src/torchinferno/kernels/deepseek_v4_tilelang_definitions.py:723-743 | the same with weight groups of 32 and the activation scale of tile k // 4 |
| BlockGemm.Fp8Block | src/torchinferno/kernels/deepseek_v4_tilelang_definitions.py:465-483 | the two fragments, one cleared every tile, leave the dequantised product in the accumulator |
| BlockGemm.Fp4Block | src/torchinferno/kernels/deepseek_v4_tilelang_definitions.py:719-743 | the same for FP4 |
| BlockGemm.BlockScaledGemm | src/torchinferno/kernels/deepseek_v4_tilelang_definitions.py:454-485 | every C[m, n] is the sum over k < K of (A[m, k] * scaleA[m, k // 128]) * (B[n, k] * scaleB[n // 128, k // 128]), for FP4 with scaleB[n, k // 32], in terms of the entries and not of the masked loads |
| BlockGemm.Grid | src/torchinferno/kernels/deepseek_v4_tilelang_definitions.py:454-485 | the grid of 32 by 128 blocks writes every element of C, each with its accumulated value |
| IndexSums.RangeTiles | src/torchinferno/kernels/deepseek_v4_tilelang_definitions.py:470-483 | sums of tiles add up to the sum of the range |
| PrenormGemm.WarpsAreThreads | src/torchinferno/kernels/deepseek_v4_tilelang_definitions.py:222-250 | for any thread count the reduction sums the threads of the full warps and drops those of a partial one |
| PrenormGemm.BlockSumIs | src/torchinferno/kernels/deepseek_v4_tilelang_definitions.py:210-250 | strided per-thread sums, reduced by full warps and then over warps, are the plain sum of the entries read |
| PrenormGemm.Reduce | src/torchinferno/kernels/deepseek_v4_tilelang_definitions.py:222-250 | the reduction through the shared array of one slot a full warp; a partial warp stores past that array |
| PrenormGemm.HcPrenorm | src/torchinferno/kernels/deepseek_v4_tilelang_definitions.py:204-250 | for every shape, thread count and tile size, exactly what the grid stores: an output only where a lane of the first warp is there for it, the square only by a first tile, and whether a thread stores past the shared array |
| PrenormGemm.CorrectIff | src/torchinferno/kernels/deepseek_v4_tilelang_definitions.py:193-250 | no stray store, every output the dot product with its weight row and the square the squared norm, for every value and weight, if and only if every warp is full, the thread count divides the width, there is an output, and there are at most 32 outputs or at most 32 a tile |
| PrenormGemm.DefaultsCorrectIff | src/torchinferno/kernels/deepseek_v4_tilelang.py:337-356 | with the default thread count and tile and a width the wrapper accepts, an empty list of outputs is the only failure |
| PrenormGemm.DotExactlyWhenDivides | src/torchinferno/kernels/deepseek_v4_tilelang_definitions.py:194-250 | for any thread count, the reduced sum is the dot product for every row if and only if the width is 0, or every warp is full and the thread count divides the width |
| RoundScale.Log2CeilIs | src/torchinferno/kernels/deepseek_v4_tilelang_definitions.py:255-260 | the unsigned subtraction and cast give exponent - 127, plus 1 for a nonzero mantissa, for every bit pattern |
| RoundScale.Pow2BitsIs | src/torchinferno/kernels/deepseek_v4_tilelang_definitions.py:263-266 | the shifted exponent is the float 2^k for -126 <= k <= 127 |
| RoundScale.NormalScale | src/torchinferno/kernels/deepseek_v4_tilelang_definitions.py:255-270 | for normal floats up to 2^127 the result is the least power of two, and past that it is not finite |
| RoundScale.SubnormalScale | src/torchinferno/kernels/deepseek_v4_tilelang_definitions.py:255-270 | for subnormal floats it is the least power of two exactly above half the smallest normal |
| RoundScale.RoundScaleIff | src/torchinferno/kernels/deepseek_v4_tilelang_definitions.py:255-270 | for every positive finite float, the result is a finite 2^k with 2^(k-1) < p <= 2^k if and only if 2^-127 < p <= 2^127 |
| RoundScale.ClampNeverBites | src/torchinferno/kernels/deepseek_v4_tilelang_definitions.py:316-329 | with any scale not below the ratio, no element of the group is clamped |
| ScaleProduct.TimesIsRounded | src/torchinferno/kernels/deepseek_v4_tilelang_definitions.py:269-270 | the modelled product of two normal floats is the exact product rounded to nearest: off by at most half a unit in the last place |
| ScaleProduct.ReciprocalsNearest | src/torchinferno/kernels/deepseek_v4_tilelang_definitions.py:282-368 | the constants for 1 / 448 and 1 / 6 are the floats nearest to them, both slightly above |
| ScaleProduct.FloorsNearest | src/torchinferno/kernels/deepseek_v4_tilelang_definitions.py:312-396 | the constants for 1e-4 and 6 * 2^-126 are the nearest float and exact |
| ScaleProduct.AmaxIs | src/torchinferno/kernels/deepseek_v4_tilelang_definitions.py:310-312 | the largest magnitude bits have the value of the largest magnitude, not below the floor |
| ScaleProduct.ProductCovers | src/torchinferno/kernels/deepseek_v4_tilelang_definitions.py:269-270 | for every normal float from the floor on, the rounded product with the rounded reciprocal is not below the exact quotient |
| ScaleProduct.GroupNeverClamped | src/torchinferno/kernels/deepseek_v4_tilelang_definitions.py:310-329 | for every group of finite floats and both formats, with every step in single precision: the rounded scale is the least power of two not below the quotient, and the clamp alters no element divided by it or by the quotient itself |
| RoundScale.RatioInRange | src/torchinferno/kernels/deepseek_v4_tilelang_definitions.py:310-316 | no group of finite BF16 values overflows the rounded scale |
| RoundScale.FloorsAreNormal | src/torchinferno/kernels/deepseek_v4_tilelang_definitions.py:312-314 | the FP8 floor 1e-4 and the FP4 floor 6 * 2^-126 keep the ratio a normal number |
| Sinkhorn.SoftmaxPlusEps | src/torchinferno/kernels/deepseek_v4_tilelang_definitions.py:634-641 | in place, every row becomes its softmax plus eps, whatever row maximum is subtracted |
| Sinkhorn.SoftmaxShift | src/torchinferno/kernels/deepseek_v4_tilelang_definitions.py:635-641 | subtracting any number from a row leaves its softmax |
| Sinkhorn.NormaliseRows | src/torchinferno/kernels/deepseek_v4_tilelang_definitions.py:649-652 | in place, every entry is divided by its row sum plus eps |
| Sinkhorn.NormaliseCols | src/torchinferno/kernels/deepseek_v4_tilelang_definitions.py:643-646 | in place, every entry is divided by its column sum plus eps |
| Sinkhorn.HcSinkhorn | src/torchinferno/kernels/deepseek_v4_tilelang_definitions.py:634-658 | for any iteration count the fragment ends as the specified iterate of the initial matrix |
| Sinkhorn.StepsPositive | src/torchinferno/kernels/deepseek_v4_tilelang_definitions.py:643-656 | both steps keep every entry positive, so no denominator is ever zero |
| Sinkhorn.IterateScales | src/torchinferno/kernels/deepseek_v4_tilelang_definitions.py:643-656 | every iterate is the initial matrix scaled by positive row and column factors |
| Sinkhorn.CrossRatios | src/torchinferno/kernels/deepseek_v4_tilelang_definitions.py:643-656 | so every cross-ratio of the initial matrix is kept |
| Sinkhorn.ReturnedColumnSums | src/torchinferno/kernels/deepseek_v4_tilelang_definitions.py:648-658 | every column sum of what is returned lies strictly between 0 and 1 |
| Sinkhorn.RowsBeforeLast | src/torchinferno/kernels/deepseek_v4_tilelang_definitions.py:648-656 | with more than one iteration, what goes into the last column step is positive and has every row sum strictly between 0 and 1 |
| Sinkhorn.GatesInRange | src/torchinferno/kernels/deepseek_v4_tilelang_definitions.py:624-627 | `pre` lies strictly between eps and 1 + eps, `post` between 0 and 2 |
| Sinkhorn.GatesGrow | src/torchinferno/kernels/deepseek_v4_tilelang_definitions.py:624-627 | both gates increase with their argument, as far as exp does |
| FxGraph.EvalPrefix | src/torchinferno/profiling.py:1654-1661 | running the graph computes each node from the values before it, so a prefix computes a prefix |
| FxGraph.EvalAt | src/torchinferno/profiling.py:1654-1661 | the value of a node: the next input, the attribute of its name, or its target applied to its arguments |
| FxGraph.ArgCarriesRefs | src/torchinferno/profiling.py:1732 | two runs give an argument tree the same value if and only if they agree on every node it refers to |
| FxGraph.EvalRenamed | src/torchinferno/profiling.py:1732 | an argument tree renamed to nodes with equal values has an equal value |
| FxSubgraph.Extractor.CopyGetAttr | src/torchinferno/profiling.py:1694-1699 | copies an attribute once and records where |
| FxSubgraph.Extractor.BoundaryFor | src/torchinferno/profiling.py:1701-1715 | makes one placeholder and one boundary record a source |
| FxSubgraph.Extractor.MapInput | src/torchinferno/profiling.py:1717-1724 | finds or makes the copy of an input; the "used before it is copied" branch is unreachable |
| FxSubgraph.Extractor.NodeCopy | src/torchinferno/profiling.py:1732-1734 | copies a selected node behind the copies of all its inputs and adds nothing else |
| FxSubgraph.CopySelected | src/torchinferno/profiling.py:1726-1734 | the environment ends with exactly the selected nodes and the nodes feeding them |
| FxSubgraph.CopyMeans | src/torchinferno/profiling.py:1694-1734 | every node of the new graph, run on the boundary values, has the value of its source node |
| FxSubgraph.FrontierIsExact | src/torchinferno/profiling.py:1701-1724 | the boundaries are exactly the unselected, non-attribute producers feeding selected compute nodes, each once |
| FxSubgraph.ReachesOutput | src/torchinferno/profiling.py:1736-1743 | every selected compute node reaches an output node through selected nodes |
| FxSubgraph.OutputsExist | src/torchinferno/profiling.py:1736-1743 | the list of outputs is never empty, so the fallback is unreachable |
| FxSubgraph.Extract | src/torchinferno/profiling.py:1673-1756 | unknown ids fail with exactly the unknown ones and a selection without compute node fails; otherwise duplicates are dropped in order, the outputs are exactly the requested compute nodes that no requested compute node uses, in the order of the ids and each once, and every boundary names and describes its source node |
| FxSubgraph.ExtractionPreservesMeaning | src/torchinferno/profiling.py:1673-1756 | run on the source values of its boundaries, in placeholder order, the extracted graph returns the source values of its output nodes, whatever the nodes compute |
| FxSubgraph.CaptureNodeValues | src/torchinferno/profiling.py:1641-1670 | the early stop never changes a captured value, everything asked for is captured, and the error names exactly what the graph does not have |
| FxSubgraph.ProfileSubgraph | src/torchinferno/profiling.py:733-740 | the replay on captured values equals the captured outputs, so the recorded difference is zero |
| ArtifactProtocol.StepKeeps | src/torchinferno/kernels/deepseek_v4_tilelang_builder.py:31-96 | any step or crash of any process keeps the lock, visibility and progress invariants |
| ArtifactProtocol.RunKeeps | src/torchinferno/kernels/deepseek_v4_tilelang_builder.py:31-96 | they hold in every state of every interleaving |
| ArtifactProtocol.VisibleIsComplete | src/torchinferno/kernels/deepseek_v4_tilelang_builder.py:52-92 | unless a partial directory was at that path at the start, a directory visible there always holds every file, fully written |
| ArtifactInstall.InstallsIff | src/torchinferno/kernels/deepseek_v4_tilelang_builder.py:31-96 | some run from a given content of the artifact root comes to show a complete directory for a key if and only if none was found there, or one without metadata, or a complete one |
| ArtifactInstall.InstallableIff | src/torchinferno/kernels/deepseek_v4_tilelang_builder.py:31-96 | after any run, whatever was interleaved and crashed, it can be continued to one that shows a complete directory for the key unless an incomplete one with metadata is there |
| ArtifactInstall.AlwaysHeld | src/torchinferno/kernels/deepseek_v4_tilelang_builder.py:32-36 | in every state of every run a lock that is taken is held by a process, so no crash leaves a key locked |
| ArtifactProtocol.InstalledForever | src/torchinferno/kernels/deepseek_v4_tilelang_builder.py:33-36 | a directory with metadata is never changed or removed, and nobody builds that key again |
| ArtifactProtocol.OneBuilder | src/torchinferno/kernels/deepseek_v4_tilelang_builder.py:31-92 | at most one process a key is between the metadata check and the rename |
| ArtifactProtocol.LoadFailsIff | src/torchinferno/kernels/deepseek_v4_tilelang.py:88-144 | some run has a load that raises if and only if a directory was at that path before any process ran that lacks a file or has metadata, parameters or the function cut short |
| ArtifactProtocol.TruncatedLoadIff | src/torchinferno/kernels/deepseek_v4_tilelang.py:101-115 | some run has a load that succeeds on a truncated file if and only if a directory was there at the start with all files, the parsed ones whole and a source text or the library cut short |
| HttpReader.Connection.ReadRequest | src/torchinferno/openai_http.py:475-507 | the buffer loop reads what the recursive reader specifies and leaves its buffer and unread input, for every segmentation |
| HttpReader.ReadIsFirst | src/torchinferno/openai_http.py:475-507 | when the header is in reach and the length is not negative, the outcome and the remaining bytes, buffered and unread, are those of the stream alone |
| HttpReader.Connection.Serve | src/torchinferno/openai_http.py:341-368 | when every header is in reach and no length is negative, a connection yields the request sequence of its stream, whatever the segmentation |
| HttpReader.DeliveryProofSuffices | src/torchinferno/openai_http.py:479-507 | for the streams of the exact condition every segmentation gives one result |
| HttpReader.LateHeadDiffers | src/torchinferno/openai_http.py:479-485 | a header ending after 65537 and by 131072 bytes is refused under one segmentation and read under another |
| HttpReader.NegativeLengthDiffers | src/torchinferno/openai_http.py:499-506 | a negative length that reaches into the received bytes gives different results under two segmentations |
| HttpReader.IndependentIff | src/torchinferno/openai_http.py:475-507 | independence of segmentation holds if and only if that condition does |
| HttpPipeline.FirstOfSent | src/torchinferno/openai_http.py:486-507 | the first request of a well-formed message, its Content-Length the decimal number of its bytes, followed by anything is that message, and the rest is what follows |
| HttpPipeline.HeadParses | src/torchinferno/openai_http.py:487-499 | a sent head parses back to its verb, path, fields in lower case without the blanks around them, and the number of bytes of its body |
| HttpPipeline.DecimalIsRead | src/torchinferno/openai_http.py:499 | the decimal digits of every number are read as that number, with white space around it and with either sign, and refused beyond 4300 digits |
| HttpPipeline.UnderscorePassed | src/torchinferno/openai_http.py:499 | an underscore between two digits is passed over and anywhere else behind digits an error |
| HttpPipeline.OnlyNumbersRead | src/torchinferno/openai_http.py:499 | a length with any character that is not a digit, sign, underscore or white space is an error |
| HttpPipeline.LengthRead | src/torchinferno/openai_http.py:495-499 | whichever field gives the length, in whatever capitals, or none for an empty body, the length read is the number of body bytes |
| HttpPipeline.LowerIff | src/torchinferno/openai_http.py:498 | a field name is stored under a lower-case ASCII key if and only if they have the same letters up to capitals |
| HttpPipeline.HeaderFound | src/torchinferno/openai_http.py:494-498 | a key is among the received headers if and only if some field has that name in any capitals, and its value is that of the last such field |
| HttpPipeline.WrongRequestLine | src/torchinferno/openai_http.py:489-492 | a request line is refused as malformed if and only if it has not exactly three words |
| HttpPipeline.PipelineIsRead | src/torchinferno/openai_http.py:341-368 | for any decision to keep the connection, a pipeline is read back message by message up to the first that is not kept, or to the close |
| SseStream.BatchPayload | src/torchinferno/openai_http.py:588-604 | one event a token with text, in order, and counts of shown and empty tokens |
| SseStream.StreamFastChat | src/torchinferno/openai_http.py:557-629 | what is sent is always a prefix of the specified stream, all of it if the client stays, and the counters add up |
| SseStream.DechunkOne | src/torchinferno/openai_http.py:848-851 | one written chunk decodes to its payload followed by the rest (section 7.1 of RFC 9112) |
| SseStream.HexRoundTrip | src/torchinferno/openai_http.py:850 | the written chunk size reads back as the length |
| SseStream.DechunkEnd | src/torchinferno/openai_http.py:854-868 | the end bytes decode to the stop event and [DONE], with the zero chunk last |
| SseStream.PayloadBytes | src/torchinferno/openai_http.py:574-612 | no empty chunk is ever written before the end, and the payloads together are the events of all tokens, however batched |
| SseStream.WireBodyDecodes | src/torchinferno/openai_http.py:557-626 | the chunked body decodes to role event, one event a visible token, stop event and [DONE]; regrouping the batches changes nothing |
| SseStream.EventsOfBody | src/torchinferno/openai_http.py:934-944 | events without raw line feeds are found again by splitting at blank lines |
| SseStream.ClientSees | src/torchinferno/openai_http.py:557-626 | a client that dechunks and splits sees exactly those events in order |
| SseStream.ClientReads | src/torchinferno/openai_http.py:557-626 | a client that dechunks, splits and decodes the JSON texts finds a role event, events that say the non-empty token texts in order, a finish with reason stop and [DONE]; the texts together are the decoded text of all tokens |
| SseStream.EventsRead | src/torchinferno/openai_http.py:930-944 | the same of the list of events, for any decoder that undoes the JSON encoding of text |
| SseHead.HeadIsRead | src/torchinferno/openai_http.py:871-914 | the response head, read as a request head is, ends where the body begins and has exactly the listed fields |
| SseHead.HeadSays | src/torchinferno/openai_http.py:871-914 | it announces chunks if and only if the body is chunked, keep-alive or close as asked, and an event stream |
| Engine.InferenceEngine.Close | src/torchinferno/engine/engine.py:78-85 | sets the flag and closes the backend only the first time |
| Engine.InferenceEngine.Cancel | src/torchinferno/engine/engine.py:87-89 | marks the id |
| Engine.InferenceEngine.EnterRequest | src/torchinferno/engine/engine.py:201-206 | refuses when closed, otherwise activates the id and clears its mark |
| Engine.InferenceEngine.ExitRequest | src/torchinferno/engine/engine.py:208-211 | removes the id and its mark |
| Engine.Generator.Start | src/torchinferno/engine/engine.py:113-115 | begins the loop with the id active and unmarked, or raises and changes nothing when the engine is closed |
| Engine.Generator.Turn | src/torchinferno/engine/engine.py:122-140 | one turn of the stream loop: cancel first, then stop id, then the token and its index, or the end of the backend's tokens |
| Engine.Generator.Leave | src/torchinferno/engine/engine.py:141-142 | every way out of the loop exits the request |
| Engine.ScheduleKeeps | src/torchinferno/engine/engine.py:113-151 | under every interleaving, shared ids included, every stream has yielded numbered backend tokens, none a stop token |
| Engine.StreamContract | src/torchinferno/engine/engine.py:113-151 | in every schedule a finished stream has indices 0..n-1, then one finished event with completion count n; it ended at its first turn that found the backend's end, a pending cancel or a stop token, and the reason says which |
| Engine.CancelledIff | src/torchinferno/engine/engine.py:123-126 | a finished stream's reason is cancelled if and only if a cancel was pending at the turn that ended it and the backend had one more token |
| Engine.ActiveIff | src/torchinferno/engine/engine.py:201-211 | in every schedule an id is active if and only if a stream of it began and none of that id left since |
| Engine.ClosedIff | src/torchinferno/engine/engine.py:78-85 | in every schedule the engine is closed from the first close on, and not before |
| Engine.BeginsIff | src/torchinferno/engine/engine.py:201-206 | a stream that begins runs if and only if no close came before; otherwise it raises and changes no set |
| Engine.ActiveAlways | src/torchinferno/engine/engine.py:201-211 | with distinct live ids the active ids are at every moment exactly those of the open streams |
| Engine.MarkedIff | src/torchinferno/engine/engine.py:87-89 | in every schedule an id is marked if and only if it was cancelled and no stream of that id began or left since |
| Engine.CancelObservedIff | src/torchinferno/engine/engine.py:122-126 | in every schedule a stream that takes a token ends as cancelled if and only if such a cancel is pending, and then it came after the stream began |
| Engine.CancelLostIff | src/torchinferno/engine/engine.py:201-211 | the last cancel of an open stream is not seen at its turn if and only if another stream of the same id began or left in between |
| Engine.LeaveLosesCancel | src/torchinferno/engine/engine.py:208-211 | a schedule in which a stream is cancelled, another of its id leaves, and the first goes on, its id no longer active |
| Engine.BeginLosesCancel | src/torchinferno/engine/engine.py:205-206 | a schedule in which a second stream of the id begins after the cancel and erases it |
| Engine.DistinctLoseNothing | src/torchinferno/engine/engine.py:122-126 | with distinct live ids a stream that takes a token ends as cancelled if and only if it was cancelled since it began |
| Engine.Generate | src/torchinferno/engine/engine.py:91-111 | folding a completed stream gives its tokens, reason and usage |
| Nvfp4.NearestWithinOne | src/torchinferno/kernels/nvfp4.py:41-44 | a nearest code of a value in [-6, 6] is within 1 of it |
| Nvfp4.CodebookIs | src/torchinferno/kernels/nvfp4.py:9-12 | the 16 codes are the E2M1 values in order: sign, two exponent bits with bias 1, one mantissa bit |
| Nvfp4.ElementError | src/torchinferno/kernels/nvfp4.py:40-44 | an element comes back within one block scale, whichever nearest code is taken on a tie |
| Nvfp4.SameScale | src/torchinferno/kernels/nvfp4.py:39-40 | the scale of what a block comes back as is its own scale |
| Nvfp4.SameValues | src/torchinferno/kernels/nvfp4.py:39-44 | quantising a block that came back changes nothing |
| Nvfp4.UnpackInto | src/torchinferno/kernels/nvfp4.py:52-54 | filling the even and the odd slots gives the nibbles in order |
| Nibbles.UnpackPacked | src/torchinferno/kernels/nvfp4.py:47-54 | unpacking packed pairs gives the codes back |
| IntMath.RoundUp | src/torchinferno/kernels/nvfp4.py:84-85 | the least multiple that is not below the value |
| Nvfp4.Numel | src/torchinferno/kernels/nvfp4.py:77-81 | the loop computes the product of the shape |
| Nvfp4.RoundTripIs | src/torchinferno/kernels/nvfp4.py:23-59 | the padding of the last block, the padding of an odd count and the packing all come undone |
| Nvfp4.ErrorBounded | src/torchinferno/kernels/nvfp4.py:23-59 | for every tensor and block size each element comes back within the scale of its block |
| Nvfp4.Idempotent | src/torchinferno/kernels/nvfp4.py:23-59 | quantising what came back gives the same scales and, dequantised, the same values |
| Int4.GroupQuantised | src/torchinferno/kernels/marlin.py:119-123 | the clamp to [-8, 7] never bites and an element is within half its group scale |
| Int4.GroupError | src/torchinferno/kernels/marlin.py:119-123 | for weights bounded by b, where the floor of the scale is not reached, every error is at most b / 14 |
| Int4.MatrixQuantised | src/torchinferno/kernels/marlin.py:118-125 | grouping and restoring cancel, so each element of the matrix is coded with the scale of its own group and column |
| Int4.RowQuantised | scripts/bench_triton_int4.py:100-106 | the symmetric row quantiser has the same bound and never uses code 0 |
| Int4.RowError | scripts/bench_triton_int4.py:100-106 | the same bound b / 14 for the row quantiser |
| Nibbles.ByteRoundTrip | scripts/bench_triton_int4.py:105-106 | both nibbles can be read back from the byte |
| Nibbles.OrBits | src/torchinferno/kernels/marlin.py:95 | every bit of the or is the or of the bits |
| Int4.BlockSum | scripts/bench_triton_int4.py:68-82 | interleaving low and high nibbles with the block's scale gives the dequantised elements of the block in order |
| Int4.W4A16 | scripts/bench_triton_int4.py:65-85 | when every block of K has its scale, the blocks accumulate to the product with the dequantised weights, and no scale is loaded from outside its row |
| Int4.ScalesCoverIff | scripts/bench_triton_int4.py:66-80 | with K // group scales a row, that is so if and only if the group divides K |
| Int4.PackedWeight | scripts/bench_triton_int4.py:100-107 | the weights the kernel multiplies with are within half a scale of the original ones |
| MarlinLayout.TileOf | src/torchinferno/kernels/deepseek_v4_marlin.py:116-126 | the two inner loops list the eight rows and columns of one thread |
| MarlinLayout.WeightPermutation | src/torchinferno/kernels/deepseek_v4_marlin.py:114-131 | the loops and the interleave build the permutation in which slot ((((c * 4 + g) * 4 + tile) * 2 + e) * 2 + b) * 2 + h holds row 8h + 2g + e and column 8b + c of the tile |
| MarlinLayout.WeightPermInverse | src/torchinferno/kernels/marlin.py:57-70 | it is a permutation: the slot table is its inverse on both sides |
| MarlinLayout.GatherInverse | src/torchinferno/kernels/marlin.py:85 | gathering rows by a permutation is undone by gathering by its inverse |
| MarlinLayout.TilesUndone | src/torchinferno/kernels/marlin.py:83-84 | the reshape into 16 by 16 tiles and its inverse cancel both ways |
| MarlinWords.PackersAgree | src/torchinferno/kernels/deepseek_v4_marlin.py:155-156 | the signed shift-and-sum word and the unsigned shift-and-or word have the same 32 bits, though the sum goes negative when the top nibble is 8 or more |
| MarlinWords.OrPack | src/torchinferno/kernels/marlin.py:93-96 | or-ing nibble i of every word in place, for i from 0 to 7, and reading the words as signed |
| MarlinWords.WordsAgree | src/torchinferno/kernels/deepseek_v4_marlin.py:155-156 | so for a whole tensor: the or-ed words are the summed ones |
| MarlinWords.NibbleOfSum | src/torchinferno/kernels/deepseek_v4_marlin.py:156 | each of the eight nibbles can be read back from the word |
| MarlinWords.WordsOfNibbles | src/torchinferno/kernels/deepseek_v4_marlin.py:156 | every 32-bit word is the word of its nibbles |
| MarlinRepack.MarlinWeights | src/torchinferno/kernels/marlin.py:79-96 | the shape errors, and otherwise the or-ed words of the tiled and permuted matrix |
| MarlinRepack.LayoutRestored | src/torchinferno/kernels/marlin.py:79-96 | the matrix can be read back from its words |
| MarlinRepack.RestoredLayout | src/torchinferno/kernels/marlin.py:79-96 | and every sequence of words is the layout of some matrix, so every nibble of it is used once |
| MarlinRepack.LayoutAt | src/torchinferno/kernels/marlin.py:79-96 | which nibble of which word holds row r and column c of tile (kt, nt) |
| MarlinRepack.RepackOneMxfp4 | src/torchinferno/kernels/deepseek_v4_marlin.py:134-156 | bytes taken apart, transposed, tiled, gathered by the permutation its loops build and summed into words, for exactly the repackable shapes; all others raise |
| MarlinRepack.SameWords | src/torchinferno/kernels/deepseek_v4_marlin.py:134-156 | the summed words of a checkpoint weight are the or-ed words of its logical matrix |
| MarlinRepack.PackBothWays | src/torchinferno/kernels/marlin.py:89-96 | both implementations run on one weight, each by its own steps, give the same matrix of words |
| MarlinRepack.RepackUndone | src/torchinferno/kernels/deepseek_v4_marlin.py:134-156 | the checkpoint's bytes can be read back from the repacked words |
| MarlinRepack.RepackAt | src/torchinferno/kernels/deepseek_v4_marlin.py:141-156 | which nibble of which word holds weight (n, k), which is the low or high nibble of byte k // 2 of row n |
| MarlinScales.SelfInverse | src/torchinferno/kernels/deepseek_v4_marlin.py:159-164 | the 64-entry, the 32-entry and the pair permutation each undo themselves |
| MarlinScales.PrepareUndone | src/torchinferno/kernels/deepseek_v4_marlin.py:167-178 | preparing scales loses nothing |
| MarlinScales.ScrambledAt | src/torchinferno/kernels/deepseek_v4_marlin.py:172-177 | where each column's scale goes within its 64, with the middle two of every four exchanged |
| MarlinScales.PermuteTwice | src/torchinferno/kernels/marlin.py:99-105 | permuting the scales twice gives them back, for grouped scales and for a single group |
| MarlinInt4.WordHoldsWeight | src/torchinferno/kernels/marlin.py:108-130 | from end to end: the nibble at a weight's place, dequantised with the scale of its group and column, is within half that scale of the weight |
| MarlinInt4.ScaleFound | src/torchinferno/kernels/marlin.py:126-130 | where that scale is among the permuted grouped scales |
| MarlinInt4.SingleScaleFound | src/torchinferno/kernels/marlin.py:126-130 | and where it is when there is a single group |
| RoutingBuffers.BuffersSuffice | src/torchinferno/kernels/deepseek_v4_marlin.py:284-290 | for every assignment of routes and every block size the padded routes fit into `maximum`, in the branch with the minimum too, and their blocks into expert_ids |
| RoutingBuffers.PaddedAtMost | src/torchinferno/kernels/deepseek_v4_marlin.py:285-287 | padding adds at most block_size - 1 slots a bucket and makes at most block_size slots a route |
| RoutingBuffers.EverySlotCanBeUsed | src/torchinferno/kernels/deepseek_v4_marlin.py:284-287 | `maximum` is reached: with one route more than a multiple of the block in every bucket, every slot is used |
| RoutingBuffers.EveryBlockCanBeUsed | src/torchinferno/kernels/deepseek_v4_marlin.py:286-287 | for fewer routes than buckets, no two in one bucket, `maximum` is one block a route and every slot is used |

## Left out

- Floating point: kernels are equalities over reals; rounding of BF16, FP8, FP4 and FP32 products, sums and stored scales is not modelled outside the scale computation of `ScaleProduct`, nor are NaN or infinite inputs outside the attention masks.
- OnlineSoftmax.SparseAttention: one head of one query; heads, queries and batches are independent, and the padding to 16 heads adds heads that are dropped. The softmax scale is positive.
- Sinkhorn.HcSinkhorn: one token's matrix; tokens are independent. The affine map of the mixes is only the input.
- Int4.W4A16: one output element; the tile store is that of the block-scaled product. Odd K, for which the packed quantiser raises.
- PrenormGemm.HcPrenorm: one token; what a store past the shared array overwrites, and the sum of a partial warp that nobody reads.
- SpecDecode.SlotCache.Forward: the cache is one slot array with a length instead of page tables, and the network is any causal one.
- Engine.Generate: the text of the tokens and the usage recomputed when a stream ends without its finished event.
- HttpReader.Connection.Serve: timeouts, socket errors and the server's closed flag; the responses are a decision to keep the connection.
- SseStream.StreamFastChat: timings, profile records and the count of send calls; JSON text is any bytes without raw line feeds that some decoder turns back into the text; the bytes in front of the delta are one fixed prefix.
- FxSubgraph.Extract: node metadata, lint and code generation; nodes are pure functions of their arguments, keyword arguments are part of the argument tree, and the graph is in topological order with one output.
- ArtifactProtocol.StepKeeps: what the loaded library does when it is cut short, compatibility checks of metadata, hash collisions of keys, leftover temporary directories, a compile error (the same as leaving), and the per-process dictionary of loaded kernels.
- MarlinInt4.WordHoldsWeight: the casts of the weights to FP16 and of the scales to BF16.
- Scheduling, swizzling, shared memory and pipelining of kernels; the external Marlin and alignment kernels; `nvfp4_linear_reference`, which is a plain product with the dequantised matrix.
- The expert map, concatenation of expert weights and workspaces of `prepare_mxfp4_experts`: easy members.
- The serving scheduler, the paged cache, tensor-parallel models, the asynchronous engine, warm-up, command lines and reports.

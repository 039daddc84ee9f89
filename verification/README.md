# Verification of the paged KV cache and the exact attention kernels

This project models the two halves of the attention library that have to agree, and the
theorem that joins them.

* **The paged KV cache.** Sequences share a pool of blocks through a LIFO free list. Each
  sequence's block list is kept three times (its own list, the block manager's table row,
  the host page-table row) and once more in a device mirror that is uploaded when a
  revision counter moves. Tokens are scattered by grid-stride kernels into one flat byte
  buffer per layer. `PagedKVCache.dfy`, `BlockManager.dfy`, `KvCache.dfy` and
  `KvKernels.dfy` are the imperative classes and kernels; `CacheModel.dfy` and
  `BlockPool.dfy` give the same operations as functions on values, which the methods are
  proved against. `CacheInvariant.dfy`, `CacheRefinement.dfy`, `CacheRuns.dfy` and
  `CacheFacts.dfy` prove what every run keeps: the cache is a list of tokens per sequence.
  `InitialStorage.dfy` repeats the runs from arbitrary buffer bytes.
* **Exact softmax.** Split-K decode, the causal flash tile loop and the naive row softmax
  are modelled in exact reals, with -inf as a datatype case and the exponential as any
  function that is positive, monotone, 1 at 0 and multiplicative over sums. The oracle is
  `Softmax.Attention`, the two-pass definition; `OnlineSoftmax.dfy` and `SplitMerge.dfy`
  hold the algebra of (m, l, O) states, `DecodeKernels.dfy`, `FlashTiles.dfy`,
  `NaiveAttention.dfy` and `Reductions.dfy` the loops.
* **The joint theorem.** `PagedAttention.dfy`: paged decode over any reachable cache state
  is plain attention over the logical token list. `PagedFacts.dfy` and `ZeroTokens.dfy` say
  exactly when it is not, and `Counterexamples.dfy` gives the runs.

`Workspaces.dfy` adds the slice allocator of the scratch buffer.

## How the cache specification reads

The specification state is one list of entries per sequence; an entry remembers the layer
it was appended on and its K and V bytes. Lengths are per sequence and not per layer, so
position i of a sequence shows its bytes on that layer and zeros on all others
(`CacheRefinement.KOn`, `VOn`). A successful append concatenates, a successful reset
clears. A reset that is refused at layer n has already zeroed the layers before n; the
specification says so (`CacheRuns.SpecStep`) instead of assuming it away. Whether the slot
buffer can be allocated and whether a launch is accepted are parameters of every operation
(`CacheModel.Env`, `okLayers`), so each theorem holds for every pattern of failures.

## Where the code and its promises part

Each of these is a theorem with the exact condition; the code is modelled as it is.

* **Fully masked rows of the naive kernels are NaN, not zero.** docs/attention_math.md:36
  and the comment at src/backends/naive/attention_naive.cu:87 promise zeros, but the row's
  cells still hold -inf when they are multiplied by 0 at line 101, which is NaN in IEEE
  arithmetic. The output is a number exactly when a column is visible
  (`NaiveAttention.NaiveRow`); over all rows that is seq_kv >= seq_q
  (`NaiveAttention.AllRowsDefinedExactly`), which src/api/api_validate.cpp:85 enforces for
  causal calls. Example: `Counterexamples.MaskedFirstRow`. The flash loop does give zeros
  (`FlashTiles.FlashRow`).
* **A failed append can leave the mirror stale.** It rewrites the host row without moving
  the revision, so the next SyncPageTable uploads nothing. Whole-table agreement survives
  a step exactly when that does not happen (`CacheFacts.WholeMirrorStep`); live positions
  are always mapped correctly (`CacheFacts.MirrorSafety`). Run:
  `Counterexamples.StaleMirrorRun`.
* **A failed slot-buffer growth is not recovered by ResetSeq.** The comment at
  src/kv_cache/paged_kv_cache.cpp:135 suggests a reset; but the old capacity stays next to
  a null buffer, and only a still larger append that can allocate leaves this state
  (`CacheFacts.StuckStep`). Run: `Counterexamples.StuckRun`. The appends that fail in this
  state do so in KVCache::Append; before that, lines 128-129 copy the slots to the null
  buffer, which the model leaves out. The copy goes to null exactly for an admitted append
  that fits the recorded capacity of a stuck buffer (`CacheFacts.CopiesToNullExactly`).
* **Lengths are shared by layers.** Decode on a layer runs over all positions of the
  sequence; those of other layers are zero tokens, each adding 1 to the denominator. An
  output coordinate is that of the layer's own tokens if and only if all tokens were
  appended on the layer or the coordinate is zero anyway
  (`PagedFacts.LayerOutputExactly`). Run: `Counterexamples.TwoLayersDilute`.
* **Omitted lengths.** Without seq_lens the tail of the last block is attended to as zero
  tokens. An output coordinate is right if and only if the mapped blocks are exactly full
  or the coordinate is zero anyway (`PagedFacts.NullLengthsExactly`). Run:
  `Counterexamples.NullLengthsDilute`.
* **Head groups.** The paged entry point does not check that the KV head count divides
  the query head count; that is exactly when no head index overflows and the group size is
  not zero (`PagedAttention.GroupExact`). Accepted queries: `Counterexamples.UnevenHeads`.
* **Head dimension and element type of the query.** The paged entry point compares neither
  with the cache's; it strides through K and V by the query's dimension and reads them as
  the query's type. The stored elements are found if and only if the element sizes agree
  and the dimensions do (or one head of one slot is read by a narrower query:
  `PagedAttention.StridesMatchExactly`). Between fp16 and bf16 the addresses agree and the
  bytes are still decoded by the wrong format. All of these queries are inside the model as
  long as the launch stays inside the buffers: the output is attention over what is read,
  and plain attention is promised only for the cache's own dimension and type
  (`PagedAttention.QueryMatches`). Accepted queries: `Counterexamples.NarrowQuery`,
  `HalfQuery`.
* **Shape of V.** AppendTokens compares only the token counts of K and V; the kernel reads
  V with K's dimensions. Every element of V is read in its own place if and only if the
  dimensions are equal (`KvCache.ValuesReadExactly`); what is stored are the bytes at the
  places K's dimensions give (`KvCache.StoredValueByte`). Accepted appends:
  `Counterexamples.ValuesCutOff`, where half of V is lost, and `HeadSplitInTwo`, where one
  head becomes two.
* **Rows beyond 2^24.** The naive softmax launch gives each row one block and caps the
  blocks at 2^24 (src/backends/naive/attention_naive.cu:146); the kernel does not loop over
  rows, so later rows keep their raw scores (`NaiveAttention.LaunchRowSoftmax`). The launch
  leaves the softmax of every row, whatever the scores, if and only if
  batch * heads * seq_q <= 2^24 (`NaiveAttention.EveryRowNormalisedExactly`); single rows
  beyond the cap can happen to be their own softmax. Run:
  `Counterexamples.RowBeyondTheCap`.
* **Order of fresh blocks.** A fresh pool hands out 0, 1, 2, ... (`BlockPool.FreshPoolAscends`),
  not reversed ids as the comment at tests/kernel/test_paged_correctness.cu:59 says.
* **Merge formula in a comment.** src/backends/decode/decode_splitk.cu:12 multiplies O_s by
  l_s once more. The kernel at lines 174-180 merges unnormalised O_s without that factor,
  and this is what `SplitKIsExact` proves exact.

## Preconditions that come from the design

Slot numbers of the pool must be int32 values (`KvConfig.SlotsFitInt32`): the cast changes
no slot exactly then (`KvConfig.SlotsExactly`). Create itself does not ask for it; the
invariant `PagedCache.Valid` of the object is promised under it. When the append kernel
runs, the V tensor must hold as many bytes as it reads (`KvCache.AppendInputs`). For paged
attention there is one length per sequence and no read leaves a buffer
(`PagedAttention.StaysInside`); whole groups of heads and rows no wider than the cache's
are enough for that (`PagedAttention.QueryFits`, `FittingStaysInside`).

The layer buffers of a new cache are modelled as zeros. KVCache::Create does not fill them;
the allocator of the stub device does (stub/include/device/device.hpp:47), and the upstream
device is not part of this model. Results about zero bytes need it: `FreshRefines`, `NoStaleData`,
`GatherAfterRun`, and the zero tokens of `PagedFacts`. Everything else holds for any initial
bytes: statuses, tables, ownership, lengths and each token on its own layer
(`InitialStorage.StepSame`, `StatusesSame`, `RunWith`), and with them the joint theorem for sequences
appended on one layer (`InitialStorage.OneLayerEndToEnd`). `PagedFacts` also assumes that
zero bytes read as the number zero. The square root of the head dimension is an answer of
the environment (`PagedAttention.Request`).

## Model

| member | source | states |
|---|---|---|
| PagedAttention.EndToEnd | src/backends/paged/paged_backend.cpp:84-168 | After every run of appends, resets and syncs (failures included) that ends with equal revisions, split-K decode of query head h of a sequence with its true length, on a query of the cache's head dimension and element type, is two-pass softmax over exactly the tokens appended to the sequence since its last reset: the query row at element (s * H_q + h) * D, the effective scale, and the KV head of the group h lies in, for every split count. No launch parameter occurs in the promise. |
| PagedAttention.RunPaged | src/backends/paged/paged_backend.cpp:40-178 | On any valid cache object, for every launch that stays inside its buffers: success exactly for four dimensions, one query position, a sequence count and layer in range, a compute dtype, a supported head dimension and a granted workspace; then every output row, at element (s * H_q + h) * D, is scaled attention of the query row at the same place over what page table and lengths yield, and with a current mirror, matching format and true length over the sequence's own tokens; the cache is untouched. |
| PagedAttention.RunAccepted | src/backends/paged/paged_backend.cpp:124-168 | The accepted branch: parameters are wired from the storage, the device page table and the request, and the output is as RunPaged promises. |
| PagedAttention.LaunchPaged | src/backends/paged/paged_backend.cpp:136-168 | A launch on those parameters that stays inside its buffers leaves in every row scaled attention over what the page table, the lengths and the head groups make it read. |
| PagedAttention.VisibleIsRead | src/backends/paged/paged_backend.cpp:136-168 | The tokens a wired launch sees for one query head, written out from the query, the request, the page table and the K and V elements alone. |
| PagedAttention.Wired | src/backends/paged/paged_backend.cpp:136-168 | Query and output rows of the launch lie at element (s * H_q + h) * D, the scale is the effective one, the lengths are the request's, and head h reads the KV head of its group. |
| PagedAttention.EffectiveScaleIs | src/api/api_validate.cpp:31-35 | A positive scale of the request is used as it is; otherwise the scale is positive and its square times the head dimension is one. |
| PagedAttention.PlainEntryIs | src/backends/decode/decode_splitk.cu:107-118 | A token of the promise byte by byte: its value holds the elements of the KV head in the V bytes, its score is the scaled dot product with those in the K bytes. |
| PagedAttention.HeadStartIsLayout | src/kv_cache/kv_cache_layout.cuh:32-38 | The elements a launch reads for a row and KV head are those at KvOffset. |
| PagedAttention.LaunchReadable | src/backends/paged/paged_backend.cpp:91-160 | For whole head groups and rows no wider than the cache's, of any element type, the wired strides, page table and lengths keep every read of the kernels inside q, K, V and the table. |
| PagedAttention.RegionsDisjoint | src/backends/paged/paged_backend.cpp:105-114 | The m, l and O regions do not overlap and fill PartialElements floats exactly. |
| PagedAttention.OutputRowsFit | src/backends/paged/paged_backend.cpp:126-135 | Output rows of different (sequence, head) pairs are in bounds and disjoint. |
| PagedAttention.TokenIsStored | src/backends/decode/decode_splitk.cu:41-48 | With equal revisions, the row the kernel reads for position j is the K/V the specification holds at position j. |
| PagedAttention.VisibleIsPlain | src/backends/decode/decode_splitk.cu:107-118 | The first n tokens the kernel sees are the first n tokens of the sequence, in order. |
| PagedAttention.GroupExact | src/backends/decode/decode_splitk.cu:75-82 | The group size is at least one and every query head reads an existing KV head if and only if the KV head count divides the query head count. |
| PagedAttention.StridesMatchExactly | src/backends/paged/paged_backend.cpp:131-134 | Every accepted launch reads each element of each head of each slot from the bytes where the cache stores it if and only if the element sizes agree and the head dimensions do, or a single head of a single slot is read by a narrower query. |
| PagedFacts.LayerAttentionExactly | src/kv_cache/paged_kv_cache.cpp:138 | A coordinate of attention on layer l over all tokens of a sequence equals attention over the tokens appended on l if and only if all were appended on l or that value is zero. |
| PagedFacts.LayerOutputExactly | src/kv_cache/paged_kv_cache.cpp:138 | The same equivalence for the decoded output of every reachable state with equal revisions and true lengths. |
| PagedFacts.ForeignIsZero | src/kv_cache/paged_kv_cache.cpp:131-138 | A position appended on another layer is, on this layer, a zero token for every query. |
| PagedFacts.TailIsBlank | src/kv_cache/paged_kv_cache.cpp:150-163 | Positions past the length inside a sequence's blocks lie in slots that are zero on every layer. |
| PagedFacts.NullLengthsSeen | src/backends/decode/decode_splitk.cu:102 | Without seq_lens the kernel sees the tokens of the sequence followed by zero tokens up to the end of its mapped blocks. |
| PagedFacts.NullLengthsExactly | src/backends/decode/decode_splitk.cu:102 | Without seq_lens an output coordinate equals plain attention if and only if the mapped blocks are exactly full or the coordinate is zero. |
| ZeroTokens.ZeroTokensExactly | docs/attention_math.md:11-13 | Zero tokens anywhere among the keys leave an output coordinate unchanged if and only if there are none or the coordinate is zero. |
| ZeroTokens.ZeroTailExactly | docs/attention_math.md:11-13 | The same for zero tokens after the first n. |
| Counterexamples.StaleMirrorRun | src/kv_cache/paged_kv_cache.cpp:106-141 | On every configuration one append of the wrong dtype to a new cache, then SyncPageTable, leaves equal revisions and different tables. |
| Counterexamples.StuckRun | src/kv_cache/paged_kv_cache.cpp:118-137 | An append, a larger one whose buffer is refused, and a reset: the first append now fails. |
| Counterexamples.TwoLayersRun | src/kv_cache/paged_kv_cache.cpp:52-142 | A run that appends one token on each of two layers of one sequence and syncs. |
| Counterexamples.TwoLayersDilute | src/kv_cache/paged_kv_cache.cpp:138 | After it every coordinate decoded on layer 0 differs from attention over the token of layer 0. |
| Counterexamples.NullLengthsDilute | src/backends/decode/decode_splitk.cu:102 | One token in a block of 64: without seq_lens every coordinate differs from plain attention. |
| Counterexamples.ValuesCutOff | src/kv_cache/paged_kv_cache.cpp:65-69 | One token, K [1,2,32], V [1,4,32]: accepted on a new cache, and the token keeps the first two heads of V. |
| Counterexamples.HeadSplitInTwo | src/kv_cache/kv_cache_kernels.cu:34-45 | K [2,2,32], V [2,1,64]: accepted, and the stored head 1 is the second half of V's only head. |
| Counterexamples.NarrowQuery | src/backends/paged/paged_backend.cpp:131-134 | A query [1,1,1,32] is accepted on a cache of head dimension 64 and addresses slot 1 at element 32 instead of 64. |
| Counterexamples.HalfQuery | src/backends/paged/paged_backend.cpp:71-76 | A half-precision query of the right width is accepted on a float cache and does not read the elements where they are stored. |
| Counterexamples.UnevenHeads | src/backends/decode/decode_splitk.cu:75-82 | Both queries are accepted: with three heads over two KV heads, head 2 reads KV head 2, which is head 0 of the next slot; one head over two has group size zero. |
| Counterexamples.MaskedFirstRow | src/backends/naive/attention_naive.cu:87-101 | Two queries over one key: the first row sees no column. |
| Counterexamples.RowBeyondTheCap | src/backends/naive/attention_naive.cu:145-146 | The launch over 2^24 + 1 rows of one zero score leaves 0 in the last row, which is not its softmax. |
| InitialStorage.StepSame | src/kv_cache/paged_kv_cache.cpp:52-201 | From buffers with different initial bytes every operation returns the same status and keeps tables, lengths and every token on its own layer alike. |
| InitialStorage.RunWith | src/kv_cache/kv_cache.cpp:163-172 | After every run from such buffers the tables, lengths and every token on its own layer are what they are from zeros. |
| InitialStorage.StatusesSame | src/kv_cache/paged_kv_cache.cpp:52-201 | Every run returns the same list of statuses whatever bytes the buffers start with. |
| InitialStorage.OneLayerEndToEnd | src/backends/paged/paged_backend.cpp:84-168 | The joint theorem for arbitrary initial bytes, for a sequence whose tokens were all appended on the decoded layer. |
| CacheFacts.AppendSchedulesAgree | src/kv_cache/kv_cache_kernels.cu:17-47 | An admitted append in any state with the invariant is free of races: any two interleavings of its threads leave the same K and V bytes. |
| KvCache.ValuesReadExactly | src/kv_cache/kv_cache_kernels.cu:34-45 | Of every append that passes the checks, each element (token, head, d) of V at its own offset is the element read for it under K's dimensions if and only if V's dimensions are K's. |
| KvCache.StoredValueByte | src/kv_cache/kv_cache_kernels.cu:34-45 | Each byte stored for (token, head, d) is the byte of V at the place K's dimensions give, whatever V's dimensions are. |
| KvConfig.ValidateConfig | src/kv_cache/kv_cache.cpp:39-75 | Accepts exactly the valid configurations, dtype included, with the code of the first check that fails. |
| KvCache.CreateCheck | src/kv_cache/kv_cache.cpp:134-172 | Creation of the storage is refused exactly for an invalid configuration, the budget or a failed allocation. |
| NaiveAttention.LaunchRowSoftmax | src/backends/naive/attention_naive.cu:139-177 | Every row with a block ends as its softmax, every other row keeps its raw scores. |
| NaiveAttention.EveryRowNormalisedExactly | src/backends/naive/attention_naive.cu:145-146 | The launch leaves the softmax of every row for all scores if and only if there are at most 2^24 rows. |
| CacheRuns.StepRefines | src/kv_cache/paged_kv_cache.cpp:52-201 | Every operation, whatever it returns, follows the specification: append concatenates, reset clears, syncs and refusals change nothing, and no other sequence or layer changes. |
| CacheRuns.Run | src/kv_cache/paged_kv_cache.cpp:13-201 | Every state reachable from Create satisfies the invariant and refines the token lists. |
| CacheRuns.AppendRefines | src/kv_cache/paged_kv_cache.cpp:52-142 | One append, successful or failing at any point, against the specification. |
| CacheRuns.ResetRefines | src/kv_cache/paged_kv_cache.cpp:144-166 | One reset, also one refused after some layers were zeroed, against the specification. |
| CacheRuns.ForceSyncRefines | src/kv_cache/paged_kv_cache.cpp:187-201 | An upload leaves every token and re-establishes the mirror. |
| CacheRuns.SyncsEndInSync | src/kv_cache/paged_kv_cache.cpp:182-201 | On every configuration a run that ends with SyncPageTable has equal revisions, and equal tables if the revisions differed before; a forced upload makes both equal always; tokens, lengths and the host table stay. |
| CacheRefinement.FreshRefines | src/kv_cache/paged_kv_cache.cpp:13-50 | A new cache refines empty lists: all slots zero, all rows empty, all blocks free. |
| CacheRefinement.StoredRefines | src/kv_cache/paged_kv_cache.cpp:111-140 | Scattering the new tokens to their slots and committing the length extends one list and no other. |
| CacheRefinement.AdmittedEffect | src/kv_cache/paged_kv_cache.cpp:81-141 | Once the blocks are there, an append succeeds exactly when dtype, dimensions, slot buffer and launch allow it, and then appends exactly the new tokens; otherwise it keeps every token. |
| CacheRefinement.RefusedKeepsView | src/kv_cache/paged_kv_cache.cpp:82-91 | A refused allocation changes nothing but its counter. |
| CacheRefinement.ZeroedRefines | src/kv_cache/kv_cache.cpp:253-268 | Zeroing a sequence's blocks in the first layers blanks exactly that sequence on those layers. |
| CacheRefinement.ReleasedRefines | src/kv_cache/paged_kv_cache.cpp:158-164 | Releasing a sequence whose slots are zero leaves an empty list and all others intact. |
| CacheRefinement.ReleasedPool | src/kv_cache/block_manager.cpp:111-126 | ResetSeq of the manager frees exactly the sequence's blocks, in order, without a double-free event. |
| CacheInvariant.RowHasRoom | src/kv_cache/paged_kv_cache.cpp:22-24 | Pigeonhole: owned plus newly taken blocks are distinct and fit the table row. |
| CacheInvariant.AttachSucceeds | src/kv_cache/paged_kv_cache.cpp:75-104 | Once Allocate succeeds AppendToTable cannot fail: the rollback branch is unreachable, and a refusal only counts itself. |
| CacheInvariant.SlotsDefined | src/kv_cache/paged_kv_cache.cpp:111-113 | ComputeSlotMapping cannot fail after the row refresh, and its slots are distinct and belong to the sequence. |
| CacheInvariant.AttachInv | src/kv_cache/paged_kv_cache.cpp:106-109 | After attaching and rewriting the host row, ownership, the three block lists, lengths and the mirror bound hold again. |
| CacheInvariant.SlotInjective | src/kv_cache/kv_cache.cpp:111-130 | Different live positions of all sequences have different slots. |
| CacheFacts.NoStaleData | src/kv_cache/paged_kv_cache.cpp:150-163 | In every reachable state each slot of each layer holds the token of the one live position mapped to it, or is all zero, in free blocks and block tails too. |
| CacheFacts.BlocksConserved | src/kv_cache/paged_kv_cache.cpp:203-208 | Free blocks plus the blocks owned by all sequences is the pool; used blocks are the owned blocks. |
| CacheFacts.MirrorSafety | src/kv_cache/paged_kv_cache.cpp:182-201 | With equal revisions the device table, the host table and the owned list agree on every block that holds a live token. |
| CacheFacts.WholeMirrorStep | src/kv_cache/paged_kv_cache.cpp:106-141 | Agreement of the whole tables survives a step if and only if the step is not an append that attached blocks to an in-sync cache and then failed. |
| CacheFacts.CleanRunMirror | src/kv_cache/paged_kv_cache.cpp:182-185 | On runs without such failures the whole tables agree whenever the revisions do. |
| CacheFacts.AppendSucceedsExactly | src/kv_cache/paged_kv_cache.cpp:52-142 | An append succeeds if and only if sequence and layer are in range, the tensors have equal positive token counts, the cache's dimensions and dtype, owned and free blocks hold the new length, and slot buffer and launch are available; otherwise it returns the code of the first of these that fails. Only a success is counted. |
| CacheFacts.RoomExactly | src/kv_cache/paged_kv_cache.cpp:75-104 | The blocks can be attached if and only if owned and free blocks together hold the new length. |
| CacheFacts.RefusedExactly | src/kv_cache/paged_kv_cache.cpp:77-91 | With valid arguments an append is refused by the pool if and only if fewer blocks are free than are missing, and then only the failure counter moves. |
| CacheFacts.RetryAttachesNothing | src/kv_cache/paged_kv_cache.cpp:134-137 | A failed append keeps lengths, tokens and buffers; its blocks stay attached and repeating it asks the pool for none. |
| CacheFacts.ResetReturnsBlocks | src/kv_cache/paged_kv_cache.cpp:144-166 | A successful reset returns every attached block, those of failed appends included. |
| CacheFacts.FailedGrowthSticks | src/kv_cache/paged_kv_cache.cpp:118-127 | A failed growth of an existing slot buffer leaves a null buffer with the old capacity. |
| CacheFacts.StuckStep | src/kv_cache/paged_kv_cache.cpp:118-137 | That state is left if and only if a larger append regrows the buffer; until then every append within the recorded capacity fails, and resets do not help. |
| CacheFacts.CopiesToNullExactly | src/kv_cache/paged_kv_cache.cpp:128-129 | The slots are copied to a null buffer exactly by an admitted append that fits the recorded capacity of a stuck buffer. |
| PagedKVCache.PagedCache.constructor | src/kv_cache/paged_kv_cache.cpp:13-50 | The state after a successful Create: the fresh cache value with empty lists, valid when the slot numbers are int32 values. |
| PagedKVCache.PagedCache.Create | src/kv_cache/paged_kv_cache.cpp:13-50 | For every configuration: refused exactly for the configuration, the budget or an allocation, with the code of the first failure; a fresh cache otherwise. |
| PagedKVCache.PagedCache.ReleaseSequence | src/kv_cache/paged_kv_cache.cpp:158-164 | Blocks, own list, length, row and counters after the release. |
| PagedKVCache.PagedCache.AppendTokens | src/kv_cache/paged_kv_cache.cpp:52-142 | In place, every field after the call is the append step of the cache value, the token lists follow the specification, and the status is Ok exactly under the conditions of AppendSucceedsExactly. |
| PagedKVCache.PagedCache.CheckedAppend | src/kv_cache/paged_kv_cache.cpp:55-141 | The body of the append: the same checks in the same order, with the state after each early return. |
| PagedKVCache.PagedCache.AttachBlocks | src/kv_cache/paged_kv_cache.cpp:75-104 | Allocate, AppendToTable, rollback and own list amount to Attach, refusals included. |
| PagedKVCache.PagedCache.RefreshHostRow | src/kv_cache/paged_kv_cache.cpp:106-109 | The two loops leave the owned blocks then -1 in the row, all other rows untouched. |
| PagedKVCache.PagedCache.EnsureSlotBuffer | src/kv_cache/paged_kv_cache.cpp:118-127 | The buffer and capacity after a needed growth, successful or not. |
| PagedKVCache.PagedCache.StoreNewTokens | src/kv_cache/paged_kv_cache.cpp:131-141 | Storage rows, length, revision and counter after the store, unchanged when it fails. |
| PagedKVCache.PagedCache.WriteNewTokens | src/kv_cache/paged_kv_cache.cpp:106-141 | Everything after the attach, for every outcome of buffer and launch. |
| PagedKVCache.PagedCache.ResetSeq | src/kv_cache/paged_kv_cache.cpp:144-166 | In place, the state after a reset is the reset step of the cache value and the token list is cleared; refused exactly for a sequence out of range or, when it owns blocks, a refused launch. |
| PagedKVCache.PagedCache.CheckedReset | src/kv_cache/paged_kv_cache.cpp:145-165 | Data cleared, blocks released, own list, length and row dropped, in that order; a refused clear leaves the rest. |
| PagedKVCache.PagedCache.SyncPageTable | src/kv_cache/paged_kv_cache.cpp:182-185 | Afterwards the revisions agree; the device table is the host table if they did not agree before, and as it was otherwise. |
| PagedKVCache.PagedCache.ForceSyncPageTable | src/kv_cache/paged_kv_cache.cpp:187-201 | The device table equals the host table and the revisions agree; the host table is unchanged. |
| BlockManager.Manager.constructor | src/kv_cache/block_manager.cpp:11-44 | The state after a successful Create: all blocks free in descending order, tables all -1. |
| BlockManager.Manager.Create | src/kv_cache/block_manager.cpp:11-44 | Refused exactly for an empty dimension or a failed table allocation. |
| BlockManager.Manager.Allocate | src/kv_cache/block_manager.cpp:46-67 | Succeeds exactly for 0 < count <= free blocks, then pops that many from the back; a refusal changes only the failure counter. |
| BlockManager.Manager.Free | src/kv_cache/block_manager.cpp:69-84 | The loop over an arbitrary id list leaves the pool FreeIds describes. |
| BlockManager.Manager.AppendToTable | src/kv_cache/block_manager.cpp:86-109 | Extends the row after its mapped prefix exactly when sequence and room allow it, or refuses and changes nothing. |
| BlockManager.Manager.ResetSeq | src/kv_cache/block_manager.cpp:111-126 | Frees as many leading row entries as are mapped, empties the row. |
| BlockManager.Manager.SyncTableToDevice | src/kv_cache/block_manager.cpp:128-144 | Afterwards the device table is the host table and the revisions agree. |
| BlockPool.TakenInv | src/kv_cache/block_manager.cpp:59-65 | Taking blocks keeps the free list duplicate-free and exactly the complement of the blocks in use. |
| BlockPool.FreshPoolAscends | src/kv_cache/block_manager.cpp:25-27 | From a fresh pool Allocate hands out 0, 1, 2, ... in ascending order. |
| BlockPool.FreeIdsEffect | src/kv_cache/block_manager.cpp:69-84 | Free of any id list clears the flag of each listed block, keeps the pool invariant, and every entry either grew the free list by an allocated id or raised the counter. |
| BlockPool.FreeCountsExactly | src/kv_cache/block_manager.cpp:69-84 | Free of any id list (out of range, repeated, already free) returns exactly the distinct allocated ids and raises the double-free counter by exactly the number of other entries. |
| BlockPool.FreeDistinct | src/kv_cache/block_manager.cpp:69-84 | Distinct allocated ids are appended to the free list as given, with no double-free event. |
| BlockPool.FreeUndoesAllocate | src/kv_cache/block_manager.cpp:46-84 | Free of an Allocate result restores flags and the free set; the whole pool value if and only if one block was taken. |
| BlockPool.PoolConservation | src/kv_cache/block_manager.cpp:46-84 | Free plus in-use blocks is the pool size. |
| BlockPool.AppendInv | src/kv_cache/block_manager.cpp:86-109 | The table append keeps the pool invariant. |
| BlockPool.ResetInv | src/kv_cache/block_manager.cpp:111-126 | The reset keeps it, whatever the row contains. |
| KvCache.ComputeSlotMapping | src/kv_cache/kv_cache.cpp:99-132 | The slots of consecutive positions, or the error of the first position that has none. |
| KvCache.SlotsSucceed | src/kv_cache/kv_cache.cpp:111-130 | If every position has a slot the mapping lists exactly those slots. |
| KvCache.SlotsFail | src/kv_cache/kv_cache.cpp:115-127 | Otherwise it returns the code of the first failing position. |
| KvConfig.ToInt32 | src/kv_cache/kv_cache.cpp:128-129 | The cast to int32 is exact if and only if the slot number is an int32. |
| KvConfig.SlotsExactly | src/kv_cache/kv_cache.cpp:128-129 | No slot of the pool is changed by the cast if and only if the pool has at most 2^31 slots. |
| KvCache.Storage.constructor | src/kv_cache/kv_cache.cpp:134-178 | One zeroed K and V buffer per layer, none shared (zeroing is a property of the allocator, see the preconditions). |
| KvCache.Storage.Create | src/kv_cache/kv_cache.cpp:134-178 | The storage, or the refusal of CreateCheck. |
| KvCache.Storage.Append | src/kv_cache/kv_cache.cpp:180-212 | Refuses with the first failing check; otherwise scatters to one layer and leaves all others. |
| KvCache.Storage.Reset | src/kv_cache/kv_cache.cpp:253-268 | Zeroes the listed blocks in every layer up to the first refused launch. |
| KvCache.Storage.Gather | src/kv_cache/kv_cache.cpp:224-251 | Refused for the layer, an empty list, the allocation or the launch; otherwise a fresh tensor of the listed blocks, zeros for ids outside the pool. |
| StorageRuns.SlotAfterRun | src/kv_cache/kv_cache_kernels.cu:17-66 | After any run of scatters and resets on a zeroed layer, a slot holds the row last written to it since a reset, or zeros. |
| StorageRuns.GatherRow | src/kv_cache/kv_cache_kernels.cu:68-86 | Gather returns, per slot of each listed block, that slot's row, or zeros for an invalid id. |
| StorageRuns.GatherAfterRun | src/kv_cache/kv_cache_kernels.cu:17-86 | Scatter/gather round trip over any run: last written token, zero if none, negative slots ignored, invalid ids zero. |
| SlotRows.ScatterIsPutRows | src/kv_cache/kv_cache_kernels.cu:17-47 | A scatter of distinct slots puts each token's bytes in its slot and changes no other byte. |
| SlotRows.ZeroedIsZeroBlocks | src/kv_cache/kv_cache_kernels.cu:49-66 | A reset zeroes the rows of the listed blocks and no others. |
| KvKernels.LaunchKvAppend | src/kv_cache/kv_cache_kernels.cu:96-116 | The grid-stride launch is a scatter of both K and V. |
| KvKernels.KvAppendThread | src/kv_cache/kv_cache_kernels.cu:20-46 | One thread performs the stores of exactly the rows of its residue class. |
| KvKernels.AppendRow | src/kv_cache/kv_cache_kernels.cu:25-45 | One row: the byte copies of that row, or nothing for a skipped slot. |
| KvKernels.AnyScheduleScatters | src/kv_cache/kv_cache_kernels.cu:17-47 | Every interleaving of the byte stores is a scatter, even with duplicate slots. |
| KvKernels.AppendIsRaceFree | src/kv_cache/kv_cache_kernels.cu:17-47 | With distinct slots no two steps write the same byte: every cell has a single writer. |
| KvKernels.GridStrideVisitsOnce | src/kv_cache/kv_cache_kernels.cu:23-24 | For any grid and block size each item is visited by exactly one thread in exactly one round. |
| KvKernels.AppendStoreIs | src/kv_cache/kv_cache_kernels.cu:25-45 | Per byte, the address arithmetic sends source byte n to the same offset of its token's slot. |
| KvKernels.LaunchKvReset | src/kv_cache/kv_cache_kernels.cu:118-136 | The launch zeroes the listed valid blocks of K and V. |
| KvKernels.AnyScheduleZeroes | src/kv_cache/kv_cache_kernels.cu:49-66 | So does every interleaving. |
| KvKernels.LaunchKvGather | src/kv_cache/kv_cache_kernels.cu:138-156 | The launch fills the output as GatheredByte says. |
| KvKernels.AnyScheduleGathers | src/kv_cache/kv_cache_kernels.cu:68-86 | So does every interleaving. |
| ThreadGrid.ScheduleIndependent | src/kv_cache/kv_cache_kernels.cu:42-45 | Stores without races leave the same buffer under every interleaving. |
| ThreadGrid.ReplayAt | src/kv_cache/kv_cache_kernels.cu:42-45 | A cell ends with a value some step wrote to it, or as it was. |
| ThreadGrid.BlocksFor | src/kv_cache/kv_cache_kernels.cu:88-92 | At least one block, at most 2^20, and enough for all items unless capped. |
| Layout.KvOffsetInjects | src/kv_cache/kv_cache_layout.cuh:32-38 | Every coordinate has its own offset inside the layer. |
| Layout.KvOffsetCovers | src/kv_cache/kv_cache_layout.cuh:40-43 | Every offset of the layer is the offset of a coordinate: KvOffset is a bijection. |
| SlotRows.UsedEntries | src/kv_cache/block_manager.cpp:96-98 | The scan finds the first empty entry of the row. |
| SlotRows.MappedEntries | src/kv_cache/block_manager.cpp:117-121 | The count of mapped entries of the row. |
| DecodeModel.SplitKIsExact | src/backends/decode/decode_splitk.cu:102-181 | Per-split online loops plus the merge equal two-pass softmax over all visible tokens, zeros when none is visible. |
| DecodeModel.SplitCountIrrelevant | src/backends/decode/decode_splitk.cu:102-181 | Any other number of splits gives the same output. |
| DecodeModel.SplitsCoverAll | src/backends/decode/decode_splitk.cu:102-111 | The splits together see every visible token once, in order. |
| DecodeModel.KvHeadOfGroup | src/backends/decode/decode_splitk.cu:75-82 | The query heads form consecutive groups, and a head of group hkv reads KV head hkv. |
| DecodeModel.EvenGroups | docs/attention_math.md:18 | With H_q = g * H_kv, query head hkv * g + i reads KV head hkv. |
| DecodeModel.HeadHasGroup | src/backends/decode/decode_splitk.cu:75-82 | Every query head lies in the group of the KV head it reads. |
| DecodeModel.TokenAtIs | src/backends/decode/decode_splitk.cu:79-118 | What a query head of group hkv sees of a row, with all addresses written out: its query row against KV head hkv of the K row, times the scale, and that head of the V row. |
| DecodeKernels.LaunchDecodeSplitK | src/backends/decode/decode_splitk.cu:184-209 | Both kernels, for any order of the thread blocks and any initial workspace, leave two-pass softmax in every output row. |
| DecodeKernels.DecodePartialWarp | src/backends/decode/decode_splitk.cu:66-140 | A warp leaves the fold of its split in its own cells and disturbs no finished warp. |
| DecodeKernels.ScanSplit | src/backends/decode/decode_splitk.cu:107-129 | The loop computes the online fold of the visible tokens of its range, skipping unmapped ones. |
| DecodeKernels.OnlineUpdate | src/backends/decode/decode_splitk.cu:120-128 | One token: the in-place update is OnlineStep, every exponent at most zero. |
| DecodeKernels.WarpDot | src/backends/decode/decode_splitk.cu:112-117 | Lane slices plus the butterfly give every lane the whole dot product. |
| DecodeKernels.WritePartial | src/backends/decode/decode_splitk.cu:131-139 | The state lands in the m, l and O cells of the warp, no other cell changes. |
| DecodeKernels.DecodeReduceWarp | src/backends/decode/decode_splitk.cu:144-182 | A reduce warp finishes its row and keeps all others. |
| DecodeKernels.MergeSplits | src/backends/decode/decode_splitk.cu:157-181 | Maximum, rescaled sums and division over the workspace columns give the normalised merge of the states. |
| DecodeGeometry.SplitsPartition | src/backends/decode/decode_splitk.cu:102-105 | Every position below the length lies in exactly one split, no other position in any. |
| DecodeGeometry.SplitsMeet | src/backends/decode/decode_splitk.cu:103-105 | Consecutive splits meet and the last one ends at the length. |
| DecodeGeometry.FlatDecodes | src/backends/decode/decode_splitk.cu:79-81 | (batch, head, split) survives encoding and decoding of the flat index. |
| DecodeGeometry.FlatEncodes | src/backends/decode/decode_splitk.cu:76-81 | Every flat index below the request count decodes to a valid triple and back. |
| DecodeGeometry.SplitsFor | src/backends/decode/decode_config.hpp:24-31 | Between 1 and 16 and at most twice the multiprocessor count; no more splits than 512-token ranges, and enough for all tokens unless a cap applies. |
| DecodeGeometry.RowsApart | src/backends/decode/decode_splitk.cu:136-139 | O cells of different warps never coincide. |
| Softmax.AttentionIsRatio | docs/attention_math.md:11-13 | The shifted, normalised two-pass form is the plain quotient of sums. |
| Softmax.ShiftSums | docs/attention_math.md:50 | Subtracting a common shift scales numerator and denominator alike. |
| OnlineSoftmax.FoldRepresents | docs/online_softmax.md:29-34 | The one-pass loop state stands for exactly the tokens read. |
| OnlineSoftmax.StepRepresents | src/backends/decode/decode_splitk.cu:120-128 | One update adds one token to what the state stands for. |
| OnlineSoftmax.MergeRepresents | docs/online_softmax.md:17-24 | Merging two states is concatenating what they stand for. |
| OnlineSoftmax.MergeAssociates | docs/online_softmax.md:17-24 | The merge is associative. |
| OnlineSoftmax.MergeCommutes | docs/online_softmax.md:17-24 | The merge is commutative. |
| OnlineSoftmax.MergeIdentity | docs/online_softmax.md:40-41 | (-inf, 0, 0) is its identity. |
| OnlineSoftmax.RepresentsUnique | docs/online_softmax.md:29-34 | A state is determined by the tokens it stands for, so any tiling gives the same state. |
| OnlineSoftmax.NormaliseIsAttention | docs/online_softmax.md:23-34 | O / l is two-pass softmax, zeros for an empty list. |
| OnlineSoftmax.SumBounds | src/backends/decode/decode_splitk.cu:123 | After n >= 1 visible tokens 1 <= l <= n, for running and merged states. |
| OnlineSoftmax.OutputBetween | src/backends/decode/decode_splitk.cu:169-180 | Each output coordinate lies between any bounds of that coordinate of the visible values. |
| SplitMerge.MergeAllRepresents | src/backends/decode/decode_splitk.cu:157-179 | The one-shot merge of any number of states stands for the concatenation of their tokens. |
| SplitMerge.TotalIsAbsolute | src/backends/decode/decode_splitk.cu:161-166 | The rescaled sum, made absolute, is the sum of the absolute parts. |
| Reductions.WarpReduce | src/cuda_common/numerics.cuh:67-71 | After offsets n/2..1 every lane holds the combination of all n lanes, for every power of two n. |
| Reductions.RowReduce4 | src/backends/flash/flash_online_softmax.cuh:22-32 | After offsets 1 and 2 every lane holds the combination of the four lanes that share its row. |
| Reductions.GroupStep | src/backends/flash/flash_online_softmax.cuh:22-32 | One exchange with growing offsets doubles the group of neighbours a lane has combined. |
| Reductions.ShuffleStep | src/cuda_common/numerics.cuh:70 | One exchange halves the stride of what each lane holds. |
| Reductions.PartnerClass | src/cuda_common/numerics.cuh:70 | The partner lane is the other half of the stride class and the exchange is its own inverse. |
| Reductions.StrideSplits | src/cuda_common/numerics.cuh:67-71 | A stride class splits into the two classes of the doubled stride. |
| Reductions.BlockReduce | src/cuda_common/numerics.cuh:58-110 | Both stages and the broadcast give every thread the combination over all threads, for 1 to 32 full warps. |
| Reductions.BlockReduceMax | src/cuda_common/numerics.cuh:64-88 | Every thread gets the maximum of all threads, -inf only if all are. |
| Reductions.BlockReduceSum | src/cuda_common/numerics.cuh:90-110 | Every thread gets the sum over all threads. |
| Reductions.ThreadsCombine | src/backends/naive/attention_naive.cu:81-97 | Block-strided loops of any number of threads combine to the fold of all elements. |
| FlashTiles.FlashRow | src/backends/flash/flash_fwd_impl.cuh:115-160 | The causal tile loop with its break, unmasked tiles and rescaling returns two-pass softmax over the keys up to the row's diagonal (all keys without the mask), for every tile size and mask alignment. |
| FlashTiles.SeenIsPrefix | src/backends/flash/flash_causal_mask.cuh:14-16 | The visible ones of the first n keys are keys 0 .. k-1 in order, k = n without the causal mask and max(0, min(n, row + diagonal + 1)) with it. |
| FlashTiles.TileStep | src/backends/flash/flash_online_softmax.cuh:52-94 | One tile's in-place update of m, l and O. |
| FlashTiles.TileRepresents | docs/online_softmax.md:26-34 | A tile update adds exactly the tile's visible keys to what the state stands for. |
| FlashTiles.LoadFragment | src/backends/flash/flash_fwd_impl.cuh:183-209 | Skipping the element mask on in-range, fully visible tiles still gives each column's score up to the diagonal and -inf beyond it or past the last key. |
| FlashTiles.FullyMaskedExact | src/backends/flash/flash_causal_mask.cuh:18-22 | A tile is fully masked if and only if no column from its start on is visible to any row of the block. |
| FlashTiles.FullyVisibleExact | src/backends/flash/flash_causal_mask.cuh:24-28 | A tile is fully visible for a warp if and only if every column is visible to every row. |
| FlashTiles.SeenStops | src/backends/flash/flash_fwd_impl.cuh:132 | Columns that are all invisible add nothing, so the loop may stop. |
| NaiveAttention.NaiveRow | src/backends/naive/attention_naive.cu:41-135 | The naive kernels give two-pass softmax over the keys up to the row's diagonal if and only if there is one (or there are no keys at all); otherwise every coordinate is NaN. |
| NaiveAttention.MaskedScores | src/backends/naive/attention_naive.cu:41-70 | Each cell is the score up to the diagonal and -inf beyond it. |
| NaiveAttention.RowSoftmax | src/backends/naive/attention_naive.cu:74-106 | The block-wide row softmax in place, for any number of full warps: probabilities, or NaN in every cell of a fully masked row. |
| NaiveAttention.WeightedSum | src/backends/naive/attention_naive.cu:126-133 | Adding all keys, masked ones with weight zero, is the sum over visible ones. |
| NaiveAttention.BlockMaxIsMaxScore | src/backends/naive/attention_naive.cu:81-88 | The block maximum is the largest visible score, -inf if and only if none is visible. |
| NaiveAttention.BlockSumIsWeight | src/backends/naive/attention_naive.cu:89-97 | The block sum is the softmax denominator over visible columns. |
| NaiveAttention.NothingSeenExactly | docs/attention_math.md:22-36 | A row with columns sees none if and only if it is causal and above the diagonal. |
| NaiveAttention.AllRowsDefinedExactly | src/api/api_validate.cpp:85 | All rows of a causal problem see a key if and only if there are at least as many keys as queries. |
| Workspaces.Workspace.constructor | src/runtime/workspace.cpp:23-39 | An empty arena of the size, or an uninitialised workspace. |
| Workspaces.Workspace.Slice | src/runtime/workspace.cpp:53-95 | Granted if and only if the workspace is ready, the range is non-empty, aligned and inside the buffer, and every recorded slice is the same or lies beside it; then at the requested offset; the state after, granted or not. |
| Workspaces.GrantsIs | src/runtime/workspace.cpp:77-91 | A range is granted next to, or as, each recorded slice: an exact repeat needs no further check because slices never overlap. |
| Workspaces.Workspace.Scan | src/runtime/workspace.cpp:77-83 | The scan finds whether a recorded slice is met and whether one is identical. |
| Workspaces.Workspace.Reset | src/runtime/workspace.cpp:97-101 | Clears the slices, keeps the peak. |
| Workspaces.RunInv | src/runtime/workspace.cpp:53-101 | After any run the slices are in bounds, non-empty, duplicate-free and disjoint, and the peak is the largest end ever granted, across resets. |
| Workspaces.GrantedExactly | src/runtime/workspace.cpp:84-91 | A list of requests is granted throughout if and only if each is legal and any two are equal or disjoint. |
| Workspaces.AnyOrder | src/runtime/workspace.cpp:84-91 | Hence neither order nor repetition of the requests matters. |
| Workspaces.RepeatAddsNothing | src/runtime/workspace.cpp:80-91 | Repeating a granted request, at any fitting alignment, is granted and records nothing. |
| Workspaces.GrantedAreRecorded | src/runtime/workspace.cpp:90 | The recorded slices are exactly the granted ones. |

## Left out

- Floating point: rounding, fp16/bf16 conversion and exp2f error; arithmetic is over reals, ToFloat is a parameter and FromFloat the identity.
- Integer overflow other than the slot cast: int64 values are unbounded integers.
- Host and device pointers, streams, asynchronous copies and null-pointer checks: there is one memory and every launch is synchronous and atomic; a refused launch or allocation is a parameter.
- KvCache.Storage.Append: appends whose V tensor holds fewer bytes than the kernel reads are excluded (`KvCache.AppendInputs`), because the read then leaves the tensor; and which of several tokens mapped to one slot wins is left open, as in the kernel (the cache never maps two tokens to one slot).
- PagedKVCache.PagedCache.AppendTokens: the same V tensors are excluded.
- PagedKVCache.PagedCache.CheckedAppend: the same V tensors are excluded.
- PagedKVCache.PagedCache.WriteNewTokens: the copy of the slots to the device before the store is left out, also when the buffer is null (see `CacheFacts.CopiesToNullExactly`).
- CacheFacts.StuckStep: the appends said to fail first copy their slots to a null buffer; the model goes on to the error KVCache::Append returns for it.
- Counterexamples.StuckRun: the same copy is left out in its last append.
- KvCache.Storage.constructor: the buffers are zeroed by the constructor; in the code that is up to the device's allocator (`InitialStorage` covers any other bytes).
- PagedAttention.RunPaged: the caller's own page table, block size and row length in PagedAttentionParams are not modelled, only the cache's; the allocation of the output tensor is left out, and so are queries whose launch reads outside a buffer (rows wider than the cache's, or head groups that overflow or are empty).
- DecodeKernels.ScanSplit: the lanes of a warp keep m and l in lockstep, so the model stores them once; the dot product and the accumulator stay per lane.
- DecodeKernels.LaunchDecodeSplitK: thread blocks run one after another in any order; warps inside a block run in index order. Their cells are disjoint (DecodeGeometry.RowsApart, DecodeKernels.WritePartial).
- KvKernels.LaunchKvAppend: the method runs the threads in index order; that every interleaving of byte stores gives a scatter is KvKernels.AnyScheduleScatters.
- Reductions.BlockReduce: only full warps, as the property requires; partially filled last warps are undefined in the source too.
- FlashTiles.FlashRow: scores and value rows of one query row are given; MMA fragments, ldmatrix, the cp.async pipeline, the split of the head dimension over warps and the use of the four-lane row reductions (`Reductions.RowReduce4`) inside the loop are not modelled, and the log-sum-exp output is left out.
- NaiveAttention.NaiveRow: the score of each column is given and the row has a block of its own (see NaiveAttention.LaunchRowSoftmax); the grid-stride loops of the score and value kernels and the log-sum-exp output are left out.
- Workspaces.Workspace.Slice: the size is a mathematical integer; the message strings are dropped and the returned pointer is the offset.
- KVCache::Create: the amount of free memory is an answer of the environment; MaxBlocksForBudget and the statistics other than the append and reset counters of the paged cache are left out.
- The tiled backend, the contiguous decode entry point's own parameter wiring, the flash backend's parameter wiring.
- Dispatcher, API validation, capability probing, scratch pool growth, status strings.
- Benchmarks, FLOP and traffic models, Python tools, readers, examples and the build system.

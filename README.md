# Beam search and stacking over time, modelled in Dafny

This project models two pieces of the praxis layer library.

**Vanilla beam search** (`praxis/beam_search.py`).
- `update_topk_scores_with_eos` merges the finished hypotheses with the ones that end with `eos_id` now. It keeps the `k` best by normalised score.
- `shuffle_state` reorders decode state along the beam axis.
- `broadcast_beam_dim` repeats a batch tensor along a new beam axis.
- `beam_search` itself:
  - the set-up calls into the model;
  - the loop record `val`;
  - `cond_func` and `loop_body`;
  - the map it returns.

**The `StackingOverTime` layer** (`praxis/layers/linears.py`).
- `setup` checks the hyperparameters.
- `window_size` is the number of frames stacked together.
- `_applystack` pads, takes shifted copies, concatenates them and keeps every `stride`-th frame.
- `fprop` applies this to the inputs and to their paddings, then reduces the paddings.
- `unstack` inverts the stacking.

Modules and files:

- `common.dfy` (`Common`): `Option`, `Result`, and the tensor operations both parts use, stated on nested sequences. These are repeat, flatten (a merge of two axes) and reshape (a split), each with its index lemmas.
- `topk.dfy` (`TopK`): `jax.lax.top_k` on one row. It returns the `k` largest values, best first, with ties going to the lower position. It is defined by repeated selection. `IsTopK` specifies it independently, and `TopKUnique` shows that only one index list meets `IsTopK`.
- `beam_search.dfy` (`BeamSearch`): the beam search model.
  - The model object is a class `DecodeModel`. It holds the decode cache, which every call changes in place, and a ghost record of the calls.
  - The loop record is a class `LoopState` whose methods update its fields.
  - `LoopBody` states each iteration as a function of the old record. The method `LoopState.Body` is proved equal to it.
  - `Step` is one pass of the loop on the record and the cache, and `Run` is `n` passes. `Decode` is the whole loop from the set-up record. The method `WhileLoop` is proved to end where `Run` says, and `Loop` and `BeamSearch` to end in `Decode`'s result.
  - Over the passes, no finished score goes down (`RunNeverWorse`), so every finished score of `Decode` is at least the initial `-1e9`.
  - The invariant `Inv` says what holds before and after every iteration:
    - every buffer row starts with its prefix and is zero after column `step`;
    - every finished row starts with its prefix and is zero from its decode length on;
    - a finished row shorter than `seq_len` ends with `eos_id`;
    - the finished rows of each batch entry are sorted by normalised score;
    - `segment_pos` equals the prefix lengths plus the steps taken.
- `stacking.dfy` (`StackingOverTime`): the stacking layer on one batch row.
  - A row is a sequence of frames, and a frame is a sequence of `d` features.
  - `Stacked` is the closed form of the layer. Output frame `j`, slot `i`, holds the input frame at `j * stride + i - left`, or the pad or edge frame outside the input.
  - The methods that follow the source's steps are proved to compute it.

Beam search calls several functions that are not part of this model. Each becomes a field of the datatype `Ops`:
- the model's `fprop_fn`, `transform_state_fn` and `extend_step_fn`;
- `log_softmax`, `length_norm`, `two_stage_topk`, `gather_output_id` and `left_align_output_sequence`.

The predicate `Conforms` records the shapes beam search relies on from them, a non-zero length norm and in-range top-k indices. Everything else about them is left open.

## Model

| member | source | states |
|---|---|---|
| StackingOverTime.Setup | praxis/layers/linears.py:289-295 | succeeds exactly when the name is non-empty, both contexts are non-negative, the stride is at least 1 and the reduce option is `reduce_min` or `reduce_max`; the layer keeps every hyperparameter |
| StackingOverTime.WindowSize | praxis/layers/linears.py:298-307 | the window has at least one frame and is longer than either context |
| StackingOverTime.Stacked | praxis/layers/linears.py:309-317 | `ceil(T / stride)` output frames, each of `window_size * depth` features |
| StackingOverTime.StackedSlot | praxis/layers/linears.py:344-353 | slot `i` of output frame `j` is the input frame at `j * stride + i - left`, or the edge frame or the pad frame outside the input |
| StackingOverTime.NoContextIsStrided | praxis/layers/linears.py:320-321 | without context, the stack is every `stride`-th input frame; with stride 1 as well, it is the input itself |
| StackingOverTime.PySlice | praxis/layers/linears.py:348 | Python slicing clamps its upper bound to the length, and yields nothing when the lower bound is past it |
| StackingOverTime.ConcatFeatures | praxis/layers/linears.py:350 | `jnp.concatenate(pieces, 2)` keeps one frame per time step |
| StackingOverTime.ConcatFeaturesAt | praxis/layers/linears.py:350 | with frames of `d` features, each concatenated frame has `len(pieces) * d` features, and feature `k` of piece `i` sits at `i * d + k` |
| StackingOverTime.Strided | praxis/layers/linears.py:353 | `out[:, ::stride]` has `ceil(T / stride)` frames |
| StackingOverTime.StridedAt | praxis/layers/linears.py:353 | unfolding helper for `Strided`: frame `j` of `out[:, ::stride]` is frame `j * stride` |
| StackingOverTime.PadForStacking | praxis/layers/linears.py:323-342 | after edge-frame copies and constant padding, position `k` of a non-empty input holds the frame the closed form assigns to input position `k - left` |
| StackingOverTime.ApplyStack | praxis/layers/linears.py:309-354 | the padding, the shifted copies, the feature concatenation and the striding together compute the closed form `Stacked` |
| StackingOverTime.MinOf | praxis/layers/linears.py:396 | `jnp.amin` is an element of the frame and no larger than any |
| StackingOverTime.MaxOf | praxis/layers/linears.py:398 | `jnp.amax` is an element of the frame and no smaller than any |
| StackingOverTime.ReducePaddings | praxis/layers/linears.py:395-398 | one padding value per output frame, with depth 1 kept |
| StackingOverTime.DefaultPaddings | praxis/layers/linears.py:374-378 | missing paddings are one zero per frame, each a frame of depth 1 |
| StackingOverTime.Fprop | praxis/layers/linears.py:356-400 | outputs are the stack with pad value 0; the paddings are stacked with pad value 1 and reduced; a trivial layer returns inputs and paddings unchanged |
| StackingOverTime.PaddingSlot | praxis/layers/linears.py:394 | a stacked padding slot is the padding of the frame it covers, or the edge frame's padding, or 1 past an edge without edge-frame padding |
| StackingOverTime.ReduceMinUnpadded | praxis/layers/linears.py:370-371 | with `reduce_min` and 0/1 paddings, an output frame is unpadded exactly when some input frame its window covers is unpadded |
| StackingOverTime.ReduceMaxUnpadded | praxis/layers/linears.py:395-398 | with `reduce_max` and 0/1 paddings, an output frame is unpadded exactly when every covered frame is unpadded and the window does not run past an edge padded with 1 |
| StackingOverTime.WindowIndices | praxis/layers/linears.py:477-489 | `(n - 1) * stride + right + 1` window indices, each naming an existing output frame |
| StackingOverTime.InNextWindow | praxis/layers/linears.py:477-480 | `in_next_window` is 0 or 1, and when the stride fits in the window, the window `q // stride + in_next_window` covers input frame `q` (its slot for `q` lies inside the window) |
| StackingOverTime.WindowIndexBefore | praxis/layers/linears.py:477-480 | `q // stride + in_next_window` names an existing output frame |
| StackingOverTime.FrameIndices | praxis/layers/linears.py:477-491 | as many frame indices as window indices, each a slot inside the window |
| StackingOverTime.Unstack | praxis/layers/linears.py:459-502 | fails exactly when the layer is not trivial and `stride > window_size`; otherwise returns `(frames - 1) * stride + right + 1` frames; a trivial layer returns its input |
| StackingOverTime.UnstackSource | praxis/layers/linears.py:477-491 | the window and slot `unstack` reads frame `q` from are the ones that stacked input frame `q` |
| StackingOverTime.UnstackAt | praxis/layers/linears.py:468-502 | unfolding helper for `Unstack`, used by the round trip: frame `q` is slot `frame_index[q]` of window `window_index[q]` |
| StackingOverTime.UnstackRoundTrip | praxis/layers/linears.py:405-415 | every frame `unstack(fprop(x))` returns at a position inside `x` is the input frame at that position |
| StackingOverTime.UnstackCoverage | praxis/layers/linears.py:414-419 | the round trip returns all of `x` when `right + 1 >= stride`, and otherwise at most `stride - right - 1` frames fewer |
| StackingOverTime.DocumentationExample | praxis/layers/linears.py:258-260 | the documented stacking example gives the documented output |
| StackingOverTime.UnstackDocumentationExample | praxis/layers/linears.py:421-431 | the documented unstack example stacks to `[0 0 1 2], [3 4 5 6]` and unstacks to frames `1 .. 6` |
| StackingOverTime.UnstackExampleStack | praxis/layers/linears.py:421-428 | the documented example input stacks to `[0 0 1 2], [3 4 5 6]` |
| TopK.TopKIndices | praxis/beam_search.py:57 | the chosen positions are in bounds, best first, and rank ahead of every position not chosen (ties to the lower position) |
| TopK.TopKValues | praxis/beam_search.py:57 | the top values are non-increasing and no smaller than any value left out |
| TopK.TopKUnique | praxis/beam_search.py:57 | only one index list meets the top-k specification, so the result is fully determined, ties included |
| TopK.TopKNeverWorse | praxis/beam_search.py:57 | when the first `k` values are already sorted best first, the `a`-th value `top_k` picks is no smaller than the `a`-th of those values |
| BeamSearch.Append | praxis/beam_search.py:53-56 | concatenating two rows along the beam axis adds their sizes in every field |
| BeamSearch.MergeRow | praxis/beam_search.py:48-62 | on one batch row, the result is the `k` entries of the concatenation that rank best by normalised score, each with its own ids, length and raw score; sorted best first |
| BeamSearch.MergeUnique | praxis/beam_search.py:57-61 | the selected rows are determined by the normalised scores |
| BeamSearch.MergeNeverWorse | praxis/beam_search.py:53-57 | merging never lowers a finished score: with the finished rows sorted, the `a`-th merged score is no smaller than the `a`-th finished one |
| BeamSearch.UpdateTopkScoresWithEos | praxis/beam_search.py:35-62 | every batch row keeps, best first, the `k` best of its `k` finished and `m` new hypotheses, `k` being the beam size of `end_hyps` |
| BeamSearch.MergeKeeps | praxis/beam_search.py:58-61 | the one-hot contraction only copies whole hypotheses: a property of every input pair of ids and length holds of every merged one |
| BeamSearch.MergeExample | praxis/beam_search.py:35-62 | finished norms `[5, 3]` merged with new norms `[9, 1]` keep the new 9 and then the finished 5, each with its own fields |
| BeamSearch.ShuffleState | praxis/beam_search.py:65-79 | tensors stay tensors and keep their batch size; each row gets one entry per beam id |
| BeamSearch.ShuffleGathers | praxis/beam_search.py:75-79 | unfolding helper for `ShuffleState`, used by the lemmas after it: values of rank below two pass through; beam `j` of row `b` becomes beam `hyp_id[b][j]` of the same row |
| BeamSearch.ShuffleCompose | praxis/beam_search.py:65-79 | two shuffles equal one shuffle by the composed ids |
| BeamSearch.ShuffleIdentity | praxis/beam_search.py:65-79 | shuffling by the identity ids changes nothing |
| BeamSearch.IdentityIds | praxis/beam_search.py:65-79 | the identity ids point inside every row |
| BeamSearch.BroadcastBeamDim | praxis/beam_search.py:82-94 | a batch x beam grid whose every beam of row `b` is `x[b]` |
| BeamSearch.ShuffleBroadcast | praxis/beam_search.py:65-94 | shuffling a broadcast value gives the broadcast again |
| BeamSearch.BroadcastStateFn | praxis/beam_search.py:146-148 | `jnp.repeat` along the batch axis: `beam` times as many entries, entry `p` being input entry `p // beam` |
| BeamSearch.BroadcastStateFnIsBroadcast | praxis/beam_search.py:146-148 | repeating along the batch axis is the beam broadcast with batch and beam merged |
| BeamSearch.ShuffleStateFn | praxis/beam_search.py:217-224 | reshaping, shuffling and reshaping back keeps the length |
| BeamSearch.ShuffleStateFnAt | praxis/beam_search.py:217-224 | on the merged axis, position `b * beam + j` receives position `b * beam + hyp_id[b][j]` |
| BeamSearch.DecodeModel.FProp | praxis/beam_search.py:138-139 | the cache becomes `fprop_fn`'s result, and the call is recorded |
| BeamSearch.DecodeModel.TransformState | praxis/beam_search.py:141-149 | the cache becomes `transform_state_fn`'s result, and the call is recorded |
| BeamSearch.DecodeModel.ExtendStep | praxis/beam_search.py:188-189 | the cache and logits are `extend_step_fn`'s result, and the call is recorded |
| BeamSearch.PrefixLength | praxis/beam_search.py:164 | with 0/1 paddings, `sum(1 - paddings)` lies between 0 and the row length |
| BeamSearch.PrefixLengthCountsZeros | praxis/beam_search.py:163-164 | with 0/1 paddings, `sum(1 - paddings)` counts the unpadded positions |
| BeamSearch.Grid | praxis/beam_search.py:153-159 | a batch x beam grid holding one value everywhere |
| BeamSearch.DynamicUpdateSlice | praxis/beam_search.py:170-172 | at the origin, each row's leading part is replaced by the update and the rest is kept |
| BeamSearch.LoopState.constructor | praxis/beam_search.py:151-178 | the initial record: the prefix and then zeros in every beam, finished ids the same, all finished scores `-1e9`, beam `j`'s score `-j * 1e9`, `step` at `max_prefix_len - 1`, `segment_pos` the prefix lengths minus one, and every finished length `seq_len`; the invariant holds |
| BeamSearch.InitialHypScores | praxis/beam_search.py:159-161 | beam `j` of every batch entry starts with score `-j * 1e9` |
| BeamSearch.InitialOK | praxis/beam_search.py:151-178 | the initial record meets the loop invariant, every beam of its buffer is its row's prefix followed by zeros, and every finished score is `-1e9` |
| BeamSearch.LastIds | praxis/beam_search.py:188 | `batch * beam` ids, position `b * beam + j` holding column `step` of beam `j` of row `b` |
| BeamSearch.LogProbs | praxis/beam_search.py:190-193 | logits reshaped to batch x beam x vocab, with log-softmax keeping the shape |
| BeamSearch.EosNorms | praxis/beam_search.py:195-201 | normalised eos score times `length_norm(step + 2 - max_prefix_len)` equals hypothesis score plus eos log-probability |
| BeamSearch.SetColumn | praxis/beam_search.py:235 | `.at[:, :, col].set(v)` keeps every shape and every column but `col`, which takes `v` |
| BeamSearch.EosCandidates | praxis/beam_search.py:195-199 | every candidate has decode length `step + 2` and the buffer row with `eos_id` at column `step + 1` and nothing else changed; the raw scores are the hypothesis scores and the normalised ones the eos scores |
| BeamSearch.EosCandidatesOK | praxis/beam_search.py:196-199 | the eos candidates differ from the buffer only at column `step + 1`, which holds `eos_id`; they have length `step + 2` and are well-formed finished rows |
| BeamSearch.HypIds | praxis/beam_search.py:214 | `hyp_id` is the floor quotient: `beam * hyp_id <= final_topk_indices < beam * (hyp_id + 1)`, with the indices' shape |
| BeamSearch.HypIdsInRange | praxis/beam_search.py:214 | `final_topk_indices // beam_size` is a beam id below `beam_size` |
| BeamSearch.NextBufferOK | praxis/beam_search.py:232-235 | after the shuffle and the column write, beam `j` is old beam `hyp_id[b][j]` except at column `step + 1`, which holds the new id; the row stays well formed one step on |
| BeamSearch.MergedOK | praxis/beam_search.py:202-207 | merging keeps every finished row well formed and the rows sorted by normalised score |
| BeamSearch.LoopBody | praxis/beam_search.py:185-238 | one iteration as a function of the record and the cache; its next record is the merge followed by the buffer update, and it meets the loop invariant |
| BeamSearch.StepKeepsInv | praxis/beam_search.py:185-238 | one iteration keeps the loop invariant |
| BeamSearch.LoopState.RecordFinished | praxis/beam_search.py:195-207 | the finished fields become the merge of the old finished rows and this step's eos candidates |
| BeamSearch.LoopState.AdvanceBuffer | praxis/beam_search.py:232-237 | the buffer is shuffled and gets the new ids at column `step + 1`; `step` and `segment_pos` each advance by one |
| BeamSearch.LoopState.Body | praxis/beam_search.py:185-238 | the record becomes what `LoopBody` computes and the invariant holds after; the model sees one extend step on column `step` and one beam shuffle by `hyp_id` |
| BeamSearch.LoopState.Score | praxis/beam_search.py:187-213 | after the extend step, the merge of the eos candidates and the top-k choice, the finished fields are the merge and the hypothesis scores are the top-k values; the model sees one extend step on column `step` |
| BeamSearch.Step | praxis/beam_search.py:185-238 | one pass of the loop as a function of the record and the cache: on a record meeting the invariant with a pass due, the next record meets it too with `step` one further |
| BeamSearch.StepNeverWorse | praxis/beam_search.py:195-207 | one pass never lowers any finished normalised score |
| BeamSearch.Run | praxis/beam_search.py:240-246 | `n` passes of the loop: from a record meeting the invariant with `n` passes left before `seq_len - 1`, the record after them meets it with `step` `n` further |
| BeamSearch.RunNeverWorse | praxis/beam_search.py:240-246 | the finished normalised scores never go down over the passes of the loop |
| BeamSearch.RunStep | praxis/beam_search.py:240-246 | `n + 1` passes are one pass followed by `n` passes |
| BeamSearch.Decode | praxis/beam_search.py:151-246 | the whole loop from the set-up record ends with the invariant at `step = seq_len - 1`, and every finished score is at least the initial `-1e9` |
| BeamSearch.LoopState.Iterate | praxis/beam_search.py:240-246 | one pass of the loop keeps the invariant, advances `step` by one, adds one extend step and one beam shuffle to the calls, and leaves the record and the cache that `Step` computes from the old ones |
| BeamSearch.Continue | praxis/beam_search.py:180-183 | on a record that meets the invariant, `cond_func` is false exactly at `step = seq_len - 1` |
| BeamSearch.LeadsStep | praxis/beam_search.py:240-246 | one pass keeps the final record and cache the remaining passes lead to |
| BeamSearch.Pass | praxis/beam_search.py:240-246 | one pass keeps the invariant, adds two calls to the loop's trace and keeps the final record and cache the remaining passes lead to |
| BeamSearch.LoopTraceLength | praxis/beam_search.py:240-246 | `n` iterations make `2n` model calls |
| BeamSearch.MakeSetup | praxis/beam_search.py:129-136 | `seq_len - max_prefix_len` is `max_decode_steps`; the derived sizes are consistent exactly when the prefix is a `batch x max_prefix_len` grid, the beam size is positive and `eos_id` is a vocabulary entry |
| BeamSearch.WhileLoop | praxis/beam_search.py:180-246 | from `step = max_prefix_len - 1`, the loop runs `max_decode_steps` times with one extend step and one shuffle each, stops at `seq_len - 1`, keeps the invariant, and ends in the record and the cache that `Run` computes for those passes |
| BeamSearch.Loop | praxis/beam_search.py:151-246 | from the set-up record, the loop makes `seq_len - max_prefix_len` passes and ends, with the invariant at `step = seq_len - 1`, in exactly the record and the cache `Decode` computes |
| BeamSearch.DecodesIsDecode | praxis/beam_search.py:151-246 | a record and cache are where the loop ends from the set-up record exactly when they equal `Decode`'s result |
| BeamSearch.Output | praxis/beam_search.py:248-258 | `scores` and `logprobs` are the finished normalised scores, `decode_lengths` the finished lengths; `step` and `segment_pos` are as the loop left them |
| BeamSearch.OutputWellFormed | praxis/beam_search.py:248-258 | every output row has `seq_len` ids, every decode length is between `max_prefix_len` and `seq_len`, and scores come best first |
| BeamSearch.BeamSearch | praxis/beam_search.py:97-259 | without `max_decode_steps` it fails and leaves the model alone; otherwise it makes the three set-up calls, runs `max_decode_steps` iterations, ends with the invariant at `step = seq_len - 1` in the record and the cache `Decode` computes from the cache after set-up, and returns the map built from the finished rows |

## Left out

- Floating point: scores are `real`, so float32 rounding and overflow are not modelled. The `1e9` penalty is exact.
- The functions `beam_search` calls from other modules are parameters, specified only by what `Conforms` assumes of them:
  - `log_softmax`, `length_norm`, `two_stage_topk`, `gather_output_id`, `left_align_output_sequence`;
  - `pad_state_fn`;
  - the model's `fprop_fn`, `extend_step_fn` and `transform_state_fn`.
  - The decode cache is an opaque value and is not inspected.
  - Beyond shapes, `Conforms` assumes two facts the source takes for granted. `length_norm(n, alpha)` is not zero for `n >= 1`, since it is a divisor. Every `final_topk_indices` entry lies in `[0, beam_size * beam_size)`, so that `hyp_id` is a beam id.
- The state transforms are modelled on a cache leaf whose batch axis is axis 0 (`BroadcastStateFn`, `ShuffleStateFn`). Other `batch_dim` values are not modelled. The cache itself only records which transform it was given.
- `nn.while_loop`'s `carry_variables` and Flax variable collections are not modelled. The loop is a plain `while` over the record.
- BeamSearch.Step and BeamSearch.Run are total functions: on a record outside the loop invariant, or with no pass due, Step returns the record and the cache unchanged. The loop never reaches such a record, so this choice only fixes a value the source never computes.
- BeamSearch.BeamSearch:
  - It requires `beam_size >= 1`, because `_shuffle_state_fn` and `final_topk_indices // beam_size` divide by it.
  - It requires `0 <= eos_id < vocab`, because `logprobs[:, :, eos_id]` must read a real entry.
  - It requires the prefix ids and paddings to be `batch x max_prefix_len` grids.
  - A missing `max_decode_steps` is a `Failure` result instead of an assertion error.
- BeamSearch.ShuffleState requires in-range beam ids. `jnp.take`'s clamping of out-of-range indices is not modelled.
- BeamSearch.LoopState.RecordFinished: the raw score of each eos candidate is the hypothesis score before the eos log-probability is added, exactly as `update_topk_scores_with_eos` is called in the source. That field (`end_scores`) is deleted before the map is returned, so it affects nothing the model promises.
- `segment_pos` is kept flat (`batch * beam` entries). The source reshapes it to `[batch * beam, 1]`.
- StackingOverTime models one batch row. The batch axis of `_applystack`, `fprop` and `unstack` is a map over rows and is not written out.
- StackingOverTime.Unstack requires at least one stacked frame when the layer is not trivial. Indexing an empty stack in the source has no defined result to model.
- StackingOverTime.Fprop requires the paddings, when given, to have one value per frame. The source's `assert_has_shape` failures are not modelled as errors.
- The `name` check of `setup` is modelled as a non-empty string.

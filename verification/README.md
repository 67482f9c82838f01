# pyworld-rl decision rules and state machines, in Dafny

This project models the small decision rules and state machines inside the
glue code of pyworld-rl. It proves properties of each one. The tensors,
figures and widgets around them are abstracted away: batch means and losses are
opaque reals, arrays are known by their shape, and the random draws of the
replay buffer are an input.

| file | module | what it models |
|---|---|---|
| `pyresult.dfy` | `PyResult` | Python exceptions as a `Result`, and `None` as an `Option` |
| `arith.dfy` | `Arith` | small multiplication facts shared by the `%` and `//` proofs |
| `vaegan.dfy` | `VaeGan` | the `train_dis`/`train_dec` gate of `VAEGAN.loss` and the update order of `VAEGAN.step` |
| `autoencoders.dfy` | `Autoencoders` | the loss combination of `VAE.step` and `AAE.step`, and the AAE's cached target tensors |
| `jupyter.dfy` | `Jupyter` | the `DynamicPlot.extend` buffer, the `progress` counter and the two mouse-move handlers |
| `plot.dfy` | `Plot` | `__listdepth__`, `__legend__`, `Singleton`, the input normalisation of `plot`, the grid of `plot_image`, the masks of `scroll_images`, the frames of `play` |
| `traintuils.dfy` | `TrainUtils` | `dataset` and `replay_iterator`: the fill, the cyclic write slot, the index adjustment and the next-state index |

A Python exception becomes `Err(e)`, naming the exception class the source
raises. An `assert` becomes `AssertionError`. A division by a zero snap or
scale becomes `ZeroDivisionError`. Indexing past the end becomes `IndexError`.

The VAE-GAN reset of both flags happens in the same `loss` call that would
have cleared them both (`AEOptimiser.py:160-162`), not on the next call. The
model follows the code here.

The replay-buffer proofs number the stream's items by position. With `R` the
`replay_size`, the fill writes items `0 .. R-1`, and step `i` writes item
`R + i`. `Current` states
which item each slot then holds. `TransitionIsReal` shows that the transition
at slot `j` pairs consecutive items exactly when `j` is not the slot just
written.

The replay step, run and iterator take the index adjustment as a parameter.
`AsWritten` is line 48 of `traintuils.py` as it stands, and `ReplayIterator`
uses it. `Intended` compares with the slot just written; the proofs that every
sampled transition is real are about that version (see "## Findings").

## Model

| member | source | states |
|---|---|---|
| VaeGan.UpdateGate | pyworld/algorithms/optimise/AEOptimiser.py:154-162 | the flags are never both false afterwards; with both means inside `[0.48, 0.88]` a live gate is unchanged; a mean below 0.48 alone clears `train_dis`, and a mean above 0.88 alone clears `train_dec`, unless the other flag was already false, in which case both become true; one mean below and one above sets both true in the same call; a flag turns true again only through that reset |
| VaeGan.RunGateLive | pyworld/algorithms/optimise/AEOptimiser.py:156-162 | from a live gate, such as the constructor's `(True, True)`, any number of `loss` calls keeps the gate live |
| VaeGan.LiveGatesAreModes | pyworld/algorithms/optimise/AEOptimiser.py:156-162 | the live gates are exactly three states: both training, decoder only, discriminator only |
| VaeGan.UpdateGateFollowsTable | pyworld/algorithms/optimise/AEOptimiser.py:156-162 | the flag code agrees with a three-state transition table on every state and every pair of means |
| VaeGan.StepTrace | pyworld/algorithms/optimise/AEOptimiser.py:169-189 | a step clears all gradients, logs, backpropagates the encoder loss and steps the encoder, then clears again; the decoder is stepped iff `train_dec` and the discriminator iff `train_dis`, last |
| VaeGan.Step | pyworld/algorithms/optimise/AEOptimiser.py:169-171 | a step uses the flags as updated by its own `loss` call, and they are live |
| VaeGan.StepTraceRuns | pyworld/algorithms/optimise/AEOptimiser.py:169-189 | one step logs its losses once, then updates the encoder, then the decoder iff `train_dec`, then the discriminator iff `train_dis`; each update sees only the gradient of its own loss, whatever gradients the previous call left, and no backward pass runs on a freed graph |
| VaeGan.StepUpdatesTwo | pyworld/algorithms/optimise/AEOptimiser.py:175-189 | every step updates at least two of the three sub-networks, the encoder first |
| VaeGan.TrainUpdatesTwoEveryCall | pyworld/algorithms/optimise/AEOptimiser.py:169-189 | over a run of steps the final gate depends only on the batch means, stays live, and every call updates the encoder and at least one other network with clean gradients |
| Autoencoders.Kld | pyworld/algorithms/optimise/AEOptimiser.py:55 | the KL term vanishes when `beta` or the latent sum is zero |
| Autoencoders.VaeStep | pyworld/algorithms/optimise/AEOptimiser.py:58-65 | the logged KL term is `Kld(beta, latentSum)`, the reconstruction loss is logged unchanged, and the returned and logged total is their sum |
| Autoencoders.VaeBetaScalesOnlyKld | pyworld/algorithms/optimise/AEOptimiser.py:55-61 | doubling `beta` doubles the KL term and leaves the reconstruction term alone |
| Autoencoders.Filled | pyworld/algorithms/optimise/AEOptimiser.py:94-95 | `np.ones`/`np.zeros` of a shape has that shape, that many elements, all equal to the fill value |
| Autoencoders.InitialTargetsValid | pyworld/algorithms/optimise/AEOptimiser.py:83-84 | the constructor's empty targets are trivially all ones and all zeros |
| Autoencoders.Refresh | pyworld/algorithms/optimise/AEOptimiser.py:93-95 | afterwards the real target has `p_real`'s shape; both targets are kept when that shape already matched, and both are rebuilt from `p_real`'s and `p_fake`'s shapes otherwise; all ones and all zeros is preserved |
| Autoencoders.AaeStep | pyworld/algorithms/optimise/AEOptimiser.py:91-109 | the step fails with `ValueError` exactly when the refreshed fake target's shape differs from `p_fake`'s, and the refresh survives the failure; the adversarial loss is the sum of the two cross-entropies; the total is `beta * pixel + (1 - beta) * adversarial`, so it lies between the two when `0 <= beta <= 1` |
| Autoencoders.AaeRunSameShapesNeverFails | pyworld/algorithms/optimise/AEOptimiser.py:93-97 | when every call's `p_real` and `p_fake` share a shape, no call fails and the cached targets stay all ones and all zeros |
| Autoencoders.StaleFakeTargetFails | pyworld/algorithms/optimise/AEOptimiser.py:93-97 | a second call with the same `p_real` shape but a new `p_fake` shape fails, because the fake target is stale |
| Jupyter.NewBuffer | pyworld/toolkit/tools/visutils/jupyter.py:44-48 | a new `DynamicPlot` has empty caches and satisfies the buffer invariant |
| Jupyter.Extend | pyworld/toolkit/tools/visutils/jupyter.py:50-58 | `AssertionError` iff the lengths differ or `trace != 0`; a flush happens iff the cache would exceed `update_after`, hands over the old cache followed by the batch, and empties the cache; the caches stay equal in length and within the bound |
| Jupyter.ExtendConserves | pyworld/toolkit/tools/visutils/jupyter.py:53-58 | one call's flushed points followed by the new cache are the old cache followed by the batch |
| Jupyter.ExtendAllConserves | pyworld/toolkit/tools/visutils/jupyter.py:50-58 | over any run of well-formed calls no point is lost, duplicated or reordered, and every flush carries more than `update_after` points |
| Jupyter.ProgressFrom | pyworld/toolkit/tools/visutils/jupyter.py:76-78 | item `j` is yielded at event `2j` and the bar is then set to `done + j + 1` |
| Jupyter.Progress | pyworld/toolkit/tools/visutils/jupyter.py:72-78 | the bar's maximum is `len(iterator)`, with one yield and one tick per item |
| Jupyter.ProgressCounts | pyworld/toolkit/tools/visutils/jupyter.py:73-78 | after `k` items have been resumed past, those `k` items were yielded in order and the bar reads `k`; while item `k` is being consumed it reads `k - 1` |
| Jupyter.ProgressCompletes | pyworld/toolkit/tools/visutils/jupyter.py:73-78 | full iteration yields every item in order and leaves the bar at its maximum |
| Jupyter.TruncDiv | pyworld/toolkit/tools/visutils/jupyter.py:232 | `int(a / b)` truncates toward zero: the remainder has the sign of `a` and is smaller than `abs(b)` |
| Jupyter.Clamp | pyworld/toolkit/tools/visutils/jupyter.py:232-233 | `min(max(v, lo), hi)` is `v` when in range, `lo` below it, `hi` above it, and `hi` whenever `lo > hi` |
| Jupyter.Snap | pyworld/toolkit/tools/visutils/jupyter.py:232-233 | `int(v / s) * s` is a multiple of `s` between 0 and `v`, within `abs(s)` of `v` |
| Jupyter.NewEventHandler | pyworld/toolkit/tools/visutils/jupyter.py:211-226 | position `(0, 0)`; bounds default to `(0, 0)` and the widget's size |
| Jupyter.EventPosition | pyworld/toolkit/tools/visutils/jupyter.py:231-233 | `ZeroDivisionError` iff a snap is 0; otherwise each coordinate is the snapped `rel - 2` when that lies within `[min, max]`, `min` when below, `max` when above, and `max` when `min > max` |
| Jupyter.OnMouseMove | pyworld/toolkit/tools/visutils/jupyter.py:230-239 | the callback fires with the new position iff it differs from the stored one, and the new position is stored |
| Jupyter.RepeatedEventFiresOnce | pyworld/toolkit/tools/visutils/jupyter.py:235-239 | the same event delivered twice fires the callback at most once |
| Jupyter.HandleAllDeduplicates | pyworld/toolkit/tools/visutils/jupyter.py:230-239 | over any run the callback never sees the same position twice in a row, all positions are within the upper bounds, and the handler ends holding the last reported position |
| Jupyter.NewCanvasHandler | pyworld/toolkit/tools/visutils/jupyter.py:186-190 | the stored position starts at `(0, 0)` |
| Jupyter.CanvasPosition | pyworld/toolkit/tools/visutils/jupyter.py:193-194 | `ZeroDivisionError` iff the scale is 0; otherwise each coordinate is `int(x / scale)` when that lies within `[0, int(size / scale - 1)]`, 0 below it and the upper bound above it or when the upper bound is negative |
| Jupyter.CanvasMouseMoveAsWritten | pyworld/toolkit/tools/visutils/jupyter.py:192-197 | the callback fires iff the position differs from the stored one, and nothing is stored |
| Jupyter.CanvasAsWrittenFiresTwice | pyworld/toolkit/tools/visutils/jupyter.py:195-197 | as written, the event `(3, 3)` fires on a new handler, and since nothing is stored a repeat fires again; the corrected handler fires on the same event, stores `(3, 3)`, and suppresses the repeat |
| Jupyter.CanvasMouseMove | pyworld/toolkit/tools/visutils/jupyter.py:192-197 | corrected handler: fires iff the position changed, and stores it |
| Jupyter.CanvasRepeatedEventFiresOnce | pyworld/toolkit/tools/visutils/jupyter.py:195-197 | with the corrected handler, a repeated event fires at most once |
| Plot.ListDepth | pyworld/toolkit/tools/visutils/plot.py:47-51 | the depth is 0 exactly when `x[0]` raises, that is for a non-list or an empty list |
| Plot.NestDepth | pyworld/toolkit/tools/visutils/plot.py:47-51 | `d` levels of one-element lists around a depth-0 value have depth `d` |
| Plot.FirstElementDecidesDepth | pyworld/toolkit/tools/visutils/plot.py:47-51 | only the first-element chain counts: the other elements do not change the depth |
| Plot.Legend | pyworld/toolkit/tools/visutils/plot.py:53-58 | a list or tuple legend is returned unchanged, anything else fails its assert, and the default is `1 .. size` |
| Plot.ModeAt | pyworld/toolkit/tools/visutils/plot.py:109-118 | a single mode, wrapped in a `Singleton`, answers every index with itself; a list of modes raises `IndexError` past its end |
| Plot.Normalise | pyworld/toolkit/tools/visutils/plot.py:95-107 | arrays must share a shape, and a 1-D array gains a leading axis; lists must have equal depth 1 or 2, a depth-1 list is wrapped once, and the result has depth 2 |
| Plot.Len | pyworld/toolkit/tools/visutils/plot.py:112 | `len` is the leading dimension or the list length, and raises for a 0-d array |
| Plot.Traces | pyworld/toolkit/tools/visutils/plot.py:94-118 | `plot` succeeds iff the input normalises, both inputs have a length, the legend is a list or tuple and every paired row has a mode and a legend entry; then one trace per row that `zip` pairs up, in order, with the row's mode and legend entry; failed normalisation or a non-list legend gives `AssertionError` |
| Plot.AddTraces | pyworld/toolkit/tools/visutils/plot.py:117-118 | the loop succeeds iff every row has a mode and a legend entry, and trace `k` draws row `k` with `mode[k]` and `legend[k]` |
| Plot.OneModeDefaultLegendSucceeds | pyworld/toolkit/tools/visutils/plot.py:109-118 | with a single mode and no legend, `plot` succeeds whenever the input normalises and both inputs have a length, with one trace per paired row |
| Plot.OneModeBroadcast | pyworld/toolkit/tools/visutils/plot.py:109-118 | a single mode is applied to every trace |
| Plot.FlatListsDrawOneTrace | pyworld/toolkit/tools/visutils/plot.py:100-118 | two flat lists draw one trace, named 1 by default |
| Plot.ImageBatchShape | pyworld/toolkit/tools/visutils/plot.py:168-173 | a 3-D image gains a leading axis, a 2-D image a leading and a trailing one, and other shapes pass through |
| Plot.GridSide | pyworld/toolkit/tools/visutils/plot.py:175 | `g * g >= n` and `(g - 1) * (g - 1) < n` |
| Plot.GridSideUnique | pyworld/toolkit/tools/visutils/plot.py:175 | `g` is the least integer with `g * g >= n` |
| Plot.Cell | pyworld/toolkit/tools/visutils/plot.py:183 | image `i` goes to row `i % g + 1` within `1 .. g` and column `i // g + 1`, within `1 .. g` when `i < g * g` |
| Plot.CellRoundTrip | pyworld/toolkit/tools/visutils/plot.py:183 | the cell `(i % g + 1, i // g + 1)` reads back to image `i` |
| Plot.ImageCells | pyworld/toolkit/tools/visutils/plot.py:167-183 | one cell per image, each within `1 .. g` on both axes, reading back to its image, all distinct; a 0-d array raises |
| Plot.Mask | pyworld/toolkit/tools/visutils/plot.py:197 | mask `i` has length `n` and is true exactly at `i` |
| Plot.MaskIsOneHot | pyworld/toolkit/tools/visutils/plot.py:197 | such a mask shows exactly one trace |
| Plot.ScrollImages | pyworld/toolkit/tools/visutils/plot.py:188-197 | only trace 0 is visible at first, and it must exist; step `i` shows exactly image `i`; step 0 matches the initial visibility |
| Plot.NatToString | pyworld/toolkit/tools/visutils/plot.py:237 | `str(i)` is decimal digits with no leading zero |
| Plot.ParseNatToString | pyworld/toolkit/tools/visutils/plot.py:237 | reading `str(i)` back gives `i` |
| Plot.NatToStringInjective | pyworld/toolkit/tools/visutils/plot.py:237 | distinct frames get distinct names |
| Plot.Play | pyworld/toolkit/tools/visutils/plot.py:229-247 | one frame per image, frame `k` named `str(k)` and read back as `k`, all names distinct; slider step `k` animates frame `k` and is labelled with its name; image 0 must exist |
| TrainUtils.Dataset | pyworld/toolkit/tools/traintuils.py:14-25 | `AssertionError` iff the buffers' lengths differ, with the caller's arrays untouched; with `n` slots and at least `n` items, slot `i` holds item `i`, encoded, and the filled arrays are returned; a shorter stream gives `None` but its items are still written in place to the first slots, the rest untouched; `n == 0` with a non-empty stream raises `IndexError` |
| TrainUtils.Slot | pyworld/toolkit/tools/traintuils.py:44-45 | the write slot lies in `[0, replay_size)` and is `i` itself during the first cycle |
| TrainUtils.NextSlot | pyworld/toolkit/tools/traintuils.py:52 | the next-state slot is `j + 1`, wrapping to 0 after the last slot |
| TrainUtils.Bump | pyworld/toolkit/tools/traintuils.py:48-49 | a hit draw moves to the next slot and any other draw is kept |
| TrainUtils.AdjustAsWritten | pyworld/toolkit/tools/traintuils.py:48-49 | indices stay in `[0, replay_size)`; only draws equal to the raw counter `i` are moved; while `i < replay_size` (with more than one slot) no index equals `i` |
| TrainUtils.AsWrittenIdleAfterFill | pyworld/toolkit/tools/traintuils.py:48 | once `i >= replay_size` the adjustment as written moves nothing |
| TrainUtils.Adjust | pyworld/toolkit/tools/traintuils.py:48-49 | corrected adjustment: indices stay in range, only draws of the slot just written move, and with more than one slot no index equals that slot |
| TrainUtils.AdjustAgreesBeforeWrap | pyworld/toolkit/tools/traintuils.py:48-49 | during the first cycle the corrected adjustment is the one as written |
| TrainUtils.ReplayStep | pyworld/toolkit/tools/traintuils.py:44-55 | the item overwrites slot `i % replay_size` and nothing else; the three batches have one row per draw, from the same adjusted index vector (line 48 as written under `AsWritten`, the corrected one under `Intended`), with the next state taken from the next slot |
| TrainUtils.StepAgreesBeforeWrap | pyworld/toolkit/tools/traintuils.py:44-55 | while `i < replay_size` the step as written and the corrected step are the same |
| TrainUtils.ReplayRun | pyworld/toolkit/tools/traintuils.py:38-55 | one batch per streamed item, each with one row per draw, all steps under the same adjustment |
| TrainUtils.ReplayIterator | pyworld/toolkit/tools/traintuils.py:27-55 | a stream too short to fill the buffers fails to unpack `None`; otherwise the batches are those of the run as written over the rest of the stream, from the filled buffers |
| TrainUtils.FillIsCurrent | pyworld/toolkit/tools/traintuils.py:16-25 | after the fill, slot `j` holds item `j` |
| TrainUtils.WriteKeepsCurrent | pyworld/toolkit/tools/traintuils.py:44 | writing the next item to its slot keeps every slot holding its latest item |
| TrainUtils.TransitionIsReal | pyworld/toolkit/tools/traintuils.py:48-52 | the transition at slot `j` pairs consecutive items iff `j` is not the slot of the last written item |
| TrainUtils.StepKeepsCurrent | pyworld/toolkit/tools/traintuils.py:44-45 | a step keeps the buffer current |
| TrainUtils.StepSamplesRealTransitions | pyworld/toolkit/tools/traintuils.py:44-52 | with two slots or more, under the corrected adjustment, or as written during the first cycle, every sampled next state is the item that followed the sampled state |
| TrainUtils.RunSamplesRealTransitions | pyworld/toolkit/tools/traintuils.py:38-55 | with two slots or more, the same for every batch of a corrected run |
| TrainUtils.NumberedStreamYieldsRealTransitions | pyworld/toolkit/tools/traintuils.py:27-55 | from the buffers the fill leaves, every transition the corrected iterator yields is real once there are two slots or more |
| TrainUtils.AsWrittenBrokenAfterWrap | pyworld/toolkit/tools/traintuils.py:48-52 | once `i >= replay_size`, a draw of the slot just written is kept as written; that slot holds the newest item `R + i` and the next slot the oldest, `i + 1`, so the transition is not real |
| TrainUtils.AsWrittenSamplesBrokenTransition | pyworld/toolkit/tools/traintuils.py:48-52 | two slots, step 2, draw 0: as written the sampled pair is (item 4, item 3); the correction samples (item 3, item 4) |
| TrainUtils.AsWrittenStepSamplesBrokenTransition | pyworld/toolkit/tools/traintuils.py:44-52 | once `i >= replay_size`, a step as written that draws the slot just written yields a row whose state is the newest item `R + i` and whose next state is the oldest, `i + 1`, not its successor |
| TrainUtils.AsWrittenIteratorYieldsBrokenTransition | pyworld/toolkit/tools/traintuils.py:27-55 | on the two-slot stream `0 .. 4` with every draw 0, the third batch as written is the transition (4, 3), and the corrected one is (3, 4) |

## Left out

- Tensor numerics are not modelled: KL, MSE and BCE values, `exp`/`log` and the epsilon terms. Losses and batch means are opaque reals.
- VaeGan.UpdateGate: the thresholds are the exact reals 0.48 and 0.88. The rounding of `0.68 - 0.2` and `0.68 + 0.2` in floating point is not modelled.
- VaeGan.StepTraceRuns: `zero_grad`, `backward` and the RMSprop updates are library calls. Only their order and gating are modelled. Every backward pass is taken to reach all three parameter groups, because the model's wiring is not visible.
- Autoencoders.AaeStep: the cross-entropy values are inputs. Only the shape check that makes them raise is modelled.
- `Optimise.py` is not part of this model. It forwards to the tensor framework and has no logic of its own.
- `wbutils.py` is not part of this model. It does experiment-tracking I/O.
- Figure construction, display, `show_widget`, `to_numpy`, hover callbacks and `image_roi` are UI and I/O, and are not modelled.
- `plot_coloured`, `histogram` and `scatter_image` are not part of the modelled core.
- `__GridSnap.snap` is not modelled. It computes two values and returns `None`, and nothing calls it.
- `transform`, `datautils`, `fileutils` and the base `SimplePlot` are not part of this model. `onehot_int` is an opaque function parameter of `Dataset` and `ReplayStep`.
- TrainUtils.ReplayStep: with `onehot=False` the raw action reaches `torch.FloatTensor(a)` at `traintuils.py:45`. The identity encoding covers vector-valued actions only. For a scalar integer action `a`, that call builds an uninitialised tensor of length `a`, and that is not modelled.
- TrainUtils.Dataset: with `onehot=False` the action is assigned to its NumPy row as it is (`traintuils.py:22`), so a scalar action is broadcast across the row. The identity encoding does not model that broadcast.
- Jupyter.Extend: the flush to the base `SimplePlot.extend` is returned as a value.
- Jupyter.Progress: `print(info)` and `display` are left out.
- Jupyter.Progress: the iterator is a finite sequence. The `TypeError` that `len(iterator)` raises for a generator or another argument without a length is not modelled.
- Plot.ScrollImages: the batch is given by its image count `n`. The `TypeError` that iterating a 0-d array raises is not modelled.
- Plot.Play: likewise the batch is given by `n`, and the `TypeError` that `len` raises on a 0-d array is not modelled.
- Jupyter.EventPosition: event coordinates are integers, and `int(x / s)` is exact integer division truncated toward zero rather than float division followed by truncation.
- Jupyter.CanvasPosition: the handler record copies the canvas size when it is built, while the source re-reads `canvas.width` and `canvas.height` on every event. A resize is modelled by updating the record's `width` and `height` fields.
- Jupyter.CanvasPosition: the same integer reading applies. `int(width / scale - 1)` is written as `int((width - scale) / scale)`, which is equal over exact division.
- Plot.ListDepth: strings are not modelled. In Python a string's `[0]` is again a string, so the recursion ends only at the interpreter's recursion limit.
- Plot.GridSide: `np.sqrt` and `np.ceil` are taken as exact. An empty batch gives `g = 0`, and the plotting library's rejection of a 0-by-0 grid is not modelled.
- Plot.Traces: only lists, tuples and arrays are modelled. Figure layout and `show` are left out.
- TrainUtils.ReplayIterator: `np.random.randint` draws are an input, one vector per step. The caller stopping the generator early is modelled as a shorter stream.
- TrainUtils.ReplayIterator: `dataset` and the replay loop share one single-pass iterator. A re-iterable argument such as a list would restart from its first item, and that is not modelled.
- TrainUtils.Dataset: NumPy's dtype conversion and broadcasting on assignment are not modelled.

## Findings

| source | as written | input that shows it | evidently intended | confidence | as-written member | corrected member |
|---|---|---|---|---|---|---|
| pyworld/toolkit/tools/traintuils.py:48 | the sampled index is compared with the raw counter `i`, which exceeds every index once `i >= replay_size`, so from then on nothing is moved and the one broken transition, at slot `i % replay_size`, can be sampled | `replay_size = 2`, step `i = 2`, draw `0`: the pair (item 4, item 3) is yielded as a transition | compare with `i % replay_size`, the slot just written, as the code's own comment says | high (not executed) | TrainUtils.AdjustAsWritten and TrainUtils.ReplayIterator, exhibited by TrainUtils.AsWrittenBrokenAfterWrap, TrainUtils.AsWrittenStepSamplesBrokenTransition and TrainUtils.AsWrittenIteratorYieldsBrokenTransition | TrainUtils.Adjust and `ReplayRun(Intended, ...)`, with TrainUtils.NumberedStreamYieldsRealTransitions proved |
| pyworld/toolkit/tools/visutils/jupyter.py:195-197 | the canvas handler compares with the stored `px`, `py` but never stores the new position, so only `(0, 0)` is ever suppressed | scale 1, 10-by-10 canvas, the event `(3, 3)` twice: the callback fires twice | store the position before calling back, as `__IPyEventMouseMoveHandler` does at line 238 | medium (not executed) | Jupyter.CanvasMouseMoveAsWritten, exhibited by Jupyter.CanvasAsWrittenFiresTwice | Jupyter.CanvasMouseMove, with Jupyter.CanvasRepeatedEventFiresOnce proved |

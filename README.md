# DUNEdn data-movement core in Dafny

DUNEdn denoises raw ProtoDUNE-SP events and selects their regions of
interest with neural networks. The networks themselves are opaque here. This
project models the index arithmetic that moves detector data around them:

- **Geometry** (`geometry.dfy`): `evt2planes` and `planes2evt`, for any
  geometry table. An event of `nb_apas · nb_apa_channels` channel rows is cut
  into two induction planes and one collection plane per APA, and merged back.
  The table has `nb_apas`, `nb_ichannels`, `nb_apa_channels` and
  `nb_tdc_ticks`. Both functions are written as the source's append loops and
  as sequence specifications, and the loops are proved equal to them.
- **Median** (`median.dfy`): `median_subtraction`, over real samples. The
  median of each plane is taken from its sorted samples.
- **Windows** (`windows.dfy`): `time_windows` and the overlap-averaging
  `inference` of the training script, as loops proved against specification
  functions. Also the threshold mask of `test_epoch`, in place on an array.
- **Threshold** (`threshold.dfy`): the ADC threshold post-processing of the
  packaged inference command. The two comparisons mask a deep copy, and the
  leading two columns of a loaded event are dropped.
- **Models** (`models.dfy`): the packaged model wrappers (`BaseModel`,
  `DnModel`, `RoiModel`, `DnRoiModel`). This covers checkpoint and ONNX path
  naming, the order in which construction fails, `predict`, and the paths
  `onnx_export` writes.
- **Legacy** (`legacy.dfy`): the legacy entry point. It covers:
  - the pdune constants;
  - the `get_inference` dispatch (window inference for scg, median
    subtraction followed by the tile pipeline for cnn and gcnn);
  - `DnRoiModel.roi_selection` and `denoise`.
- `seqs.dfy` and `tensors.dfy` hold shared sequence helpers:
  - `Result` and `Option`;
  - Python-clipped slices, one-level concatenation and chunking;
  - `(N, C, H, W)` batches as nested sequences.

Samples are `real`. Networks are functions from batch to batch, passed in as
parameters or held as fields.

Two behaviours of the program are worth stating up front:
- `time_windows` produces no window at all when `W + stride <= w`
  (`Windows.NoWindowsIff`).
- On the legacy cnn/gcnn path the median subtraction is never undone, so an
  identity tile pipeline does not return the event
  (`Legacy.GcnnIdentityCentres`). In the model, where the scg window inference
  is called by its own signature (see "Left out"), an identity network does
  return the event on the scg path (`Legacy.ScgIdentityEvent`); as written,
  that path raises a TypeError before any network runs.
- As written, no legacy `DnRoiModel` reaches a network at all. A cnn or gcnn
  model is never built: `get_model_and_args` applies `eval` to the tuple
  that `Args` always stores as `patch_size`, which raises a TypeError
  (`Legacy.NewDnRoiModel`). An scg model is built, but its inference fails
  on the arity TypeError above. The model's statements about `roi_selection`,
  `denoise` and the cnn/gcnn dispatch describe `get_inference` and the
  methods as functions of their inputs.

## Model

| member | source | states |
|---|---|---|
| Geometry.InductionPieces | src/dunedn/geometry/helpers.py:26-37 | 2·n induction planes; plane 2a is rows [a·A, a·A+I) and plane 2a+1 is rows [a·A+I, a·A+2I) |
| Geometry.CollectionPieces | src/dunedn/geometry/helpers.py:31-40 | n collection planes; plane a is rows [a·A+2I, a·A+A) |
| Geometry.EventToPlanes | src/dunedn/geometry/helpers.py:10-41 | on success, 2·nb_apas induction and nb_apas collection planes, each with a singleton channel axis; fails exactly when there are no APAs or np.stack rejects the pieces |
| Geometry.SplitEvent | src/dunedn/geometry/helpers.py:34-41 | the two append loops followed by the stacks compute EventToPlanes |
| Geometry.CollectInductions | src/dunedn/geometry/helpers.py:34-37 | the induction loop appends exactly the induction pieces, in APA order |
| Geometry.CollectCollections | src/dunedn/geometry/helpers.py:38-40 | the collection loop appends exactly the collection pieces, in APA order |
| Geometry.StripChannel | src/dunedn/geometry/helpers.py:63 | `[:, 0]` succeeds iff every plane has a channel, and then returns channel 0 of each plane |
| Geometry.Interleave | src/dunedn/geometry/helpers.py:64-66 | the merge list is block a at 2a and collection plane a at 2a+1 |
| Geometry.Assemble | src/dunedn/geometry/helpers.py:64-67 | concatenation fails with an empty list exactly when either side is empty; a result has rows of nb_tdc_ticks samples |
| Geometry.PlanesToEvent | src/dunedn/geometry/helpers.py:44-67 | a merged event has rows of nb_tdc_ticks samples |
| Geometry.MergePlanes | src/dunedn/geometry/helpers.py:60-67 | the reshape, strip and extend loop computes PlanesToEvent |
| Geometry.Pairs | src/dunedn/geometry/helpers.py:60-62 | block a is induction plane 2a followed by plane 2a+1 |
| Geometry.Reshaped | src/dunedn/geometry/helpers.py:60-62 | reshape to (-1, 2·I, T) fails exactly when 2·I·T is 0 or does not divide the sample count, with a size mismatch; on success every block has 2·I rows of T samples and the blocks hold every sample in row-major order; no samples give no blocks |
| Geometry.SplitRows | src/dunedn/geometry/helpers.py:26-41 | an event with at least the nominal rows always splits; each piece has I or C rows |
| Geometry.SplitShapes | src/dunedn/geometry/helpers.py:26-41 | a nominal event gives planes of shape (1, I, T) and (1, C, T) |
| Geometry.PlanesWidth | src/dunedn/geometry/helpers.py:34-41 | planes keep the sample count of the event's rows |
| Geometry.ExtraRowsIgnored | src/dunedn/geometry/helpers.py:26-40 | rows at index nb_apas·A and beyond take no part in the split |
| Geometry.ReshapePairs | src/dunedn/geometry/helpers.py:60-62 | reshaping 2m planes of I×T samples to (-1, 2I, T) gives the m pairs |
| Geometry.MergeListIsInterleave | src/dunedn/geometry/helpers.py:60-66 | the list the merge loop extends is, APA by APA, the joined induction pair followed by the collection plane |
| Geometry.MergePrefix | src/dunedn/geometry/helpers.py:64-67 | merging the pieces of the first n APAs gives back the first n·A rows |
| Geometry.RoundTrip | src/dunedn/geometry/helpers.py:10-67 | planes2evt(*evt2planes(e)) == e for an event of nb_apas·A rows of T samples |
| Geometry.SurplusCollectionsDropped | src/dunedn/geometry/helpers.py:65 | zip drops collection planes beyond the number of induction blocks |
| Geometry.SurplusInductionsDropped | src/dunedn/geometry/helpers.py:65 | zip drops induction blocks beyond the number of collection planes |
| Geometry.SurplusPlanesDropped | src/dunedn/geometry/helpers.py:60-67 | induction planes without a collection partner do not change the merge |
| Median.MedianOf | denoising/hitreco.py:79 | in sorted order, the lower half of the samples are at most the median and the upper half at least it |
| Median.PlaneMedian | denoising/hitreco.py:78-79 | the median of a plane's samples flattened in row-major order splits them in half the same way |
| Median.MedianSubtraction | denoising/hitreco.py:69-80 | same plane count; plane k is plane k with its own median subtracted from every sample |
| Median.InsertPermutes | denoising/hitreco.py:78-79 | the sort behind np.median keeps the multiset of samples (insertion step) |
| Median.SortPermutes | denoising/hitreco.py:78-79 | the sort behind np.median is a permutation |
| Median.SortSorted | denoising/hitreco.py:78-79 | the sort behind np.median orders the samples |
| Median.MedianShift | denoising/hitreco.py:78-79 | the median of samples all shifted by c is the median shifted by c |
| Median.MedianConstant | denoising/hitreco.py:78-79 | the median of samples that all equal c is c |
| Median.MedianBounds | denoising/hitreco.py:78-79 | the median lies between the smallest and the largest sample |
| Median.CenteredMedian | denoising/hitreco.py:69-80 | after subtraction, every plane has median 0 and the plane count is kept |
| Median.OffsetInvariant | denoising/hitreco.py:78-80 | adding a constant to a plane does not change its subtracted result |
| Median.PlaneLocal | denoising/hitreco.py:78-80 | plane k's result depends on plane k only |
| Median.ConstantPlaneZero | denoising/hitreco.py:79-80 | a plane whose samples all equal c becomes all zeros |
| Windows.CeilDivBounds | denoising/train.py:25 | ceil(a/b) is the least q with a <= q·b |
| Windows.NoWindowsIff | denoising/train.py:25-26 | n = ceil((W−w)/stride)+1 is at most 0 exactly when W + stride <= w |
| Windows.WindowCount | denoising/train.py:25 | n = ceil((W−w)/stride)+1 clamped at 0 is the least window count whose last window reaches column W: window n−1 reaches it and window n−2 does not |
| Windows.Idxs | denoising/train.py:26-27 | n spans, the first starting at column 0, each w columns wide |
| Windows.Covered | denoising/train.py:29-32 | every column is covered by some window; a plane with columns is covered only if some window exists |
| Windows.IdxsOrdered | denoising/train.py:26-27 | window i is [i·stride, i·stride+w); starts increase by at least stride |
| Windows.CoveredIff | denoising/train.py:25-32 | every column is covered iff n >= 1 and (stride <= w or W <= w) |
| Windows.FullCoverage | denoising/train.py:25-32 | 1 <= stride <= w <= W covers every column |
| Windows.NothingCovered | denoising/train.py:25-32 | with W + stride <= w, no window exists and div is zero everywhere |
| Windows.Columns | denoising/train.py:31 | `plane[..., s:e]` keeps batch, channel and row counts and clips the columns to [s, min(e, W)) |
| Windows.CoverBatch | denoising/train.py:29-32 | div at column t counts the windows whose clipped range holds t, in every (n, c, h) |
| Windows.Weighted | denoising/train.py:63-66 | out at column t is the sample added once per window covering t |
| Windows.DivideBy | denoising/train.py:67 | element-wise division where the divisor is non-zero |
| Windows.WeightRowAverage | denoising/train.py:66-67 | accumulated windows of the input, divided by their cover, give the input row |
| Windows.CoverNonZero | denoising/train.py:29-32 | under coverage, div has the plane's shape and no zero |
| Windows.TimeWindows | denoising/train.py:22-33 | the loop returns the specified index pairs, the clipped windows and div |
| Windows.WindowsOf | denoising/train.py:30-31 | one window per span, window i being the plane's columns [start, end) of span i |
| Windows.Accumulate | denoising/train.py:63-66 | the accumulation buffer keeps the plane's shape; the only failure is an output whose shape differs from its window |
| Windows.AccumulateErr | denoising/train.py:64-66 | a window the network changes in shape stops the accumulation there |
| Windows.Reconstruction | denoising/train.py:62-67 | `out / div` for one batch has the batch's shape; it fails only on a shape mismatch |
| Windows.Outputs | denoising/train.py:60-67 | one output per loader batch, each of its batch's shape; the only failure is a shape mismatch |
| Windows.InferenceOf | denoising/train.py:58-68 | torch.cat fails on an empty list exactly when the loader is empty; any other failure is a shape mismatch |
| Windows.Reconstruct | denoising/train.py:62-67 | the loop computes the overlap-averaged reconstruction |
| Windows.Inference | denoising/train.py:58-68 | the loop over the loader computes the concatenated outputs, or fails on an empty loader or a shape mismatch |
| Windows.OutputsErr | denoising/train.py:61-67 | the first failing batch decides the failure |
| Windows.AccumulateIdentity | denoising/train.py:63-66 | with the identity network, the buffer is the coverage-weighted input |
| Windows.IdentityReconstruction | denoising/train.py:62-67 | under coverage, the identity network's reconstruction is the input |
| Windows.OutputsFixed | denoising/train.py:58-68 | a network whose reconstruction of every batch is that batch gives the loader back as its outputs |
| Windows.IdentityInference | denoising/train.py:58-68 | the identity network's inference concatenates the loader's batches, and fails only on an empty loader |
| Windows.MaskOutputs | denoising/train.py:124-126 | for task "dn", outputs in [−t, t] become 0 and the rest are kept; other tasks leave outputs unchanged |
| Threshold.SuppressMeaning | src/dunedn/denoising/inference.py:108-111 | a masked sample is 0 iff it was in the band or was 0, and otherwise it is unchanged |
| Threshold.SuppressAllIdempotent | src/dunedn/denoising/inference.py:108-111 | masking twice is masking once |
| Threshold.SuppressAllQuiet | src/dunedn/denoising/inference.py:108-111 | after masking, only zeros lie in the band and every sample outside it is kept |
| Threshold.CopyOf | src/dunedn/denoising/inference.py:110 | deepcopy: a fresh array holding the same samples |
| Threshold.SuppressInPlace | src/dunedn/denoising/inference.py:108-111 | `a[|a| <= t] = 0` in place |
| Threshold.LabelInPlace | src/dunedn/denoising/inference.py:125-129 | target becomes 0 inside the band of roi and 1 outside it |
| Threshold.CompareDn | src/dunedn/denoising/inference.py:108-111 | a fresh masked copy with threshold 3.5, same shape; the caller's array is not modified |
| Threshold.CompareRoi | src/dunedn/denoising/inference.py:125-129 | fresh labels that depend only on evt_roi; the caller's target is not modified; a shape mismatch is an error |
| Threshold.DropLeadingColumns | src/dunedn/denoising/inference.py:88 | `[:, 2:]`: the same rows without their first two columns |
| Models.CheckpointFile | src/dunedn/inference/hitreco.py:24-25 | the weight file lies directly in the channel's sub-directory of the checkpoint directory |
| Models.CheckpointPaths | src/dunedn/inference/hitreco.py:17-31 | there are weight files exactly when there is a checkpoint, the induction file under induction/ and the collection file under collection/ |
| Models.OnnxFile | src/dunedn/inference/hitreco.py:34-51 | the ONNX file lies directly in the channel's sub-directory of the directory |
| Models.Sources | src/dunedn/inference/hitreco.py:17-98 | one loader for both networks: ONNX iff requested, else the uscg loader iff the model type is uscg; torch loaders get the model settings and the checkpoint files of the task, ONNX gets no settings |
| Models.NewBaseModel | src/dunedn/inference/hitreco.py:59-116 | construction succeeds iff the settings hold the model type, the task and the dataset and ONNX is not asked for with uscg or without a checkpoint; NotImplementedError iff ONNX with uscg once the settings are found; the model keeps its arguments and each network is the one loaded from its source |
| Models.DnModel | src/dunedn/inference/hitreco.py:171-191 | a constructed model has task "dn", the requested type and checkpoint |
| Models.RoiModel | src/dunedn/inference/hitreco.py:194-212 | a constructed model has task "roi", the requested type and checkpoint |
| Models.DnRoiModel | src/dunedn/inference/hitreco.py:215-238 | the ROI model is built first and its failure is the result; a pair holds an roi model and a dn model |
| Models.Predict | src/dunedn/inference/hitreco.py:118-144 | a result has rows of nb_tdc_ticks samples; a split failure is a shape error; a missing test_batch_size is a KeyError after the split |
| Models.ExportPaths | src/dunedn/inference/hitreco.py:146-168 | the two files differ; with an output directory, export succeeds and writes under its induction/ and collection/ sub-directories |
| Models.CheckpointPathsDistinct | src/dunedn/inference/hitreco.py:23-28 | no checkpoint gives no files; otherwise the induction and collection files differ, and two tasks never share a file |
| Models.OnnxUscgRefused | src/dunedn/inference/hitreco.py:85-91 | ONNX with uscg raises NotImplementedError before any network is loaded |
| Models.VariantsFollowModelType | src/dunedn/inference/hitreco.py:17-104 | the uscg loader and dataset are used iff the model type is uscg, and ONNX iff requested |
| Models.LoadsOwnTask | src/dunedn/inference/hitreco.py:92-98 | without ONNX, the networks come from the files of the model's own task |
| Models.ExportThenLoad | src/dunedn/inference/hitreco.py:34-167 | the files onnx_export writes by default are the files an ONNX model from the same checkpoint reads |
| Models.ExportNeedsDirectory | src/dunedn/inference/hitreco.py:155-161 | export fails iff neither an output directory nor a checkpoint is given |
| Models.DnRoiModelParts | src/dunedn/inference/hitreco.py:171-238 | an ROI model (task roi) and a denoising model (task dn) of the same type from the same settings; fails iff either does |
| Models.PredictIdentity | src/dunedn/inference/hitreco.py:118-144 | with identity networks, predict returns any nominal event unchanged |
| Models.PredictRouting | src/dunedn/inference/hitreco.py:132-144 | each network sees only its own plane type |
| Legacy.PduneTable | denoising/hitreco.py:19-25 | apastep = 2560, evstep = 15360, and the table is a valid geometry with 960 collection channels |
| Legacy.PduneRoundTrip | denoising/hitreco.py:46-97 | 12 induction planes of 800 rows, 6 collection planes of 960 rows, and the merge gives the event back |
| Legacy.NewDnRoiModel | denoising/hitreco.py:98-184 | built iff the model type is scg: for every other type `get_model_and_args` raises a TypeError on `eval` of the tuple patch size (denoising/args.py:7); a built model keeps its type, networks and arguments, and its loader is InferenceLoader iff the type is scg |
| Legacy.ScgInference | denoising/hitreco.py:145-148 | the window inference over the batches fails with an empty concatenation exactly when there are no planes, and otherwise only on a shape mismatch |
| Legacy.GcnnInference | denoising/hitreco.py:151-163 | the pipeline is applied to planes each shifted by one constant so that its median is 0 |
| Legacy.GetInference | denoising/hitreco.py:166-170 | get_inference yields a result iff the model type is scg, cnn or gcnn; in the model, whose opaque tile `pipeline` is total, that result is never an error on cnn and gcnn |
| Legacy.ScgIdentity | denoising/hitreco.py:145-148 | on the scg path (no median subtraction), the identity network returns the planes |
| Legacy.Process | denoising/hitreco.py:198-205 | a result has rows of 6000 ticks; a split failure is a shape error; no output exactly when the split succeeds and the model type is unknown |
| Legacy.Merge | denoising/hitreco.py:83-97 | a result has rows of 6000 ticks; no output exactly when either inference gave none; an induction failure is reported before a collection failure |
| Legacy.RoiSelection | denoising/hitreco.py:186-205 | a result has rows of 6000 ticks; a split failure is a shape error |
| Legacy.Denoise | denoising/hitreco.py:207-230 | a result has rows of 6000 ticks; a split failure is a shape error |
| Legacy.BuiltModelAnswers | denoising/hitreco.py:174-230 | a model the constructor built never reaches the no-output case in roi_selection or denoise |
| Legacy.GcnnIdentityCentres | denoising/hitreco.py:151-170 | on the cnn/gcnn path, the identity pipeline returns median-subtracted planes, each with median 0 |
| Legacy.ScgIdentityEvent | denoising/hitreco.py:186-230 | with identity networks, scg roi_selection and denoise return a nominal event unchanged |
| Legacy.TileRouting | denoising/hitreco.py:198-223 | each network sees only its own (median-subtracted) plane type |

## Left out

- Training, validation, losses, optimisers and distributed setup are left out. So are plotting, benchmarking, file I/O (`np.load`, `np.save`, `torch.load`, YAML cards), devices and command-line parsing. These are foreign calls with no stateable logic.
- The networks are opaque functions from batch to batch. The packaged `predict` passes them dataset objects, and that batching (`test_batch_size`) is modelled only as the key lookup it needs.
- Everything after the median subtraction on the cnn/gcnn path is one opaque, total `pipeline` function: the tile converter (`planes2tiles`, `tiles2planes`), the `CropLoader` over the tiles (whose constructor applies `os.path.join`, denoising/dataloader.py:5-6), the `DataLoader`, `gcnn_inference` (imported at denoising/hitreco.py:12) and the network. The converter's module and `gcnn_inference` are not part of this model, so whatever errors they raise are not modelled.
- `Median.MedianSubtraction` returns an empty result for a batch of zero planes, where `reshape([0, -1])` (denoising/hitreco.py:78-79) raises a ValueError. `Geometry.StripChannel` also returns an empty result for zero planes. In the source, `[:, 0]` (src/dunedn/geometry/helpers.py:63) raises an IndexError only when the empty batch has no shape (an empty list). An empty (0, 1, C, T) array passes it. Either way `planes2evt` then fails, as `Geometry.Assemble` does in the model, because `np.concatenate` gets an empty list (helpers.py:67). The callers always pass a whole event, which has planes.
- `Models.Sources`: without a checkpoint, the source initialises each network afresh and at random. The model's `load` is a function of the `Checkpoint` record (loader, channel, settings, file), so two untrained networks from equal records are equal here. Random initialisation is not modelled.
- The `model2batch` table (denoising/hitreco.py:30-43) and the contents of the configuration cards are left out. Their values arrive in `Legacy.Args`.
- `Legacy.ScgInference`: `_scg_inference` (denoising/hitreco.py:148) passes four arguments to the five-parameter `inference`, which would raise a TypeError. The model calls `inference` by its own signature, with the window width taken from the arguments.
- `inference_main` (src/dunedn/denoising/inference.py:89-92) uses a `DnModel` imported from `dunedn.denoising.hitreco`, which is not part of this model. Only its column strip at line 88 is modelled.
- Floating-point rounding is not modelled: samples are real numbers. NaN from `out/div` on an uncovered column is excluded by the `Covered` precondition instead. `Windows.CoveredIff` says exactly when that holds, and `Windows.NothingCovered` gives the case where it fails.
- A stride of 0 (division by zero in `time_windows`) is excluded by a precondition. A negative stride is excluded by the type `nat`. In `Legacy.ScgReady`, `batchSize > 0` also excludes the ValueError that `DataLoader` raises for a batch size of 0.
- Broadcasting and `torch.cat`'s check of the C, H and W dimensions are not modelled. `Windows.InferenceOf` concatenates the batches as given.
- `Models.Predict` and `Legacy.Process`: numpy's checks inside the networks are not modelled. Reshape and stack errors are modelled.
- The legacy `DataLoader` over `InferenceLoader` is taken to yield the planes, in order, in batches of `batch_size`. `InferenceLoader` is imported at denoising/hitreco.py:11. It is not part of this model: denoising/dataloader.py defines `CropLoader` and `PlaneLoader`, and neither is `InferenceLoader`.
- A matrix is a sequence of rows, so one with zero rows has no column count. `Geometry.Assemble` therefore accepts a zero-row collection plane of any width, where `np.concatenate` (src/dunedn/geometry/helpers.py:67) raises a ValueError on the column mismatch. Nested sequences lose the inner extents of an empty outer axis in the same way elsewhere.
- `Legacy.TileRouting` states the routing only for cnn and gcnn. On the scg path the networks see windows of the planes, which `Windows.Inference` covers.

/** The legacy inference entry point (denoising/hitreco.py): the pdune
    geometry as literal constants, the dispatch from model type to the
    window inference (scg) or to the median-subtracted tile inference
    (cnn, gcnn), and the ROI selection and denoising of a whole event, which
    send induction planes to the induction network and collection planes to
    the collection network. */
module Legacy {
  import opened Seqs
  import opened Tensors
  import opened Geometry
  import opened Median
  import opened Windows

  /** Time ticks per channel. */
  const TDC: nat := 6000
  /** Channels of one induction plane. */
  const ISTEP: nat := 800
  /** Channels of one collection plane. */
  const CSTEP: nat := 960
  const APAS: nat := 6
  /** Channels of one APA. */
  const APASTEP: nat := 2 * ISTEP + CSTEP
  /** Channels of a whole event. */
  const EVSTEP: nat := APAS * APASTEP

  /** The pdune layout as a geometry table. */
  const Pdune: Geometry := Geometry(APAS, ISTEP, APASTEP, TDC)

  lemma PduneTable()
    ensures APASTEP == 2560 && EVSTEP == 15360
    ensures Pdune.Valid() && Pdune.NbCChannels() == CSTEP && Pdune.NbEventChannels() == EVSTEP
  {
  }

  /** An event of EVSTEP channels of TDC ticks splits into 12 induction planes
      of 800 channels and 6 collection planes of 960 channels, and merging them
      gives the event back. */
  lemma PduneRoundTrip(e: Matrix)
    requires |e| == EVSTEP && Uniform(e, TDC)
    ensures EventToPlanes(Pdune, e).Ok?
    ensures var (ind, col) := EventToPlanes(Pdune, e).value;
      && |ind| == 12 && |col| == 6
      && (forall k :: 0 <= k < 12 ==> |ind[k]| == 1 && |ind[k][0]| == 800)
      && (forall k :: 0 <= k < 6 ==> |col[k]| == 1 && |col[k][0]| == 960)
      && PlanesToEvent(Pdune, ind, col) == Ok(e)
  {
    SplitShapes(Pdune, e);
    RoundTrip(Pdune, e);
  }

  /** The `ArgsTuple` of one network: the loader's batch size and, for the
      window inference, the window width and stride. */
  datatype Args = Args(batchSize: nat, patchW: nat, patchStride: nat)

  /** The dataset wrapper: `InferenceLoader` for scg, `CropLoader` otherwise. */
  datatype LoaderKind = InferenceLoader | CropLoader

  /** A `ModelTuple`: the induction network and the collection network. */
  datatype Nets = Nets(induction: Batch -> Batch, collection: Batch -> Batch)

  /** A constructed `DnRoiModel`. */
  datatype DnRoiModel = DnRoiModel(
    modeltype: string,
    roiArgs: (Args, Args), roi: Nets,
    dnArgs: (Args, Args), dn: Nets,
    loader: LoaderKind)

  predicate KnownModelType(modeltype: string)
  {
    modeltype == "scg" || modeltype == "cnn" || modeltype == "gcnn"
  }

  /** Whether `get_model_and_args` gets past its patch size. It takes the
      string `'None'` for scg and `eval(args.patch_size)` for every other
      type, but `Args.__init__` always sets `patch_size` to the tuple
      (32, 32) after the card's values, and `eval` of a tuple raises a
      TypeError. */
  predicate PatchSizeParses(modeltype: string)
  {
    modeltype == "scg"
  }

  /** `DnRoiModel.__init__`, with the networks and their arguments as read
      from the configuration cards and weight files. Both `mkModel` calls go
      through `get_model_and_args`, which raises for every model type but
      scg (`PatchSizeParses`); the loader is then chosen by the type. */
  function NewDnRoiModel(modeltype: string, roiArgs: (Args, Args), roi: Nets, dnArgs: (Args, Args), dn: Nets): (r: Option<DnRoiModel>)
    ensures r.Some? <==> modeltype == "scg"
    ensures r.None? <==> modeltype == "cnn" || modeltype == "gcnn" || !KnownModelType(modeltype)
    ensures r.Some? ==> r.value.modeltype == modeltype && r.value.roi == roi && r.value.dn == dn
    ensures r.Some? ==> r.value.roiArgs == roiArgs && r.value.dnArgs == dnArgs
    ensures r.Some? ==> (r.value.loader == InferenceLoader <==> r.value.modeltype == "scg")
  {
    if !PatchSizeParses(modeltype) then None
    else Some(DnRoiModel(modeltype, roiArgs, roi, dnArgs, dn, if modeltype == "scg" then InferenceLoader else CropLoader))
  }

  /** The window inference can run with these arguments on planes of W ticks:
      positive batch size and stride, and every tick covered by a window. */
  predicate ScgReady(args: Args, W: nat)
  {
    args.batchSize > 0 && args.patchStride > 0 && Covered(W, args.patchW, args.patchStride)
  }

  /** `_scg_inference`: the planes in batches of `batchSize`, through the
      window inference. */
  function ScgInference(planes: Batch, W: nat, args: Args, net: Batch -> Batch): (r: Result<Batch, InferenceError>)
    requires BatchWidth(planes, W) && ScgReady(args, W)
    ensures r == Err(EmptyCat) <==> |planes| == 0
    ensures r.Err? && |planes| > 0 ==> r.error == ShapeMismatch
  {
    var loader := Chunk(planes, args.batchSize);
    ChunkMembers(planes, args.batchSize);
    assert forall k :: 0 <= k < |loader| ==> BatchWidth(loader[k], W) by {
      forall k, n, c | 0 <= k < |loader| && 0 <= n < |loader[k]| && 0 <= c < |loader[k][n]|
        ensures Uniform(loader[k][n][c], W)
      {
        var m :| 0 <= m < |planes| && planes[m] == loader[k][n];
      }
    }
    InferenceOf(loader, W, args.patchW, args.patchStride, net)
  }

  /** `_gcnn_inference`: median subtraction, then the tile pipeline (tiling,
      network, untiling), which is the opaque `pipeline`. */
  function GcnnInference(planes: Batch, pipeline: Batch -> Batch): (r: Batch)
    ensures exists y: Batch :: r == pipeline(y) && |y| == |planes| &&
              forall k :: 0 <= k < |y| ==> Shifted(planes[k], y[k]) && PlaneMedian(y[k]) == 0.0
  {
    var y := MedianSubtraction(planes);
    assert forall k :: 0 <= k < |y| ==> Shifted(planes[k], y[k]) && PlaneMedian(y[k]) == 0.0 by {
      forall k | 0 <= k < |y| ensures Shifted(planes[k], y[k]) && PlaneMedian(y[k]) == 0.0 {
        CenteredMedian(planes, k);
      }
    }
    pipeline(y)
  }

  /** `get_inference`: scg goes to the window inference, cnn and gcnn to the
      tile inference, and any other model type yields nothing (`None`). */
  function GetInference(modeltype: string, planes: Batch, W: nat, args: Args, net: Batch -> Batch)
    : (r: Option<Result<Batch, InferenceError>>)
    requires modeltype == "scg" ==> BatchWidth(planes, W) && ScgReady(args, W)
    ensures r.Some? <==> KnownModelType(modeltype)
    ensures modeltype != "scg" && r.Some? ==> r.value.Ok?
  {
    if modeltype == "scg" then Some(ScgInference(planes, W, args, net))
    else if modeltype == "cnn" || modeltype == "gcnn" then Some(Ok(GcnnInference(planes, net)))
    else None
  }

  /** How processing an event fails. */
  datatype LegacyError =
    | Shape(err: ShapeError)
    | Inference(cause: InferenceError)
    | NoOutput   // `planes2evt(None, None)`: no inference for the model type

  /** `roi_selection` and `denoise`: split, run the induction planes through
      the induction network and the collection planes through the collection
      network, merge. */
  function Process(modeltype: string, e: Matrix, W: nat, args: (Args, Args), nets: Nets): (r: Result<Matrix, LegacyError>)
    requires Uniform(e, W)
    requires modeltype == "scg" ==> ScgReady(args.0, W) && ScgReady(args.1, W)
    ensures r.Ok? ==> Uniform(r.value, TDC)
    ensures EventToPlanes(Pdune, e).Err? ==> r.Err? && r.error.Shape?
    ensures EventToPlanes(Pdune, e).Ok? && !KnownModelType(modeltype) ==> r == Err(NoOutput)
    ensures KnownModelType(modeltype) ==> r != Err(NoOutput)
  {
    match EventToPlanes(Pdune, e)
    case Err(err) => Err(Shape(err))
    case Ok((ind, col)) =>
      PlanesWidth(Pdune, e, W);
      Merge(GetInference(modeltype, ind, W, args.0, nets.induction),
            GetInference(modeltype, col, W, args.1, nets.collection))
  }

  /** `planes2evt(iout, cout)` on the two inference results. */
  function Merge(iout: Option<Result<Batch, InferenceError>>, cout: Option<Result<Batch, InferenceError>>)
    : (r: Result<Matrix, LegacyError>)
    ensures r.Ok? ==> Uniform(r.value, TDC)
    ensures r == Err(NoOutput) <==> iout.None? || cout.None?
    ensures iout.Some? && cout.Some? && iout.value.Err? ==> r == Err(Inference(iout.value.error))
  {
    if iout.None? || cout.None? then Err(NoOutput)
    else if iout.value.Err? then Err(Inference(iout.value.error))
    else if cout.value.Err? then Err(Inference(cout.value.error))
    else
      match PlanesToEvent(Pdune, iout.value.value, cout.value.value)
      case Err(err) => Err(Shape(err))
      case Ok(event) => Ok(event)
  }

  /** `DnRoiModel.roi_selection(event, dev)`. */
  function RoiSelection(m: DnRoiModel, e: Matrix, W: nat): (r: Result<Matrix, LegacyError>)
    requires Uniform(e, W)
    requires m.modeltype == "scg" ==> ScgReady(m.roiArgs.0, W) && ScgReady(m.roiArgs.1, W)
    ensures r.Ok? ==> Uniform(r.value, TDC)
    ensures EventToPlanes(Pdune, e).Err? ==> r.Err? && r.error.Shape?
  {
    Process(m.modeltype, e, W, m.roiArgs, m.roi)
  }

  /** `DnRoiModel.denoise(event, dev)`. */
  function Denoise(m: DnRoiModel, e: Matrix, W: nat): (r: Result<Matrix, LegacyError>)
    requires Uniform(e, W)
    requires m.modeltype == "scg" ==> ScgReady(m.dnArgs.0, W) && ScgReady(m.dnArgs.1, W)
    ensures r.Ok? ==> Uniform(r.value, TDC)
    ensures EventToPlanes(Pdune, e).Err? ==> r.Err? && r.error.Shape?
  {
    Process(m.modeltype, e, W, m.dnArgs, m.dn)
  }

  // ---------------------------------------------------------------------
  // Properties

  /** The scg path with the identity network gives the planes back: no
      median is subtracted on that path. */
  lemma ScgIdentity(planes: Batch, W: nat, args: Args)
    requires |planes| > 0 && BatchWidth(planes, W) && ScgReady(args, W)
    ensures GetInference("scg", planes, W, args, Identity) == Some(Ok(planes))
  {
    var loader := Chunk(planes, args.batchSize);
    ChunkMembers(planes, args.batchSize);
    assert forall k :: 0 <= k < |loader| ==> BatchWidth(loader[k], W) by {
      forall k, n, c | 0 <= k < |loader| && 0 <= n < |loader[k]| && 0 <= c < |loader[k][n]|
        ensures Uniform(loader[k][n][c], W)
      {
        var m :| 0 <= m < |planes| && planes[m] == loader[k][n];
      }
    }
    IdentityInference(loader, W, args.patchW, args.patchStride);
    ConcatChunk(planes, args.batchSize);
  }

  /** The cnn and gcnn paths with the identity pipeline return the planes
      median-subtracted: same count, and every plane's median is 0. */
  lemma GcnnIdentityCentres(modeltype: string, planes: Batch, W: nat, args: Args)
    requires modeltype == "cnn" || modeltype == "gcnn"
    ensures GetInference(modeltype, planes, W, args, Identity).Some?
    ensures var r := GetInference(modeltype, planes, W, args, Identity).value;
      r.Ok? && |r.value| == |planes| && forall k :: 0 <= k < |planes| ==> PlaneMedian(r.value[k]) == 0.0
  {
    forall k | 0 <= k < |planes| ensures PlaneMedian(MedianSubtraction(planes)[k]) == 0.0 {
      CenteredMedian(planes, k);
    }
  }

  /** With identity networks the scg model's ROI selection and denoising
      both give back any event of the nominal shape. */
  lemma ScgIdentityEvent(m: DnRoiModel, e: Matrix)
    requires m.modeltype == "scg" && |e| == EVSTEP && Uniform(e, TDC)
    requires m.roi == Nets(Identity, Identity) && m.dn == Nets(Identity, Identity)
    requires ScgReady(m.roiArgs.0, TDC) && ScgReady(m.roiArgs.1, TDC)
    requires ScgReady(m.dnArgs.0, TDC) && ScgReady(m.dnArgs.1, TDC)
    ensures RoiSelection(m, e, TDC) == Ok(e)
    ensures Denoise(m, e, TDC) == Ok(e)
  {
    PduneRoundTrip(e);
    var (ind, col) := EventToPlanes(Pdune, e).value;
    PlanesWidth(Pdune, e, TDC);
    ScgIdentity(ind, TDC, m.roiArgs.0);
    ScgIdentity(col, TDC, m.roiArgs.1);
    ScgIdentity(ind, TDC, m.dnArgs.0);
    ScgIdentity(col, TDC, m.dnArgs.1);
  }

  /** A model that `DnRoiModel.__init__` built always answers: its ROI
      selection and its denoising never fall through to
      `planes2evt(None, None)`. */
  lemma BuiltModelAnswers(modeltype: string, roiArgs: (Args, Args), roi: Nets, dnArgs: (Args, Args), dn: Nets, e: Matrix, W: nat)
    requires NewDnRoiModel(modeltype, roiArgs, roi, dnArgs, dn).Some?
    requires Uniform(e, W)
    requires modeltype == "scg" ==> ScgReady(roiArgs.0, W) && ScgReady(roiArgs.1, W)
    requires modeltype == "scg" ==> ScgReady(dnArgs.0, W) && ScgReady(dnArgs.1, W)
    ensures RoiSelection(NewDnRoiModel(modeltype, roiArgs, roi, dnArgs, dn).value, e, W) != Err(NoOutput)
    ensures Denoise(NewDnRoiModel(modeltype, roiArgs, roi, dnArgs, dn).value, e, W) != Err(NoOutput)
  {
  }

  /** On the cnn and gcnn paths the induction network sees only the
      median-subtracted induction planes and the collection network only the
      median-subtracted collection planes: networks that agree on those give
      the same event. */
  lemma TileRouting(modeltype: string, e: Matrix, W: nat, args: (Args, Args), nets: Nets, other: Nets)
    requires modeltype == "cnn" || modeltype == "gcnn"
    requires Uniform(e, W) && EventToPlanes(Pdune, e).Ok?
    requires other.induction(MedianSubtraction(EventToPlanes(Pdune, e).value.0))
          == nets.induction(MedianSubtraction(EventToPlanes(Pdune, e).value.0))
    requires other.collection(MedianSubtraction(EventToPlanes(Pdune, e).value.1))
          == nets.collection(MedianSubtraction(EventToPlanes(Pdune, e).value.1))
    ensures Process(modeltype, e, W, args, other) == Process(modeltype, e, W, args, nets)
  {
    var (ind, col) := EventToPlanes(Pdune, e).value;
    assert GetInference(modeltype, ind, W, args.0, other.induction) == GetInference(modeltype, ind, W, args.0, nets.induction);
    assert GetInference(modeltype, col, W, args.1, other.collection) == GetInference(modeltype, col, W, args.1, nets.collection);
  }
}

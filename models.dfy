/** The inference wrappers of the package (src/dunedn/inference/hitreco.py):
    where the network weights are read from and written to, which loader and
    dataset class a model type gets, the order in which construction fails,
    and how a prediction routes the induction planes to the induction network
    and the collection planes to the collection network.

    The networks are opaque: what loading a checkpoint yields is the parameter
    `load`, a function from the `Checkpoint` record of what is loaded to the network's
    prediction on a batch of planes (dataset wrapping included). */
module Models {
  import opened Seqs
  import opened Tensors
  import opened Geometry

  /** A `pathlib.Path`, as its components. `p / "a/b"` is `p / "a" / "b"`. */
  datatype Path = Path(parts: seq<string>)
  {
    function Join(s: string): Path
    {
      Path(parts + [s])
    }

    /** `Path.name`: the last component, empty for a path without one. */
    function Name(): string
    {
      if |parts| == 0 then "" else parts[|parts| - 1]
    }
  }

  /** `p` is a file directly inside the sub-directory `sub` of `dir`. */
  predicate InDirectory(p: Path, dir: Path, sub: string)
  {
    |p.parts| == |dir.parts| + 2 && p.parts[..|dir.parts|] == dir.parts && p.parts[|dir.parts|] == sub
  }

  /** `ckpt / channel / f"{ckpt.name}_{task}_{channel}.pth"`. */
  function CheckpointFile(ckpt: Path, task: string, channel: string): (r: Path)
    ensures InDirectory(r, ckpt, channel)
  {
    ckpt.Join(channel).Join(ckpt.Name() + "_" + task + "_" + channel + ".pth")
  }

  /** The induction and collection weight files `get_models` hands to the
      loader; no checkpoint means no file (an untrained network). */
  function CheckpointPaths(task: string, ckpt: Option<Path>): (r: (Option<Path>, Option<Path>))
    ensures r.0.Some? <==> ckpt.Some?
    ensures r.1.Some? <==> ckpt.Some?
    ensures ckpt.Some? ==> InDirectory(r.0.value, ckpt.value, "induction")
    ensures ckpt.Some? ==> InDirectory(r.1.value, ckpt.value, "collection")
  {
    match ckpt
    case None => (None, None)
    case Some(c) => (Some(CheckpointFile(c, task, "induction")), Some(CheckpointFile(c, task, "collection")))
  }

  /** `dir / f"{channel}/{modeltype}_{task}.onnx"`. */
  function OnnxFile(dir: Path, modeltype: string, task: string, channel: string): (r: Path)
    ensures InDirectory(r, dir, channel)
  {
    dir.Join(channel).Join(modeltype + "_" + task + ".onnx")
  }

  /** The loader of a network: the two `load_and_compile_*_network`
      functions, or the ONNX runtime wrapper. */
  datatype LoaderKind = UscgLoader | GcnnLoader | OnnxLoader

  /** The dataset class the generators build: `UscgPlanesDataset` or `GcnnPlanesDataset`. */
  datatype DatasetKind = UscgDataset | GcnnDataset

  /** What one network is loaded from: the loader, the channel, the model
      settings the torch loaders are given (`msetup`; the ONNX wrapper gets
      none) and the weight file, if any. */
  datatype Checkpoint = Checkpoint(loader: LoaderKind, channel: string, settings: Option<map<string, int>>, file: Option<Path>)

  /** The settings dictionary: `setup["model"]` maps model types to their
      settings, `setup["task"]` and `setup["dataset"]` feed the generators.
      A missing key is `None`; values the code only passes on are strings. */
  datatype Setup = Setup(
    model: Option<map<string, map<string, int>>>,
    task: Option<string>,
    dataset: Option<map<string, string>>)

  /** The arguments the two generator closures pass to the dataset class
      besides the planes and the channel. */
  datatype Generator = Generator(kind: DatasetKind, msetup: map<string, int>, task: string, dsetup: map<string, string>)

  /** The exceptions construction and prediction raise. */
  datatype ModelError =
    | KeyError(key: string)
    | NotImplementedError
    | TypeError            // `None / str`: ONNX files looked for without a directory
    | Shape(err: ShapeError)

  /** A constructed `BaseModel`: its fields after `__init__`. */
  datatype BaseModel = BaseModel(
    modeltype: string,
    task: string,
    ckpt: Option<Path>,
    useOnnx: bool,
    inductionFrom: Checkpoint,
    collectionFrom: Checkpoint,
    inetwork: Batch -> Batch,
    cnetwork: Batch -> Batch,
    generator: Generator)

  function LoaderFor(modeltype: string): LoaderKind
  {
    if modeltype == "uscg" then UscgLoader else GcnnLoader
  }

  function DatasetFor(modeltype: string): DatasetKind
  {
    if modeltype == "uscg" then UscgDataset else GcnnDataset
  }

  /** `get_models` and `get_onnx_models`: where the two networks come from. */
  function Sources(modeltype: string, task: string, ckpt: Option<Path>, msetup: map<string, int>, useOnnx: bool)
    : (r: (Checkpoint, Checkpoint))
    requires useOnnx ==> ckpt.Some?
    ensures r.0.channel == "induction" && r.1.channel == "collection"
    ensures r.0.loader == r.1.loader
    ensures r.0.loader == OnnxLoader <==> useOnnx
    ensures r.0.loader == UscgLoader <==> !useOnnx && modeltype == "uscg"
    ensures useOnnx ==> r.0.settings.None? && r.1.settings.None? && r.0.file.Some? && r.1.file.Some?
    ensures !useOnnx ==> r.0.settings == r.1.settings == Some(msetup)
    ensures !useOnnx ==> r.0.file == CheckpointPaths(task, ckpt).0 && r.1.file == CheckpointPaths(task, ckpt).1
  {
    if useOnnx then
      (Checkpoint(OnnxLoader, "induction", None, Some(OnnxFile(ckpt.value, modeltype, task, "induction"))),
       Checkpoint(OnnxLoader, "collection", None, Some(OnnxFile(ckpt.value, modeltype, task, "collection"))))
    else
      var (i, c) := CheckpointPaths(task, ckpt);
      (Checkpoint(LoaderFor(modeltype), "induction", Some(msetup), i),
       Checkpoint(LoaderFor(modeltype), "collection", Some(msetup), c))
  }

  /** `BaseModel.__init__`, in the order it fails: the model settings are
      looked up first, ONNX with uscg is refused before anything is loaded,
      ONNX needs a checkpoint directory, then the generator settings are
      read. */
  function NewBaseModel(setup: Setup, modeltype: string, task: string, ckpt: Option<Path>, useOnnx: bool,
                        load: Checkpoint -> (Batch -> Batch)): (r: Result<BaseModel, ModelError>)
    ensures r.Ok? <==> && setup.model.Some? && modeltype in setup.model.value
                       && !(useOnnx && (modeltype == "uscg" || ckpt.None?))
                       && setup.task.Some? && setup.dataset.Some?
    ensures r == Err(NotImplementedError) <==>
              setup.model.Some? && modeltype in setup.model.value && useOnnx && modeltype == "uscg"
    ensures r.Ok? ==> && r.value.modeltype == modeltype && r.value.task == task
                      && r.value.ckpt == ckpt && r.value.useOnnx == useOnnx
                      && r.value.generator.msetup == setup.model.value[modeltype]
                      && r.value.inetwork == load(r.value.inductionFrom)
                      && r.value.cnetwork == load(r.value.collectionFrom)
  {
    if setup.model.None? then Err(KeyError("model"))
    else if modeltype !in setup.model.value then Err(KeyError(modeltype))
    else if useOnnx && modeltype == "uscg" then Err(NotImplementedError)
    else if useOnnx && ckpt.None? then Err(TypeError)
    else
      var (i, c) := Sources(modeltype, task, ckpt, setup.model.value[modeltype], useOnnx);
      if setup.task.None? then Err(KeyError("task"))
      else if setup.dataset.None? then Err(KeyError("dataset"))
      else
        Ok(BaseModel(modeltype, task, ckpt, useOnnx, i, c, load(i), load(c),
                     Generator(DatasetFor(modeltype), setup.model.value[modeltype], setup.task.value, setup.dataset.value)))
  }

  /** `DnModel(...)`: a base model for task "dn". */
  function DnModel(setup: Setup, modeltype: string, ckpt: Option<Path>, useOnnx: bool,
                   load: Checkpoint -> (Batch -> Batch)): (r: Result<BaseModel, ModelError>)
    ensures r.Ok? ==> r.value.task == "dn" && r.value.modeltype == modeltype && r.value.ckpt == ckpt
  {
    NewBaseModel(setup, modeltype, "dn", ckpt, useOnnx, load)
  }

  /** `RoiModel(...)`: a base model for task "roi". */
  function RoiModel(setup: Setup, modeltype: string, ckpt: Option<Path>, useOnnx: bool,
                    load: Checkpoint -> (Batch -> Batch)): (r: Result<BaseModel, ModelError>)
    ensures r.Ok? ==> r.value.task == "roi" && r.value.modeltype == modeltype && r.value.ckpt == ckpt
  {
    NewBaseModel(setup, modeltype, "roi", ckpt, useOnnx, load)
  }

  /** `DnRoiModel(...)`: the ROI model, built first, and the denoising model. */
  function DnRoiModel(setup: Setup, modeltype: string, roiCkpt: Option<Path>, dnCkpt: Option<Path>, useOnnx: bool,
                      load: Checkpoint -> (Batch -> Batch)): (r: Result<(BaseModel, BaseModel), ModelError>)
    ensures RoiModel(setup, modeltype, roiCkpt, useOnnx, load).Err? ==>
              r == Err(RoiModel(setup, modeltype, roiCkpt, useOnnx, load).error)
    ensures r.Ok? ==> r.value.0.task == "roi" && r.value.1.task == "dn"
  {
    match RoiModel(setup, modeltype, roiCkpt, useOnnx, load)
    case Err(err) => Err(err)
    case Ok(roi) =>
      match DnModel(setup, modeltype, dnCkpt, useOnnx, load)
      case Err(err) => Err(err)
      case Ok(dn) => Ok((roi, dn))
  }

  /** `BaseModel.predict` on the event `e` for the detector geometry `g`:
      split, run each network on its own planes, merge. The generators read
      `test_batch_size` from the model settings when they are called. */
  function Predict(m: BaseModel, g: Geometry, e: Matrix): (r: Result<Matrix, ModelError>)
    ensures r.Ok? ==> Uniform(r.value, g.nbTdcTicks)
    ensures EventToPlanes(g, e).Err? ==> r.Err? && r.error.Shape?
    ensures EventToPlanes(g, e).Ok? && "test_batch_size" !in m.generator.msetup ==>
              r == Err(KeyError("test_batch_size"))
  {
    match EventToPlanes(g, e)
    case Err(err) => Err(Shape(err))
    case Ok((iplanes, cplanes)) =>
      if "test_batch_size" !in m.generator.msetup then Err(KeyError("test_batch_size"))
      else
        match PlanesToEvent(g, m.inetwork(iplanes), m.cnetwork(cplanes))
        case Err(err) => Err(Shape(err))
        case Ok(event) => Ok(event)
  }

  /** `onnx_export(output_dir)`: the two files written, under `output_dir`,
      or under the checkpoint directory when it is not given. */
  function ExportPaths(m: BaseModel, outputDir: Option<Path>): (r: Result<(Path, Path), ModelError>)
    ensures r.Ok? ==> r.value.0 != r.value.1
    ensures outputDir.Some? ==> r.Ok? && InDirectory(r.value.0, outputDir.value, "induction")
                                      && InDirectory(r.value.1, outputDir.value, "collection")
  {
    var dir := if outputDir.Some? then outputDir else m.ckpt;
    match dir
    case None => Err(TypeError)
    case Some(d) => Ok((OnnxFile(d, m.modeltype, m.task, "induction"), OnnxFile(d, m.modeltype, m.task, "collection")))
  }

  // ---------------------------------------------------------------------
  // Properties

  lemma {:induction false} MiddleEqual(a: string, x: string, y: string, b: string)
    requires a + x + b == a + y + b
    ensures x == y
  {
    var s := a + x + b;
    assert |x| == |y|;
    assert x == s[|a|..|a| + |x|];
    assert y == (a + y + b)[|a|..|a| + |y|];
  }

  /** Without a checkpoint there are no weight files; with one, the two files
      lie in different sub-directories and name the task, so the files of two
      tasks never coincide. */
  lemma CheckpointPathsDistinct(ckpt: Option<Path>, task: string, other: string)
    ensures ckpt.None? ==> CheckpointPaths(task, ckpt) == (None, None)
    ensures ckpt.Some? ==> CheckpointPaths(task, ckpt).0 != CheckpointPaths(task, ckpt).1
    ensures ckpt.Some? && task != other ==> CheckpointPaths(task, ckpt).0 != CheckpointPaths(other, ckpt).0
    ensures ckpt.Some? && task != other ==> CheckpointPaths(task, ckpt).1 != CheckpointPaths(other, ckpt).1
  {
    if ckpt.Some? {
      var c := ckpt.value;
      var n := |c.parts|;
      assert CheckpointFile(c, task, "induction").parts[n] == "induction";
      assert CheckpointFile(c, task, "collection").parts[n] == "collection";
      if task != other {
        var name := c.Name() + "_";
        forall channel | channel == "induction" || channel == "collection"
          ensures CheckpointFile(c, task, channel) != CheckpointFile(c, other, channel)
        {
          var suffix := "_" + channel + ".pth";
          if CheckpointFile(c, task, channel) == CheckpointFile(c, other, channel) {
            assert CheckpointFile(c, task, channel).parts[n + 1] == name + task + suffix;
            assert CheckpointFile(c, other, channel).parts[n + 1] == name + other + suffix;
            MiddleEqual(name, task, other, suffix);
          }
        }
      }
    }
  }

  /** ONNX with the uscg model type is refused whatever the checkpoint, the
      task and the loader, as soon as the model settings are found. */
  lemma OnnxUscgRefused(setup: Setup, task: string, ckpt: Option<Path>, load: Checkpoint -> (Batch -> Batch))
    requires setup.model.Some? && "uscg" in setup.model.value
    ensures NewBaseModel(setup, "uscg", task, ckpt, true, load) == Err(NotImplementedError)
  {
  }

  /** A constructed model loads and wraps with the uscg variants exactly when
      the model type is "uscg", and with the gcnn variants (or ONNX) otherwise. */
  lemma VariantsFollowModelType(setup: Setup, modeltype: string, task: string, ckpt: Option<Path>, useOnnx: bool,
                                load: Checkpoint -> (Batch -> Batch))
    requires NewBaseModel(setup, modeltype, task, ckpt, useOnnx, load).Ok?
    ensures var m := NewBaseModel(setup, modeltype, task, ckpt, useOnnx, load).value;
      && (m.generator.kind == UscgDataset <==> modeltype == "uscg")
      && (m.inductionFrom.loader == UscgLoader <==> modeltype == "uscg")
      && (m.collectionFrom.loader == UscgLoader <==> modeltype == "uscg")
      && (m.inductionFrom.loader == OnnxLoader <==> useOnnx)
      && m.inductionFrom.loader == m.collectionFrom.loader
      && m.inductionFrom.channel == "induction" && m.collectionFrom.channel == "collection"
  {
  }

  /** Without ONNX the networks are loaded from the checkpoint files of the
      model's own task, with the settings of the model's own type. */
  lemma LoadsOwnTask(setup: Setup, modeltype: string, task: string, ckpt: Option<Path>, load: Checkpoint -> (Batch -> Batch))
    requires NewBaseModel(setup, modeltype, task, ckpt, false, load).Ok?
    ensures var m := NewBaseModel(setup, modeltype, task, ckpt, false, load).value;
      && m.inductionFrom.file == CheckpointPaths(task, ckpt).0 && m.collectionFrom.file == CheckpointPaths(task, ckpt).1
      && m.inductionFrom.settings == m.collectionFrom.settings == Some(setup.model.value[modeltype])
      && m.inetwork == load(m.inductionFrom) && m.cnetwork == load(m.collectionFrom)
  {
  }

  /** The files `onnx_export` writes by default are the files a model built
      with ONNX from the same checkpoint reads. */
  lemma ExportThenLoad(m: BaseModel, setup: Setup, load: Checkpoint -> (Batch -> Batch))
    requires m.ckpt.Some?
    requires NewBaseModel(setup, m.modeltype, m.task, m.ckpt, true, load).Ok?
    ensures ExportPaths(m, None).Ok?
    ensures var onnx := NewBaseModel(setup, m.modeltype, m.task, m.ckpt, true, load).value;
      onnx.inductionFrom.file == Some(ExportPaths(m, None).value.0) &&
      onnx.collectionFrom.file == Some(ExportPaths(m, None).value.1)
  {
  }

  /** Exporting without a directory fails exactly when the model has no checkpoint. */
  lemma ExportNeedsDirectory(m: BaseModel, outputDir: Option<Path>)
    ensures ExportPaths(m, outputDir).Err? <==> outputDir.None? && m.ckpt.None?
  {
  }

  /** `DnRoiModel` builds an ROI model and a denoising model of the same type
      from the same settings; it fails when either would. */
  lemma DnRoiModelParts(setup: Setup, modeltype: string, roiCkpt: Option<Path>, dnCkpt: Option<Path>, useOnnx: bool,
                        load: Checkpoint -> (Batch -> Batch))
    ensures DnRoiModel(setup, modeltype, roiCkpt, dnCkpt, useOnnx, load).Ok? <==>
      RoiModel(setup, modeltype, roiCkpt, useOnnx, load).Ok? && DnModel(setup, modeltype, dnCkpt, useOnnx, load).Ok?
    ensures DnRoiModel(setup, modeltype, roiCkpt, dnCkpt, useOnnx, load).Ok? ==>
      var (roi, dn) := DnRoiModel(setup, modeltype, roiCkpt, dnCkpt, useOnnx, load).value;
      roi.task == "roi" && dn.task == "dn" && roi.modeltype == dn.modeltype == modeltype &&
      roi.ckpt == roiCkpt && dn.ckpt == dnCkpt && roi.generator == dn.generator
  {
  }


  /** With networks that return their input, prediction gives back any event
      of the nominal shape. */
  lemma PredictIdentity(m: BaseModel, g: Geometry, e: Matrix)
    requires g.Valid() && |e| == g.NbEventChannels() && Uniform(e, g.nbTdcTicks)
    requires m.inetwork == Identity && m.cnetwork == Identity && "test_batch_size" in m.generator.msetup
    ensures Predict(m, g, e) == Ok(e)
  {
    RoundTrip(g, e);
    var (ip, cp) := EventToPlanes(g, e).value;
    assert m.inetwork(ip) == ip && m.cnetwork(cp) == cp;
  }

  /** The induction network sees only the induction planes and the collection
      network only the collection planes: replacing either network by one
      that agrees with it on those planes leaves the prediction unchanged. */
  lemma PredictRouting(m: BaseModel, g: Geometry, e: Matrix, inet: Batch -> Batch, cnet: Batch -> Batch)
    requires EventToPlanes(g, e).Ok?
    requires inet(EventToPlanes(g, e).value.0) == m.inetwork(EventToPlanes(g, e).value.0)
    requires cnet(EventToPlanes(g, e).value.1) == m.cnetwork(EventToPlanes(g, e).value.1)
    ensures Predict(m.(inetwork := inet, cnetwork := cnet), g, e) == Predict(m, g, e)
  {
  }
}

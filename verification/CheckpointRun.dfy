/** End to end: compiling a checkpoint and running a session on the image gives what evaluating the
    model directly on the checkpoint's tensors gives. */
module CheckpointRun {
  import opened Common
  import opened Config
  import opened Registry
  import opened ImageCompiler
  import opened ImageRuntime
  import opened CompiledRuntime
  import SharedSession

  type Decoder<!A> = (Bytes, string, seq<nat>) -> Option<A>

  // ── The model evaluated on a checkpoint ────────────────────────────────────

  function DecodeTensor<A>(decode: Decoder<A>, source: Checkpoint, name: TensorName): (r: Option<A>) {
    if name in source then decode(source[name].data, source[name].dtype, source[name].shape) else None
  }

  ghost predicate AllDecode<A>(decode: Decoder<A>, source: Checkpoint, names: seq<TensorName>) {
    forall j :: 0 <= j < |names| ==> DecodeTensor(decode, source, names[j]).Some?
  }

  /** The checkpoint's arrays of these names, if all of them decode. */
  ghost function CheckpointArrays<A>(decode: Decoder<A>, source: Checkpoint, names: seq<TensorName>)
    : (r: Option<map<TensorName, A>>)
  {
    if AllDecode(decode, source, names) then Some(ArraysNamed(decode, source, names)) else None
  }

  function ArraysNamed<A>(decode: Decoder<A>, source: Checkpoint, names: seq<TensorName>): (m: map<TensorName, A>) {
    map n | n in names && DecodeTensor(decode, source, n).Some? :: DecodeTensor(decode, source, n).value
  }

  ghost function LayerArrays<A>(decode: Decoder<A>, source: Checkpoint, spec: ExecutionSpec, i: nat)
    : (r: Option<map<TensorName, A>>)
  {
    if i < |spec.layers| then CheckpointArrays(decode, source, TableNames(spec.layers[i].tensors)) else None
  }

  ghost function DirectLayer<A, H, T>(
    decode: Decoder<A>, source: Checkpoint, spec: ExecutionSpec, exec: Executor<A, H, T>,
    globals: map<TensorName, A>, h: H, plan: LayerPlan)
    : (r: Result<H, RunError>)
  {
    match LayerArrays(decode, source, spec, plan.layerIndex)
    case None => Err(LayerUnavailable(plan.layerIndex))
    case Some(own) =>
      match exec.layer(h, plan, globals + own)
      case None => Err(LayerFailed(plan.layerIndex))
      case Some(h') => Ok(h')
  }

  ghost function DirectLayers<A, H, T>(
    decode: Decoder<A>, source: Checkpoint, spec: ExecutionSpec, exec: Executor<A, H, T>,
    globals: map<TensorName, A>, h: H, layers: seq<LayerPlan>)
    : (r: Result<H, RunError>)
  {
    if layers == [] then Ok(h)
    else
      match DirectLayers(decode, source, spec, exec, globals, h, layers[..|layers| - 1])
      case Err(e) => Err(e)
      case Ok(h') => DirectLayer(decode, source, spec, exec, globals, h', layers[|layers| - 1])
  }

  ghost function DirectModel<A, H, T>(
    decode: Decoder<A>, source: Checkpoint, spec: ExecutionSpec, plan: ModelExecutionPlan, exec: Executor<A, H, T>,
    globals: map<TensorName, A>)
    : (r: Result<T, RunError>)
  {
    if !PlanValid(plan) then Err(InvalidPlan)
    else
      match exec.prologue(globals)
      case None => Err(PrologueFailed)
      case Some(h) =>
        match DirectLayers(decode, source, spec, exec, globals, h, plan.layers)
        case Err(e) => Err(e)
        case Ok(h') =>
          match exec.epilogue(h', globals)
          case None => Err(EpilogueFailed)
          case Some(t) => Ok(t)
  }

  /** Decode the globals, look up the embedding, run each layer on the globals and its own tensors,
      project. No image, no segments, no handles. */
  ghost function DirectRun<A, H, T>(
    decode: Decoder<A>, source: Checkpoint, spec: ExecutionSpec, plan: ModelExecutionPlan, exec: Executor<A, H, T>)
    : (r: Result<T, RunError>)
  {
    match CheckpointArrays(decode, source, TableNames(spec.globals))
    case None => Err(OpenFailed)
    case Some(globals) => DirectModel(decode, source, spec, plan, exec, globals)
  }

  // ── What a segment read yields ─────────────────────────────────────────────

  lemma {:induction false} NamedArrays<A>(
    decode: Decoder<A>, source: Checkpoint, names: seq<TensorName>, ts: seq<Tensor<A>>)
    requires |ts| == |names|
    requires forall j :: 0 <= j < |ts| ==>
      ts[j].name == names[j] && DecodeTensor(decode, source, names[j]) == Some(ts[j].item)
    ensures ArraysOf(ts) == ArraysNamed(decode, source, names)
  {
    if ts != [] {
      var last := |ts| - 1;
      NamedArrays(decode, source, names[..last], ts[..last]);
      assert names == names[..last] + [names[last]];
    }
  }

  /** A read of the checkpoint's tensors is complete exactly if all decode, and then has their arrays. */
  lemma ReadIsArrays<A>(image: Image<A>, source: Checkpoint, names: seq<TensorName>, read: SegmentRead<A>)
    requires ReadsCheckpoint(image, source, names, read)
    ensures
      (if read.complete then Some(ArraysOf(read.tensors)) else None) == CheckpointArrays(image.decode, source, names)
  {
    forall j | 0 <= j < |read.tensors|
      ensures read.tensors[j].name == names[j]
      ensures DecodeTensor(image.decode, source, names[j]) == Some(read.tensors[j].item)
    {
      assert CheckpointArray(image, source, names[j]) == Some(read.tensors[j]);
    }
    if read.complete {
      NamedArrays(image.decode, source, names, read.tensors);
    } else {
      assert DecodeTensor(image.decode, source, names[|read.tensors|]).None?;
    }
  }

  // ── The image runs as the checkpoint does ──────────────────────────────────

  /** Every layer segment of the image has the arrays of its layer. */
  ghost predicate LayersAgree<A>(image: Image<A>, source: Checkpoint, spec: ExecutionSpec) {
    forall i :: 0 <= i < |spec.layers| ==>
      var read := ReadSegment(image, LayerSegment(i));
      (if read.complete then Some(ArraysOf(read.tensors)) else None) == LayerArrays(image.decode, source, spec, i)
  }

  lemma CompiledLayersAgree<A>(
    arch: TextArchitecture, namespace: NamespaceBinding, q: Option<QuantizationMeta>, spec: ExecutionSpec,
    source: Checkpoint, compiled: CompiledImage, image: Image<A>)
    requires FromCheckpoint(arch, namespace, q, spec, source, compiled, image)
    ensures LayersAgree(image, source, spec)
  {
    forall i | 0 <= i < |spec.layers|
      ensures
        var read := ReadSegment(image, LayerSegment(i));
        (if read.complete then Some(ArraysOf(read.tensors)) else None) == LayerArrays(image.decode, source, spec, i)
    {
      LayerReadsCheckpoint(arch, namespace, q, spec, source, compiled, image, i);
      ReadIsArrays(image, source, TableNames(spec.layers[i].tensors), ReadSegment(image, LayerSegment(i)));
    }
  }

  lemma {:induction false} LayersRunAlike<A, H, T>(
    image: Image<A>, source: Checkpoint, spec: ExecutionSpec, exec: Executor<A, H, T>, globals: map<TensorName, A>,
    h: H, layers: seq<LayerPlan>)
    requires LayersAgree(image, source, spec)
    requires forall i :: 0 <= i < |layers| ==> layers[i].layerIndex < |spec.layers|
    ensures
      EvalLayers(image, exec, globals, h, layers) == DirectLayers(image.decode, source, spec, exec, globals, h, layers)
  {
    if layers != [] {
      LayersRunAlike(image, source, spec, exec, globals, h, layers[..|layers| - 1]);
    }
  }

  lemma ModelRunsAlike<A, H, T>(
    image: Image<A>, source: Checkpoint, spec: ExecutionSpec, exec: Executor<A, H, T>, globals: map<TensorName, A>)
    requires LayersAgree(image, source, spec)
    requires forall i :: 0 <= i < |image.manifest.executionPlan.layers| ==>
      image.manifest.executionPlan.layers[i].layerIndex < |spec.layers|
    ensures
      EvalModel(image, exec, globals) ==
      DirectModel(image.decode, source, spec, image.manifest.executionPlan, exec, globals)
  {
    if exec.prologue(globals).Some? {
      LayersRunAlike(
        image, source, spec, exec, globals, exec.prologue(globals).value, image.manifest.executionPlan.layers);
    }
  }

  lemma PlannedLayersExist(
    arch: TextArchitecture, namespace: NamespaceBinding, q: Option<QuantizationMeta>, spec: ExecutionSpec,
    source: Checkpoint, compiled: CompiledImage)
    requires IsSpec(arch, namespace.root, q, spec) && IsCompilation(arch, namespace, spec, source, compiled)
    ensures
      var layers := compiled.manifest.executionPlan.layers;
      forall i :: 0 <= i < |layers| ==> layers[i].layerIndex < |spec.layers|
  {
  }

  /** For every checkpoint, decoder and executor: a session on the image compiled from the checkpoint
      returns exactly what running the same plan on the checkpoint's own tensors returns, errors
      included. */
  lemma ImageRunsAsCheckpoint<A, H, T>(
    arch: TextArchitecture, namespace: NamespaceBinding, q: Option<QuantizationMeta>, spec: ExecutionSpec,
    source: Checkpoint, compiled: CompiledImage, image: Image<A>, exec: Executor<A, H, T>)
    requires FromCheckpoint(arch, namespace, q, spec, source, compiled, image)
    ensures
      SessionResult(image, exec) ==
      DirectRun(image.decode, source, spec, compiled.manifest.executionPlan, exec)
  {
    var read := PersistentTensors(image);
    CompiledOpensIff(arch, namespace, q, spec, source, compiled, image);
    PersistentReadsCheckpoint(arch, namespace, q, spec, source, compiled, image);
    ReadIsArrays(image, source, TableNames(spec.globals), read);
    CompiledLayersAgree(arch, namespace, q, spec, source, compiled, image);
    PlannedLayersExist(arch, namespace, q, spec, source, compiled);
    ModelRunsAlike(image, source, spec, exec, ArraysOf(read.tensors));
  }

  /** And so it does whatever other clients of the registry do in between. If it succeeds, the
      registry is left with exactly what they hold. */
  lemma SharedImageRunsAsCheckpoint<A, H, T>(
    arch: TextArchitecture, namespace: NamespaceBinding, q: Option<QuantizationMeta>, spec: ExecutionSpec,
    source: Checkpoint, compiled: CompiledImage, image: Image<A>, exec: Executor<A, H, T>, r: State<A>,
    acts: seq<SharedSession.Act<A>>)
    requires FromCheckpoint(arch, namespace, q, spec, source, compiled, image) && Wf(r)
    requires SharedSession.Exec(image, exec, r, acts).Some?
    requires SharedSession.Exec(image, exec, r, acts).value.phase.Finished?
    ensures
      var s := SharedSession.Exec(image, exec, r, acts).value;
      && s.phase.result == DirectRun(image.decode, source, spec, compiled.manifest.executionPlan, exec)
      && (s.phase.result.Ok? ==> Wf(s.w.registry) && Bindings(s.w.registry) == s.w.theirs)
  {
    SharedSession.SharedSessionEnds(image, exec, r, acts);
    ImageRunsAsCheckpoint(arch, namespace, q, spec, source, compiled, image, exec);
    PersistentNamesDistinct(arch, namespace, q, spec, source, compiled, image);
  }
}

/** The spec compiler and the execution-plan builder: two independent traversals of one
    architecture, the plan validator, and the dimensions the runtime derives from them.
    Dimensions are unbounded here; the source's u32 products are assumed not to overflow. */
module Config {
  import opened Common

  datatype AttentionKind = SlidingAttention | FullAttention

  datatype RopeSpec = RopeSpec(theta: real, ropeType: string, partialRotaryFactor: Option<real>)

  datatype TextArchitecture = TextArchitecture(
    hiddenSize: nat,
    intermediateSize: nat,
    numAttentionHeads: nat,
    numKeyValueHeads: nat,
    headDim: nat,
    globalHeadDim: Option<nat>,
    numGlobalKeyValueHeads: Option<nat>,
    vocabSize: nat,
    slidingWindow: nat,
    maxPositionEmbeddings: nat,
    rmsNormEps: real,
    tieWordEmbeddings: bool,
    attentionKEqV: bool,
    finalLogitSoftcapping: Option<real>,
    layerTypes: seq<AttentionKind>,
    ropeLocal: RopeSpec,
    ropeGlobal: Option<RopeSpec>)

  datatype NamespaceBinding = NamespaceBinding(root: string, lmHeadKey: TensorName, lmHeadAliased: bool)

  datatype QuantizationMeta = QuantizationMeta(bits: nat, groupSize: nat)

  function OrElse<T>(o: Option<T>, d: T): (t: T) { if o.Some? then o.value else d }

  // ── Packed linear shapes ───────────────────────────────────────────────────

  datatype PackedLinearShapes = PackedLinearShapes(
    weight: seq<nat>, scales: seq<nat>, biases: seq<nat>, bits: nat, groupSize: nat, groups: nat)

  /** The packing arithmetic divides by bits/8, by 4/(bits/8) and by the group size; outside
      this range the source panics. */
  predicate PackingDefined(bits: nat, groupSize: nat) { 1 <= bits / 8 <= 4 && groupSize > 0 }

  /** Values packed into one 32-bit word. */
  function ValuesPerWord(bits: nat): (pack: nat)
    requires 1 <= bits / 8 <= 4
    ensures 1 <= pack <= 4
  {
    4 / (bits / 8)
  }

  function PackedShapes(outDim: nat, inDim: nat, groupSize: nat, bits: nat): (p: PackedLinearShapes)
    requires PackingDefined(bits, groupSize)
  {
    var packedIn := inDim / ValuesPerWord(bits);
    var groups := inDim / groupSize;
    PackedLinearShapes([outDim, packedIn], [outDim, groups], [outDim, groups], bits, groupSize, groups)
  }

  /** Group size as the runtime recovers it from the packed weight and scale shapes. */
  function RecoveredGroupSize(p: PackedLinearShapes): (g: nat)
    requires |p.weight| == 2 && |p.scales| == 2 && p.scales[1] > 0
  {
    p.weight[1] * 4 / p.scales[1]
  }

  lemma ScalingIsMonotone(d: int, a: int, b: int)
    requires d > 0
    ensures a <= b ==> d * a <= d * b
  {
  }

  lemma DivisionBounds(n: int, d: int)
    requires d > 0
    ensures d * (n / d) <= n < d * (n / d) + d
    ensures n - d * (n / d) == n % d
  {
  }

  lemma DivisionIs(n: int, d: int, q: int)
    requires d > 0 && d * q <= n < d * q + d
    ensures n / d == q
  {
    DivisionBounds(n, d);
    ScalingIsMonotone(d, q + 1, n / d);
    ScalingIsMonotone(d, n / d + 1, q);
    assert d * (q + 1) == d * q + d;
    assert d * (n / d + 1) == d * (n / d) + d;
  }

  /** For 8-bit packing the runtime recovers the compile-time group size exactly when what the
      rounding to whole groups loses, less what the rounding to whole words loses, is between
      zero and the number of groups. */
  lemma GroupSizeRecoveredIff(outDim: nat, inDim: nat, groupSize: nat)
    requires 0 < groupSize <= inDim
    ensures PackedShapes(outDim, inDim, groupSize, 8).scales[1] > 0
    ensures RecoveredGroupSize(PackedShapes(outDim, inDim, groupSize, 8)) == groupSize
       <==> 0 <= inDim % groupSize - inDim % 4 < inDim / groupSize
  {
    var k := inDim / groupSize;
    DivisionBounds(inDim, groupSize);
    DivisionBounds(inDim, 4);
    var words := inDim / 4;
    assert words * 4 == inDim - inDim % 4;
    DivisionIs(inDim, groupSize, k);
    ScalingIsMonotone(groupSize, k, 0);
    assert k * groupSize == inDim - inDim % groupSize;
    var lost := inDim % groupSize - inDim % 4;
    assert words * 4 == k * groupSize + lost;
    if 0 <= lost < k {
      DivisionIs(words * 4, k, groupSize);
    } else {
      DivisionBounds(words * 4, k);
    }
  }

  /** In particular it is recovered whenever 4 and the group size divide the input dimension. */
  lemma GroupSizeRecovered(outDim: nat, inDim: nat, groupSize: nat)
    requires groupSize > 0 && inDim > 0 && inDim % 4 == 0 && inDim % groupSize == 0
    ensures inDim / groupSize > 0
    ensures RecoveredGroupSize(PackedShapes(outDim, inDim, groupSize, 8)) == groupSize
  {
    DivisionBounds(inDim, groupSize);
    assert inDim == groupSize * (inDim / groupSize);
    assert inDim / groupSize > 0;
    assert groupSize <= inDim by {
      assert groupSize * 1 <= groupSize * (inDim / groupSize);
    }
    GroupSizeRecoveredIff(outDim, inDim, groupSize);
  }

  /** Packed words hold exactly `inDim * bits` bits exactly for 8, 16 and 32 bits with whole
      words; every other width the packing accepts wastes or loses bits. */
  lemma PackedBitsExactIff(outDim: nat, inDim: nat, groupSize: nat, bits: nat)
    requires PackingDefined(bits, groupSize) && inDim > 0
    ensures PackedShapes(outDim, inDim, groupSize, bits).weight[1] * 32 == inDim * bits
       <==> bits in {8, 16, 32} && inDim % ValuesPerWord(bits) == 0
  {
    var words := inDim / ValuesPerWord(bits);
    DivisionBounds(inDim, ValuesPerWord(bits));
    if bits / 8 == 1 {
      ExactWidth(inDim, bits, 8);
    } else if bits / 8 == 2 {
      ExactWidth(inDim, bits, 16);
    } else {
      assert words == inDim;
      ExactWidth(inDim, bits, 32);
    }
  }

  lemma ExactWidth(n: nat, bits: nat, w: nat)
    requires n > 0
    ensures n * bits == w * n <==> bits == w
    ensures bits >= w ==> n * bits >= w * n
  {
    assert n * bits - w * n == n * (bits - w);
    ScalingIsMonotone(n, bits - w, -1);
    ScalingIsMonotone(n, 0, bits - w);
    ScalingIsMonotone(n, 1, bits - w);
  }

  // ── Compiled specification ─────────────────────────────────────────────────

  datatype TensorRole =
    | EmbeddingRole | FinalNormRole | LmHeadRole | AttentionNormRole | FfnNormRole
    | QProjRole | KProjRole | VProjRole | OProjRole | GateProjRole | UpProjRole | DownProjRole
    | QNormRole | KNormRole

  datatype TensorBinding = TensorBinding(
    name: TensorName, role: TensorRole, logicalShape: seq<nat>, packed: Option<PackedLinearShapes>)

  datatype LayerSpec = LayerSpec(
    index: nat, kind: AttentionKind, qOut: nat, kvOut: nat, nHeads: nat, nKvHeads: nat, headDim: nat,
    globalKvOut: Option<nat>, slidingWindow: Option<nat>, rope: RopeSpec, tensors: seq<TensorBinding>)

  datatype ExecutionSpec = ExecutionSpec(globals: seq<TensorBinding>, layers: seq<LayerSpec>)

  function NormBinding(root: string, layer: nat, item: LayerItem, role: TensorRole, dim: nat): (b: TensorBinding) {
    TensorBinding(LayerTensor(root, layer, item, Weight), role, [dim], None)
  }

  function QuantizedLinear(
    root: string, layer: nat, item: LayerItem, role: TensorRole, outDim: nat, inDim: nat, groupSize: nat, bits: nat)
    : (b: TensorBinding)
    requires PackingDefined(bits, groupSize)
  {
    TensorBinding(LayerTensor(root, layer, item, Weight), role, [outDim, inDim],
                  Some(PackedShapes(outDim, inDim, groupSize, bits)))
  }

  function FullHeadDim(arch: TextArchitecture): (d: nat) { OrElse(arch.globalHeadDim, arch.headDim) }

  /** Rows of the key projection, as the spec compiler computes them. */
  function KvOut(arch: TextArchitecture, kind: AttentionKind): (n: nat) {
    if kind.FullAttention? then OrElse(arch.numGlobalKeyValueHeads, 1) * FullHeadDim(arch)
    else arch.numKeyValueHeads * arch.headDim
  }

  function QOut(arch: TextArchitecture, kind: AttentionKind): (n: nat) {
    arch.numAttentionHeads * (if kind.FullAttention? then FullHeadDim(arch) else arch.headDim)
  }

  function RopeFor(arch: TextArchitecture, kind: AttentionKind): (r: RopeSpec) {
    if kind.FullAttention? then OrElse(arch.ropeGlobal, arch.ropeLocal) else arch.ropeLocal
  }

  /** A full-attention layer has no value projection of its own. */
  function LayerTensors(arch: TextArchitecture, root: string, i: nat, kind: AttentionKind, gs: nat, bits: nat)
    : (ts: seq<TensorBinding>)
    requires PackingDefined(bits, gs)
    ensures |ts| == if kind.FullAttention? then 10 else 11
    ensures forall k :: 0 <= k < |ts| ==> ts[k].name.LayerTensor? && ts[k].name.layer == i
  {
    var h := arch.hiddenSize;
    var normDim := if kind.FullAttention? then FullHeadDim(arch) else arch.headDim;
    [ NormBinding(root, i, InputLayernorm, AttentionNormRole, h),
      NormBinding(root, i, PostAttentionLayernorm, FfnNormRole, h),
      NormBinding(root, i, QNorm, QNormRole, normDim),
      NormBinding(root, i, KNorm, KNormRole, normDim),
      QuantizedLinear(root, i, QProj, QProjRole, QOut(arch, kind), h, gs, bits),
      QuantizedLinear(root, i, KProj, KProjRole, KvOut(arch, kind), h, gs, bits) ]
    + (if kind.FullAttention? then []
       else [QuantizedLinear(root, i, VProj, VProjRole, arch.numKeyValueHeads * arch.headDim, h, gs, bits)])
    + [ QuantizedLinear(root, i, OProj, OProjRole, h, QOut(arch, kind), gs, bits),
        QuantizedLinear(root, i, GateProj, GateProjRole, arch.intermediateSize, h, gs, bits),
        QuantizedLinear(root, i, UpProj, UpProjRole, arch.intermediateSize, h, gs, bits),
        QuantizedLinear(root, i, DownProj, DownProjRole, h, arch.intermediateSize, gs, bits) ]
  }

  function LayerSpecOf(arch: TextArchitecture, root: string, i: nat, gs: nat, bits: nat): (l: LayerSpec)
    requires i < |arch.layerTypes| && PackingDefined(bits, gs)
  {
    var kind := arch.layerTypes[i];
    var full := kind.FullAttention?;
    LayerSpec(
      i, kind, QOut(arch, kind), KvOut(arch, kind), arch.numAttentionHeads, arch.numKeyValueHeads,
      if full then FullHeadDim(arch) else arch.headDim,
      if full then Some(KvOut(arch, kind)) else None,
      if full then None else Some(arch.slidingWindow),
      RopeFor(arch, kind),
      LayerTensors(arch, root, i, kind, gs, bits))
  }

  /** Bits and group size used for the projections: 16 and 64 without quantization metadata. */
  function Bits(q: Option<QuantizationMeta>): (n: nat) { if q.Some? then q.value.bits else 16 }

  function GroupSize(q: Option<QuantizationMeta>): (n: nat) { if q.Some? then q.value.groupSize else 64 }

  function GlobalTensors(arch: TextArchitecture, root: string, q: Option<QuantizationMeta>): (ts: seq<TensorBinding>)
    requires PackingDefined(Bits(q), GroupSize(q))
  {
    [ TensorBinding(GlobalTensor(root, EmbedTokens, Weight), EmbeddingRole, [arch.vocabSize, arch.hiddenSize],
                    if q.Some? then Some(PackedShapes(arch.vocabSize, arch.hiddenSize, q.value.groupSize, q.value.bits))
                    else None),
      TensorBinding(GlobalTensor(root, FinalNorm, Weight), FinalNormRole, [arch.hiddenSize], None) ]
    + (if arch.tieWordEmbeddings then []
       else [TensorBinding(GlobalTensor(root, LmHead, Weight), LmHeadRole, [arch.vocabSize, arch.hiddenSize], None)])
  }

  ghost predicate IsSpec(arch: TextArchitecture, root: string, q: Option<QuantizationMeta>, spec: ExecutionSpec) {
    && PackingDefined(Bits(q), GroupSize(q))
    && spec.globals == GlobalTensors(arch, root, q)
    && |spec.layers| == |arch.layerTypes|
    && forall i :: 0 <= i < |spec.layers| ==> spec.layers[i] == LayerSpecOf(arch, root, i, GroupSize(q), Bits(q))
  }

  datatype CompileError = PackingPanics

  /** Compile an architecture. The one failure is the packing arithmetic's panic. */
  method Compile(arch: TextArchitecture, namespace: NamespaceBinding, q: Option<QuantizationMeta>)
    returns (r: Result<ExecutionSpec, CompileError>)
    ensures r.Ok? <==> PackingDefined(Bits(q), GroupSize(q))
    ensures r.Ok? ==> IsSpec(arch, namespace.root, q, r.value)
  {
    var bits, gs := Bits(q), GroupSize(q);
    if !PackingDefined(bits, gs) {
      return Err(PackingPanics);
    }
    var layers := [];
    for i := 0 to |arch.layerTypes|
      invariant |layers| == i
      invariant forall j :: 0 <= j < i ==> layers[j] == LayerSpecOf(arch, namespace.root, j, gs, bits)
    {
      layers := layers + [LayerSpecOf(arch, namespace.root, i, gs, bits)];
    }
    r := Ok(ExecutionSpec(GlobalTensors(arch, namespace.root, q), layers));
  }

  /** All bindings in emission order. */
  function LayerBindings(layers: seq<LayerSpec>): (bs: seq<TensorBinding>) {
    if layers == [] then [] else LayerBindings(layers[..|layers| - 1]) + layers[|layers| - 1].tensors
  }

  function AllBindings(spec: ExecutionSpec): (bs: seq<TensorBinding>) {
    spec.globals + LayerBindings(spec.layers)
  }

  // ── Emitted tensor ids ─────────────────────────────────────────────────────

  /** A packed binding emits scales, biases and then the weight; a plain one only the weight. */
  function TensorsEmitted(b: TensorBinding): (n: nat) { if b.packed.Some? then 3 else 1 }

  function IdsUsed(bs: seq<TensorBinding>): (n: nat) {
    if bs == [] then 0 else IdsUsed(bs[..|bs| - 1]) + TensorsEmitted(bs[|bs| - 1])
  }

  /** The id a binding's weight gets when the next free id is `next`. */
  function WeightId(next: nat, b: TensorBinding): (id: nat) { next + TensorsEmitted(b) - 1 }

  /** Name to id after emitting `bs`; ids are dense from 0, a repeated name keeps its last id. */
  function EmittedIds(bs: seq<TensorBinding>): (ids: map<TensorName, nat>) {
    if bs == [] then map[]
    else
      var before, b := bs[..|bs| - 1], bs[|bs| - 1];
      EmittedIds(before)[b.name := WeightId(IdsUsed(before), b)]
  }

  /** Exactly the bound names have ids, and only a plain first binding can have id 0. */
  lemma {:induction false} EmittedIdsFacts(bs: seq<TensorBinding>)
    ensures forall i :: 0 <= i < |bs| ==> bs[i].name in EmittedIds(bs)
    ensures forall name :: name in EmittedIds(bs) ==> exists i :: 0 <= i < |bs| && bs[i].name == name
    ensures forall name :: name in EmittedIds(bs) && EmittedIds(bs)[name] == 0 ==>
              bs[0].name == name && bs[0].packed.None?
    ensures |bs| > 0 && bs[0].packed.None? && (forall i :: 0 < i < |bs| ==> bs[i].name != bs[0].name) ==>
              EmittedIds(bs)[bs[0].name] == 0
    ensures |bs| > 0 ==> IdsUsed(bs) > 0
  {
    if bs != [] {
      var before, b := bs[..|bs| - 1], bs[|bs| - 1];
      EmittedIdsFacts(before);
      assert forall i :: 0 <= i < |before| ==> before[i] == bs[i];
      assert bs[|bs| - 1].name in EmittedIds(bs);
    }
  }

  // ── Execution plan ─────────────────────────────────────────────────────────

  datatype PlanKind = SlidingPlan | FullPlan | OtherPlan(text: string)

  datatype LayerPlan = LayerPlan(
    layerIndex: nat, kind: PlanKind, segment: SegmentId, hiddenSize: nat, nHeads: nat, nKvHeads: nat, headDim: nat,
    globalHeadDim: Option<nat>, nGlobalKvHeads: Option<nat>, slidingWindow: nat, rope: RopeSpec, kEqV: bool,
    qProj: nat, kProj: nat, vProj: nat, oProj: nat, qNorm: Option<nat>, kNorm: Option<nat>,
    gateProj: nat, upProj: nat, downProj: nat, inputLayernorm: nat, postAttentionLayernorm: nat)

  datatype ModelExecutionPlan = ModelExecutionPlan(
    embeddingTensorId: nat, layers: seq<LayerPlan>, finalNormTensorId: nat, outputProjectionTensorId: Option<nat>,
    epilogueVocabSize: nat, hiddenSize: nat, vocabSize: nat)

  function IdOf(ids: map<TensorName, nat>, name: TensorName): (id: Option<nat>) {
    if name in ids then Some(ids[name]) else None
  }

  function LayerPlanOf(arch: TextArchitecture, root: string, ids: map<TensorName, nat>, i: nat): (l: LayerPlan)
    requires i < |arch.layerTypes|
  {
    var full := arch.layerTypes[i].FullAttention?;
    var get := (item: LayerItem) => OrElse(IdOf(ids, LayerTensor(root, i, item, Weight)), 0);
    LayerPlan(
      i, if full then FullPlan else SlidingPlan, LayerSegment(i), arch.hiddenSize, arch.numAttentionHeads,
      if full then OrElse(arch.numGlobalKeyValueHeads, arch.numKeyValueHeads) else arch.numKeyValueHeads,
      if full then FullHeadDim(arch) else arch.headDim,
      if full then arch.globalHeadDim else None,
      if full then arch.numGlobalKeyValueHeads else None,
      arch.slidingWindow, RopeFor(arch, arch.layerTypes[i]), arch.attentionKEqV && full,
      get(QProj), get(KProj), if full then get(KProj) else get(VProj), get(OProj),
      IdOf(ids, LayerTensor(root, i, QNorm, Weight)), IdOf(ids, LayerTensor(root, i, KNorm, Weight)),
      get(GateProj), get(UpProj), get(DownProj), get(InputLayernorm), get(PostAttentionLayernorm))
  }

  ghost predicate IsPlanFor(
    arch: TextArchitecture, namespace: NamespaceBinding, ids: map<TensorName, nat>, plan: ModelExecutionPlan)
  {
    && |plan.layers| == |arch.layerTypes|
    && (forall i :: 0 <= i < |plan.layers| ==> plan.layers[i] == LayerPlanOf(arch, namespace.root, ids, i))
    && plan.embeddingTensorId == OrElse(IdOf(ids, GlobalTensor(namespace.root, EmbedTokens, Weight)), 0)
    && plan.finalNormTensorId == OrElse(IdOf(ids, GlobalTensor(namespace.root, FinalNorm, Weight)), 0)
    && plan.outputProjectionTensorId == IdOf(ids, namespace.lmHeadKey)
    && plan.epilogueVocabSize == plan.vocabSize == arch.vocabSize
    && plan.hiddenSize == arch.hiddenSize
  }

  method BuildExecutionPlan(arch: TextArchitecture, namespace: NamespaceBinding, ids: map<TensorName, nat>)
    returns (plan: ModelExecutionPlan)
    ensures IsPlanFor(arch, namespace, ids, plan)
  {
    var layers := [];
    for i := 0 to |arch.layerTypes|
      invariant |layers| == i
      invariant forall j :: 0 <= j < i ==> layers[j] == LayerPlanOf(arch, namespace.root, ids, j)
    {
      layers := layers + [LayerPlanOf(arch, namespace.root, ids, i)];
    }
    plan := ModelExecutionPlan(
      OrElse(IdOf(ids, GlobalTensor(namespace.root, EmbedTokens, Weight)), 0),
      layers,
      OrElse(IdOf(ids, GlobalTensor(namespace.root, FinalNorm, Weight)), 0),
      IdOf(ids, namespace.lmHeadKey),
      arch.vocabSize, arch.hiddenSize, arch.vocabSize);
  }

  // ── Validation ─────────────────────────────────────────────────────────────

  datatype LayerDefect =
    | WrongIndex | WrongHiddenSize | ZeroQProj | ZeroKProj | ZeroOProj | ZeroGateProj | ZeroUpProj
    | ZeroDownProj | ZeroInputLayernorm | ZeroPostAttentionLayernorm | ZeroVProj | MissingGlobalHeadDim
    | UnknownKind | WrongSegment

  datatype PlanError = NoLayers | InLayer(layer: nat, defect: LayerDefect) | ZeroEmbedding | ZeroFinalNorm | ZeroVocab

  predicate LayerHas(plan: ModelExecutionPlan, i: nat, d: LayerDefect)
    requires i < |plan.layers|
  {
    var l := plan.layers[i];
    match d
    case WrongIndex => l.layerIndex != i
    case WrongHiddenSize => l.hiddenSize != plan.hiddenSize
    case ZeroQProj => l.qProj == 0
    case ZeroKProj => l.kProj == 0
    case ZeroOProj => l.oProj == 0
    case ZeroGateProj => l.gateProj == 0
    case ZeroUpProj => l.upProj == 0
    case ZeroDownProj => l.downProj == 0
    case ZeroInputLayernorm => l.inputLayernorm == 0
    case ZeroPostAttentionLayernorm => l.postAttentionLayernorm == 0
    case ZeroVProj => l.kind.SlidingPlan? && l.vProj == 0
    case MissingGlobalHeadDim => l.kind.FullPlan? && l.globalHeadDim.None?
    case UnknownKind => l.kind.OtherPlan?
    case WrongSegment => l.segment != LayerSegment(i)
  }

  ghost predicate Defective(plan: ModelExecutionPlan, e: PlanError) {
    match e
    case NoLayers => plan.layers == []
    case InLayer(i, d) => i < |plan.layers| && LayerHas(plan, i, d)
    case ZeroEmbedding => plan.embeddingTensorId == 0
    case ZeroFinalNorm => plan.finalNormTensorId == 0
    case ZeroVocab => plan.epilogueVocabSize == 0
  }

  /** The defects a layer is checked for, in order. */
  const CHECKS: seq<LayerDefect> := [
    WrongIndex, WrongHiddenSize, ZeroQProj, ZeroKProj, ZeroOProj, ZeroGateProj, ZeroUpProj, ZeroDownProj,
    ZeroInputLayernorm, ZeroPostAttentionLayernorm, ZeroVProj, MissingGlobalHeadDim, UnknownKind, WrongSegment]

  function CheckNumber(d: LayerDefect): (k: nat)
    ensures k < |CHECKS| && CHECKS[k] == d
  {
    match d
    case WrongIndex => 0
    case WrongHiddenSize => 1
    case ZeroQProj => 2
    case ZeroKProj => 3
    case ZeroOProj => 4
    case ZeroGateProj => 5
    case ZeroUpProj => 6
    case ZeroDownProj => 7
    case ZeroInputLayernorm => 8
    case ZeroPostAttentionLayernorm => 9
    case ZeroVProj => 10
    case MissingGlobalHeadDim => 11
    case UnknownKind => 12
    case WrongSegment => 13
  }

  /** The errors of one layer among the first `n` checks. */
  function FirstErrors(plan: ModelExecutionPlan, i: nat, n: nat): (errors: seq<PlanError>)
    requires i < |plan.layers| && n <= |CHECKS|
    ensures forall e :: e in errors <==>
      e.InLayer? && e.layer == i && CheckNumber(e.defect) < n && LayerHas(plan, i, e.defect)
    ensures forall j, k :: 0 <= j < k < |errors| ==>
      errors[j] in errors && errors[k] in errors && CheckNumber(errors[j].defect) < CheckNumber(errors[k].defect)
  {
    if n == 0 then []
    else
      var d := CHECKS[n - 1];
      assert CheckNumber(d) == n - 1;
      FirstErrors(plan, i, n - 1) + (if LayerHas(plan, i, d) then [InLayer(i, d)] else [])
  }

  /** The errors of one layer, in the order they are checked. */
  function LayerErrors(plan: ModelExecutionPlan, i: nat): (errors: seq<PlanError>)
    requires i < |plan.layers|
    ensures forall e :: e in errors <==> e.InLayer? && e.layer == i && LayerHas(plan, i, e.defect)
    ensures forall j, k :: 0 <= j < k < |errors| ==>
      errors[j] in errors && errors[k] in errors && CheckNumber(errors[j].defect) < CheckNumber(errors[k].defect)
  {
    FirstErrors(plan, i, |CHECKS|)
  }

  /** The place of an error in the report on a plan with `n` layers: layer by layer, each in the order of
      the checks, and the plan's own ids last. */
  function Place(e: PlanError, n: nat): (k: nat) {
    match e
    case NoLayers => 0
    case InLayer(i, d) => 1 + 14 * i + CheckNumber(d)
    case ZeroEmbedding => 1 + 14 * n
    case ZeroFinalNorm => 2 + 14 * n
    case ZeroVocab => 3 + 14 * n
  }

  ghost predicate InOrder(errors: seq<PlanError>, n: nat) {
    forall j, k :: 0 <= j < k < |errors| ==> Place(errors[j], n) < Place(errors[k], n)
  }

  ghost predicate Below(errors: seq<PlanError>, n: nat, bound: nat) {
    forall j :: 0 <= j < |errors| ==> Place(errors[j], n) < bound
  }

  lemma OrderedAppend(xs: seq<PlanError>, ys: seq<PlanError>, n: nat, bound: nat, next: nat)
    requires InOrder(xs, n) && InOrder(ys, n) && Below(xs, n, bound) && Below(ys, n, next) && bound <= next
    requires forall j :: 0 <= j < |ys| ==> bound <= Place(ys[j], n)
    ensures InOrder(xs + ys, n) && Below(xs + ys, n, next)
  {
  }

  lemma LayerErrorsOrdered(plan: ModelExecutionPlan, i: nat)
    requires i < |plan.layers|
    ensures
      var errors, n := LayerErrors(plan, i), |plan.layers|;
      && InOrder(errors, n) && Below(errors, n, 1 + 14 * (i + 1))
      && forall j :: 0 <= j < |errors| ==> 1 + 14 * i <= Place(errors[j], n)
  {
    var errors := LayerErrors(plan, i);
    forall j | 0 <= j < |errors| ensures errors[j].InLayer? && errors[j].layer == i {
      assert errors[j] in errors;
    }
  }

  lemma AppendLast(errors: seq<PlanError>, e: PlanError, n: nat, bound: nat)
    requires InOrder(errors, n) && Below(errors, n, bound) && bound <= Place(e, n)
    ensures InOrder(errors + [e], n) && Below(errors + [e], n, Place(e, n) + 1)
  {
  }

  /** The checks of the layers, one after another. */
  method CheckLayers(plan: ModelExecutionPlan) returns (errors: seq<PlanError>)
    ensures forall e :: e in errors <==> (e.NoLayers? || e.InLayer?) && Defective(plan, e)
    ensures InOrder(errors, |plan.layers|) && Below(errors, |plan.layers|, 1 + 14 * |plan.layers|)
  {
    ghost var n := |plan.layers|;
    errors := [];
    if plan.layers == [] {
      errors := errors + [NoLayers];
    }
    for i := 0 to |plan.layers|
      invariant forall e :: e in errors <==>
        || (e.NoLayers? && plan.layers == [])
        || (e.InLayer? && e.layer < i && LayerHas(plan, e.layer, e.defect))
      invariant InOrder(errors, n) && Below(errors, n, 1 + 14 * i)
    {
      LayerErrorsOrdered(plan, i);
      OrderedAppend(errors, LayerErrors(plan, i), n, 1 + 14 * i, 1 + 14 * (i + 1));
      errors := errors + LayerErrors(plan, i);
    }
  }

  /** Validation reports exactly the plan's defects, each once and in this order, and accepts a plan iff
      it has none. */
  method Validate(plan: ModelExecutionPlan) returns (r: Result<(), seq<PlanError>>)
    ensures r.Ok? <==> forall e :: !Defective(plan, e)
    ensures r.Err? ==> forall e :: e in r.error <==> Defective(plan, e)
    ensures r.Err? ==> InOrder(r.error, |plan.layers|)
  {
    ghost var n := |plan.layers|;
    var errors := CheckLayers(plan);
    if plan.embeddingTensorId == 0 {
      AppendLast(errors, ZeroEmbedding, n, 1 + 14 * n);
      errors := errors + [ZeroEmbedding];
    }
    if plan.finalNormTensorId == 0 {
      AppendLast(errors, ZeroFinalNorm, n, 2 + 14 * n);
      errors := errors + [ZeroFinalNorm];
    }
    if plan.epilogueVocabSize == 0 {
      AppendLast(errors, ZeroVocab, n, 3 + 14 * n);
      errors := errors + [ZeroVocab];
    }
    assert forall e :: e in errors <==> Defective(plan, e);
    if errors == [] {
      r := Ok(());
    } else {
      assert errors[0] in errors;
      r := Err(errors);
    }
  }

  /** What a valid plan is, field by field. */
  lemma ValidIff(plan: ModelExecutionPlan)
    ensures (forall e :: !Defective(plan, e)) <==>
      && plan.layers != [] && plan.embeddingTensorId != 0 && plan.finalNormTensorId != 0 && plan.epilogueVocabSize != 0
      && forall i :: 0 <= i < |plan.layers| ==> ValidLayer(plan, i)
  {
    if i :| 0 <= i < |plan.layers| && !ValidLayer(plan, i) {
      var d := DefectOf(plan, i);
      assert Defective(plan, InLayer(i, d));
    }
    forall i, d | 0 <= i < |plan.layers| && LayerHas(plan, i, d) ensures !ValidLayer(plan, i) {
      DefectInvalidates(plan, i, d);
    }
    assert Defective(plan, NoLayers) <==> plan.layers == [];
    assert Defective(plan, ZeroEmbedding) <==> plan.embeddingTensorId == 0;
    assert Defective(plan, ZeroFinalNorm) <==> plan.finalNormTensorId == 0;
    assert Defective(plan, ZeroVocab) <==> plan.epilogueVocabSize == 0;
  }

  ghost predicate ValidLayer(plan: ModelExecutionPlan, i: nat)
    requires i < |plan.layers|
  {
    var l := plan.layers[i];
    && l.layerIndex == i && l.segment == LayerSegment(i) && l.hiddenSize == plan.hiddenSize
    && l.qProj > 0 && l.kProj > 0 && l.oProj > 0 && l.gateProj > 0 && l.upProj > 0 && l.downProj > 0
    && l.inputLayernorm > 0 && l.postAttentionLayernorm > 0
    && match l.kind
       case SlidingPlan => l.vProj > 0
       case FullPlan => l.globalHeadDim.Some?
       case OtherPlan(_) => false
  }

  lemma DefectInvalidates(plan: ModelExecutionPlan, i: nat, d: LayerDefect)
    requires i < |plan.layers| && LayerHas(plan, i, d)
    ensures !ValidLayer(plan, i)
  {
  }

  lemma DefectOf(plan: ModelExecutionPlan, i: nat) returns (d: LayerDefect)
    requires i < |plan.layers| && !ValidLayer(plan, i)
    ensures LayerHas(plan, i, d)
  {
    var l := plan.layers[i];
    d :=
      if l.layerIndex != i then WrongIndex
      else if l.segment != LayerSegment(i) then WrongSegment
      else if l.hiddenSize != plan.hiddenSize then WrongHiddenSize
      else if l.qProj == 0 then ZeroQProj
      else if l.kProj == 0 then ZeroKProj
      else if l.oProj == 0 then ZeroOProj
      else if l.gateProj == 0 then ZeroGateProj
      else if l.upProj == 0 then ZeroUpProj
      else if l.downProj == 0 then ZeroDownProj
      else if l.inputLayernorm == 0 then ZeroInputLayernorm
      else if l.postAttentionLayernorm == 0 then ZeroPostAttentionLayernorm
      else if l.kind.SlidingPlan? then ZeroVProj
      else if l.kind.FullPlan? then MissingGlobalHeadDim
      else UnknownKind;
  }

  /** The layer with one defect repaired. */
  function Repaired(plan: ModelExecutionPlan, i: nat, d: LayerDefect): (l: LayerPlan)
    requires i < |plan.layers|
  {
    var l := plan.layers[i];
    match d
    case WrongIndex => l.(layerIndex := i)
    case WrongHiddenSize => l.(hiddenSize := plan.hiddenSize)
    case ZeroQProj => l.(qProj := 1)
    case ZeroKProj => l.(kProj := 1)
    case ZeroOProj => l.(oProj := 1)
    case ZeroGateProj => l.(gateProj := 1)
    case ZeroUpProj => l.(upProj := 1)
    case ZeroDownProj => l.(downProj := 1)
    case ZeroInputLayernorm => l.(inputLayernorm := 1)
    case ZeroPostAttentionLayernorm => l.(postAttentionLayernorm := 1)
    case ZeroVProj => l.(vProj := 1)
    case MissingGlobalHeadDim => l.(globalHeadDim := Some(1))
    case UnknownKind => l.(kind := FullPlan, globalHeadDim := Some(1))
    case WrongSegment => l.(segment := LayerSegment(i))
  }

  /** A reported defect names what is wrong: repairing that removes it and no other. */
  lemma RepairRemovesOne(plan: ModelExecutionPlan, i: nat, d: LayerDefect, e: LayerDefect)
    requires i < |plan.layers| && LayerHas(plan, i, d)
    ensures
      var plan' := plan.(layers := plan.layers[i := Repaired(plan, i, d)]);
      LayerHas(plan', i, e) <==> e != d && LayerHas(plan, i, e)
  {
  }

  // ── The two traversals meet the validator ──────────────────────────────────

  lemma {:induction false} LayerBindingsContain(layers: seq<LayerSpec>, i: nat, b: TensorBinding)
    requires i < |layers| && b in layers[i].tensors
    ensures b in LayerBindings(layers)
  {
    if i < |layers| - 1 {
      LayerBindingsContain(layers[..|layers| - 1], i, b);
    }
  }

  ghost predicate DistinctNames(bs: seq<TensorBinding>) {
    forall j, k :: 0 <= j < k < |bs| ==> bs[j].name != bs[k].name
  }

  lemma ConcatDistinct(xs: seq<TensorBinding>, ys: seq<TensorBinding>)
    requires DistinctNames(xs) && DistinctNames(ys)
    requires forall x, y :: x in xs && y in ys ==> x.name != y.name
    ensures DistinctNames(xs + ys)
  {
    var zs := xs + ys;
    forall j, k | 0 <= j < k < |zs| ensures zs[j].name != zs[k].name {
      assert j < |xs| ==> zs[j] in xs;
      assert k >= |xs| ==> zs[k] in ys;
    }
  }

  /** No tensor is bound twice within a layer. */
  lemma LayerNamesDistinct(arch: TextArchitecture, root: string, i: nat, kind: AttentionKind, gs: nat, bits: nat)
    requires PackingDefined(bits, gs)
    ensures DistinctNames(LayerTensors(arch, root, i, kind, gs, bits))
  {
  }

  /** Global names are global, layer names belong to their own layer, and neither repeats. */
  ghost predicate WellNamed(spec: ExecutionSpec) {
    && DistinctNames(spec.globals)
    && (forall i :: 0 <= i < |spec.globals| ==> spec.globals[i].name.GlobalTensor?)
    && forall i :: 0 <= i < |spec.layers| ==>
         && DistinctNames(spec.layers[i].tensors)
         && forall b :: b in spec.layers[i].tensors ==> b.name.LayerTensor? && b.name.layer == i
  }

  lemma SpecIsWellNamed(arch: TextArchitecture, root: string, q: Option<QuantizationMeta>, spec: ExecutionSpec)
    requires IsSpec(arch, root, q, spec)
    ensures WellNamed(spec)
  {
    forall i | 0 <= i < |spec.layers| ensures DistinctNames(spec.layers[i].tensors) {
      LayerNamesDistinct(arch, root, i, arch.layerTypes[i], GroupSize(q), Bits(q));
    }
  }

  lemma {:induction false} LayerBindingsNamed(spec: ExecutionSpec, n: nat, b: TensorBinding)
    requires WellNamed(spec) && n <= |spec.layers| && b in LayerBindings(spec.layers[..n])
    ensures b.name.LayerTensor? && b.name.layer < n
  {
    assert spec.layers[..n][..n - 1] == spec.layers[..n - 1];
    if b in LayerBindings(spec.layers[..n - 1]) {
      LayerBindingsNamed(spec, n - 1, b);
    }
  }

  /** No tensor is bound twice in a spec. */
  lemma {:induction false} SpecNamesDistinct(spec: ExecutionSpec, n: nat)
    requires WellNamed(spec) && n <= |spec.layers|
    ensures DistinctNames(spec.globals + LayerBindings(spec.layers[..n]))
  {
    if n == 0 {
      assert spec.globals + LayerBindings(spec.layers[..0]) == spec.globals;
    } else {
      SpecNamesDistinct(spec, n - 1);
      var before, ts := spec.globals + LayerBindings(spec.layers[..n - 1]), spec.layers[n - 1].tensors;
      forall x, y | x in before && y in ts ensures x.name != y.name {
        if x in LayerBindings(spec.layers[..n - 1]) {
          LayerBindingsNamed(spec, n - 1, x);
        }
      }
      ConcatDistinct(before, ts);
      assert spec.layers[..n][..n - 1] == spec.layers[..n - 1];
      assert spec.globals + LayerBindings(spec.layers[..n]) == before + ts;
    }
  }

  /** With distinct names every binding keeps the id it was emitted with. */
  lemma {:induction false} EmittedIdAt(bs: seq<TensorBinding>, i: nat)
    requires i < |bs| && DistinctNames(bs)
    ensures bs[i].name in EmittedIds(bs) && EmittedIds(bs)[bs[i].name] == WeightId(IdsUsed(bs[..i]), bs[i])
  {
    var last := |bs| - 1;
    if i < last {
      EmittedIdAt(bs[..last], i);
      assert bs[..last][..i] == bs[..i];
    }
  }

  /** The weight of an item that layer `i` has is bound, emitted, and gets a nonzero id. */
  lemma LayerItemEmitted(
    arch: TextArchitecture, root: string, q: Option<QuantizationMeta>, spec: ExecutionSpec, i: nat, item: LayerItem)
    requires IsSpec(arch, root, q, spec) && i < |arch.layerTypes|
    requires item.VProj? ==> arch.layerTypes[i].SlidingAttention?
    ensures
      var ids := EmittedIds(AllBindings(spec));
      var name := LayerTensor(root, i, item, Weight);
      name in ids && ids[name] != 0
  {
    var b := LayerItemBound(arch, root, i, GroupSize(q), Bits(q), item);
    LayerBindingsContain(spec.layers, i, b);
    var bs := AllBindings(spec);
    assert b in bs;
    EmittedIdsFacts(bs);
    assert bs[0] == spec.globals[0];
  }

  lemma LayerItemBound(arch: TextArchitecture, root: string, i: nat, gs: nat, bits: nat, item: LayerItem)
    returns (b: TensorBinding)
    requires i < |arch.layerTypes| && PackingDefined(bits, gs)
    requires item.VProj? ==> arch.layerTypes[i].SlidingAttention?
    ensures b in LayerTensors(arch, root, i, arch.layerTypes[i], gs, bits)
    ensures b.name == LayerTensor(root, i, item, Weight)
  {
    var ts := LayerTensors(arch, root, i, arch.layerTypes[i], gs, bits);
    var sliding := arch.layerTypes[i].SlidingAttention?;
    var tail := if sliding then 7 else 6;
    var k :=
      match item
      case InputLayernorm => 0
      case PostAttentionLayernorm => 1
      case QNorm => 2
      case KNorm => 3
      case QProj => 4
      case KProj => 5
      case VProj => 6
      case OProj => tail
      case GateProj => tail + 1
      case UpProj => tail + 2
      case DownProj => tail + 3;
    b := ts[k];
  }

  /** The embedding's id is zero exactly when it is not quantized; the final norm's never is. */
  lemma GlobalIds(arch: TextArchitecture, root: string, q: Option<QuantizationMeta>, spec: ExecutionSpec)
    requires IsSpec(arch, root, q, spec)
    ensures
      var ids := EmittedIds(AllBindings(spec));
      var embed, norm := GlobalTensor(root, EmbedTokens, Weight), GlobalTensor(root, FinalNorm, Weight);
      && embed in ids && (ids[embed] == 0 <==> q.None?)
      && norm in ids && ids[norm] != 0
  {
    var bs := AllBindings(spec);
    EmittedIdsFacts(bs);
    assert bs[0] == spec.globals[0] && bs[1] == spec.globals[1];
    SpecIsWellNamed(arch, root, q, spec);
    SpecNamesDistinct(spec, |spec.layers|);
    assert spec.layers[..|spec.layers|] == spec.layers;
  }

  /** For every architecture and checkpoint that emits successfully, the plan built from the
      emitted ids passes validation exactly when the checkpoint is quantized, has layers and a
      vocabulary, and sets the global head dimension if it has a full-attention layer. */
  lemma EmittedPlanValidatesIff(
    arch: TextArchitecture, namespace: NamespaceBinding, q: Option<QuantizationMeta>,
    spec: ExecutionSpec, plan: ModelExecutionPlan)
    requires IsSpec(arch, namespace.root, q, spec)
    requires IsPlanFor(arch, namespace, EmittedIds(AllBindings(spec)), plan)
    ensures (forall e :: !Defective(plan, e)) <==>
      && q.Some?
      && arch.layerTypes != []
      && arch.vocabSize != 0
      && (FullAttention in arch.layerTypes ==> arch.globalHeadDim.Some?)
  {
    GlobalIds(arch, namespace.root, q, spec);
    forall i, d | 0 <= i < |plan.layers|
      ensures LayerHas(plan, i, d) <==>
        d.MissingGlobalHeadDim? && arch.layerTypes[i].FullAttention? && arch.globalHeadDim.None?
    {
      EmittedLayerDefects(arch, namespace, q, spec, plan, i, d);
    }
    assert Defective(plan, ZeroEmbedding) <==> q.None?;
    assert Defective(plan, NoLayers) <==> arch.layerTypes == [];
    assert Defective(plan, ZeroVocab) <==> arch.vocabSize == 0;
    if FullAttention in arch.layerTypes && arch.globalHeadDim.None? {
      var i :| 0 <= i < |arch.layerTypes| && arch.layerTypes[i].FullAttention?;
      assert Defective(plan, InLayer(i, MissingGlobalHeadDim));
    }
  }

  lemma EmittedLayerDefects(
    arch: TextArchitecture, namespace: NamespaceBinding, q: Option<QuantizationMeta>,
    spec: ExecutionSpec, plan: ModelExecutionPlan, i: nat, d: LayerDefect)
    requires IsSpec(arch, namespace.root, q, spec) && i < |plan.layers|
    requires IsPlanFor(arch, namespace, EmittedIds(AllBindings(spec)), plan)
    ensures LayerHas(plan, i, d) <==>
      d.MissingGlobalHeadDim? && arch.layerTypes[i].FullAttention? && arch.globalHeadDim.None?
  {
    var root := namespace.root;
    match d
    case ZeroQProj => LayerItemEmitted(arch, root, q, spec, i, QProj);
    case ZeroKProj => LayerItemEmitted(arch, root, q, spec, i, KProj);
    case ZeroOProj => LayerItemEmitted(arch, root, q, spec, i, OProj);
    case ZeroGateProj => LayerItemEmitted(arch, root, q, spec, i, GateProj);
    case ZeroUpProj => LayerItemEmitted(arch, root, q, spec, i, UpProj);
    case ZeroDownProj => LayerItemEmitted(arch, root, q, spec, i, DownProj);
    case ZeroInputLayernorm => LayerItemEmitted(arch, root, q, spec, i, InputLayernorm);
    case ZeroPostAttentionLayernorm => LayerItemEmitted(arch, root, q, spec, i, PostAttentionLayernorm);
    case ZeroVProj =>
      if arch.layerTypes[i].SlidingAttention? {
        LayerItemEmitted(arch, root, q, spec, i, VProj);
      }
    case _ =>
  }

  // ── Key/value widths ───────────────────────────────────────────────────────

  /** Heads and head dimension the runtime gives a layer's KV cache. */
  function CacheHeads(l: LayerPlan): (n: nat) {
    if l.kind.SlidingPlan? then l.nKvHeads else OrElse(l.nGlobalKvHeads, 1)
  }

  function CacheHeadDim(l: LayerPlan): (n: nat) {
    if l.kind.SlidingPlan? then l.headDim else OrElse(l.globalHeadDim, l.headDim)
  }

  /** The KV-cache row width chosen at runtime is the spec's key/value width and the number of
      rows of the key projection, for every architecture and layer. The plan's own head counts
      give that width except on full layers without a global head count, when there is not
      exactly one key/value head. */
  lemma KvWidthAgrees(
    arch: TextArchitecture, namespace: NamespaceBinding, q: Option<QuantizationMeta>,
    spec: ExecutionSpec, ids: map<TensorName, nat>, plan: ModelExecutionPlan, i: nat)
    requires IsSpec(arch, namespace.root, q, spec) && IsPlanFor(arch, namespace, ids, plan)
    requires i < |arch.layerTypes|
    ensures
      var l, s := plan.layers[i], spec.layers[i];
      && CacheHeads(l) * CacheHeadDim(l) == s.kvOut
      && s.tensors[5].name == LayerTensor(namespace.root, i, KProj, Weight)
      && s.tensors[5].logicalShape == [s.kvOut, arch.hiddenSize]
      && (l.nKvHeads * l.headDim != s.kvOut <==>
            && arch.layerTypes[i].FullAttention?
            && arch.numGlobalKeyValueHeads.None?
            && arch.numKeyValueHeads != 1
            && FullHeadDim(arch) != 0)
  {
    var l, s := plan.layers[i], spec.layers[i];
    if arch.layerTypes[i].FullAttention? {
      var d, k := FullHeadDim(arch), arch.numKeyValueHeads;
      assert l.headDim == d;
      assert d != 0 ==> (k * d == 1 * d <==> k == 1);
    }
  }
}

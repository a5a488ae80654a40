/** What the spec compiler and the plan builder make of an architecture, stated in terms of the
    architecture alone: which tensors are bound, their roles and shapes, and how the two agree. */
module SpecMeaning {
  import opened Common
  import opened Config

  // ── The architecture's own dimensions ──────────────────────────────────────

  /** Width of one attention head: a full layer uses the global head dimension if there is one. */
  function HeadWidth(arch: TextArchitecture, kind: AttentionKind): (d: nat) {
    match (kind, arch.globalHeadDim)
    case (FullAttention, Some(global)) => global
    case _ => arch.headDim
  }

  /** Key/value heads: a full layer without a global head count has one. */
  function KeyValueHeads(arch: TextArchitecture, kind: AttentionKind): (n: nat) {
    match (kind, arch.numGlobalKeyValueHeads)
    case (SlidingAttention, _) => arch.numKeyValueHeads
    case (FullAttention, Some(global)) => global
    case (FullAttention, None) => 1
  }

  ghost predicate RopeIs(arch: TextArchitecture, kind: AttentionKind, rope: RopeSpec) {
    match (kind, arch.ropeGlobal)
    case (FullAttention, Some(global)) => rope == global
    case _ => rope == arch.ropeLocal
  }

  /** Width and group size of packed projections. */
  ghost predicate PackedAs(q: Option<QuantizationMeta>, bits: nat, groupSize: nat) {
    match q
    case Some(meta) => bits == meta.bits && groupSize == meta.groupSize
    case None => bits == 16 && groupSize == 64
  }

  // ── One binding ────────────────────────────────────────────────────────────

  /** Rows of `inDim` values packed into 32-bit words and groups; what does not fill one is dropped. */
  ghost predicate PacksRows(p: PackedLinearShapes, outDim: nat, inDim: nat, q: Option<QuantizationMeta>) {
    && PackedAs(q, p.bits, p.groupSize)
    && |p.weight| == |p.scales| == 2 && p.biases == p.scales
    && p.weight[0] == p.scales[0] == outDim && p.scales[1] == p.groups
    && p.groups * p.groupSize <= inDim < p.groups * p.groupSize + p.groupSize
    && match p.bits / 8
       case 1 => 4 * p.weight[1] <= inDim < 4 * p.weight[1] + 4
       case 2 => 2 * p.weight[1] <= inDim < 2 * p.weight[1] + 2
       case _ => p.weight[1] == inDim
  }

  ghost predicate IsNorm(b: TensorBinding, role: TensorRole, dim: nat) {
    b.role == role && b.logicalShape == [dim] && b.packed.None?
  }

  ghost predicate IsLinear(
    b: TensorBinding, role: TensorRole, outDim: nat, inDim: nat, q: Option<QuantizationMeta>)
  {
    && b.role == role && b.logicalShape == [outDim, inDim]
    && b.packed.Some? && PacksRows(b.packed.value, outDim, inDim, q)
  }

  /** A global binding has its item's role and shape; only the embedding is packed, if at all. */
  ghost predicate IsGlobal(
    arch: TextArchitecture, root: string, q: Option<QuantizationMeta>, item: GlobalItem, b: TensorBinding)
  {
    && b.name == GlobalTensor(root, item, Weight)
    && match item
       case EmbedTokens =>
         && b.role == EmbeddingRole && b.logicalShape == [arch.vocabSize, arch.hiddenSize]
         && (b.packed.Some? <==> q.Some?)
         && (q.Some? ==> PacksRows(b.packed.value, arch.vocabSize, arch.hiddenSize, q))
       case FinalNorm => IsNorm(b, FinalNormRole, arch.hiddenSize)
       case LmHead =>
         b.role == LmHeadRole && b.logicalShape == [arch.vocabSize, arch.hiddenSize] && b.packed.None?
  }

  /** So has a binding of a layer. */
  ghost predicate IsLayerItem(
    arch: TextArchitecture, root: string, q: Option<QuantizationMeta>, i: nat, item: LayerItem, b: TensorBinding)
    requires i < |arch.layerTypes|
  {
    var kind := arch.layerTypes[i];
    var hidden, mlp := arch.hiddenSize, arch.intermediateSize;
    var queries := arch.numAttentionHeads * HeadWidth(arch, kind);
    var keys := KeyValueHeads(arch, kind) * HeadWidth(arch, kind);
    && b.name == LayerTensor(root, i, item, Weight)
    && match item
       case InputLayernorm => IsNorm(b, AttentionNormRole, hidden)
       case PostAttentionLayernorm => IsNorm(b, FfnNormRole, hidden)
       case QNorm => IsNorm(b, QNormRole, HeadWidth(arch, kind))
       case KNorm => IsNorm(b, KNormRole, HeadWidth(arch, kind))
       case QProj => IsLinear(b, QProjRole, queries, hidden, q)
       case KProj => IsLinear(b, KProjRole, keys, hidden, q)
       case VProj => IsLinear(b, VProjRole, keys, hidden, q)
       case OProj => IsLinear(b, OProjRole, hidden, queries, q)
       case GateProj => IsLinear(b, GateProjRole, mlp, hidden, q)
       case UpProj => IsLinear(b, UpProjRole, mlp, hidden, q)
       case DownProj => IsLinear(b, DownProjRole, hidden, mlp, q)
  }

  lemma PackedShapesPack(outDim: nat, inDim: nat, q: Option<QuantizationMeta>)
    requires PackingDefined(Bits(q), GroupSize(q))
    ensures PacksRows(PackedShapes(outDim, inDim, GroupSize(q), Bits(q)), outDim, inDim, q)
  {
    WholeParts(inDim, GroupSize(q));
    WordsHold(inDim, Bits(q));
  }

  lemma WholeParts(n: nat, d: nat)
    requires d > 0
    ensures n / d * d <= n < n / d * d + d
  {
    DivisionBounds(n, d);
  }

  lemma WordsHold(inDim: nat, bits: nat)
    requires 1 <= bits / 8 <= 4
    ensures
      var words := inDim / ValuesPerWord(bits);
      match bits / 8
      case 1 => 4 * words <= inDim < 4 * words + 4
      case 2 => 2 * words <= inDim < 2 * words + 2
      case _ => words == inDim
  {
  }

  /** The packing is possible exactly for these widths, with a group size. */
  lemma PackingPossibleIff(bits: nat, groupSize: nat)
    ensures PackingDefined(bits, groupSize) <==> 8 <= bits < 40 && groupSize > 0
  {
  }

  // ── Which tensors are bound ────────────────────────────────────────────────

  /** The head is bound of its own exactly if embeddings are not tied. */
  predicate HasGlobal(arch: TextArchitecture, item: GlobalItem) { item.LmHead? ==> !arch.tieWordEmbeddings }

  /** A full-attention layer has no value projection. */
  predicate HasItem(arch: TextArchitecture, i: nat, item: LayerItem)
    requires i < |arch.layerTypes|
  {
    item.VProj? ==> arch.layerTypes[i].SlidingAttention?
  }

  /** For every spec: exactly the globals the architecture has are bound, each as it should be. */
  lemma GlobalsBound(arch: TextArchitecture, root: string, q: Option<QuantizationMeta>, spec: ExecutionSpec)
    requires IsSpec(arch, root, q, spec)
    ensures forall item :: HasGlobal(arch, item) <==>
      exists b :: b in spec.globals && IsGlobal(arch, root, q, item, b)
    ensures forall b :: b in spec.globals ==>
      b.name.GlobalTensor? && HasGlobal(arch, b.name.global) && IsGlobal(arch, root, q, b.name.global, b)
  {
    if q.Some? {
      PackedShapesPack(arch.vocabSize, arch.hiddenSize, q);
    }
    var bs := spec.globals;
    assert IsGlobal(arch, root, q, EmbedTokens, bs[0]) && IsGlobal(arch, root, q, FinalNorm, bs[1]);
    assert |bs| == if arch.tieWordEmbeddings then 2 else 3;
    if !arch.tieWordEmbeddings {
      assert IsGlobal(arch, root, q, LmHead, bs[2]);
    }
    forall item | HasGlobal(arch, item) ensures exists b :: b in bs && IsGlobal(arch, root, q, item, b) {
      var k := match item case EmbedTokens => 0 case FinalNorm => 1 case LmHead => 2;
      assert bs[k] in bs && IsGlobal(arch, root, q, item, bs[k]);
    }
  }

  lemma LinearPacks(
    root: string, i: nat, item: LayerItem, role: TensorRole, outDim: nat, inDim: nat, q: Option<QuantizationMeta>)
    requires PackingDefined(Bits(q), GroupSize(q))
    ensures
      var b := QuantizedLinear(root, i, item, role, outDim, inDim, GroupSize(q), Bits(q));
      b.name == LayerTensor(root, i, item, Weight) && IsLinear(b, role, outDim, inDim, q)
  {
    PackedShapesPack(outDim, inDim, q);
  }

  lemma WidthsAre(arch: TextArchitecture, kind: AttentionKind)
    ensures QOut(arch, kind) == arch.numAttentionHeads * HeadWidth(arch, kind)
    ensures KvOut(arch, kind) == KeyValueHeads(arch, kind) * HeadWidth(arch, kind)
    ensures FullHeadDim(arch) == HeadWidth(arch, FullAttention) && arch.headDim == HeadWidth(arch, SlidingAttention)
    ensures RopeIs(arch, kind, RopeFor(arch, kind))
  {
  }

  /** What a layer binds for an item. */
  lemma ItemAt(
    arch: TextArchitecture, root: string, i: nat, gs: nat, bits: nat, item: LayerItem) returns (b: TensorBinding)
    requires i < |arch.layerTypes| && PackingDefined(bits, gs) && HasItem(arch, i, item)
    ensures b in LayerTensors(arch, root, i, arch.layerTypes[i], gs, bits)
    ensures
      var kind, hidden, mlp := arch.layerTypes[i], arch.hiddenSize, arch.intermediateSize;
      match item
      case QProj => b == QuantizedLinear(root, i, item, QProjRole, QOut(arch, kind), hidden, gs, bits)
      case KProj => b == QuantizedLinear(root, i, item, KProjRole, KvOut(arch, kind), hidden, gs, bits)
      case VProj => b == QuantizedLinear(root, i, item, VProjRole, KvOut(arch, kind), hidden, gs, bits)
      case OProj => b == QuantizedLinear(root, i, item, OProjRole, hidden, QOut(arch, kind), gs, bits)
      case GateProj => b == QuantizedLinear(root, i, item, GateProjRole, mlp, hidden, gs, bits)
      case UpProj => b == QuantizedLinear(root, i, item, UpProjRole, mlp, hidden, gs, bits)
      case DownProj => b == QuantizedLinear(root, i, item, DownProjRole, hidden, mlp, gs, bits)
      case _ => b.name == LayerTensor(root, i, item, Weight) && IsLayerNorm(arch, kind, item, b)
  {
    var ts := LayerTensors(arch, root, i, arch.layerTypes[i], gs, bits);
    var tail := if arch.layerTypes[i].SlidingAttention? then 7 else 6;
    WidthsAre(arch, arch.layerTypes[i]);
    var k :=
      match item
      case InputLayernorm => 0
      case PostAttentionLayernorm => 1
      case QNorm => 2
      case KNorm => 3
      case QProj => 4
      case KProj => 5
      case VProj => 6
      case OProj => tail
      case GateProj => tail + 1
      case UpProj => tail + 2
      case DownProj => tail + 3;
    b := ts[k];
  }

  ghost predicate IsLayerNorm(arch: TextArchitecture, kind: AttentionKind, item: LayerItem, b: TensorBinding) {
    match item
    case InputLayernorm => IsNorm(b, AttentionNormRole, arch.hiddenSize)
    case PostAttentionLayernorm => IsNorm(b, FfnNormRole, arch.hiddenSize)
    case QNorm => IsNorm(b, QNormRole, HeadWidth(arch, kind))
    case KNorm => IsNorm(b, KNormRole, HeadWidth(arch, kind))
    case _ => false
  }

  /** The binding of an item that the layer has is as it should be. */
  lemma ItemBound(
    arch: TextArchitecture, root: string, q: Option<QuantizationMeta>, i: nat, item: LayerItem)
    returns (b: TensorBinding)
    requires i < |arch.layerTypes| && PackingDefined(Bits(q), GroupSize(q)) && HasItem(arch, i, item)
    ensures b in LayerTensors(arch, root, i, arch.layerTypes[i], GroupSize(q), Bits(q))
    ensures IsLayerItem(arch, root, q, i, item, b)
  {
    var kind, hidden, mlp := arch.layerTypes[i], arch.hiddenSize, arch.intermediateSize;
    b := ItemAt(arch, root, i, GroupSize(q), Bits(q), item);
    WidthsAre(arch, kind);
    match item
    case QProj => LinearPacks(root, i, item, QProjRole, QOut(arch, kind), hidden, q);
    case KProj => LinearPacks(root, i, item, KProjRole, KvOut(arch, kind), hidden, q);
    case VProj => LinearPacks(root, i, item, VProjRole, KvOut(arch, kind), hidden, q);
    case OProj => LinearPacks(root, i, item, OProjRole, hidden, QOut(arch, kind), q);
    case GateProj => LinearPacks(root, i, item, GateProjRole, mlp, hidden, q);
    case UpProj => LinearPacks(root, i, item, UpProjRole, mlp, hidden, q);
    case DownProj => LinearPacks(root, i, item, DownProjRole, hidden, mlp, q);
    case _ =>
  }

  lemma LayerNamesAre(arch: TextArchitecture, root: string, i: nat, gs: nat, bits: nat, b: TensorBinding)
    requires i < |arch.layerTypes| && PackingDefined(bits, gs)
    requires b in LayerTensors(arch, root, i, arch.layerTypes[i], gs, bits)
    ensures b.name.LayerTensor? && b.name == LayerTensor(root, i, b.name.item, Weight) && HasItem(arch, i, b.name.item)
  {
  }

  lemma SameNameSameBinding(bs: seq<TensorBinding>, b: TensorBinding, c: TensorBinding)
    requires DistinctNames(bs) && b in bs && c in bs && b.name == c.name
    ensures b == c
  {
  }

  /** For every spec: exactly the items a layer has are bound, each as it should be. */
  lemma LayerItemsBound(arch: TextArchitecture, root: string, q: Option<QuantizationMeta>, spec: ExecutionSpec, i: nat)
    requires IsSpec(arch, root, q, spec) && i < |arch.layerTypes|
    ensures forall item :: HasItem(arch, i, item) <==>
      exists b :: b in spec.layers[i].tensors && IsLayerItem(arch, root, q, i, item, b)
    ensures forall b :: b in spec.layers[i].tensors ==>
      && b.name.LayerTensor? && HasItem(arch, i, b.name.item)
      && IsLayerItem(arch, root, q, i, b.name.item, b)
  {
    var ts := spec.layers[i].tensors;
    LayerNamesDistinct(arch, root, i, arch.layerTypes[i], GroupSize(q), Bits(q));
    forall item | HasItem(arch, i, item) ensures exists b :: b in ts && IsLayerItem(arch, root, q, i, item, b) {
      var b := ItemBound(arch, root, q, i, item);
    }
    forall b | b in ts
      ensures b.name.LayerTensor? && HasItem(arch, i, b.name.item) && IsLayerItem(arch, root, q, i, b.name.item, b)
    {
      LayerNamesAre(arch, root, i, GroupSize(q), Bits(q), b);
      var c := ItemBound(arch, root, q, i, b.name.item);
      SameNameSameBinding(ts, b, c);
    }
  }

  // ── The spec and the plan of one layer ─────────────────────────────────────

  /** What a layer's spec says of it. */
  lemma LayerSpecSays(arch: TextArchitecture, root: string, q: Option<QuantizationMeta>, spec: ExecutionSpec, i: nat)
    requires IsSpec(arch, root, q, spec) && i < |arch.layerTypes|
    ensures
      var s, kind := spec.layers[i], arch.layerTypes[i];
      && s.index == i && s.kind == kind && RopeIs(arch, kind, s.rope)
      && s.nHeads == arch.numAttentionHeads && s.nKvHeads == arch.numKeyValueHeads
      && s.headDim == HeadWidth(arch, kind)
      && s.qOut == s.nHeads * s.headDim && s.kvOut == KeyValueHeads(arch, kind) * s.headDim
      && match kind
         case SlidingAttention => s.slidingWindow == Some(arch.slidingWindow) && s.globalKvOut == None
         case FullAttention => s.slidingWindow == None && s.globalKvOut == Some(s.kvOut)
  {
    WidthsAre(arch, arch.layerTypes[i]);
  }

  /** What the plan built from any emitted ids says of it. */
  lemma LayerPlanSays(
    arch: TextArchitecture, namespace: NamespaceBinding, ids: map<TensorName, nat>, plan: ModelExecutionPlan, i: nat)
    requires IsPlanFor(arch, namespace, ids, plan) && i < |arch.layerTypes|
    ensures
      var l, kind := plan.layers[i], arch.layerTypes[i];
      && l.layerIndex == i && l.segment == LayerSegment(i) && l.hiddenSize == arch.hiddenSize
      && l.nHeads == arch.numAttentionHeads && l.headDim == HeadWidth(arch, kind)
      && l.slidingWindow == arch.slidingWindow && RopeIs(arch, kind, l.rope)
      && match kind
         case SlidingAttention =>
           && l.kind == SlidingPlan && !l.kEqV && l.nKvHeads == arch.numKeyValueHeads
           && l.globalHeadDim == None && l.nGlobalKvHeads == None
         case FullAttention =>
           && l.kind == FullPlan && l.kEqV == arch.attentionKEqV
           && l.globalHeadDim == arch.globalHeadDim && l.nGlobalKvHeads == arch.numGlobalKeyValueHeads
           && (arch.numGlobalKeyValueHeads.Some? ==> l.nKvHeads == arch.numGlobalKeyValueHeads.value)
           && (arch.numGlobalKeyValueHeads.None? ==> l.nKvHeads == arch.numKeyValueHeads)
  {
    WidthsAre(arch, arch.layerTypes[i]);
  }

  /** The two traversals agree, and their layer's tensors fit together: queries have the rows that the
      heads need, the output projection takes them back to the hidden size, and the down projection
      takes back what gate and up make. */
  lemma PlanFitsSpec(
    arch: TextArchitecture, namespace: NamespaceBinding, q: Option<QuantizationMeta>, spec: ExecutionSpec,
    ids: map<TensorName, nat>, plan: ModelExecutionPlan, i: nat, b: TensorBinding, c: TensorBinding)
    requires IsSpec(arch, namespace.root, q, spec) && IsPlanFor(arch, namespace, ids, plan)
    requires i < |arch.layerTypes| && b in spec.layers[i].tensors && c in spec.layers[i].tensors
    ensures
      var l, s := plan.layers[i], spec.layers[i];
      && l.layerIndex == s.index && l.rope == s.rope && l.headDim == s.headDim
      && l.nHeads * l.headDim == s.qOut
      && (s.slidingWindow.Some? ==> l.slidingWindow == s.slidingWindow.value)
    ensures
      var l := plan.layers[i];
      && (b.name.item.QProj? ==> b.logicalShape == [l.nHeads * l.headDim, l.hiddenSize])
      && (b.name.item.QProj? && c.name.item.OProj? ==> c.logicalShape == [l.hiddenSize, b.logicalShape[0]])
      && (b.name.item.KProj? && c.name.item.VProj? ==> c.logicalShape == b.logicalShape)
      && (b.name.item.GateProj? && c.name.item.UpProj? ==> c.logicalShape == b.logicalShape)
      && (b.name.item.GateProj? && c.name.item.DownProj? ==> c.logicalShape == [b.logicalShape[1], b.logicalShape[0]])
      && (b.name.item.QNorm? ==> b.logicalShape == [l.headDim])
  {
    LayerSpecSays(arch, namespace.root, q, spec, i);
    LayerPlanSays(arch, namespace, ids, plan, i);
    LayerItemsBound(arch, namespace.root, q, spec, i);
    assert IsLayerItem(arch, namespace.root, q, i, b.name.item, b);
    assert IsLayerItem(arch, namespace.root, q, i, c.name.item, c);
  }
}

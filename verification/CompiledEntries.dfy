/** What the tensor table of a compiled image says of each bound tensor, in terms of the architecture
    and the checkpoint's quantization alone. */
module CompiledEntries {
  import opened Common
  import opened Config
  import opened SpecMeaning
  import opened ImageManifest
  import opened ImageBuilder
  import opened ImageCompiler

  // ── The entry at an emitted id ─────────────────────────────────────────────

  lemma {:induction false} BindingsUptoPrefix(spec: ExecutionSpec, k: nat)
    requires k <= |spec.layers|
    ensures BindingsUpto(spec, k) <= AllBindings(spec)
    decreases |spec.layers| - k
  {
    if k == |spec.layers| {
      assert spec.layers[..k] == spec.layers;
    } else {
      BindingsUptoPrefix(spec, k + 1);
      BindingsExtend(spec, k);
    }
  }

  /** The bindings emitted before segment `k`. */
  function BindingsBefore(spec: ExecutionSpec, k: nat): (bs: seq<TensorBinding>)
    requires k <= |spec.layers|
    ensures IdsUsed(bs) == FirstId(spec, k)
  {
    if k == 0 then [] else BindingsUpto(spec, k - 1)
  }

  lemma BeforePlusOwn(spec: ExecutionSpec, k: nat)
    requires k <= |spec.layers|
    ensures BindingsBefore(spec, k) + SegmentBindings(spec, k) <= AllBindings(spec)
  {
    BindingsUptoPrefix(spec, k);
    if k == 0 {
      assert spec.layers[..0] == [] && BindingsUpto(spec, 0) == [] + spec.globals;
    } else {
      BindingsExtend(spec, k - 1);
    }
  }

  lemma PrefixPlace<T>(all: seq<T>, before: seq<T>, own: seq<T>, j: nat)
    requires before + own <= all && j < |own|
    ensures |before| + j < |all| && all[|before| + j] == own[j] && all[..|before| + j] == before + own[..j]
  {
    assert all[..|before| + j] == (before + own)[..|before| + j];
    assert (before + own)[|before| + j] == own[j];
  }

  lemma BindingPlace(spec: ExecutionSpec, k: nat, j: nat) returns (p: nat)
    requires k <= |spec.layers| && j < |SegmentBindings(spec, k)|
    ensures p < |AllBindings(spec)| && AllBindings(spec)[p] == SegmentBindings(spec, k)[j]
    ensures IdsUsed(AllBindings(spec)[..p]) == FirstId(spec, k) + IdsUsed(SegmentBindings(spec, k)[..j])
  {
    var before, own := BindingsBefore(spec, k), SegmentBindings(spec, k);
    BeforePlusOwn(spec, k);
    PrefixPlace(AllBindings(spec), before, own, j);
    IdsUsedAppend(before, own[..j]);
    p := |before| + j;
  }

  lemma AllNamesDistinct(arch: TextArchitecture, root: string, q: Option<QuantizationMeta>, spec: ExecutionSpec)
    requires IsSpec(arch, root, q, spec)
    ensures DistinctNames(AllBindings(spec))
  {
    SpecIsWellNamed(arch, root, q, spec);
    SpecNamesDistinct(spec, |spec.layers|);
    assert spec.layers[..|spec.layers|] == spec.layers;
  }

  /** The entries of one binding, found from the id its weight was emitted with. */
  ghost predicate EntryTells(
    table: seq<TensorEntry>, ids: map<TensorName, nat>, b: TensorBinding, layer: Option<nat>, id: SegmentId)
  {
    && b.name in ids && ids[b.name] + 1 >= TensorsEmitted(b)
    && BindingEntered(table, ids[b.name] + 1 - TensorsEmitted(b), b, layer, id)
  }

  lemma IdFollowsPlace(spec: ExecutionSpec, k: nat, j: nat)
    requires DistinctNames(AllBindings(spec)) && k <= |spec.layers| && j < |SegmentBindings(spec, k)|
    ensures
      var own, ids := SegmentBindings(spec, k), EmittedIds(AllBindings(spec));
      own[j].name in ids && ids[own[j].name] == FirstId(spec, k) + IdsUsed(own[..j]) + TensorsEmitted(own[j]) - 1
  {
    var p := BindingPlace(spec, k, j);
    EmittedIdAt(AllBindings(spec), p);
  }

  lemma EnteredTells(
    table: seq<TensorEntry>, ids: map<TensorName, nat>, first: nat, bs: seq<TensorBinding>, layer: Option<nat>,
    id: SegmentId, j: nat)
    requires BindingsEntered(table, first, bs, layer, id) && j < |bs|
    requires bs[j].name in ids && ids[bs[j].name] == first + IdsUsed(bs[..j]) + TensorsEmitted(bs[j]) - 1
    ensures EntryTells(table, ids, bs[j], layer, id)
  {
    assert EnteredAt(table, first, bs, layer, id, j);
  }

  lemma SegmentTold(spec: ExecutionSpec, table: seq<TensorEntry>, k: nat, j: nat)
    requires DistinctNames(AllBindings(spec)) && k <= |spec.layers| && j < |SegmentBindings(spec, k)|
    requires SegmentEntered(spec, table, k)
    ensures
      EntryTells(
        table, EmittedIds(AllBindings(spec)), SegmentBindings(spec, k)[j], SegmentLayer(spec, k),
        ImageSegments(spec.layers)[k])
  {
    IdFollowsPlace(spec, k, j);
    EnteredTells(
      table, EmittedIds(AllBindings(spec)), FirstId(spec, k), SegmentBindings(spec, k), SegmentLayer(spec, k),
      ImageSegments(spec.layers)[k], j);
  }

  /** For every compiled image, every segment and every binding of it: its entries are at its emitted
      id, with its layer and segment. */
  lemma BindingTold(
    arch: TextArchitecture, namespace: NamespaceBinding, q: Option<QuantizationMeta>, spec: ExecutionSpec,
    source: Checkpoint, image: CompiledImage, k: nat, j: nat)
    requires IsSpec(arch, namespace.root, q, spec) && IsCompilation(arch, namespace, spec, source, image)
    requires k <= |spec.layers| && j < |SegmentBindings(spec, k)|
    ensures
      EntryTells(
        image.manifest.tensorTable, EmittedIds(AllBindings(spec)), SegmentBindings(spec, k)[j],
        SegmentLayer(spec, k), ImageSegments(spec.layers)[k])
  {
    AllNamesDistinct(arch, namespace.root, q, spec);
    SegmentTold(spec, image.manifest.tensorTable, k, j);
  }

  // ── In terms of the architecture ───────────────────────────────────────────

  predicate IsProjection(item: LayerItem) {
    item in {QProj, KProj, VProj, OProj, GateProj, UpProj, DownProj}
  }

  /** A packed weight's entry has a descriptor with the checkpoint's bits and group size, and it points
      at the weight's own scales and biases, of one row per row of the weight and one column per group. */
  ghost predicate DescribedPacked(
    table: seq<TensorEntry>, t: TensorEntry, role: TensorRole, q: Option<QuantizationMeta>)
  {
    && t.quantization.Some? && |t.logicalShape| == 2
    && var d := t.quantization.value;
       && PackedAs(q, d.bits, d.groupSize)
       && d.groups * d.groupSize <= t.logicalShape[1] < d.groups * d.groupSize + d.groupSize
       && d.scaleTensorId < |table| && d.biasTensorId < |table|
       && EntryIs(
            table[d.scaleTensorId], t.name.(part := Scales), ScalesRole(role), t.layer, t.segment,
            [t.logicalShape[0], d.groups], None)
       && EntryIs(
            table[d.biasTensorId], t.name.(part := Biases), BiasesRole(role), t.layer, t.segment,
            [t.logicalShape[0], d.groups], None)
  }

  /** The entry of a binding whose weight is linear. */
  lemma LinearTold(
    table: seq<TensorEntry>, ids: map<TensorName, nat>, b: TensorBinding, layer: Option<nat>, id: SegmentId,
    role: TensorRole, outDim: nat, inDim: nat, q: Option<QuantizationMeta>)
    requires EntryTells(table, ids, b, layer, id) && IsLinear(b, role, outDim, inDim, q)
    ensures ids[b.name] < |table|
    ensures
      var t := table[ids[b.name]];
      && t.name == b.name && t.role == WeightRole(role) && t.layer == layer && t.segment == id
      && t.logicalShape == [outDim, inDim] && DescribedPacked(table, t, role, q)
  {
    var p := b.packed.value;
    assert p.scales == [p.scales[0], p.scales[1]] == [outDim, p.groups];
  }

  /** An entry of layer `i` as the architecture has it. */
  ghost predicate LayerEntry(
    arch: TextArchitecture, root: string, q: Option<QuantizationMeta>, table: seq<TensorEntry>, i: nat, item: LayerItem,
    t: TensorEntry)
    requires i < |arch.layerTypes|
  {
    && t.name == LayerTensor(root, i, item, Weight) && t.layer == Some(i) && t.segment == LayerSegment(i)
    && (IsProjection(item) <==> t.quantization.Some?)
    && (IsProjection(item) ==> exists role :: t.role == WeightRole(role) && DescribedPacked(table, t, role, q))
    && exists b ::
         IsLayerItem(arch, root, q, i, item, b) && t.role == WeightRole(b.role) && t.logicalShape == b.logicalShape
  }

  lemma ItemTold(
    arch: TextArchitecture, root: string, q: Option<QuantizationMeta>, table: seq<TensorEntry>,
    ids: map<TensorName, nat>, i: nat, item: LayerItem, b: TensorBinding)
    requires i < |arch.layerTypes| && IsLayerItem(arch, root, q, i, item, b)
    requires EntryTells(table, ids, b, Some(i), LayerSegment(i))
    ensures ids[b.name] < |table| && LayerEntry(arch, root, q, table, i, item, table[ids[b.name]])
  {
    if IsProjection(item) {
      LinearTold(table, ids, b, Some(i), LayerSegment(i), b.role, b.logicalShape[0], b.logicalShape[1], q);
    }
  }

  /** A global entry as the architecture has it. */
  ghost predicate GlobalEntry(
    arch: TextArchitecture, root: string, q: Option<QuantizationMeta>, table: seq<TensorEntry>, item: GlobalItem,
    t: TensorEntry)
  {
    && t.name == GlobalTensor(root, item, Weight) && t.layer == None && t.segment == Persistent
    && (t.quantization.Some? <==> item.EmbedTokens? && q.Some?)
    && (t.quantization.Some? ==> DescribedPacked(table, t, EmbeddingRole, q))
    && exists b :: IsGlobal(arch, root, q, item, b) && t.role == WeightRole(b.role) && t.logicalShape == b.logicalShape
  }

  lemma GlobalTold(
    arch: TextArchitecture, root: string, q: Option<QuantizationMeta>, table: seq<TensorEntry>,
    ids: map<TensorName, nat>, item: GlobalItem, b: TensorBinding)
    requires IsGlobal(arch, root, q, item, b) && EntryTells(table, ids, b, None, Persistent)
    ensures ids[b.name] < |table| && GlobalEntry(arch, root, q, table, item, table[ids[b.name]])
  {
    if item.EmbedTokens? && q.Some? {
      LinearTold(table, ids, b, None, Persistent, EmbeddingRole, arch.vocabSize, arch.hiddenSize, q);
    }
  }

  // ── Every compiled image ───────────────────────────────────────────────────

  lemma ItemPlace(
    arch: TextArchitecture, root: string, q: Option<QuantizationMeta>, spec: ExecutionSpec, i: nat, item: LayerItem)
    returns (j: nat, b: TensorBinding)
    requires IsSpec(arch, root, q, spec) && i < |arch.layerTypes| && HasItem(arch, i, item)
    ensures j < |SegmentBindings(spec, i + 1)| && SegmentBindings(spec, i + 1)[j] == b
    ensures IsLayerItem(arch, root, q, i, item, b)
    ensures SegmentLayer(spec, i + 1) == Some(i) && ImageSegments(spec.layers)[i + 1] == LayerSegment(i)
  {
    LayerItemsBound(arch, root, q, spec, i);
    LayersAreIndexed(arch, root, q, spec);
    b :| b in spec.layers[i].tensors && IsLayerItem(arch, root, q, i, item, b);
    j :| 0 <= j < |spec.layers[i].tensors| && spec.layers[i].tensors[j] == b;
  }

  lemma GlobalPlace(
    arch: TextArchitecture, root: string, q: Option<QuantizationMeta>, spec: ExecutionSpec, item: GlobalItem)
    returns (j: nat, b: TensorBinding)
    requires IsSpec(arch, root, q, spec) && HasGlobal(arch, item)
    ensures j < |SegmentBindings(spec, 0)| && SegmentBindings(spec, 0)[j] == b
    ensures IsGlobal(arch, root, q, item, b)
  {
    GlobalsBound(arch, root, q, spec);
    b :| b in spec.globals && IsGlobal(arch, root, q, item, b);
    j :| 0 <= j < |spec.globals| && spec.globals[j] == b;
  }

  /** For every compiled image: each item a layer has is in the table under its emitted id, with its own
      name, layer, segment, role and logical shape; projections and no others are described, with the
      checkpoint's bits and group size and their own scales and biases. */
  lemma LayerEntriesTell(
    arch: TextArchitecture, namespace: NamespaceBinding, q: Option<QuantizationMeta>, spec: ExecutionSpec,
    source: Checkpoint, image: CompiledImage, i: nat, item: LayerItem)
    requires IsSpec(arch, namespace.root, q, spec) && IsCompilation(arch, namespace, spec, source, image)
    requires i < |arch.layerTypes| && HasItem(arch, i, item)
    ensures
      var name, ids := LayerTensor(namespace.root, i, item, Weight), EmittedIds(AllBindings(spec));
      && name in ids && ids[name] < |image.manifest.tensorTable|
      && LayerEntry(
           arch, namespace.root, q, image.manifest.tensorTable, i, item, image.manifest.tensorTable[ids[name]])
  {
    var j, b := ItemPlace(arch, namespace.root, q, spec, i, item);
    BindingTold(arch, namespace, q, spec, source, image, i + 1, j);
    ItemTold(arch, namespace.root, q, image.manifest.tensorTable, EmittedIds(AllBindings(spec)), i, item, b);
  }

  /** So is each global the architecture has; of them only the embedding is described, if the
      checkpoint is quantized. */
  lemma GlobalEntriesTell(
    arch: TextArchitecture, namespace: NamespaceBinding, q: Option<QuantizationMeta>, spec: ExecutionSpec,
    source: Checkpoint, image: CompiledImage, item: GlobalItem)
    requires IsSpec(arch, namespace.root, q, spec) && IsCompilation(arch, namespace, spec, source, image)
    requires HasGlobal(arch, item)
    ensures
      var name, ids := GlobalTensor(namespace.root, item, Weight), EmittedIds(AllBindings(spec));
      && name in ids && ids[name] < |image.manifest.tensorTable|
      && GlobalEntry(arch, namespace.root, q, image.manifest.tensorTable, item, image.manifest.tensorTable[ids[name]])
  {
    var j, b := GlobalPlace(arch, namespace.root, q, spec, item);
    BindingTold(arch, namespace, q, spec, source, image, 0, j);
    GlobalTold(arch, namespace.root, q, image.manifest.tensorTable, EmittedIds(AllBindings(spec)), item, b);
  }

  /** The id that a layer plan has for an item. */
  function PlanId(l: LayerPlan, item: LayerItem): (id: Option<nat>) {
    match item
    case InputLayernorm => Some(l.inputLayernorm)
    case PostAttentionLayernorm => Some(l.postAttentionLayernorm)
    case QNorm => l.qNorm
    case KNorm => l.kNorm
    case QProj => Some(l.qProj)
    case KProj => Some(l.kProj)
    case VProj => Some(l.vProj)
    case OProj => Some(l.oProj)
    case GateProj => Some(l.gateProj)
    case UpProj => Some(l.upProj)
    case DownProj => Some(l.downProj)
  }

  lemma PlanIdIs(
    arch: TextArchitecture, namespace: NamespaceBinding, ids: map<TensorName, nat>, plan: ModelExecutionPlan, i: nat,
    item: LayerItem)
    requires IsPlanFor(arch, namespace, ids, plan) && i < |arch.layerTypes| && HasItem(arch, i, item)
    requires LayerTensor(namespace.root, i, item, Weight) in ids
    ensures PlanId(plan.layers[i], item) == Some(ids[LayerTensor(namespace.root, i, item, Weight)])
    ensures arch.layerTypes[i].FullAttention? ==> plan.layers[i].vProj == plan.layers[i].kProj
  {
  }

  /** A name that was not emitted leaves a zero id, which validation refuses, or none for the norms
      that may be missing. */
  lemma MissingIdIs(
    arch: TextArchitecture, namespace: NamespaceBinding, ids: map<TensorName, nat>, plan: ModelExecutionPlan, i: nat,
    item: LayerItem)
    requires IsPlanFor(arch, namespace, ids, plan) && i < |arch.layerTypes| && HasItem(arch, i, item)
    requires LayerTensor(namespace.root, i, item, Weight) !in ids
    ensures PlanId(plan.layers[i], item) == if item.QNorm? || item.KNorm? then None else Some(0)
  {
  }

  /** For every compiled image: what a layer's plan points at is the layer's own tensor, entered as above.
      A full-attention layer reads its values through the key projection. */
  lemma PlannedEntriesTell(
    arch: TextArchitecture, namespace: NamespaceBinding, q: Option<QuantizationMeta>, spec: ExecutionSpec,
    source: Checkpoint, image: CompiledImage, i: nat, item: LayerItem)
    requires IsSpec(arch, namespace.root, q, spec) && IsCompilation(arch, namespace, spec, source, image)
    requires i < |arch.layerTypes| && HasItem(arch, i, item)
    ensures
      var table, l := image.manifest.tensorTable, image.manifest.executionPlan.layers[i];
      && PlanId(l, item).Some? && PlanId(l, item).value < |table|
      && LayerEntry(arch, namespace.root, q, table, i, item, table[PlanId(l, item).value])
      && (arch.layerTypes[i].FullAttention? ==> l.vProj == l.kProj)
  {
    LayerEntriesTell(arch, namespace, q, spec, source, image, i, item);
    PlanIdIs(arch, namespace, EmittedIds(AllBindings(spec)), image.manifest.executionPlan, i, item);
  }

  lemma EmittedNames(bs: seq<TensorBinding>, name: TensorName)
    ensures name in EmittedIds(bs) <==> exists b :: b in bs && b.name == name
  {
    EmittedIdsFacts(bs);
  }

  /** A global name is emitted exactly if it is bound among the globals. */
  lemma GlobalNameEmitted(spec: ExecutionSpec, name: TensorName)
    requires WellNamed(spec) && name.GlobalTensor?
    ensures name in EmittedIds(AllBindings(spec)) <==> exists b :: b in spec.globals && b.name == name
  {
    EmittedNames(AllBindings(spec), name);
    assert spec.layers[..|spec.layers|] == spec.layers;
    forall b | b in LayerBindings(spec.layers) ensures b.name != name {
      LayerBindingsNamed(spec, |spec.layers|, b);
    }
  }

  /** A global is emitted exactly if the architecture has it. */
  lemma EmittedIffBound(
    arch: TextArchitecture, root: string, q: Option<QuantizationMeta>, spec: ExecutionSpec, item: GlobalItem)
    requires IsSpec(arch, root, q, spec)
    ensures GlobalTensor(root, item, Weight) in EmittedIds(AllBindings(spec)) <==> HasGlobal(arch, item)
  {
    SpecIsWellNamed(arch, root, q, spec);
    GlobalNameEmitted(spec, GlobalTensor(root, item, Weight));
    GlobalsBound(arch, root, q, spec);
  }

  /** For every compiled image: the plan points at the embedding and the final norm; at the output head
      exactly if embeddings are not tied, when the head is named as usual. */
  lemma PlannedGlobalsTell(
    arch: TextArchitecture, namespace: NamespaceBinding, q: Option<QuantizationMeta>, spec: ExecutionSpec,
    source: Checkpoint, image: CompiledImage)
    requires IsSpec(arch, namespace.root, q, spec) && IsCompilation(arch, namespace, spec, source, image)
    ensures
      var table, plan, root := image.manifest.tensorTable, image.manifest.executionPlan, namespace.root;
      && plan.embeddingTensorId < |table| && plan.finalNormTensorId < |table|
      && GlobalEntry(arch, root, q, table, EmbedTokens, table[plan.embeddingTensorId])
      && GlobalEntry(arch, root, q, table, FinalNorm, table[plan.finalNormTensorId])
      && (namespace.lmHeadKey == GlobalTensor(root, LmHead, Weight) ==>
            && (plan.outputProjectionTensorId.Some? <==> !arch.tieWordEmbeddings)
            && (plan.outputProjectionTensorId.Some? ==>
                  && plan.outputProjectionTensorId.value < |table|
                  && GlobalEntry(arch, root, q, table, LmHead, table[plan.outputProjectionTensorId.value])))
  {
    GlobalEntriesTell(arch, namespace, q, spec, source, image, EmbedTokens);
    GlobalEntriesTell(arch, namespace, q, spec, source, image, FinalNorm);
    EmittedIffBound(arch, namespace.root, q, spec, LmHead);
    if HasGlobal(arch, LmHead) {
      GlobalEntriesTell(arch, namespace, q, spec, source, image, LmHead);
    }
  }

  /** For every compiled image: one alias, of the output head to the embedding's entry, exactly if the
      namespace aliases the head; none otherwise. */
  lemma AliasIff(
    arch: TextArchitecture, namespace: NamespaceBinding, q: Option<QuantizationMeta>, spec: ExecutionSpec,
    source: Checkpoint, image: CompiledImage)
    requires IsSpec(arch, namespace.root, q, spec) && IsCompilation(arch, namespace, spec, source, image)
    ensures
      var table, aliases := image.manifest.tensorTable, image.manifest.aliasTable;
      && |aliases| == (if namespace.lmHeadAliased then 1 else 0)
      && (namespace.lmHeadAliased ==>
            && aliases[0].logicalName == GlobalTensor("", LmHead, Weight)
            && aliases[0].reason == "tie_word_embeddings=true"
            && aliases[0].physicalTensorId < |table|
            && GlobalEntry(arch, namespace.root, q, table, EmbedTokens, table[aliases[0].physicalTensorId]))
  {
    GlobalEntriesTell(arch, namespace, q, spec, source, image, EmbedTokens);
    EmbeddingComesFirst(arch, namespace.root, q, spec);
    FirstIsEmitted(spec.globals);
    EmbeddingIdKept(arch, namespace.root, q, spec);
  }

  /** The embedding keeps the id it has among the globals. */
  lemma EmbeddingIdKept(arch: TextArchitecture, root: string, q: Option<QuantizationMeta>, spec: ExecutionSpec)
    requires IsSpec(arch, root, q, spec)
    ensures
      var embed := GlobalTensor(root, EmbedTokens, Weight);
      && embed in EmittedIds(spec.globals) && embed in EmittedIds(AllBindings(spec))
      && EmittedIds(spec.globals)[embed] == EmittedIds(AllBindings(spec))[embed]
  {
    AllNamesDistinct(arch, root, q, spec);
    SpecIsWellNamed(arch, root, q, spec);
    EmbeddingComesFirst(arch, root, q, spec);
    EmittedIdAt(spec.globals, 0);
    EmittedIdAt(AllBindings(spec), 0);
    assert AllBindings(spec)[0] == spec.globals[0];
    assert AllBindings(spec)[..0] == spec.globals[..0] == [];
  }
}

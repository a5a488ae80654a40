/** Sequential compilation of a checkpoint: emit every bound tensor into the image, build the
    execution plan from the emitted ids, finalize, and write the receipt. */
module ImageCompiler {
  import opened Common
  import opened Config
  import opened ImageManifest
  import opened ImageBuilder
  import opened ImageVerifier

  datatype SourceTensor = SourceTensor(dtype: string, shape: seq<nat>, data: Bytes)

  type Checkpoint = map<TensorName, SourceTensor>

  // ── What emission writes ───────────────────────────────────────────────────

  /** Names emitted for a binding, in order; a packed one brings its scales and biases along. */
  function NamesEmitted(b: TensorBinding): (names: seq<TensorName>)
    ensures |names| == TensorsEmitted(b) && names[|names| - 1] == b.name
  {
    if b.packed.Some? then [b.name.(part := Scales), b.name.(part := Biases), b.name] else [b.name]
  }

  function TableNames(bs: seq<TensorBinding>): (names: seq<TensorName>)
    ensures |names| == IdsUsed(bs)
  {
    if bs == [] then [] else TableNames(bs[..|bs| - 1]) + NamesEmitted(bs[|bs| - 1])
  }

  ghost predicate AllPresent(source: Checkpoint, names: seq<TensorName>) {
    forall i :: 0 <= i < |names| ==> names[i] in source
  }

  ghost function BlobsOf(source: Checkpoint, names: seq<TensorName>): (blobs: seq<Bytes>)
    requires AllPresent(source, names)
    ensures |blobs| == |names| && forall i :: 0 <= i < |names| ==> blobs[i] == source[names[i]].data
  {
    seq(|names|, i requires 0 <= i < |names| => source[names[i]].data)
  }

  /** A quantization descriptor of the tensor `name` in segment `id` points at that tensor's own
      scales and biases, in the same segment. */
  ghost predicate Describes(tensors: seq<TensorEntry>, name: TensorName, id: SegmentId, q: QuantizationDesc) {
    && q.scaleTensorId < |tensors| && q.biasTensorId < |tensors|
    && tensors[q.scaleTensorId].name == name.(part := Scales) && tensors[q.scaleTensorId].segment == id
    && tensors[q.biasTensorId].name == name.(part := Biases) && tensors[q.biasTensorId].segment == id
  }

  ghost predicate AllDescribed(tensors: seq<TensorEntry>) {
    forall i :: 0 <= i < |tensors| && tensors[i].quantization.Some? ==>
      Describes(tensors, tensors[i].name, tensors[i].segment, tensors[i].quantization.value)
  }

  lemma DescribedExtends(tensors: seq<TensorEntry>, t: TensorEntry)
    requires AllDescribed(tensors)
    requires t.quantization.Some? ==> Describes(tensors, t.name, t.segment, t.quantization.value)
    ensures AllDescribed(tensors + [t])
  {
  }

  /** The builder holds exactly the tensors named `names`, with the checkpoint's bytes. */
  ghost predicate Holds(tensors: seq<TensorEntry>, blobs: seq<Bytes>, source: Checkpoint, names: seq<TensorName>) {
    && AllPresent(source, names)
    && blobs == BlobsOf(source, names)
    && |tensors| == |names|
    && (forall i :: 0 <= i < |names| ==>
          && tensors[i].name == names[i]
          && tensors[i].storageDtype == source[names[i]].dtype
          && tensors[i].physicalShape == source[names[i]].shape)
    && AllDescribed(tensors)
  }

  lemma HoldsExtends(
    tensors: seq<TensorEntry>, blobs: seq<Bytes>, source: Checkpoint, names: seq<TensorName>, t: TensorEntry,
    name: TensorName)
    requires Holds(tensors, blobs, source, names) && name in source
    requires t.name == name && t.storageDtype == source[name].dtype && t.physicalShape == source[name].shape
    requires t.quantization.Some? ==> Describes(tensors, t.name, t.segment, t.quantization.value)
    ensures Holds(tensors + [t], blobs + [source[name].data], source, names + [name])
  {
    DescribedExtends(tensors, t);
  }

  datatype EmitError = MissingTensor(name: TensorName)

  /** The kind of the segment with a given id. */
  function KindOf(id: SegmentId): (kind: SegmentKind) {
    if id.LayerSegment? then LayerKind(id.index) else PersistentKind
  }

  /** The builder has an open segment `id` after the closed `segments`, and holds `names`. */
  ghost predicate Emitting(
    builder: ImageBuilder, source: Checkpoint, names: seq<TensorName>, segments: seq<Segment>, id: SegmentId)
    reads builder
  {
    && builder.Valid()
    && builder.current.Some? && builder.current.value.id == id && builder.current.value.kind == KindOf(id)
    && builder.segments == segments
    && Holds(builder.tensors, builder.blobs, source, names)
  }

  /** A table entry carries what the emitter was told about the tensor. */
  ghost predicate EntryIs(
    t: TensorEntry, name: TensorName, role: EntryRole, layer: Option<nat>, id: SegmentId, logicalShape: seq<nat>,
    quantization: Option<QuantizationDesc>)
  {
    && t.name == name && t.role == role && t.layer == layer && t.segment == id
    && t.logicalShape == logicalShape && t.quantization == quantization && t.tensorAlignmentBytes == 16
  }

  /** The table entries of one binding, from id `first` on: the weight with the binding's role and
      logical shape; if it is packed, its scales and biases before it, and a descriptor of it. */
  ghost predicate BindingEntered(
    tensors: seq<TensorEntry>, first: nat, b: TensorBinding, layer: Option<nat>, id: SegmentId)
  {
    && first + TensorsEmitted(b) <= |tensors|
    && match b.packed
       case None => EntryIs(tensors[first], b.name, WeightRole(b.role), layer, id, b.logicalShape, None)
       case Some(p) =>
         && EntryIs(tensors[first], b.name.(part := Scales), ScalesRole(b.role), layer, id, p.scales, None)
         && EntryIs(tensors[first + 1], b.name.(part := Biases), BiasesRole(b.role), layer, id, p.biases, None)
         && EntryIs(
              tensors[first + 2], b.name, WeightRole(b.role), layer, id, b.logicalShape,
              Some(QuantizationDesc(p.bits, p.groupSize, p.groups, first, first + 1)))
  }

  ghost predicate EnteredAt(
    tensors: seq<TensorEntry>, first: nat, bs: seq<TensorBinding>, layer: Option<nat>, id: SegmentId, j: nat)
    requires j < |bs|
  {
    BindingEntered(tensors, first + IdsUsed(bs[..j]), bs[j], layer, id)
  }

  /** The entries of several bindings, one after another. */
  ghost predicate BindingsEntered(
    tensors: seq<TensorEntry>, first: nat, bs: seq<TensorBinding>, layer: Option<nat>, id: SegmentId)
  {
    forall j :: 0 <= j < |bs| ==> EnteredAt(tensors, first, bs, layer, id, j)
  }

  lemma EnteredStays(
    tensors: seq<TensorEntry>, more: seq<TensorEntry>, first: nat, b: TensorBinding, layer: Option<nat>, id: SegmentId)
    requires tensors <= more && BindingEntered(tensors, first, b, layer, id)
    ensures BindingEntered(more, first, b, layer, id)
  {
  }

  lemma AllEnteredStay(
    tensors: seq<TensorEntry>, more: seq<TensorEntry>, first: nat, bs: seq<TensorBinding>, layer: Option<nat>,
    id: SegmentId)
    requires tensors <= more && BindingsEntered(tensors, first, bs, layer, id)
    ensures BindingsEntered(more, first, bs, layer, id)
  {
    forall j | 0 <= j < |bs| ensures EnteredAt(more, first, bs, layer, id, j) {
      assert EnteredAt(tensors, first, bs, layer, id, j);
      EnteredStays(tensors, more, first + IdsUsed(bs[..j]), bs[j], layer, id);
    }
  }

  lemma EnteredAtPrefix(
    tensors: seq<TensorEntry>, first: nat, bs: seq<TensorBinding>, i: nat, layer: Option<nat>, id: SegmentId, j: nat)
    requires j < i <= |bs|
    ensures EnteredAt(tensors, first, bs[..i], layer, id, j) <==> EnteredAt(tensors, first, bs, layer, id, j)
  {
    assert bs[..i][..j] == bs[..j];
  }

  lemma OneMoreEntered(
    tensors: seq<TensorEntry>, more: seq<TensorEntry>, first: nat, bs: seq<TensorBinding>, i: nat, layer: Option<nat>,
    id: SegmentId, at: nat)
    requires i < |bs| && tensors <= more && BindingsEntered(tensors, first, bs[..i], layer, id)
    requires at == first + IdsUsed(bs[..i]) && BindingEntered(more, at, bs[i], layer, id)
    ensures BindingsEntered(more, first, bs[..i + 1], layer, id)
  {
    AllEnteredStay(tensors, more, first, bs[..i], layer, id);
    var longer := bs[..i + 1];
    forall j | 0 <= j < |longer| ensures EnteredAt(more, first, longer, layer, id, j) {
      EnteredAtPrefix(more, first, bs, i + 1, layer, id, j);
      if j < i {
        EnteredAtPrefix(more, first, bs, i, layer, id, j);
        assert EnteredAt(more, first, bs[..i], layer, id, j);
      }
    }
  }

  lemma {:induction false} IdsUsedAppend(xs: seq<TensorBinding>, ys: seq<TensorBinding>)
    ensures IdsUsed(xs + ys) == IdsUsed(xs) + IdsUsed(ys)
  {
    if ys == [] {
      assert xs + ys == xs;
    } else {
      IdsUsedAppend(xs, ys[..|ys| - 1]);
      assert (xs + ys)[..|xs + ys| - 1] == xs + ys[..|ys| - 1];
    }
  }

  method EmitTensor(
    builder: ImageBuilder, source: Checkpoint, ghost names: seq<TensorName>, ghost segments: seq<Segment>,
    ghost id: SegmentId, name: TensorName, role: EntryRole, layer: Option<nat>, logicalShape: seq<nat>,
    quantization: Option<QuantizationDesc>)
    returns (r: Result<nat, EmitError>)
    requires Emitting(builder, source, names, segments, id)
    requires quantization.Some? ==> Describes(builder.tensors, name, id, quantization.value)
    modifies builder
    ensures r == if name in source then Ok(|names|) else Err(MissingTensor(name))
    ensures r.Ok? ==> Emitting(builder, source, names + [name], segments, id)
    ensures r.Err? ==> builder.tensors == old(builder.tensors) && builder.blobs == old(builder.blobs)
    ensures r.Ok? ==>
      && |builder.tensors| == |names| + 1 && builder.tensors[..|names|] == old(builder.tensors)
      && EntryIs(builder.tensors[|names|], name, role, layer, id, logicalShape, quantization)
    ensures builder.aliases == old(builder.aliases)
  {
    if name !in source {
      return Err(MissingTensor(name));
    }
    var t := source[name];
    ghost var tensors, blobs := builder.tensors, builder.blobs;
    var info := TensorInfo(name, role, layer, t.dtype, logicalShape, t.shape, quantization);
    var tensorId := builder.AddTensor(info, t.data);
    HoldsExtends(tensors, blobs, source, names, builder.tensors[tensorId], name);
    assert builder.tensors == tensors + [builder.tensors[tensorId]];
    r := Ok(tensorId);
  }

  /** Scales and biases go first, so that the weight's descriptor can name them. */
  method EmitQuantizedBinding(
    builder: ImageBuilder, source: Checkpoint, ghost names: seq<TensorName>, ghost segments: seq<Segment>,
    ghost id: SegmentId, b: TensorBinding, packed: PackedLinearShapes, layer: Option<nat>)
    returns (r: Result<nat, EmitError>)
    requires Emitting(builder, source, names, segments, id)
    modifies builder
    ensures
      var scales, biases := b.name.(part := Scales), b.name.(part := Biases);
      && (r.Ok? <==> scales in source && biases in source && b.name in source)
      && (r.Ok? ==>
            && r.value == |names| + 2
            && Emitting(builder, source, names + [scales] + [biases] + [b.name], segments, id)
            && EntryIs(
                 builder.tensors[r.value], b.name, WeightRole(b.role), layer, id, b.logicalShape,
                 Some(QuantizationDesc(packed.bits, packed.groupSize, packed.groups, |names|, |names| + 1))))
    ensures r.Ok? ==>
      var scales, biases := builder.tensors[|names|], builder.tensors[|names| + 1];
      && EntryIs(scales, b.name.(part := Scales), ScalesRole(b.role), layer, id, packed.scales, None)
      && EntryIs(biases, b.name.(part := Biases), BiasesRole(b.role), layer, id, packed.biases, None)
    ensures r.Ok? ==> old(builder.tensors) <= builder.tensors
    ensures builder.aliases == old(builder.aliases)
  {
    var scales, biases := b.name.(part := Scales), b.name.(part := Biases);
    r := EmitTensor(builder, source, names, segments, id, scales, ScalesRole(b.role), layer, packed.scales, None);
    if r.Err? {
      return;
    }
    var scalesId := r.value;
    r := EmitTensor(
      builder, source, names + [scales], segments, id, biases, BiasesRole(b.role), layer, packed.biases, None);
    if r.Err? {
      return;
    }
    var desc := QuantizationDesc(packed.bits, packed.groupSize, packed.groups, scalesId, r.value);
    r := EmitTensor(
      builder, source, names + [scales] + [biases], segments, id, b.name, WeightRole(b.role), layer, b.logicalShape,
      Some(desc));
  }

  lemma NamesEmittedAppend(source: Checkpoint, names: seq<TensorName>, b: TensorBinding)
    ensures b.packed.Some? ==>
      && names + [b.name.(part := Scales)] + [b.name.(part := Biases)] + [b.name] == names + NamesEmitted(b)
      && (AllPresent(source, NamesEmitted(b)) <==>
            b.name.(part := Scales) in source && b.name.(part := Biases) in source && b.name in source)
    ensures b.packed.None? ==>
      names + [b.name] == names + NamesEmitted(b) && (AllPresent(source, NamesEmitted(b)) <==> b.name in source)
  {
    var ns := NamesEmitted(b);
    assert b.packed.Some? ==> ns[0] == b.name.(part := Scales) && ns[1] == b.name.(part := Biases);
    assert ns[|ns| - 1] == b.name;
  }

  /** Emit one binding; the id returned is the weight's. */
  method EmitBindingSet(
    builder: ImageBuilder, source: Checkpoint, ghost names: seq<TensorName>, ghost segments: seq<Segment>,
    ghost id: SegmentId, b: TensorBinding, layer: Option<nat>)
    returns (r: Result<nat, EmitError>)
    requires Emitting(builder, source, names, segments, id)
    modifies builder
    ensures r.Ok? <==> AllPresent(source, NamesEmitted(b))
    ensures r.Ok? ==>
      r.value == WeightId(|names|, b) && Emitting(builder, source, names + NamesEmitted(b), segments, id)
    ensures r.Ok? ==> old(builder.tensors) <= builder.tensors && BindingEntered(builder.tensors, |names|, b, layer, id)
    ensures builder.aliases == old(builder.aliases)
  {
    NamesEmittedAppend(source, names, b);
    if b.packed.Some? {
      r := EmitQuantizedBinding(builder, source, names, segments, id, b, b.packed.value, layer);
    } else {
      r := EmitTensor(
        builder, source, names, segments, id, b.name, WeightRole(b.role), layer, b.logicalShape, None);
    }
  }

  lemma EmissionExtends(bs: seq<TensorBinding>, b: TensorBinding)
    ensures TableNames(bs + [b]) == TableNames(bs) + NamesEmitted(b)
    ensures EmittedIds(bs + [b]) == EmittedIds(bs)[b.name := WeightId(|TableNames(bs)|, b)]
  {
    assert (bs + [b])[..|bs|] == bs;
  }

  lemma PresenceSplits(source: Checkpoint, xs: seq<TensorName>, ys: seq<TensorName>)
    ensures AllPresent(source, xs + ys) <==> AllPresent(source, xs) && AllPresent(source, ys)
  {
    assert forall i :: 0 <= i < |xs| ==> (xs + ys)[i] == xs[i];
    assert forall i :: 0 <= i < |ys| ==> (xs + ys)[|xs| + i] == ys[i];
  }

  lemma {:induction false} PresenceIsMonotone(source: Checkpoint, bs: seq<TensorBinding>, n: nat)
    requires n <= |bs| && AllPresent(source, TableNames(bs))
    ensures AllPresent(source, TableNames(bs[..n]))
  {
    if n < |bs| {
      PresenceSplits(source, TableNames(bs[..|bs| - 1]), NamesEmitted(bs[|bs| - 1]));
      PresenceIsMonotone(source, bs[..|bs| - 1], n);
      assert bs[..|bs| - 1][..n] == bs[..n];
    } else {
      assert bs[..n] == bs;
    }
  }

  lemma AppendNext<T>(xs: seq<T>, ys: seq<T>, i: nat)
    requires i < |ys|
    ensures xs + ys[..i] + [ys[i]] == xs + ys[..i + 1]
  {
  }

  lemma {:induction false} PresentAt(source: Checkpoint, bs: seq<TensorBinding>, n: nat)
    requires n < |bs| && AllPresent(source, TableNames(bs))
    ensures AllPresent(source, NamesEmitted(bs[n]))
  {
    PresenceIsMonotone(source, bs, n + 1);
    assert bs[..n + 1][..n] == bs[..n];
    PresenceSplits(source, TableNames(bs[..n]), NamesEmitted(bs[n]));
  }

  /** The first `i` of the bindings `bs` are emitted after `done`, from a table `start` on, and `ids` has
      the weight ids. */
  ghost predicate EmittedFirst(
    builder: ImageBuilder, source: Checkpoint, done: seq<TensorBinding>, bs: seq<TensorBinding>, i: nat,
    segments: seq<Segment>, id: SegmentId, layer: Option<nat>, ids: map<TensorName, nat>, start: seq<TensorEntry>)
    requires i <= |bs|
    reads builder
  {
    && ids == EmittedIds(done + bs[..i])
    && Emitting(builder, source, TableNames(done + bs[..i]), segments, id)
    && start <= builder.tensors
    && BindingsEntered(builder.tensors, IdsUsed(done), bs[..i], layer, id)
  }

  /** Emit the next binding. */
  method EmitNext(
    builder: ImageBuilder, source: Checkpoint, ghost done: seq<TensorBinding>, bs: seq<TensorBinding>, i: nat,
    ghost segments: seq<Segment>, ghost id: SegmentId, layer: Option<nat>, ids: map<TensorName, nat>,
    ghost start: seq<TensorEntry>)
    returns (r: Result<map<TensorName, nat>, EmitError>)
    requires i < |bs| && EmittedFirst(builder, source, done, bs, i, segments, id, layer, ids, start)
    modifies builder
    ensures r.Ok? <==> AllPresent(source, NamesEmitted(bs[i]))
    ensures r.Ok? ==> EmittedFirst(builder, source, done, bs, i + 1, segments, id, layer, r.value, start)
    ensures builder.aliases == old(builder.aliases)
  {
    ghost var names, before := TableNames(done + bs[..i]), builder.tensors;
    EmissionExtends(done + bs[..i], bs[i]);
    AppendNext(done, bs, i);
    IdsUsedAppend(done, bs[..i]);
    var emitted := EmitBindingSet(builder, source, names, segments, id, bs[i], layer);
    if emitted.Err? {
      return Err(emitted.error);
    }
    OneMoreEntered(before, builder.tensors, IdsUsed(done), bs, i, layer, id, |names|);
    r := Ok(ids[bs[i].name := emitted.value]);
  }

  /** Emit the bindings of one segment after the bindings `done`, recording weight ids by name. */
  method EmitBindings(
    builder: ImageBuilder, source: Checkpoint, ghost done: seq<TensorBinding>, bs: seq<TensorBinding>,
    ghost segments: seq<Segment>, ghost id: SegmentId, layer: Option<nat>, ids0: map<TensorName, nat>)
    returns (r: Result<map<TensorName, nat>, EmitError>)
    requires Emitting(builder, source, TableNames(done), segments, id) && ids0 == EmittedIds(done)
    modifies builder
    ensures r.Ok? <==> AllPresent(source, TableNames(done + bs))
    ensures r.Ok? ==> r.value == EmittedIds(done + bs) && Emitting(builder, source, TableNames(done + bs), segments, id)
    ensures r.Ok? ==>
      old(builder.tensors) <= builder.tensors && BindingsEntered(builder.tensors, IdsUsed(done), bs, layer, id)
    ensures builder.aliases == old(builder.aliases)
  {
    ghost var start := builder.tensors;
    var ids := ids0;
    assert done + bs[..0] == done;
    for i := 0 to |bs|
      invariant EmittedFirst(builder, source, done, bs, i, segments, id, layer, ids, start)
      invariant builder.aliases == old(builder.aliases)
    {
      var next := EmitNext(builder, source, done, bs, i, segments, id, layer, ids, start);
      if next.Err? {
        if AllPresent(source, TableNames(done + bs)) {
          PresentAt(source, done + bs, |done| + i);
        }
        return next;
      }
      ids := next.value;
    }
    assert bs[..|bs|] == bs;
    r := Ok(ids);
  }

  // ── The whole compilation ──────────────────────────────────────────────────

  datatype CompiledImage = CompiledImage(manifest: Manifest, receipt: CompileReceipt, files: Files)

  /** The persistent segment followed by one segment per layer. */
  function ImageSegments(layers: seq<LayerSpec>): (ids: seq<SegmentId>)
    ensures |ids| == |layers| + 1 && ids[0] == Persistent
    ensures forall k :: 0 < k < |ids| ==> ids[k] == LayerSegment(layers[k - 1].index)
  {
    [Persistent] + seq(|layers|, i requires 0 <= i < |layers| => LayerSegment(layers[i].index))
  }

  /** The bindings of the persistent segment and the first `k` layers. */
  function BindingsUpto(spec: ExecutionSpec, k: nat): (bs: seq<TensorBinding>)
    requires k <= |spec.layers|
  {
    spec.globals + LayerBindings(spec.layers[..k])
  }

  /** The bindings emitted into segment `k`: the globals, then each layer's. */
  function SegmentBindings(spec: ExecutionSpec, k: nat): (bs: seq<TensorBinding>)
    requires k <= |spec.layers|
  {
    if k == 0 then spec.globals else spec.layers[k - 1].tensors
  }

  /** The names emitted before segment `k`. */
  function NamesBefore(spec: ExecutionSpec, k: nat): (names: seq<TensorName>)
    requires k <= |spec.layers|
  {
    if k == 0 then [] else TableNames(BindingsUpto(spec, k - 1))
  }

  function FirstId(spec: ExecutionSpec, k: nat): (n: nat)
    requires k <= |spec.layers|
  {
    |NamesBefore(spec, k)|
  }

  /** The layer that entries of segment `k` are tagged with. */
  function SegmentLayer(spec: ExecutionSpec, k: nat): (layer: Option<nat>)
    requires k <= |spec.layers|
  {
    if k == 0 then None else Some(spec.layers[k - 1].index)
  }

  /** The table has the entries of all bindings of segment `k`. */
  ghost predicate SegmentEntered(spec: ExecutionSpec, tensors: seq<TensorEntry>, k: nat)
    requires k <= |spec.layers|
  {
    BindingsEntered(
      tensors, FirstId(spec, k), SegmentBindings(spec, k), SegmentLayer(spec, k), ImageSegments(spec.layers)[k])
  }

  ghost predicate SegmentsEntered(spec: ExecutionSpec, tensors: seq<TensorEntry>, n: nat)
    requires n <= |spec.layers| + 1
  {
    forall k :: 0 <= k < n ==> SegmentEntered(spec, tensors, k)
  }

  lemma OneMoreSegment(spec: ExecutionSpec, tensors: seq<TensorEntry>, more: seq<TensorEntry>, k: nat)
    requires k <= |spec.layers| && tensors <= more
    requires SegmentsEntered(spec, tensors, k) && SegmentEntered(spec, more, k)
    ensures SegmentsEntered(spec, more, k + 1)
  {
    forall j | 0 <= j < k ensures SegmentEntered(spec, more, j) {
      assert SegmentEntered(spec, tensors, j);
      AllEnteredStay(
        tensors, more, FirstId(spec, j), SegmentBindings(spec, j), SegmentLayer(spec, j),
        ImageSegments(spec.layers)[j]);
    }
  }

  /** Segment `k` has its own id and kind, and it and those before it list exactly the tensors of
      the globals and the first `k` layers. */
  ghost predicate SegmentHolds(spec: ExecutionSpec, segments: seq<Segment>, k: nat)
    requires k < |segments| && k <= |spec.layers|
  {
    && segments[k].id == ImageSegments(spec.layers)[k]
    && segments[k].kind == KindOf(segments[k].id)
    && |ListedIds(segments[..k + 1])| == IdsUsed(BindingsUpto(spec, k))
  }

  ghost predicate Partitioned(spec: ExecutionSpec, segments: seq<Segment>) {
    && |segments| <= |spec.layers| + 1
    && forall k :: 0 <= k < |segments| ==> SegmentHolds(spec, segments, k)
  }

  /** Closing the open segment, once all tensors so far are those of the first layers. */
  lemma PartitionExtends(spec: ExecutionSpec, segments: seq<Segment>, s: Segment)
    requires Partitioned(spec, segments) && |segments| <= |spec.layers|
    requires s.id == ImageSegments(spec.layers)[|segments|] && s.kind == KindOf(s.id)
    requires |ListedIds(segments + [s])| == IdsUsed(BindingsUpto(spec, |segments|))
    ensures Partitioned(spec, segments + [s])
  {
    var longer := segments + [s];
    forall k | 0 <= k < |longer| ensures SegmentHolds(spec, longer, k) {
      if k < |segments| {
        assert SegmentHolds(spec, segments, k);
        assert longer[..k + 1] == segments[..k + 1];
      } else {
        assert longer[..k + 1] == longer;
      }
    }
  }

  /** The open segment closed: it holds what was emitted since the last. */
  lemma ClosePartition(spec: ExecutionSpec, builder: ImageBuilder, source: Checkpoint, segments: seq<Segment>)
    requires |segments| <= |spec.layers| && Partitioned(spec, segments)
    requires Emitting(
               builder, source, TableNames(BindingsUpto(spec, |segments|)), segments,
               ImageSegments(spec.layers)[|segments|])
    ensures Partitioned(spec, Closing(builder.segments, builder.current))
  {
    var closed := CloseSegment(builder.current.value);
    ListsExtend(segments, closed);
    PartitionExtends(spec, segments, closed);
  }

  lemma BindingsExtend(spec: ExecutionSpec, k: nat)
    requires k < |spec.layers|
    ensures BindingsUpto(spec, k + 1) == BindingsUpto(spec, k) + spec.layers[k].tensors
  {
    assert spec.layers[..k + 1][..k] == spec.layers[..k];
  }

  lemma {:induction false} PrefixPresent(source: Checkpoint, spec: ExecutionSpec, k: nat)
    requires k <= |spec.layers| && AllPresent(source, TableNames(AllBindings(spec)))
    ensures AllPresent(source, TableNames(BindingsUpto(spec, k)))
    decreases |spec.layers| - k
  {
    if k == |spec.layers| {
      assert spec.layers[..k] == spec.layers;
    } else {
      PrefixPresent(source, spec, k + 1);
      BindingsExtend(spec, k);
      var shorter, longer := BindingsUpto(spec, k), BindingsUpto(spec, k + 1);
      PresenceIsMonotone(source, longer, |shorter|);
      assert longer[..|shorter|] == shorter;
    }
  }

  /** The persistent segment and the first `k` layers are emitted, the last of them still open. */
  ghost predicate Emitted(builder: ImageBuilder, source: Checkpoint, spec: ExecutionSpec, k: nat)
    requires k <= |spec.layers|
    reads builder
  {
    && |builder.segments| == k && Partitioned(spec, builder.segments)
    && SegmentsEntered(spec, builder.tensors, k + 1)
    && Emitting(builder, source, TableNames(BindingsUpto(spec, k)), builder.segments, ImageSegments(spec.layers)[k])
  }

  /** Close the previous segment and emit layer `k` into its own. */
  method EmitLayer(builder: ImageBuilder, source: Checkpoint, spec: ExecutionSpec, k: nat, ids: map<TensorName, nat>)
    returns (r: Result<map<TensorName, nat>, EmitError>)
    requires k < |spec.layers| && Emitted(builder, source, spec, k) && ids == EmittedIds(BindingsUpto(spec, k))
    modifies builder
    ensures r.Ok? <==> AllPresent(source, TableNames(BindingsUpto(spec, k + 1)))
    ensures r.Ok? ==> r.value == EmittedIds(BindingsUpto(spec, k + 1)) && Emitted(builder, source, spec, k + 1)
    ensures builder.aliases == old(builder.aliases)
  {
    var layer := spec.layers[k];
    BindingsExtend(spec, k);
    ClosePartition(spec, builder, source, builder.segments);
    builder.BeginSegment(LayerSegment(layer.index), LayerKind(layer.index));
    ghost var before := builder.tensors;
    r := EmitBindings(
      builder, source, BindingsUpto(spec, k), layer.tensors, builder.segments, LayerSegment(layer.index),
      Some(layer.index), ids);
    if r.Ok? {
      OneMoreSegment(spec, before, builder.tensors, k + 1);
    }
  }

  /** Emit the layer segments after the persistent one. */
  method EmitLayers(builder: ImageBuilder, source: Checkpoint, spec: ExecutionSpec, ids0: map<TensorName, nat>)
    returns (r: Result<map<TensorName, nat>, EmitError>)
    requires Emitted(builder, source, spec, 0) && ids0 == EmittedIds(BindingsUpto(spec, 0))
    modifies builder
    ensures r.Ok? <==> AllPresent(source, TableNames(AllBindings(spec)))
    ensures r.Ok? ==> r.value == EmittedIds(AllBindings(spec)) && Emitted(builder, source, spec, |spec.layers|)
    ensures builder.aliases == old(builder.aliases)
  {
    var ids := ids0;
    for k := 0 to |spec.layers|
      invariant Emitted(builder, source, spec, k) && ids == EmittedIds(BindingsUpto(spec, k))
      invariant builder.aliases == old(builder.aliases)
    {
      var emitted := EmitLayer(builder, source, spec, k, ids);
      if emitted.Err? {
        if AllPresent(source, TableNames(AllBindings(spec))) {
          PrefixPresent(source, spec, k + 1);
        }
        return Err(emitted.error);
      }
      ids := emitted.value;
    }
    assert spec.layers[..|spec.layers|] == spec.layers;
    r := Ok(ids);
  }

  /** The output head under its own name, when it shares the embedding's storage. */
  const ALIAS_NAME: TensorName := GlobalTensor("", LmHead, Weight)
  const ALIAS_REASON := "tie_word_embeddings=true"

  function EmbeddingName(root: string): (name: TensorName) { GlobalTensor(root, EmbedTokens, Weight) }

  function AliasesFor(namespace: NamespaceBinding, ids: map<TensorName, nat>): (aliases: seq<AliasEntry>) {
    if namespace.lmHeadAliased && EmbeddingName(namespace.root) in ids
    then [AliasEntry(ALIAS_NAME, ids[EmbeddingName(namespace.root)], ALIAS_REASON)] else []
  }

  /** The result of compiling: the image holds exactly the bound tensors, in order, in one
      persistent and one segment per layer, with a plan built from the emitted ids. */
  ghost predicate IsCompilation(
    arch: TextArchitecture, namespace: NamespaceBinding, spec: ExecutionSpec, source: Checkpoint, image: CompiledImage)
  {
    var names := TableNames(AllBindings(spec));
    && AllPresent(source, names)
    && IsCompiled(image.manifest, image.files, BlobsOf(source, names))
    && Holds(image.manifest.tensorTable, BlobsOf(source, names), source, names)
    && |image.manifest.segments| == |spec.layers| + 1 && Partitioned(spec, image.manifest.segments)
    && SegmentsEntered(spec, image.manifest.tensorTable, |spec.layers| + 1)
    && image.manifest.aliasTable == AliasesFor(namespace, EmittedIds(spec.globals))
    && IsPlanFor(arch, namespace, EmittedIds(AllBindings(spec)), image.manifest.executionPlan)
    && image.receipt == ReceiptFor(image.manifest)
  }

  lemma EmbeddingComesFirst(arch: TextArchitecture, root: string, q: Option<QuantizationMeta>, spec: ExecutionSpec)
    requires IsSpec(arch, root, q, spec)
    ensures spec.globals != [] && spec.globals[0].name == EmbeddingName(root)
  {
  }

  lemma FirstIsEmitted(bs: seq<TensorBinding>)
    requires bs != []
    ensures bs[0].name in EmittedIds(bs)
  {
    EmittedIdsFacts(bs);
  }

  /** For a tied output head, register its alias of the embedding. */
  method AliasHead(
    builder: ImageBuilder, namespace: NamespaceBinding, ids: map<TensorName, nat>,
    ghost source: Checkpoint, ghost names: seq<TensorName>)
    requires Emitting(builder, source, names, [], Persistent) && builder.aliases == []
    requires EmbeddingName(namespace.root) in ids
    modifies builder`aliases
    ensures Emitting(builder, source, names, [], Persistent) && builder.aliases == AliasesFor(namespace, ids)
  {
    if namespace.lmHeadAliased {
      builder.AddAlias(ALIAS_NAME, ids[EmbeddingName(namespace.root)], ALIAS_REASON);
    }
  }

  /** Emit the persistent segment and its alias. */
  method EmitGlobals(builder: ImageBuilder, namespace: NamespaceBinding, spec: ExecutionSpec, source: Checkpoint)
    returns (r: Result<map<TensorName, nat>, EmitError>)
    requires spec.globals != [] && spec.globals[0].name == EmbeddingName(namespace.root)
    requires Emitting(builder, source, [], [], Persistent) && builder.aliases == []
    modifies builder
    ensures r.Ok? <==> AllPresent(source, TableNames(spec.globals))
    ensures r.Ok? ==>
      && r.value == EmittedIds(BindingsUpto(spec, 0)) && Emitted(builder, source, spec, 0)
      && builder.aliases == AliasesFor(namespace, EmittedIds(spec.globals))
  {
    assert BindingsUpto(spec, 0) == spec.globals;
    r := EmitBindings(builder, source, [], spec.globals, [], Persistent, None, map[]);
    assert [] + spec.globals == spec.globals;
    if r.Ok? {
      FirstIsEmitted(spec.globals);
      AliasHead(builder, namespace, r.value, source, TableNames(spec.globals));
    }
  }

  /** Build the plan from the emitted ids, finalize, and write the receipt. */
  method FinishImage(
    builder: ImageBuilder, arch: TextArchitecture, namespace: NamespaceBinding, ghost spec: ExecutionSpec,
    ghost source: Checkpoint, ids: map<TensorName, nat>)
    returns (image: CompiledImage)
    requires ids == EmittedIds(AllBindings(spec))
    requires Emitted(builder, source, spec, |spec.layers|)
    requires builder.aliases == AliasesFor(namespace, EmittedIds(spec.globals))
    modifies builder
    ensures IsCompilation(arch, namespace, spec, source, image)
  {
    var plan := BuildExecutionPlan(arch, namespace, ids);
    assert spec.layers[..|spec.layers|] == spec.layers;
    ClosePartition(spec, builder, source, builder.segments);
    builder.SetExecutionPlan(plan);
    var manifest, files := builder.Finalize();
    image := CompiledImage(manifest, ReceiptFor(manifest), files);
  }

  /** Compile a checkpoint whose spec has been compiled. It fails exactly when a tensor the
      spec binds (or the scales or biases of a packed one) is missing from the checkpoint. */
  method CompileSequential(
    arch: TextArchitecture, namespace: NamespaceBinding, ghost q: Option<QuantizationMeta>, spec: ExecutionSpec,
    source: Checkpoint, identity: SourceIdentity)
    returns (r: Result<CompiledImage, EmitError>)
    requires IsSpec(arch, namespace.root, q, spec)
    ensures r.Ok? <==> AllPresent(source, TableNames(AllBindings(spec)))
    ensures r.Ok? ==> IsCompilation(arch, namespace, spec, source, r.value)
  {
    EmbeddingComesFirst(arch, namespace.root, q, spec);
    var builder := new ImageBuilder(arch, identity);
    builder.BeginSegment(Persistent, PersistentKind);
    var globals := EmitGlobals(builder, namespace, spec, source);
    if globals.Err? {
      if AllPresent(source, TableNames(AllBindings(spec))) {
        GlobalsPresent(source, spec);
      }
      return Err(globals.error);
    }
    var ids := EmitLayers(builder, source, spec, globals.value);
    if ids.Err? {
      return Err(ids.error);
    }
    var image := FinishImage(builder, arch, namespace, spec, source, ids.value);
    r := Ok(image);
  }

  lemma GlobalsPresent(source: Checkpoint, spec: ExecutionSpec)
    requires AllPresent(source, TableNames(AllBindings(spec)))
    ensures AllPresent(source, TableNames(spec.globals))
  {
    PrefixPresent(source, spec, 0);
    assert spec.globals + LayerBindings(spec.layers[..0]) == spec.globals;
  }

  // ── What a compiled image gives back ───────────────────────────────────────

  ghost predicate AllWeights(bs: seq<TensorBinding>) {
    forall i :: 0 <= i < |bs| ==> bs[i].name.part == Weight
  }

  ghost predicate Distinct(names: seq<TensorName>) {
    forall i, j :: 0 <= i < j < |names| ==> names[i] != names[j]
  }

  /** Every emitted name is a binding's name up to its part. */
  lemma {:induction false} EmittedStem(bs: seq<TensorBinding>, i: nat) returns (k: nat)
    requires AllWeights(bs) && i < |TableNames(bs)|
    ensures k < |bs| && TableNames(bs)[i].(part := Weight) == bs[k].name
  {
    var last := |bs| - 1;
    var before := TableNames(bs[..last]);
    if i < |before| {
      k := EmittedStem(bs[..last], i);
    } else {
      k := last;
      var ns := NamesEmitted(bs[last]);
      assert TableNames(bs)[i] == ns[i - |before|];
    }
  }

  /** Distinct bindings emit distinct names: no tensor is written twice. */
  lemma {:induction false} TableNamesDistinct(bs: seq<TensorBinding>)
    requires AllWeights(bs) && DistinctNames(bs)
    ensures Distinct(TableNames(bs))
  {
    if bs != [] {
      var last := |bs| - 1;
      var before, ns := TableNames(bs[..last]), NamesEmitted(bs[last]);
      TableNamesDistinct(bs[..last]);
      forall i, j | 0 <= i < |before| && 0 <= j < |ns| ensures before[i] != ns[j] {
        var k := EmittedStem(bs[..last], i);
        assert ns[j].(part := Weight) == bs[last].name;
        assert bs[k].name != bs[last].name;
      }
      DistinctAppend(before, ns);
    }
  }

  lemma DistinctAppend(xs: seq<TensorName>, ys: seq<TensorName>)
    requires Distinct(xs) && Distinct(ys)
    requires forall i, j :: 0 <= i < |xs| && 0 <= j < |ys| ==> xs[i] != ys[j]
    ensures Distinct(xs + ys)
  {
  }

  lemma {:induction false} LayerWeights(spec: ExecutionSpec, n: nat)
    requires n <= |spec.layers| && forall i :: 0 <= i < |spec.layers| ==> AllWeights(spec.layers[i].tensors)
    ensures AllWeights(LayerBindings(spec.layers[..n]))
  {
    if n > 0 {
      LayerWeights(spec, n - 1);
      assert spec.layers[..n][..n - 1] == spec.layers[..n - 1];
    }
  }

  lemma SpecWeights(arch: TextArchitecture, root: string, q: Option<QuantizationMeta>, spec: ExecutionSpec)
    requires IsSpec(arch, root, q, spec)
    ensures AllWeights(AllBindings(spec))
  {
    forall i | 0 <= i < |spec.layers| ensures AllWeights(spec.layers[i].tensors) {
      LayerTensorsAreWeights(arch, root, i, arch.layerTypes[i], GroupSize(q), Bits(q));
    }
    LayerWeights(spec, |spec.layers|);
    assert spec.layers[..|spec.layers|] == spec.layers;
  }

  lemma LayerTensorsAreWeights(arch: TextArchitecture, root: string, i: nat, kind: AttentionKind, gs: nat, bits: nat)
    requires PackingDefined(bits, gs)
    ensures AllWeights(LayerTensors(arch, root, i, kind, gs, bits))
  {
  }

  lemma SpecTableDistinct(arch: TextArchitecture, root: string, q: Option<QuantizationMeta>, spec: ExecutionSpec)
    requires IsSpec(arch, root, q, spec)
    ensures Distinct(TableNames(AllBindings(spec)))
  {
    SpecIsWellNamed(arch, root, q, spec);
    SpecNamesDistinct(spec, |spec.layers|);
    SpecWeights(arch, root, q, spec);
    assert spec.layers[..|spec.layers|] == spec.layers;
    TableNamesDistinct(AllBindings(spec));
  }

  lemma LayersAreIndexed(arch: TextArchitecture, root: string, q: Option<QuantizationMeta>, spec: ExecutionSpec)
    requires IsSpec(arch, root, q, spec)
    ensures forall i :: 0 <= i < |spec.layers| ==> spec.layers[i].index == i
  {
  }

  lemma ImageSegmentsDistinct(spec: ExecutionSpec, segments: seq<Segment>)
    requires forall i :: 0 <= i < |spec.layers| ==> spec.layers[i].index == i
    requires |segments| == |spec.layers| + 1 && Partitioned(spec, segments)
    ensures DistinctSegmentIds(segments)
  {
    forall j, k | 0 <= j < k < |segments| ensures segments[j].id != segments[k].id {
      assert SegmentHolds(spec, segments, j) && SegmentHolds(spec, segments, k);
    }
  }

  /** End to end: for every architecture and every checkpoint that compiles, verification accepts
      the written image, and reading any emitted tensor by name returns the checkpoint's bytes,
      type and shape. */
  lemma CompiledCheckpointReadsBack(
    arch: TextArchitecture, namespace: NamespaceBinding, q: Option<QuantizationMeta>, spec: ExecutionSpec,
    source: Checkpoint, image: CompiledImage, i: nat)
    requires IsSpec(arch, namespace.root, q, spec) && IsCompilation(arch, namespace, spec, source, image)
    requires i < |TableNames(AllBindings(spec))|
    ensures Accepts(image.manifest, image.receipt, image.files, false)
    ensures
      var name := TableNames(AllBindings(spec))[i];
      && name in source
      && TensorBytes(image.manifest, image.files, name)
           == Ok(TensorData(source[name].data, source[name].dtype, source[name].shape))
  {
    var m, names := image.manifest, TableNames(AllBindings(spec));
    var blobs := BlobsOf(source, names);
    AcceptsCompiledImages(m, image.files, blobs, false);
    SpecTableDistinct(arch, namespace.root, q, spec);
    LayersAreIndexed(arch, namespace.root, q, spec);
    ImageSegmentsDistinct(spec, m.segments);
    RoundTrip(m, image.files, blobs, i);
  }

  /** Ids recorded by name are positions in the tensor table. */
  lemma {:induction false} EmittedIdsIndexTable(bs: seq<TensorBinding>, name: TensorName)
    requires name in EmittedIds(bs)
    ensures EmittedIds(bs)[name] < |TableNames(bs)| && TableNames(bs)[EmittedIds(bs)[name]] == name
  {
    var last := |bs| - 1;
    var b := bs[last];
    if name == b.name {
      assert TableNames(bs)[WeightId(IdsUsed(bs[..last]), b)] == NamesEmitted(b)[TensorsEmitted(b) - 1];
    } else {
      EmittedIdsIndexTable(bs[..last], name);
    }
  }

  ghost predicate IdNames(table: seq<TensorEntry>, id: Option<nat>, name: TensorName) {
    id.Some? && id.value < |table| && table[id.value].name == name
  }

  /** A layer plan's ids all point at the tensors they are named after; a full-attention layer
      reads its values through the key projection. */
  ghost predicate PointsAtItsTensors(table: seq<TensorEntry>, root: string, i: nat, kind: AttentionKind, l: LayerPlan) {
    var name := (item: LayerItem) => LayerTensor(root, i, item, Weight);
    && IdNames(table, Some(l.qProj), name(QProj)) && IdNames(table, Some(l.kProj), name(KProj))
    && IdNames(table, Some(l.vProj), name(if kind.FullAttention? then KProj else VProj))
    && IdNames(table, Some(l.oProj), name(OProj))
    && IdNames(table, l.qNorm, name(QNorm)) && IdNames(table, l.kNorm, name(KNorm))
    && IdNames(table, Some(l.gateProj), name(GateProj)) && IdNames(table, Some(l.upProj), name(UpProj))
    && IdNames(table, Some(l.downProj), name(DownProj))
    && IdNames(table, Some(l.inputLayernorm), name(InputLayernorm))
    && IdNames(table, Some(l.postAttentionLayernorm), name(PostAttentionLayernorm))
  }

  lemma LayerPlanPoints(
    arch: TextArchitecture, root: string, ids: map<TensorName, nat>, table: seq<TensorEntry>, i: nat)
    requires i < |arch.layerTypes|
    requires forall item: LayerItem :: (item.VProj? ==> arch.layerTypes[i].SlidingAttention?) ==>
      IdNames(table, IdOf(ids, LayerTensor(root, i, item, Weight)), LayerTensor(root, i, item, Weight))
    ensures PointsAtItsTensors(table, root, i, arch.layerTypes[i], LayerPlanOf(arch, root, ids, i))
  {
    assert IdNames(table, IdOf(ids, LayerTensor(root, i, QProj, Weight)), LayerTensor(root, i, QProj, Weight));
    assert IdNames(table, IdOf(ids, LayerTensor(root, i, KProj, Weight)), LayerTensor(root, i, KProj, Weight));
    assert IdNames(table, IdOf(ids, LayerTensor(root, i, OProj, Weight)), LayerTensor(root, i, OProj, Weight));
    assert arch.layerTypes[i].SlidingAttention? ==>
      IdNames(table, IdOf(ids, LayerTensor(root, i, VProj, Weight)), LayerTensor(root, i, VProj, Weight));
  }

  /** The two traversals of the architecture meet in the manifest's table: the emitted plan's ids
      point at the tensors they are named after, in every layer of every compiled image. */
  lemma PlanPointsAtItsTensors(
    arch: TextArchitecture, namespace: NamespaceBinding, q: Option<QuantizationMeta>, spec: ExecutionSpec,
    source: Checkpoint, image: CompiledImage, i: nat)
    requires IsSpec(arch, namespace.root, q, spec) && IsCompilation(arch, namespace, spec, source, image)
    requires i < |arch.layerTypes|
    ensures i < |image.manifest.executionPlan.layers|
    ensures PointsAtItsTensors(
      image.manifest.tensorTable, namespace.root, i, arch.layerTypes[i], image.manifest.executionPlan.layers[i])
  {
    var ids, table := EmittedIds(AllBindings(spec)), image.manifest.tensorTable;
    forall item: LayerItem | item.VProj? ==> arch.layerTypes[i].SlidingAttention?
      ensures
        var name := LayerTensor(namespace.root, i, item, Weight);
        IdNames(table, IdOf(ids, name), name)
    {
      LayerItemEmitted(arch, namespace.root, q, spec, i, item);
      EmittedIdsIndexTable(AllBindings(spec), LayerTensor(namespace.root, i, item, Weight));
    }
    LayerPlanPoints(arch, namespace.root, ids, table, i);
  }
}

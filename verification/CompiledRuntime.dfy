/** Compiler and runtime together: what the runtime loads from a compiled image are the tensors
    that were compiled into it, and a session on such an image gives every handle back. */
module CompiledRuntime {
  import opened Common
  import opened Config
  import opened Registry
  import opened Leases
  import opened ImageManifest
  import opened ImageBuilder
  import opened ImageCompiler
  import opened ImageRuntime
  import Residency

  lemma {:induction false} EntryAt(table: seq<TensorEntry>, i: nat)
    requires i < |table| && forall j :: 0 <= j < i ==> table[j].id != table[i].id
    ensures FindEntry(table, table[i].id) == Some(table[i])
  {
    if i > 0 {
      EntryAt(table[1..], i - 1);
    }
  }

  /** The array of tensor `i`: its own bytes, decoded by its own entry. */
  function TensorArray<A>(image: Image<A>, blobs: seq<Bytes>, i: nat): (r: Option<Tensor<A>>)
    requires i < |blobs| == |image.manifest.tensorTable|
  {
    var t := image.manifest.tensorTable[i];
    match image.decode(blobs[i], t.storageDtype, t.physicalShape)
    case None => None
    case Some(item) => Some(Tensor(t.name, item))
  }

  ghost predicate Compiled<A>(image: Image<A>, blobs: seq<Bytes>) {
    IsCompiled(image.manifest, image.files, blobs) && DistinctSegmentIds(image.manifest.segments)
  }

  /** Reading a listed tensor from its segment file decodes exactly the bytes passed in for it. */
  lemma CompiledTensorReads<A>(image: Image<A>, blobs: seq<Bytes>, k: nat, j: nat)
    requires Compiled(image, blobs) && k < |image.manifest.segments| && j < |image.manifest.segments[k].tensorIds|
    ensures
      var m, i := image.manifest, image.manifest.segments[k].tensorIds[j];
      && i < |blobs| == |m.tensorTable| && m.segments[k].file in image.files
      && ReadTensor(image, image.files[m.segments[k].file], i) == TensorArray(image, blobs, i)
  {
    var m := image.manifest;
    var payloads :|
      image.files == FilesOf(payloads) && IsImage(m.segments, m.tensorTable, m.residencyPlan, payloads, blobs);
    assert ClosedSegment(k, m.segments[k], payloads[k], m.tensorTable, blobs);
    SliceReturnsBlob(m.segments, payloads, m.tensorTable, blobs, k, j);
    EntryAt(m.tensorTable, m.segments[k].tensorIds[j]);
  }

  lemma {:induction false} ReadableEnds<A>(image: Image<A>, bytes: Bytes, ids: seq<nat>)
    requires |Readable(image, bytes, ids)| < |ids|
    ensures ReadTensor(image, bytes, ids[|Readable(image, bytes, ids)|]).None?
  {
    var before := ids[..|ids| - 1];
    if |Readable(image, bytes, before)| < |before| {
      ReadableEnds(image, bytes, before);
    }
  }

  /** `ts` are the tensors `ids`, each decoded from the bytes that were compiled in, up to the
      first that does not decode. */
  ghost predicate Decoded<A>(image: Image<A>, blobs: seq<Bytes>, ids: seq<nat>, ts: seq<Tensor<A>>) {
    && |ts| <= |ids| && |blobs| == |image.manifest.tensorTable| && InRange(|blobs|, ids)
    && (forall j :: 0 <= j < |ts| ==> Some(ts[j]) == TensorArray(image, blobs, ids[j]))
    && (|ts| < |ids| ==> TensorArray(image, blobs, ids[|ts|]).None?)
  }

  lemma CompiledIdsInRange<A>(image: Image<A>, blobs: seq<Bytes>, k: nat)
    requires Compiled(image, blobs) && k < |image.manifest.segments|
    ensures |blobs| == |image.manifest.tensorTable| && InRange(|blobs|, image.manifest.segments[k].tensorIds)
    ensures image.manifest.segments[k].file in image.files
  {
    var m := image.manifest;
    var payloads :|
      image.files == FilesOf(payloads) && IsImage(m.segments, m.tensorTable, m.residencyPlan, payloads, blobs);
    assert ClosedSegment(k, m.segments[k], payloads[k], m.tensorTable, blobs);
  }

  /** Activating a segment of a compiled image yields its own tensors, decoded. */
  lemma CompiledSegmentReads<A>(image: Image<A>, blobs: seq<Bytes>, k: nat)
    requires Compiled(image, blobs) && k < |image.manifest.segments|
    ensures
      var read, ids := ReadSegment(image, image.manifest.segments[k].id), image.manifest.segments[k].tensorIds;
      Decoded(image, blobs, ids, read.tensors) && (read.complete <==> |read.tensors| == |ids|)
  {
    var m := image.manifest;
    CompiledIdsInRange(image, blobs, k);
    FindsFirstSegment(m.segments, k);
    var ids, bytes := m.segments[k].tensorIds, image.files[m.segments[k].file];
    var ts := Readable(image, bytes, ids);
    forall j | 0 <= j < |ts| ensures Some(ts[j]) == TensorArray(image, blobs, ids[j]) {
      ReadableAt(image, bytes, ids, j);
      CompiledTensorReads(image, blobs, k, j);
    }
    if |ts| < |ids| {
      ReadableEnds(image, bytes, ids);
      CompiledTensorReads(image, blobs, k, |ts|);
    }
  }

  // ── Which tensors a segment holds ──────────────────────────────────────────

  lemma {:induction false} TableNamesSplit(xs: seq<TensorBinding>, ys: seq<TensorBinding>)
    ensures TableNames(xs + ys) == TableNames(xs) + TableNames(ys)
  {
    if ys == [] {
      assert xs + ys == xs;
    } else {
      var init, b := ys[..|ys| - 1], ys[|ys| - 1];
      TableNamesSplit(xs, init);
      SplitLast(ys);
      AppendAssoc(xs, init, [b]);
      EmissionExtends(xs + init, b);
      EmissionExtends(init, b);
      AppendAssoc(TableNames(xs), TableNames(init), NamesEmitted(b));
    }
  }

  /** The names of the segments up to `k` are the names before it and its own. */
  lemma UptoSplits(spec: ExecutionSpec, k: nat)
    requires k <= |spec.layers|
    ensures TableNames(BindingsUpto(spec, k)) == NamesBefore(spec, k) + TableNames(SegmentBindings(spec, k))
  {
    if k == 0 {
      assert BindingsUpto(spec, 0) == spec.globals;
    } else {
      BindingsExtend(spec, k - 1);
      TableNamesSplit(BindingsUpto(spec, k - 1), spec.layers[k - 1].tensors);
    }
  }

  lemma {:induction false} UptoIsPrefix(spec: ExecutionSpec, k: nat)
    requires k <= |spec.layers|
    ensures TableNames(BindingsUpto(spec, k)) <= TableNames(AllBindings(spec))
    decreases |spec.layers| - k
  {
    if k == |spec.layers| {
      assert spec.layers[..k] == spec.layers;
    } else {
      UptoIsPrefix(spec, k + 1);
      UptoSplits(spec, k + 1);
      PrefixOfPrefix(
        TableNames(BindingsUpto(spec, k)), TableNames(SegmentBindings(spec, k + 1)), TableNames(AllBindings(spec)));
    }
  }

  lemma PrefixOfPrefix(a: seq<TensorName>, b: seq<TensorName>, all: seq<TensorName>)
    requires a + b <= all
    ensures a <= all
  {
  }

  /** Consecutive ids after `before` are the places of `own`. */
  lemma PlacesOf<T>(all: seq<T>, before: seq<T>, own: seq<T>, ids: seq<nat>)
    requires before + own <= all && |ids| == |own| && forall j :: 0 <= j < |ids| ==> ids[j] == |before| + j
    ensures forall j :: 0 <= j < |ids| ==> ids[j] < |all| && all[ids[j]] == own[j]
  {
    assert forall j :: 0 <= j < |own| ==> (before + own)[|before| + j] == own[j];
  }

  /** Segment `k` and those before it list as many ids as there are names up to it. */
  lemma ListedCount(spec: ExecutionSpec, segments: seq<Segment>, k: nat)
    requires Partitioned(spec, segments) && k < |segments|
    ensures |ListedIds(segments[..k])| == FirstId(spec, k)
    ensures |ListedIds(segments[..k + 1])| == FirstId(spec, k) + |TableNames(SegmentBindings(spec, k))|
  {
    assert SegmentHolds(spec, segments, k);
    UptoSplits(spec, k);
    if k > 0 {
      assert SegmentHolds(spec, segments, k - 1);
    } else {
      assert segments[..0] == [];
    }
  }

  lemma {:induction false} ListedPrefix(segments: seq<Segment>, k: nat, n: nat)
    requires k <= |segments| && ListedIds(segments) == Upto(n)
    ensures ListedIds(segments[..k]) == Upto(|ListedIds(segments[..k])|)
  {
    if k == |segments| {
      assert segments[..k] == segments;
    } else {
      ListedSplit(segments, n);
      var init := segments[..|segments| - 1];
      assert init[..k] == segments[..k];
      ListedPrefix(init, k, |ListedIds(init)|);
    }
  }

  /** Segment `k` lists exactly its own tensors' ids, in order. */
  lemma SegmentIdsAre(spec: ExecutionSpec, segments: seq<Segment>, n: nat, k: nat)
    requires Partitioned(spec, segments) && ListedIds(segments) == Upto(n) && k < |segments|
    ensures |segments[k].tensorIds| == |TableNames(SegmentBindings(spec, k))|
    ensures forall j :: 0 <= j < |segments[k].tensorIds| ==> segments[k].tensorIds[j] == FirstId(spec, k) + j
  {
    ListedPrefix(segments, k + 1, n);
    ListedSplit(segments[..k + 1], |ListedIds(segments[..k + 1])|);
    assert segments[..k + 1][..k] == segments[..k];
    ListedCount(spec, segments, k);
  }

  /** And these are the ids of its own names. */
  lemma SegmentNamesAre(spec: ExecutionSpec, segments: seq<Segment>, n: nat, k: nat)
    requires Partitioned(spec, segments) && ListedIds(segments) == Upto(n) && k < |segments|
    ensures
      var all, names, ids := TableNames(AllBindings(spec)), TableNames(SegmentBindings(spec, k)), segments[k].tensorIds;
      |ids| == |names| && forall j :: 0 <= j < |ids| ==> ids[j] < |all| && all[ids[j]] == names[j]
  {
    SegmentIdsAre(spec, segments, n, k);
    UptoSplits(spec, k);
    UptoIsPrefix(spec, k);
    PlacesOf(
      TableNames(AllBindings(spec)), NamesBefore(spec, k), TableNames(SegmentBindings(spec, k)), segments[k].tensorIds);
  }

  /** The checkpoint's own tensor of that name, decoded. */
  function CheckpointArray<A>(image: Image<A>, source: Checkpoint, name: TensorName): (r: Option<Tensor<A>>)
    requires name in source
  {
    match image.decode(source[name].data, source[name].dtype, source[name].shape)
    case None => None
    case Some(item) => Some(Tensor(name, item))
  }

  /** A read that yields exactly the checkpoint's tensors `names`, in order, decoded, up to the
      first that does not decode. */
  ghost predicate ReadsCheckpoint<A>(
    image: Image<A>, source: Checkpoint, names: seq<TensorName>, read: SegmentRead<A>)
  {
    && AllPresent(source, names)
    && |read.tensors| <= |names| && (read.complete <==> |read.tensors| == |names|)
    && (forall j :: 0 <= j < |read.tensors| ==> CheckpointArray(image, source, names[j]) == Some(read.tensors[j]))
    && (|read.tensors| < |names| ==> CheckpointArray(image, source, names[|read.tensors|]).None?)
  }

  /** An image made from a compiled checkpoint. */
  ghost predicate FromCheckpoint<A>(
    arch: TextArchitecture, namespace: NamespaceBinding, q: Option<QuantizationMeta>, spec: ExecutionSpec,
    source: Checkpoint, compiled: CompiledImage, image: Image<A>)
  {
    && IsSpec(arch, namespace.root, q, spec) && IsCompilation(arch, namespace, spec, source, compiled)
    && image.manifest == compiled.manifest && image.files == compiled.files
  }

  lemma TensorArrayIs<A>(image: Image<A>, source: Checkpoint, names: seq<TensorName>, i: nat)
    requires i < |names| && AllPresent(source, names)
    requires Holds(image.manifest.tensorTable, BlobsOf(source, names), source, names)
    ensures TensorArray(image, BlobsOf(source, names), i) == CheckpointArray(image, source, names[i])
  {
  }

  /** Segment `k` of a compiled checkpoint reads exactly the globals (k = 0) or layer k - 1. */
  lemma SegmentReadsCheckpoint<A>(
    arch: TextArchitecture, namespace: NamespaceBinding, q: Option<QuantizationMeta>, spec: ExecutionSpec,
    source: Checkpoint, compiled: CompiledImage, image: Image<A>, k: nat)
    requires FromCheckpoint(arch, namespace, q, spec, source, compiled, image) && k <= |spec.layers|
    ensures
      ReadsCheckpoint(
        image, source, TableNames(SegmentBindings(spec, k)), ReadSegment(image, ImageSegments(spec.layers)[k]))
  {
    CompiledIsDistinct(arch, namespace, q, spec, source, compiled);
    var m, all := image.manifest, TableNames(AllBindings(spec));
    var blobs := BlobsOf(source, all);
    assert SegmentHolds(spec, m.segments, k);
    CompiledSegmentReads(image, blobs, k);
    SegmentNamesAre(spec, m.segments, |all|, k);
    DecodedIsCheckpoint(image, source, all, TableNames(SegmentBindings(spec, k)), m.segments[k].tensorIds);
  }

  lemma DecodedIsCheckpoint<A>(
    image: Image<A>, source: Checkpoint, all: seq<TensorName>, names: seq<TensorName>, ids: seq<nat>)
    requires |ids| == |names| && forall j :: 0 <= j < |ids| ==> ids[j] < |all| && all[ids[j]] == names[j]
    requires AllPresent(source, all) && Holds(image.manifest.tensorTable, BlobsOf(source, all), source, all)
    ensures AllPresent(source, names)
    ensures forall j :: 0 <= j < |ids| ==>
      TensorArray(image, BlobsOf(source, all), ids[j]) == CheckpointArray(image, source, names[j])
  {
    forall j | 0 <= j < |ids|
      ensures names[j] in source
      ensures TensorArray(image, BlobsOf(source, all), ids[j]) == CheckpointArray(image, source, names[j])
    {
      TensorArrayIs(image, source, all, ids[j]);
    }
  }

  /** For every compiled checkpoint and every layer: what a lease on the layer holds is exactly that
      layer's tensors of the checkpoint. */
  lemma LayerReadsCheckpoint<A>(
    arch: TextArchitecture, namespace: NamespaceBinding, q: Option<QuantizationMeta>, spec: ExecutionSpec,
    source: Checkpoint, compiled: CompiledImage, image: Image<A>, i: nat)
    requires FromCheckpoint(arch, namespace, q, spec, source, compiled, image) && i < |spec.layers|
    ensures
      ReadsCheckpoint(image, source, TableNames(spec.layers[i].tensors), ReadSegment(image, LayerSegment(i)))
  {
    LayerSegmentIs(arch, namespace.root, q, spec, i);
    SegmentReadsCheckpoint(arch, namespace, q, spec, source, compiled, image, i + 1);
  }

  lemma LayerSegmentIs(arch: TextArchitecture, root: string, q: Option<QuantizationMeta>, spec: ExecutionSpec, i: nat)
    requires IsSpec(arch, root, q, spec) && i < |spec.layers|
    ensures ImageSegments(spec.layers)[i + 1] == LayerSegment(i)
    ensures SegmentBindings(spec, i + 1) == spec.layers[i].tensors
  {
    LayersAreIndexed(arch, root, q, spec);
  }

  function LayerIds(n: nat): (ids: seq<SegmentId>)
    ensures |ids| == n && forall i :: 0 <= i < n ==> ids[i] == LayerSegment(i)
  {
    seq(n, i requires 0 <= i < n => LayerSegment(i))
  }

  lemma LayerIdsLast(n: nat)
    ensures LayerIds(n + 1) == LayerIds(n) + [LayerSegment(n)]
  {
  }

  /** The id and kind of segment `k`. */
  lemma SegmentKindIs(spec: ExecutionSpec, segments: seq<Segment>, k: nat)
    requires Partitioned(spec, segments) && k < |segments|
    requires forall i :: 0 <= i < |spec.layers| ==> spec.layers[i].index == i
    ensures segments[k].id == (if k == 0 then Persistent else LayerSegment(k - 1))
    ensures segments[k].kind.LayerKind? <==> k > 0
  {
    assert SegmentHolds(spec, segments, k);
  }

  ghost predicate KindsAre(segments: seq<Segment>) {
    forall k :: 0 <= k < |segments| ==>
      && segments[k].id == (if k == 0 then Persistent else LayerSegment(k - 1))
      && (segments[k].kind.LayerKind? <==> k > 0)
  }

  lemma {:induction false} OnlyFirstPersistent(segments: seq<Segment>)
    requires KindsAre(segments) && segments != []
    ensures IdsOfKind(segments, false) == [Persistent] && IdsOfKind(segments, true) == LayerIds(|segments| - 1)
  {
    var init, s := segments[..|segments| - 1], segments[|segments| - 1];
    SplitLast(segments);
    ListsExtend(init, s);
    if init != [] {
      OnlyFirstPersistent(init);
      LayerIdsLast(|init| - 1);
    }
  }

  /** For every compiled checkpoint: one persistent segment, and one layer segment per layer. */
  lemma ResidencyIs(
    arch: TextArchitecture, namespace: NamespaceBinding, q: Option<QuantizationMeta>, spec: ExecutionSpec,
    source: Checkpoint, compiled: CompiledImage)
    requires IsSpec(arch, namespace.root, q, spec) && IsCompilation(arch, namespace, spec, source, compiled)
    ensures compiled.manifest.residencyPlan.persistentSegments == [Persistent]
    ensures compiled.manifest.residencyPlan.layerSegments == LayerIds(|spec.layers|)
  {
    var segments := compiled.manifest.segments;
    LayersAreIndexed(arch, namespace.root, q, spec);
    forall k | 0 <= k < |segments|
      ensures segments[k].id == (if k == 0 then Persistent else LayerSegment(k - 1))
      ensures segments[k].kind.LayerKind? <==> k > 0
    {
      SegmentKindIs(spec, segments, k);
    }
    OnlyFirstPersistent(segments);
  }

  lemma LayerSegmentFound(
    arch: TextArchitecture, namespace: NamespaceBinding, q: Option<QuantizationMeta>, spec: ExecutionSpec,
    source: Checkpoint, compiled: CompiledImage, i: nat)
    requires IsSpec(arch, namespace.root, q, spec) && IsCompilation(arch, namespace, spec, source, compiled)
    requires i < |spec.layers|
    ensures compiled.manifest.segments[i + 1].id == LayerSegment(i)
    ensures FindSegment(compiled.manifest.segments, LayerSegment(i)) == Some(compiled.manifest.segments[i + 1])
  {
    CompiledIsDistinct(arch, namespace, q, spec, source, compiled);
    LayersAreIndexed(arch, namespace.root, q, spec);
    SegmentKindIs(spec, compiled.manifest.segments, i + 1);
    FindsFirstSegment(compiled.manifest.segments, i + 1);
  }

  /** For every compiled checkpoint any two of its layers fit the admission estimate's layer window
      together. */
  lemma AnyTwoLayersFit(
    arch: TextArchitecture, namespace: NamespaceBinding, q: Option<QuantizationMeta>, spec: ExecutionSpec,
    source: Checkpoint, compiled: CompiledImage, i: nat, j: nat)
    requires IsSpec(arch, namespace.root, q, spec) && IsCompilation(arch, namespace, spec, source, compiled)
    requires i < j < |spec.layers|
    ensures
      compiled.manifest.segments[i + 1].byteSize + compiled.manifest.segments[j + 1].byteSize <=
      Residency.MaxLayerWindowBytes(compiled.manifest)
  {
    ResidencyIs(arch, namespace, q, spec, source, compiled);
    LayerSegmentFound(arch, namespace, q, spec, source, compiled, i);
    LayerSegmentFound(arch, namespace, q, spec, source, compiled, j);
    var blobs := BlobsOf(source, TableNames(AllBindings(spec)));
    Residency.TwoLayersFit(compiled.manifest, compiled.files, blobs, i, j);
  }

  /** For every compiled checkpoint: the persistent tensors are exactly its globals. */
  lemma PersistentReadsCheckpoint<A>(
    arch: TextArchitecture, namespace: NamespaceBinding, q: Option<QuantizationMeta>, spec: ExecutionSpec,
    source: Checkpoint, compiled: CompiledImage, image: Image<A>)
    requires FromCheckpoint(arch, namespace, q, spec, source, compiled, image)
    ensures ReadsCheckpoint(image, source, TableNames(spec.globals), PersistentTensors(image))
  {
    ResidencyIs(arch, namespace, q, spec, source, compiled);
    SegmentReadsCheckpoint(arch, namespace, q, spec, source, compiled, image, 0);
    ReadOneSegment(image, Persistent);
  }

  lemma {:induction false} ReadOneSegment<A>(image: Image<A>, id: SegmentId)
    ensures ReadPersistent(image, [id]) == ReadSegment(image, id)
  {
    assert [id][..0] == [];
    var read := ReadSegment(image, id);
    assert [] + read.tensors == read.tensors;
  }

  // ── Persistent tensors have distinct names ─────────────────────────────────

  /** For every compiled checkpoint: no two persistent tensors have the same name. */
  lemma PersistentNamesDistinct<A>(
    arch: TextArchitecture, namespace: NamespaceBinding, q: Option<QuantizationMeta>, spec: ExecutionSpec,
    source: Checkpoint, compiled: CompiledImage, image: Image<A>)
    requires FromCheckpoint(arch, namespace, q, spec, source, compiled, image)
    ensures DistinctTensors(PersistentTensors(image).tensors)
  {
    GlobalNamesDistinct(arch, namespace.root, q, spec);
    PersistentReadsCheckpoint(arch, namespace, q, spec, source, compiled, image);
    ReadNamesDistinct(image, source, TableNames(spec.globals), PersistentTensors(image));
  }

  lemma GlobalNamesDistinct(arch: TextArchitecture, root: string, q: Option<QuantizationMeta>, spec: ExecutionSpec)
    requires IsSpec(arch, root, q, spec)
    ensures Distinct(TableNames(spec.globals))
  {
    SpecTableDistinct(arch, root, q, spec);
    UptoIsPrefix(spec, 0);
    assert BindingsUpto(spec, 0) == spec.globals;
  }

  lemma ReadNamesDistinct<A>(image: Image<A>, source: Checkpoint, names: seq<TensorName>, read: SegmentRead<A>)
    requires ReadsCheckpoint(image, source, names, read) && Distinct(names)
    ensures DistinctTensors(read.tensors)
  {
    forall j | 0 <= j < |read.tensors| ensures read.tensors[j].name == names[j] {
      assert CheckpointArray(image, source, names[j]) == Some(read.tensors[j]);
    }
  }

  // ── Opening a compiled image ───────────────────────────────────────────────

  lemma NamedAmong<A>(ts: seq<Tensor<A>>, t: Tensor<A>)
    requires t in ts
    ensures t.name in Names(ts)
  {
    var i :| 0 <= i < |ts| && ts[i] == t;
    assert Names(ts)[i] == t.name;
  }

  /** A complete read of several segments is a complete read of each, and has all their tensors. */
  lemma {:induction false} CompleteReadHas<A>(image: Image<A>, ids: seq<SegmentId>, id: SegmentId, j: nat)
    requires id in ids && ReadPersistent(image, ids).complete
    ensures ReadSegment(image, id).complete
    ensures j < |ReadSegment(image, id).tensors| ==>
      ReadSegment(image, id).tensors[j] in ReadPersistent(image, ids).tensors
  {
    var last := |ids| - 1;
    if id != ids[last] {
      CompleteReadHas(image, ids[..last], id, j);
    }
  }

  /** Once the persistent segments are read to the end, each tensor they list is among those read. */
  lemma PersistentHolds<A>(image: Image<A>, blobs: seq<Bytes>, k: nat, j: nat)
    requires Compiled(image, blobs) && k < |image.manifest.segments| && j < |image.manifest.segments[k].tensorIds|
    requires image.manifest.segments[k].id in image.manifest.residencyPlan.persistentSegments
    requires PersistentTensors(image).complete
    ensures image.manifest.segments[k].tensorIds[j] < |image.manifest.tensorTable|
    ensures
      image.manifest.tensorTable[image.manifest.segments[k].tensorIds[j]].name in
      Names(PersistentTensors(image).tensors)
  {
    CompleteReadHas(image, image.manifest.residencyPlan.persistentSegments, image.manifest.segments[k].id, j);
    CompiledSegmentReads(image, blobs, k);
    NamedAmong(PersistentTensors(image).tensors, ReadSegment(image, image.manifest.segments[k].id).tensors[j]);
  }

  /** In particular every table entry of a persistent segment. */
  lemma PersistentTensorRead<A>(image: Image<A>, blobs: seq<Bytes>, i: nat)
    requires Compiled(image, blobs) && PersistentTensors(image).complete && i < |image.manifest.tensorTable|
    requires image.manifest.tensorTable[i].segment in image.manifest.residencyPlan.persistentSegments
    ensures image.manifest.tensorTable[i].name in Names(PersistentTensors(image).tensors)
    ensures FindEntry(image.manifest.tensorTable, i) == Some(image.manifest.tensorTable[i])
  {
    var m := image.manifest;
    var payloads :|
      image.files == FilesOf(payloads) && IsImage(m.segments, m.tensorTable, m.residencyPlan, payloads, blobs);
    assert Upto(|blobs|)[i] == i;
    var k, j := ListedSomewhere(m.segments, i);
    SliceReturnsBlob(m.segments, payloads, m.tensorTable, blobs, k, j);
    PersistentHolds(image, blobs, k, j);
    EntryAt(m.tensorTable, i);
  }

  /** For every checkpoint: the image compiled from it opens exactly if its persistent tensors
      decode. Rebuilding the quantized bindings never fails on it. */
  lemma CompiledOpensIff<A>(
    arch: TextArchitecture, namespace: NamespaceBinding, q: Option<QuantizationMeta>, spec: ExecutionSpec,
    source: Checkpoint, compiled: CompiledImage, image: Image<A>)
    requires FromCheckpoint(arch, namespace, q, spec, source, compiled, image)
    ensures Opens(image) <==> PersistentTensors(image).complete
  {
    CompiledIsDistinct(arch, namespace, q, spec, source, compiled);
    if PersistentTensors(image).complete {
      var blobs := BlobsOf(source, TableNames(AllBindings(spec)));
      DescribedResolves(image, blobs);
    }
  }

  lemma DescribedResolves<A>(image: Image<A>, blobs: seq<Bytes>)
    requires Compiled(image, blobs) && PersistentTensors(image).complete && AllDescribed(image.manifest.tensorTable)
    ensures BindingsResolve(image.manifest, set n | n in Names(PersistentTensors(image).tensors))
  {
    var m, names := image.manifest, set n | n in Names(PersistentTensors(image).tensors);
    forall i | 0 <= i < |m.tensorTable| ensures BindingResolves(m, m.tensorTable[i], names) {
      var t := m.tensorTable[i];
      if t.segment in m.residencyPlan.persistentSegments && t.quantization.Some? {
        assert Describes(m.tensorTable, t.name, t.segment, t.quantization.value);
        PersistentTensorRead(image, blobs, i);
        PersistentTensorRead(image, blobs, t.quantization.value.scaleTensorId);
        PersistentTensorRead(image, blobs, t.quantization.value.biasTensorId);
      }
    }
  }

  /** For every checkpoint: a successful session on the image compiled from it leaves the handle
      registry exactly as it found it. */
  lemma CompiledSessionRestores<A, H, T>(
    arch: TextArchitecture, namespace: NamespaceBinding, q: Option<QuantizationMeta>, spec: ExecutionSpec,
    source: Checkpoint, compiled: CompiledImage, image: Image<A>, r: State<A>, exec: Executor<A, H, T>,
    freed: seq<Handle>, n: nat)
    requires FromCheckpoint(arch, namespace, q, spec, source, compiled, image)
    requires SessionFits(r, image, PersistentTensors(image).tensors, n)
    requires EvalModel(image, exec, ArraysOf(PersistentTensors(image).tensors)).Ok?
    requires
      var ts := PersistentTensors(image).tensors;
      Elements(freed) == HandleMap(Names(ts), NewHandles(r, Items(ts))).Values
    ensures Bindings(RunFrom(r, SessionOps(r, image, exec, PersistentTensors(image).tensors, freed))) == Bindings(r)
  {
    PersistentNamesDistinct(arch, namespace, q, spec, source, compiled, image);
    SessionRestoresIff(r, image, exec, PersistentTensors(image).tensors, freed, n);
  }

  lemma CompiledIsDistinct(
    arch: TextArchitecture, namespace: NamespaceBinding, q: Option<QuantizationMeta>, spec: ExecutionSpec,
    source: Checkpoint, compiled: CompiledImage)
    requires IsSpec(arch, namespace.root, q, spec) && IsCompilation(arch, namespace, spec, source, compiled)
    ensures DistinctSegmentIds(compiled.manifest.segments)
  {
    LayersAreIndexed(arch, namespace.root, q, spec);
    ImageSegmentsDistinct(spec, compiled.manifest.segments);
  }
}

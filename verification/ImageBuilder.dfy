/** The image builder and the reader: tensors are appended to segments, and reading a tensor
    back by its table entry returns the bytes that went in. */
module ImageBuilder {
  import opened Common
  import opened Config
  import opened ImageManifest

  // ── Tiling ─────────────────────────────────────────────────────────────────

  ghost predicate InRange(n: nat, ids: seq<nat>) { forall j :: 0 <= j < |ids| ==> ids[j] < n }

  /** The bytes of the tensors `ids`, one after another. */
  ghost function Concat(blobs: seq<Bytes>, ids: seq<nat>): (b: Bytes)
    requires InRange(|blobs|, ids)
  {
    if ids == [] then [] else Concat(blobs, ids[..|ids| - 1]) + blobs[ids[|ids| - 1]]
  }

  /** A payload is exactly its tensors in order: the j-th starts where the j-1 before it end,
      so there is no gap and no overlap. */
  ghost predicate Tiled(tensors: seq<TensorEntry>, blobs: seq<Bytes>, id: SegmentId, ids: seq<nat>, payload: Bytes) {
    && |tensors| == |blobs|
    && InRange(|blobs|, ids)
    && payload == Concat(blobs, ids)
    && forall j :: 0 <= j < |ids| ==> TileAt(tensors, blobs, id, ids, j)
  }

  /** The j-th tensor of a segment: its owner, its length, and its offset. */
  ghost predicate TileAt(tensors: seq<TensorEntry>, blobs: seq<Bytes>, id: SegmentId, ids: seq<nat>, j: nat)
    requires |tensors| == |blobs| && InRange(|blobs|, ids) && j < |ids|
  {
    var t := tensors[ids[j]];
    && t.segment == id
    && t.byteLength == |blobs[ids[j]]|
    && t.offset == |Concat(blobs, ids[..j])|
  }

  lemma {:induction false} ConcatStable(blobs: seq<Bytes>, more: seq<Bytes>, ids: seq<nat>)
    requires InRange(|blobs|, ids)
    ensures InRange(|blobs + more|, ids) && Concat(blobs + more, ids) == Concat(blobs, ids)
  {
    if ids != [] {
      ConcatStable(blobs, more, ids[..|ids| - 1]);
    }
  }

  lemma {:induction false} ConcatPrefix(blobs: seq<Bytes>, ids: seq<nat>, j: nat)
    requires InRange(|blobs|, ids) && j < |ids|
    ensures
      var start := |Concat(blobs, ids[..j])|;
      var end := start + |blobs[ids[j]]|;
      end <= |Concat(blobs, ids)| && Concat(blobs, ids)[start..end] == blobs[ids[j]]
  {
    var last := |ids| - 1;
    if j < last {
      ConcatPrefix(blobs, ids[..last], j);
      assert ids[..last][..j] == ids[..j];
      assert Concat(blobs, ids) == Concat(blobs, ids[..last]) + blobs[ids[last]];
    }
  }

  /** Adding tensors elsewhere does not disturb a tiled payload. */
  lemma TiledStable(
    tensors: seq<TensorEntry>, blobs: seq<Bytes>, id: SegmentId, ids: seq<nat>, payload: Bytes,
    t: TensorEntry, b: Bytes)
    requires Tiled(tensors, blobs, id, ids, payload)
    ensures Tiled(tensors + [t], blobs + [b], id, ids, payload)
  {
    ConcatStable(blobs, [b], ids);
    forall j | 0 <= j < |ids| ensures TileAt(tensors + [t], blobs + [b], id, ids, j) {
      assert TileAt(tensors, blobs, id, ids, j);
      ConcatStable(blobs, [b], ids[..j]);
    }
  }

  /** Appending a tensor at the end of a payload keeps it tiled. */
  lemma TiledExtends(
    tensors: seq<TensorEntry>, blobs: seq<Bytes>, id: SegmentId, ids: seq<nat>, payload: Bytes,
    t: TensorEntry, b: Bytes)
    requires Tiled(tensors, blobs, id, ids, payload)
    requires t.segment == id && t.offset == |payload| && t.byteLength == |b|
    ensures Tiled(tensors + [t], blobs + [b], id, ids + [|tensors|], payload + b)
  {
    TiledStable(tensors, blobs, id, ids, payload, t, b);
    var longer := ids + [|tensors|];
    assert longer[..|ids|] == ids;
    forall j | 0 <= j < |longer| ensures TileAt(tensors + [t], blobs + [b], id, longer, j) {
      assert longer[..j] == ids[..j];
      assert j < |ids| ==> TileAt(tensors + [t], blobs + [b], id, ids, j);
      assert ids[..|ids|] == ids;
    }
  }

  // ── Dense ids ──────────────────────────────────────────────────────────────

  function Upto(n: nat): (ids: seq<nat>)
    ensures |ids| == n && forall i :: 0 <= i < n ==> ids[i] == i
  {
    seq(n, i => i)
  }

  /** The tensor ids of all segments, in order. */
  function ListedIds(segments: seq<Segment>): (ids: seq<nat>) {
    if segments == [] then [] else ListedIds(segments[..|segments| - 1]) + segments[|segments| - 1].tensorIds
  }

  // ── Residency ──────────────────────────────────────────────────────────────

  function IdsOfKind(segments: seq<Segment>, layer: bool): (ids: seq<SegmentId>) {
    if segments == [] then []
    else
      var s := segments[|segments| - 1];
      IdsOfKind(segments[..|segments| - 1], layer) + (if s.kind.LayerKind? == layer then [s.id] else [])
  }

  lemma ListsExtend(segments: seq<Segment>, s: Segment)
    ensures ListedIds(segments + [s]) == ListedIds(segments) + s.tensorIds
    ensures IdsOfKind(segments + [s], true) == IdsOfKind(segments, true) + (if s.kind.LayerKind? then [s.id] else [])
    ensures IdsOfKind(segments + [s], false) == IdsOfKind(segments, false) + (if s.kind.LayerKind? then [] else [s.id])
  {
    var longer := segments + [s];
    assert longer[..|segments|] == segments;
  }

  // ── Closed segments ────────────────────────────────────────────────────────

  ghost predicate ClosedSegment(
    k: nat, s: Segment, payload: Bytes, tensors: seq<TensorEntry>, blobs: seq<Bytes>)
  {
    && s.file == k
    && s.byteSize == |payload|
    && s.sha256 == Sha256(payload) && s.alignmentBytes == 4096
    && Tiled(tensors, blobs, s.id, s.tensorIds, payload)
  }

  /** Every closed segment records the size and digest of its payload, which its tensors tile. */
  ghost predicate Closed(
    segments: seq<Segment>, payloads: seq<Bytes>, tensors: seq<TensorEntry>, blobs: seq<Bytes>)
  {
    && |payloads| == |segments|
    && forall k :: 0 <= k < |segments| ==> ClosedSegment(k, segments[k], payloads[k], tensors, blobs)
  }

  lemma ClosedStable(
    segments: seq<Segment>, payloads: seq<Bytes>, tensors: seq<TensorEntry>, blobs: seq<Bytes>, t: TensorEntry,
    b: Bytes)
    requires Closed(segments, payloads, tensors, blobs)
    ensures Closed(segments, payloads, tensors + [t], blobs + [b])
  {
    forall k | 0 <= k < |segments|
      ensures ClosedSegment(k, segments[k], payloads[k], tensors + [t], blobs + [b])
    {
      TiledStable(tensors, blobs, segments[k].id, segments[k].tensorIds, payloads[k], t, b);
    }
  }

  lemma ClosedExtends(
    segments: seq<Segment>, payloads: seq<Bytes>, tensors: seq<TensorEntry>, blobs: seq<Bytes>, s: Segment, p: Bytes)
    requires Closed(segments, payloads, tensors, blobs) && ClosedSegment(|segments|, s, p, tensors, blobs)
    ensures Closed(segments + [s], payloads + [p], tensors, blobs)
  {
  }

  lemma DenseExtends(closed: seq<nat>, open: seq<nat>, n: nat)
    requires closed + open == Upto(n)
    ensures closed + (open + [n]) == Upto(n + 1)
  {
    assert closed + (open + [n]) == (closed + open) + [n];
  }

  ghost predicate DenseIds(tensors: seq<TensorEntry>) { forall i :: 0 <= i < |tensors| ==> tensors[i].id == i }

  // ── The finished image ─────────────────────────────────────────────────────

  /** Manifest tables and files describe the tensors `blobs`, in id order. */
  ghost predicate IsImage(
    segments: seq<Segment>, tensors: seq<TensorEntry>, residency: ResidencyPlan, payloads: seq<Bytes>,
    blobs: seq<Bytes>)
  {
    && |tensors| == |blobs|
    && DenseIds(tensors)
    && ListedIds(segments) == Upto(|tensors|)
    && Closed(segments, payloads, tensors, blobs)
    && residency.persistentSegments == IdsOfKind(segments, false)
    && residency.layerSegments == IdsOfKind(segments, true)
  }

  datatype SegmentBuilder = SegmentBuilder(
    id: SegmentId, file: nat, kind: SegmentKind, data: Bytes, tensorIds: seq<nat>, offset: nat)

  /** What the builder is told about a tensor besides its bytes. */
  datatype TensorInfo = TensorInfo(
    name: TensorName, role: EntryRole, layer: Option<nat>, storageDtype: string, logicalShape: seq<nat>,
    physicalShape: seq<nat>, quantization: Option<QuantizationDesc>)

  /** What the tables, payloads and the open segment say about the tensors added so far. Ids in
      closed segments and then in the open one are, in order, 0, 1, 2, ... */
  ghost predicate Coherent(
    current: Option<SegmentBuilder>, segments: seq<Segment>, payloads: seq<Bytes>, tensors: seq<TensorEntry>,
    blobs: seq<Bytes>, persistent: seq<SegmentId>, layer: seq<SegmentId>)
  {
    && |tensors| == |blobs|
    && DenseIds(tensors)
    && (current.None? ==> ListedIds(segments) == Upto(|tensors|))
    && (current.Some? ==> ListedIds(segments) + current.value.tensorIds == Upto(|tensors|))
    && Closed(segments, payloads, tensors, blobs)
    && persistent == IdsOfKind(segments, false)
    && layer == IdsOfKind(segments, true)
    && (current.Some? ==> OpenSegment(current.value, |segments|, tensors, blobs))
  }

  ghost predicate OpenSegment(s: SegmentBuilder, k: nat, tensors: seq<TensorEntry>, blobs: seq<Bytes>) {
    && s.file == k
    && s.offset == |s.data|
    && Tiled(tensors, blobs, s.id, s.tensorIds, s.data)
  }

  function CloseSegment(s: SegmentBuilder): (c: Segment) {
    Segment(s.id, s.file, |s.data|, Sha256(s.data), s.tensorIds, s.kind, 4096)
  }

  /** The closed segments once the open one, if any, is closed too. */
  function Closing(segments: seq<Segment>, current: Option<SegmentBuilder>): (r: seq<Segment>) {
    if current.Some? then segments + [CloseSegment(current.value)] else segments
  }

  lemma FlushKeepsCoherent(
    seg: SegmentBuilder, segments: seq<Segment>, payloads: seq<Bytes>, tensors: seq<TensorEntry>,
    blobs: seq<Bytes>, persistent: seq<SegmentId>, layer: seq<SegmentId>,
    persistent': seq<SegmentId>, layer': seq<SegmentId>)
    requires Coherent(Some(seg), segments, payloads, tensors, blobs, persistent, layer)
    requires persistent' == if seg.kind.LayerKind? then persistent else persistent + [seg.id]
    requires layer' == if seg.kind.LayerKind? then layer + [seg.id] else layer
    ensures Coherent(None, segments + [CloseSegment(seg)], payloads + [seg.data], tensors, blobs, persistent', layer')
  {
    ListsExtend(segments, CloseSegment(seg));
    ClosedExtends(segments, payloads, tensors, blobs, CloseSegment(seg), seg.data);
    assert persistent + [] == persistent && layer + [] == layer;
  }

  lemma AddKeepsCoherent(
    seg: SegmentBuilder, segments: seq<Segment>, payloads: seq<Bytes>, tensors: seq<TensorEntry>,
    blobs: seq<Bytes>, persistent: seq<SegmentId>, layer: seq<SegmentId>, t: TensorEntry, data: Bytes)
    requires Coherent(Some(seg), segments, payloads, tensors, blobs, persistent, layer)
    requires t.id == |tensors| && t.segment == seg.id && t.offset == seg.offset && t.byteLength == |data|
    ensures
      var grown := seg.(data := seg.data + data, offset := seg.offset + |data|, tensorIds := seg.tensorIds + [t.id]);
      Coherent(Some(grown), segments, payloads, tensors + [t], blobs + [data], persistent, layer)
  {
    ClosedStable(segments, payloads, tensors, blobs, t, data);
    TiledExtends(tensors, blobs, seg.id, seg.tensorIds, seg.data, t, data);
    DenseExtends(ListedIds(segments), seg.tensorIds, t.id);
  }

  class ImageBuilder {
    const architecture: TextArchitecture
    const source: SourceIdentity
    var executionPlan: Option<ModelExecutionPlan>
    var nextTensorId: nat
    var current: Option<SegmentBuilder>
    var segments: seq<Segment>
    var payloads: seq<Bytes>
    var tensors: seq<TensorEntry>
    var aliases: seq<AliasEntry>
    var persistentSegments: seq<SegmentId>
    var layerSegments: seq<SegmentId>
    ghost var blobs: seq<Bytes>  // the bytes passed in, by tensor id

    ghost predicate Valid()
      reads this
    {
      && nextTensorId == |tensors|
      && Coherent(current, segments, payloads, tensors, blobs, persistentSegments, layerSegments)
    }

    constructor (architecture: TextArchitecture, source: SourceIdentity)
      ensures Valid() && this.architecture == architecture && this.source == source
      ensures tensors == [] && blobs == [] && segments == [] && aliases == [] && current.None?
      ensures executionPlan.None?
    {
      this.architecture, this.source := architecture, source;
      executionPlan := None;
      nextTensorId, current := 0, None;
      segments, payloads, tensors, aliases := [], [], [], [];
      persistentSegments, layerSegments := [], [];
      blobs := [];
    }

    /** Close the open segment: hash it, append its payload, and list it for residency. */
    method FlushSegment()
      requires Valid()
      modifies this
      ensures Valid() && current.None?
      ensures tensors == old(tensors) && blobs == old(blobs) && aliases == old(aliases)
      ensures executionPlan == old(executionPlan)
      ensures segments == old(Closing(segments, current))
    {
      if current.Some? {
        var seg := current.value;
        ghost var before, written, persistent, layer := segments, payloads, persistentSegments, layerSegments;
        current := None;
        payloads := payloads + [seg.data];
        segments := segments + [CloseSegment(seg)];
        match seg.kind {
          case LayerKind(_) => layerSegments := layerSegments + [seg.id];
          case _ => persistentSegments := persistentSegments + [seg.id];
        }
        FlushKeepsCoherent(seg, before, written, tensors, blobs, persistent, layer, persistentSegments, layerSegments);
      }
    }

    /** Start a new segment, closing the previous one. */
    method BeginSegment(id: SegmentId, kind: SegmentKind)
      requires Valid()
      modifies this
      ensures Valid() && current.Some? && current.value.id == id && current.value.kind == kind
      ensures current.value.data == []
      ensures tensors == old(tensors) && blobs == old(blobs) && aliases == old(aliases)
      ensures executionPlan == old(executionPlan)
      ensures segments == old(Closing(segments, current))
    {
      FlushSegment();
      current := Some(SegmentBuilder(id, |segments|, kind, [], [], 0));
    }

    /** Append a tensor to the open segment; the source panics if none is open. */
    method AddTensor(info: TensorInfo, data: Bytes) returns (id: nat)
      requires Valid() && current.Some?
      modifies this
      ensures Valid() && id == |old(tensors)|
      ensures blobs == old(blobs) + [data]
      ensures |tensors| == |old(tensors)| + 1 && tensors[..id] == old(tensors)
      ensures
        var t := tensors[id];
        && t.name == info.name && t.quantization == info.quantization && t.layer == info.layer && t.role == info.role
        && t.storageDtype == info.storageDtype && t.physicalShape == info.physicalShape
        && t.logicalShape == info.logicalShape && t.segment == old(current).value.id
        && t.tensorAlignmentBytes == 16
      ensures current.Some? && current.value.id == old(current).value.id
      ensures current.value.kind == old(current).value.kind
      ensures segments == old(segments) && payloads == old(payloads) && aliases == old(aliases)
      ensures executionPlan == old(executionPlan)
    {
      var seg := current.value;
      id := nextTensorId;
      var t := TensorEntry(
        id, info.name, info.role, info.layer, seg.id, seg.offset, |data|, info.storageDtype, info.logicalShape,
        info.physicalShape, info.quantization, 16);
      AddKeepsCoherent(seg, segments, payloads, tensors, blobs, persistentSegments, layerSegments, t, data);
      nextTensorId := nextTensorId + 1;
      current := Some(seg.(
        data := seg.data + data, offset := seg.offset + |data|, tensorIds := seg.tensorIds + [id]));
      tensors := tensors + [t];
      blobs := blobs + [data];
    }

    method AddAlias(logicalName: TensorName, physicalTensorId: nat, reason: string)
      requires Valid()
      modifies this`aliases
      ensures Valid() && aliases == old(aliases) + [AliasEntry(logicalName, physicalTensorId, reason)]
    {
      aliases := aliases + [AliasEntry(logicalName, physicalTensorId, reason)];
    }

    method SetExecutionPlan(plan: ModelExecutionPlan)
      requires Valid()
      modifies this`executionPlan
      ensures Valid() && executionPlan == Some(plan)
    {
      executionPlan := Some(plan);
    }

    /** Close the last segment, write the segment files and return the manifest. Writing is
        taken to succeed; `files` is what is on disk afterwards. */
    method Finalize() returns (m: Manifest, files: Files)
      requires Valid()
      modifies this
      ensures IsCompiled(m, files, blobs)
      ensures blobs == old(blobs) && m.tensorTable == old(tensors) && m.aliasTable == old(aliases)
      ensures m.architecture == architecture && m.source == source
      ensures m.runtimeAbi == "mlx-rs/0.21.0 napi-rs/3.9.0 safetensors/0.5.3" && m.compilerVersion == "0.1.0"
      ensures m.imageVersion == "0.1.0" && m.requiredCapabilities == [] && m.prepackedLayout == "none"
      ensures
        m.executionPlan ==
        old(if executionPlan.Some? then executionPlan.value else ModelExecutionPlan(0, [], 0, None, 0, 0, 0))
      ensures m.segments == old(Closing(segments, current))
    {
      FlushSegment();
      files := WriteSegments(segments, payloads);
      var total := TotalSize(segments);
      m := Manifest(
        "0.1.0", "0.1.0", "mlx-rs/0.21.0 napi-rs/3.9.0 safetensors/0.5.3", source, architecture,
        segments, tensors, aliases, ResidencyPlan(persistentSegments, layerSegments, 2, total),
        NoHash, "copied-v0", [], "none",
        if executionPlan.Some? then executionPlan.value else DEFAULT_PLAN);
      m := m.(imageHash := ComputeManifestHash(m));
    }
  }

  const DEFAULT_PLAN: ModelExecutionPlan := ModelExecutionPlan(0, [], 0, None, 0, 0, 0)

  method WriteSegments(segments: seq<Segment>, payloads: seq<Bytes>) returns (files: Files)
    requires |payloads| == |segments|
    requires forall k :: 0 <= k < |segments| ==> segments[k].file == k
    ensures files == FilesOf(payloads)
  {
    files := map[];
    for k := 0 to |segments|
      invariant files == FilesOf(payloads[..k])
    {
      files := files[segments[k].file := payloads[k]];
    }
    assert payloads[..|segments|] == payloads;
  }

  method TotalSize(segments: seq<Segment>) returns (total: nat)
    ensures total == SumSizes(segments)
  {
    total := 0;
    for k := 0 to |segments|
      invariant total == SumSizes(segments[..k])
    {
      assert segments[..k + 1][..k] == segments[..k];
      total := total + segments[k].byteSize;
    }
    assert segments[..|segments|] == segments;
  }

  function FilesOf(payloads: seq<Bytes>): (files: Files) {
    map k | 0 <= k < |payloads| :: payloads[k]
  }

  /** A compiled image: tables and files describe `blobs`, the totals add up, and the hash is
      that of the fingerprinted fields. */
  ghost predicate IsCompiled(m: Manifest, files: Files, blobs: seq<Bytes>) {
    && (exists payloads ::
          files == FilesOf(payloads) && IsImage(m.segments, m.tensorTable, m.residencyPlan, payloads, blobs))
    && m.residencyPlan.totalBytes == SumSizes(m.segments)
    && m.residencyPlan.layerWindowSize == 2
    && m.imageHash == ComputeManifestHash(m)
    && m.requiredStorageAbi == "copied-v0"
  }

  // ── Totals and residency ───────────────────────────────────────────────────

  lemma {:induction false} SumLengthsSplit(xs: seq<Bytes>, ys: seq<Bytes>)
    ensures SumLengths(xs + ys) == SumLengths(xs) + SumLengths(ys)
  {
    if ys == [] {
      assert xs + ys == xs;
    } else {
      SumLengthsSplit(xs, ys[..|ys| - 1]);
      assert (xs + ys)[..|xs + ys| - 1] == xs + ys[..|ys| - 1];
    }
  }

  /** A payload whose tensors are the ids from `lo` on is as long as those tensors together. */
  lemma {:induction false} ConcatLength(blobs: seq<Bytes>, lo: nat, ids: seq<nat>)
    requires lo + |ids| <= |blobs| && forall j :: 0 <= j < |ids| ==> ids[j] == lo + j
    ensures InRange(|blobs|, ids) && |Concat(blobs, ids)| == SumLengths(blobs[lo..lo + |ids|])
  {
    if ids != [] {
      var n := |ids| - 1;
      ConcatLength(blobs, lo, ids[..n]);
      assert blobs[lo..lo + n + 1][..n] == blobs[lo..lo + n];
    }
  }

  lemma {:induction false} SizesAreLengths(
    segments: seq<Segment>, payloads: seq<Bytes>, tensors: seq<TensorEntry>, blobs: seq<Bytes>, n: nat)
    requires Closed(segments, payloads, tensors, blobs) && n <= |blobs| && ListedIds(segments) == Upto(n)
    ensures SumSizes(segments) == SumLengths(blobs[..n])
  {
    if segments != [] {
      var last := |segments| - 1;
      var m := |ListedIds(segments[..last])|;
      ListedSplit(segments, n);
      ClosedPrefix(segments, payloads, tensors, blobs);
      SizesAreLengths(segments[..last], payloads[..last], tensors, blobs, m);
      ConcatLength(blobs, m, segments[last].tensorIds);
      SumLengthsSplit(blobs[..m], blobs[m..n]);
      assert blobs[..m] + blobs[m..n] == blobs[..n];
    }
  }

  /** Dense ids: the last segment lists the ids that follow those of the segments before it. */
  lemma ListedSplit(segments: seq<Segment>, n: nat)
    requires segments != [] && ListedIds(segments) == Upto(n)
    ensures
      var last := |segments| - 1;
      var m, ids := |ListedIds(segments[..last])|, segments[last].tensorIds;
      && ListedIds(segments[..last]) == Upto(m)
      && n == m + |ids|
      && forall j :: 0 <= j < |ids| ==> ids[j] == m + j
  {
    var last := |segments| - 1;
    UptoSplit(ListedIds(segments[..last]), segments[last].tensorIds, n);
  }

  lemma UptoSplit(xs: seq<nat>, ys: seq<nat>, n: nat)
    requires xs + ys == Upto(n)
    ensures xs == Upto(|xs|) && n == |xs| + |ys|
    ensures forall j :: 0 <= j < |ys| ==> ys[j] == |xs| + j
  {
    assert |xs + ys| == n;
    assert forall j :: 0 <= j < |xs| ==> xs[j] == (xs + ys)[j];
    assert forall j :: 0 <= j < |ys| ==> ys[j] == (xs + ys)[|xs| + j];
  }

  lemma ClosedPrefix(segments: seq<Segment>, payloads: seq<Bytes>, tensors: seq<TensorEntry>, blobs: seq<Bytes>)
    requires Closed(segments, payloads, tensors, blobs) && segments != []
    ensures
      var last := |segments| - 1;
      && Closed(segments[..last], payloads[..last], tensors, blobs)
      && ClosedSegment(last, segments[last], payloads[last], tensors, blobs)
  {
  }

  /** Conservation: the image's total is the sum of the tensors passed in. */
  lemma TotalBytesConserved(m: Manifest, files: Files, blobs: seq<Bytes>)
    requires IsCompiled(m, files, blobs)
    ensures m.residencyPlan.totalBytes == SumLengths(blobs)
  {
    var payloads :| files == FilesOf(payloads) && IsImage(m.segments, m.tensorTable, m.residencyPlan, payloads, blobs);
    SizesAreLengths(m.segments, payloads, m.tensorTable, blobs, |blobs|);
    assert blobs[..|blobs|] == blobs;
  }

  function SegmentIdSeq(segments: seq<Segment>): (ids: seq<SegmentId>)
    ensures |ids| == |segments| && forall i :: 0 <= i < |ids| ==> ids[i] == segments[i].id
  {
    seq(|segments|, i requires 0 <= i < |segments| => segments[i].id)
  }

  /** The two residency lists partition the segments: together they hold every segment once. */
  lemma {:induction false} ResidencyPartitions(segments: seq<Segment>)
    ensures multiset(IdsOfKind(segments, false)) + multiset(IdsOfKind(segments, true)) ==
      multiset(SegmentIdSeq(segments))
  {
    if segments != [] {
      var init, s := segments[..|segments| - 1], segments[|segments| - 1];
      ResidencyPartitions(init);
      LastListed(segments, false);
      LastListed(segments, true);
      OneMoreId(
        IdsOfKind(init, false), IdsOfKind(init, true), SegmentIdSeq(init), s.id, s.kind.LayerKind?,
        IdsOfKind(segments, false), IdsOfKind(segments, true), SegmentIdSeq(segments));
    }
  }

  lemma {:induction false} LastListed(segments: seq<Segment>, layers: bool)
    requires segments != []
    ensures
      var init, s := segments[..|segments| - 1], segments[|segments| - 1];
      && SegmentIdSeq(segments) == SegmentIdSeq(init) + [s.id]
      && IdsOfKind(segments, layers) ==
        if s.kind.LayerKind? == layers then IdsOfKind(init, layers) + [s.id] else IdsOfKind(init, layers)
  {
  }

  lemma OneMoreId(
    a: seq<SegmentId>, b: seq<SegmentId>, all: seq<SegmentId>, id: SegmentId, second: bool,
    a': seq<SegmentId>, b': seq<SegmentId>, all': seq<SegmentId>)
    requires multiset(a) + multiset(b) == multiset(all) && all' == all + [id]
    requires if second then a' == a && b' == b + [id] else a' == a + [id] && b' == b
    ensures multiset(a') + multiset(b') == multiset(all')
  {
  }

  // ── Reading back ───────────────────────────────────────────────────────────

  datatype ReadError = TensorNotFound | SegmentNotFound | SegmentUnreadable | OutOfBounds

  /** The first entry with a given name, and the first segment with a given id. */
  function FindTensor(table: seq<TensorEntry>, name: TensorName): (r: Option<TensorEntry>)
    ensures r.Some? ==> r.value in table && r.value.name == name
  {
    if table == [] then None
    else if table[0].name == name then Some(table[0])
    else FindTensor(table[1..], name)
  }

  function FindSegment(segments: seq<Segment>, id: SegmentId): (r: Option<Segment>)
    ensures r.Some? ==> r.value in segments && r.value.id == id
  {
    if segments == [] then None
    else if segments[0].id == id then Some(segments[0])
    else FindSegment(segments[1..], id)
  }

  function SliceTensorBytes(segmentBytes: Bytes, entry: TensorEntry): (r: Result<Bytes, ReadError>)
    ensures r.Ok? <==> entry.offset + entry.byteLength <= |segmentBytes|
    ensures r.Ok? ==> |r.value| == entry.byteLength
  {
    if entry.offset + entry.byteLength > |segmentBytes| then Err(OutOfBounds)
    else Ok(segmentBytes[entry.offset..entry.offset + entry.byteLength])
  }

  datatype TensorData = TensorData(bytes: Bytes, storageDtype: string, physicalShape: seq<nat>)

  function TensorBytes(m: Manifest, files: Files, name: TensorName): (r: Result<TensorData, ReadError>) {
    match FindTensor(m.tensorTable, name)
    case None => Err(TensorNotFound)
    case Some(entry) =>
      match FindSegment(m.segments, entry.segment)
      case None => Err(SegmentNotFound)
      case Some(segment) =>
        if segment.file !in files then Err(SegmentUnreadable)
        else
          match SliceTensorBytes(files[segment.file], entry)
          case Err(e) => Err(e)
          case Ok(bytes) => Ok(TensorData(bytes, entry.storageDtype, entry.physicalShape))
  }

  lemma {:induction false} FindsFirstTensor(table: seq<TensorEntry>, i: nat)
    requires i < |table| && forall j :: 0 <= j < i ==> table[j].name != table[i].name
    ensures FindTensor(table, table[i].name) == Some(table[i])
  {
    if i > 0 {
      FindsFirstTensor(table[1..], i - 1);
    }
  }

  lemma {:induction false} FindsFirstSegment(segments: seq<Segment>, k: nat)
    requires k < |segments| && forall j :: 0 <= j < k ==> segments[j].id != segments[k].id
    ensures FindSegment(segments, segments[k].id) == Some(segments[k])
  {
    if k > 0 {
      FindsFirstSegment(segments[1..], k - 1);
    }
  }

  /** Dense ids: tensor `i` is listed by some segment. */
  lemma {:induction false} ListedSomewhere(segments: seq<Segment>, i: nat) returns (k: nat, j: nat)
    requires i in ListedIds(segments)
    ensures k < |segments| && j < |segments[k].tensorIds| && segments[k].tensorIds[j] == i
  {
    var last := |segments| - 1;
    if i in ListedIds(segments[..last]) {
      k, j := ListedSomewhere(segments[..last], i);
    } else {
      k := last;
      j :| 0 <= j < |segments[k].tensorIds| && segments[k].tensorIds[j] == i;
    }
  }

  /** Slicing a segment's payload by an entry of that segment returns the tensor's own bytes. */
  lemma SliceReturnsBlob(
    segments: seq<Segment>, payloads: seq<Bytes>, tensors: seq<TensorEntry>, blobs: seq<Bytes>, k: nat, j: nat)
    requires Closed(segments, payloads, tensors, blobs) && k < |segments| && j < |segments[k].tensorIds|
    ensures segments[k].tensorIds[j] < |tensors| == |blobs|
    ensures
      var i := segments[k].tensorIds[j];
      tensors[i].segment == segments[k].id && SliceTensorBytes(payloads[k], tensors[i]) == Ok(blobs[i])
  {
    assert ClosedSegment(k, segments[k], payloads[k], tensors, blobs);
    assert TileAt(tensors, blobs, segments[k].id, segments[k].tensorIds, j);
    ConcatPrefix(blobs, segments[k].tensorIds, j);
  }

  ghost predicate DistinctSegmentIds(segments: seq<Segment>) {
    forall j, k :: 0 <= j < k < |segments| ==> segments[j].id != segments[k].id
  }

  /** Round trip: in a compiled image with distinct segment ids, reading the name of tensor `i`
      returns exactly the bytes passed in for it, provided no earlier tensor has that name. */
  lemma RoundTrip(m: Manifest, files: Files, blobs: seq<Bytes>, i: nat)
    requires IsCompiled(m, files, blobs) && i < |blobs|
    requires DistinctSegmentIds(m.segments)
    requires i < |m.tensorTable| && forall j :: 0 <= j < i ==> m.tensorTable[j].name != m.tensorTable[i].name
    ensures
      var t := m.tensorTable[i];
      TensorBytes(m, files, t.name) == Ok(TensorData(blobs[i], t.storageDtype, t.physicalShape))
  {
    var payloads :| files == FilesOf(payloads) && IsImage(m.segments, m.tensorTable, m.residencyPlan, payloads, blobs);
    assert Upto(|blobs|)[i] == i;
    var k, j := ListedSomewhere(m.segments, i);
    SliceReturnsBlob(m.segments, payloads, m.tensorTable, blobs, k, j);
    FindsFirstTensor(m.tensorTable, i);
    FindsFirstSegment(m.segments, k);
    assert ClosedSegment(k, m.segments[k], payloads[k], m.tensorTable, blobs);
  }
}

/** The planning phase: assign every bound tensor an id, a segment and an offset. The layout
    it produces is what makes the pipeline's streaming hashes equal the hashes of its files. */
module Planner {
  import opened Common
  import opened PlanTables
  import opened Pipeline

  datatype BoundLayer = BoundLayer(index: nat, tensors: seq<TensorName>)

  /** The part of an execution spec that planning reads: global tensors, then layers. */
  datatype BindingSpec = BindingSpec(globals: seq<TensorName>, layers: seq<BoundLayer>)

  datatype SourceSpan = SourceSpan(shard: string, offset: nat, length: nat)

  type Sources = map<TensorName, SourceSpan>

  /** A tensor missing from the checkpoint is planned with an empty payload. */
  function SourceInfo(sources: Sources, name: TensorName): (t: SourceSpan) {
    if name in sources then sources[name] else SourceSpan("", 0, 0)
  }

  /** A binding together with the segment it is planned into. */
  datatype Placement = Placement(segment: SegmentId, name: TensorName)

  function PlaceIn(segment: SegmentId, names: seq<TensorName>): (ps: seq<Placement>)
    ensures |ps| == |names|
    ensures forall i :: 0 <= i < |ps| ==> ps[i] == Placement(segment, names[i])
  {
    seq(|names|, i requires 0 <= i < |names| => Placement(segment, names[i]))
  }

  function LayerPlacements(layers: seq<BoundLayer>): (ps: seq<Placement>) {
    if layers == [] then []
    else
      var l := layers[|layers| - 1];
      LayerPlacements(layers[..|layers| - 1]) + PlaceIn(LayerSegment(l.index), l.tensors)
  }

  /** All placements in table order: the persistent segment first, then layer by layer. */
  function Placements(spec: BindingSpec): (ps: seq<Placement>) {
    PlaceIn(Persistent, spec.globals) + LayerPlacements(spec.layers)
  }

  /** `table` is the layout of `ps`: dense ids, source lengths, and offsets that start each
      tensor where its segment currently ends. */
  ghost predicate IsLayout(sources: Sources, ps: seq<Placement>, table: seq<PlannedTensor>) {
    && |table| == |ps|
    && Contiguous(table)
    && forall i :: 0 <= i < |table| ==>
         var t := table[i];
         && t.id == i && t.name == ps[i].name && t.segment == ps[i].segment
         && t.disposition == RelocateAndAlign
         && t.length == t.sourceLength && FoundIn(sources, t)
  }

  /** The tensor's bytes are where the checkpoint has them; one it does not have is empty. */
  ghost predicate FoundIn(sources: Sources, t: PlannedTensor) {
    if t.name in sources then
      && t.sourceShard == sources[t.name].shard
      && t.sourceOffset == sources[t.name].offset
      && t.sourceLength == sources[t.name].length
    else t.sourceShard == "" && t.sourceOffset == 0 && t.sourceLength == 0
  }

  /** `offsets` holds the current end of every segment (absent means empty). */
  ghost predicate Tracks(offsets: map<SegmentId, nat>, table: seq<PlannedTensor>) {
    forall id :: EndOf(offsets, id) == SegmentBytes(table, id)
  }

  function EndOf(offsets: map<SegmentId, nat>, segment: SegmentId): (n: nat) {
    if segment in offsets then offsets[segment] else 0
  }

  function Entry(id: nat, segment: SegmentId, name: TensorName, src: SourceSpan, offset: nat): (t: PlannedTensor) {
    PlannedTensor(id, name, RelocateAndAlign, src.shard, src.offset, src.length, segment, offset, src.length)
  }

  /** Append the tensors of one segment to the table. */
  method PlaceTensors(
    sources: Sources, ghost done: seq<Placement>, segment: SegmentId, names: seq<TensorName>,
    table0: seq<PlannedTensor>, offsets0: map<SegmentId, nat>)
    returns (table: seq<PlannedTensor>, offsets: map<SegmentId, nat>)
    requires IsLayout(sources, done, table0) && Tracks(offsets0, table0)
    ensures IsLayout(sources, done + PlaceIn(segment, names), table) && Tracks(offsets, table)
  {
    table, offsets := table0, offsets0;
    for i := 0 to |names|
      invariant IsLayout(sources, done + PlaceIn(segment, names[..i]), table) && Tracks(offsets, table)
    {
      PlacementExtends(sources, done, segment, names, i, table, offsets);
      var src := SourceInfo(sources, names[i]);
      var destOffset := EndOf(offsets, segment);
      table := table + [Entry(|table|, segment, names[i], src, destOffset)];
      offsets := offsets[segment := destOffset + src.length];
    }
    assert names[..|names|] == names;
  }

  lemma SegmentBytesSnoc(table: seq<PlannedTensor>, t: PlannedTensor, id: SegmentId)
    ensures SegmentBytes(table + [t], id) == SegmentBytes(table, id) + (if t.segment == id then t.length else 0)
  {
    assert (table + [t])[..|table|] == table;
  }

  lemma LayoutExtends(sources: Sources, ps: seq<Placement>, table: seq<PlannedTensor>, t: PlannedTensor, p: Placement)
    requires IsLayout(sources, ps, table)
    requires
      var src := SourceInfo(sources, p.name);
      t == Entry(|table|, p.segment, p.name, src, SegmentBytes(table, p.segment))
    ensures IsLayout(sources, ps + [p], table + [t])
  {
    ContiguousExtends(table, t);
  }

  lemma ContiguousExtends(table: seq<PlannedTensor>, t: PlannedTensor)
    requires Contiguous(table) && t.offset == SegmentBytes(table, t.segment)
    ensures Contiguous(table + [t])
  {
    var longer := table + [t];
    forall i | 0 <= i < |longer|
      ensures longer[i].offset == SegmentBytes(longer[..i], longer[i].segment)
    {
      assert longer[..i] == table[..i];
      assert i == |table| ==> longer[..i] == table;
    }
  }

  lemma TracksExtends(offsets: map<SegmentId, nat>, table: seq<PlannedTensor>, t: PlannedTensor)
    requires Tracks(offsets, table) && t.offset == SegmentBytes(table, t.segment)
    ensures Tracks(offsets[t.segment := t.offset + t.length], table + [t])
  {
    forall id {
      SegmentBytesSnoc(table, t, id);
    }
  }

  lemma PlaceInExtends(done: seq<Placement>, segment: SegmentId, names: seq<TensorName>, i: nat)
    requires i < |names|
    ensures done + PlaceIn(segment, names[..i + 1])
         == (done + PlaceIn(segment, names[..i])) + [Placement(segment, names[i])]
  {
  }

  lemma PlacementExtends(
    sources: Sources, done: seq<Placement>, segment: SegmentId, names: seq<TensorName>, i: nat,
    table: seq<PlannedTensor>, offsets: map<SegmentId, nat>)
    requires i < |names|
    requires IsLayout(sources, done + PlaceIn(segment, names[..i]), table) && Tracks(offsets, table)
    ensures
      var src := SourceInfo(sources, names[i]);
      var end := EndOf(offsets, segment);
      var longer := table + [Entry(|table|, segment, names[i], src, end)];
      && IsLayout(sources, done + PlaceIn(segment, names[..i + 1]), longer)
      && Tracks(offsets[segment := end + src.length], longer)
  {
    var t := Entry(|table|, segment, names[i], SourceInfo(sources, names[i]), EndOf(offsets, segment));
    LayoutExtends(sources, done + PlaceIn(segment, names[..i]), table, t, Placement(segment, names[i]));
    PlaceInExtends(done, segment, names, i);
    TracksExtends(offsets, table, t);
  }

  /** The plan for a spec: its table is the layout of the placements, its segments are
      numbered in order and carry the sizes and counts of that table. */
  ghost predicate IsPlan(spec: BindingSpec, sources: Sources, plan: CompilationPlan) {
    && IsLayout(sources, Placements(spec), plan.tensors)
    && |plan.segments| == 1 + |spec.layers|
    && plan.segments[0].id == Persistent
    && (forall i :: 0 <= i < |spec.layers| ==> plan.segments[i + 1].id == LayerSegment(spec.layers[i].index))
    && (forall i :: 0 <= i < |plan.segments| ==>
          && plan.segments[i].fileIndex == i
          && plan.segments[i].byteSize == SegmentBytes(plan.tensors, plan.segments[i].id)
          && plan.segments[i].tensorCount == SegmentCount(plan.tensors, plan.segments[i].id))
    && plan.totalImageBytes == TotalBytes(plan.segments)
  }

  method CountSegment(table: seq<PlannedTensor>, id: SegmentId) returns (n: nat)
    ensures n == SegmentCount(table, id)
  {
    n := 0;
    for i := 0 to |table|
      invariant n == SegmentCount(table[..i], id)
    {
      assert table[..i + 1][..i] == table[..i];
      if table[i].segment == id {
        n := n + 1;
      }
    }
    assert table[..|table|] == table;
  }

  /** Fill in segment sizes and tensor counts and total them. */
  method SizeSegments(ids: seq<SegmentId>, table: seq<PlannedTensor>, offsets: map<SegmentId, nat>)
    returns (segments: seq<PlannedSegment>, total: nat)
    requires Tracks(offsets, table)
    ensures |segments| == |ids| && total == TotalBytes(segments)
    ensures forall i :: 0 <= i < |ids| ==>
      segments[i] == PlannedSegment(ids[i], i, SegmentBytes(table, ids[i]), SegmentCount(table, ids[i]))
  {
    segments, total := [], 0;
    for k := 0 to |ids|
      invariant |segments| == k && total == TotalBytes(segments)
      invariant forall i :: 0 <= i < k ==>
        segments[i] == PlannedSegment(ids[i], i, SegmentBytes(table, ids[i]), SegmentCount(table, ids[i]))
    {
      var count := CountSegment(table, ids[k]);
      var size := EndOf(offsets, ids[k]);
      segments := segments + [PlannedSegment(ids[k], k, size, count)];
      assert segments[..|segments| - 1] == segments[..k];
      total := total + size;
    }
  }

  /** The segment ids in file order. */
  function PlannedIds(layers: seq<BoundLayer>): (ids: seq<SegmentId>)
    ensures |ids| == 1 + |layers| && ids[0] == Persistent
    ensures forall i :: 0 <= i < |layers| ==> ids[i + 1] == LayerSegment(layers[i].index)
  {
    [Persistent] + seq(|layers|, i requires 0 <= i < |layers| => LayerSegment(layers[i].index))
  }

  lemma PlacementsExtend(spec: BindingSpec, k: nat)
    requires k < |spec.layers|
    ensures
      var l := spec.layers[k];
      Placements(BindingSpec(spec.globals, spec.layers[..k + 1]))
        == Placements(BindingSpec(spec.globals, spec.layers[..k])) + PlaceIn(LayerSegment(l.index), l.tensors)
  {
    assert spec.layers[..k + 1][..k] == spec.layers[..k];
  }

  method PlaceAll(spec: BindingSpec, sources: Sources)
    returns (ids: seq<SegmentId>, table: seq<PlannedTensor>, offsets: map<SegmentId, nat>)
    ensures ids == PlannedIds(spec.layers)
    ensures IsLayout(sources, Placements(spec), table) && Tracks(offsets, table)
  {
    ids := [Persistent];
    table, offsets := PlaceTensors(sources, [], Persistent, spec.globals, [], map[]);
    assert [] + PlaceIn(Persistent, spec.globals) == Placements(BindingSpec(spec.globals, spec.layers[..0]));
    for k := 0 to |spec.layers|
      invariant ids == PlannedIds(spec.layers[..k])
      invariant IsLayout(sources, Placements(BindingSpec(spec.globals, spec.layers[..k])), table)
      invariant Tracks(offsets, table)
    {
      var layer := spec.layers[k];
      PlacementsExtend(spec, k);
      ghost var done := Placements(BindingSpec(spec.globals, spec.layers[..k]));
      ids := ids + [LayerSegment(layer.index)];
      table, offsets := PlaceTensors(sources, done, LayerSegment(layer.index), layer.tensors, table, offsets);
    }
    assert spec.layers[..|spec.layers|] == spec.layers;
  }

  /** Plan a checkpoint. Loading and validating the checkpoint is not modelled; `sources` is
      what it found. */
  method Plan(spec: BindingSpec, sources: Sources) returns (plan: CompilationPlan)
    ensures IsPlan(spec, sources, plan)
  {
    var ids, table, offsets := PlaceAll(spec, sources);
    var segments, total := SizeSegments(ids, table, offsets);
    plan := CompilationPlan(table, segments, total);
  }

  // ── Which tensors are planned ──────────────────────────────────────────────

  /** How many tensors the spec binds in its globals and first `k` layers. */
  function BoundBefore(spec: BindingSpec, k: nat): (n: nat)
    requires k <= |spec.layers|
  {
    if k == 0 then |spec.globals| else BoundBefore(spec, k - 1) + |spec.layers[k - 1].tensors|
  }

  lemma {:induction false} LayerPlacedAt(spec: BindingSpec, n: nat, k: nat, j: nat)
    requires n <= |spec.layers|
    ensures |LayerPlacements(spec.layers[..n])| == BoundBefore(spec, n) - |spec.globals|
    ensures k < n && j < |spec.layers[k].tensors| ==>
      var i := BoundBefore(spec, k) - |spec.globals| + j;
      && 0 <= i < |LayerPlacements(spec.layers[..n])|
      && LayerPlacements(spec.layers[..n])[i] ==
        Placement(LayerSegment(spec.layers[k].index), spec.layers[k].tensors[j])
  {
    if n > 0 {
      assert spec.layers[..n][..n - 1] == spec.layers[..n - 1];
      LayerPlacedAt(spec, n - 1, k, j);
      if k == n - 1 {
        LayerPlacedAt(spec, k, k, j);
      }
    }
  }

  /** For every plan: the globals come first, in the persistent segment; tensor `j` of layer `k`
      follows those bound before it, in the layer's segment; and nothing else is planned. */
  lemma PlansEachTensor(spec: BindingSpec, sources: Sources, plan: CompilationPlan, k: nat, j: nat)
    requires IsPlan(spec, sources, plan)
    ensures |plan.tensors| == BoundBefore(spec, |spec.layers|)
    ensures j < |spec.globals| ==>
      && j < |plan.tensors| && plan.tensors[j].name == spec.globals[j] && plan.tensors[j].segment == Persistent
      && FoundIn(sources, plan.tensors[j])
    ensures k < |spec.layers| && j < |spec.layers[k].tensors| ==>
      var i := BoundBefore(spec, k) + j;
      && i < |plan.tensors| && plan.tensors[i].name == spec.layers[k].tensors[j]
      && plan.tensors[i].segment == LayerSegment(spec.layers[k].index)
      && FoundIn(sources, plan.tensors[i])
  {
    PlacedAt(spec, k, j);
    if j < |spec.globals| {
      LayoutAt(sources, Placements(spec), plan.tensors, j);
    }
    if k < |spec.layers| && j < |spec.layers[k].tensors| {
      LayoutAt(sources, Placements(spec), plan.tensors, BoundBefore(spec, k) + j);
    }
  }

  lemma PlacedAt(spec: BindingSpec, k: nat, j: nat)
    ensures |Placements(spec)| == BoundBefore(spec, |spec.layers|)
    ensures j < |spec.globals| ==>
      j < |Placements(spec)| && Placements(spec)[j] == Placement(Persistent, spec.globals[j])
    ensures k < |spec.layers| && j < |spec.layers[k].tensors| ==>
      var i := BoundBefore(spec, k) + j;
      && i < |Placements(spec)|
      && Placements(spec)[i] == Placement(LayerSegment(spec.layers[k].index), spec.layers[k].tensors[j])
  {
    assert spec.layers[..|spec.layers|] == spec.layers;
    LayerPlacedAt(spec, |spec.layers|, k, j);
    BoundGrows(spec, |spec.layers|);
    if k < |spec.layers| {
      BoundGrows(spec, k);
    }
  }

  lemma LayoutAt(sources: Sources, ps: seq<Placement>, table: seq<PlannedTensor>, i: nat)
    requires IsLayout(sources, ps, table) && i < |ps|
    ensures |table| == |ps| && table[i].name == ps[i].name && table[i].segment == ps[i].segment
    ensures FoundIn(sources, table[i])
  {
  }

  lemma {:induction false} BoundGrows(spec: BindingSpec, k: nat)
    requires k <= |spec.layers|
    ensures |spec.globals| <= BoundBefore(spec, k)
  {
    if k > 0 {
      BoundGrows(spec, k - 1);
    }
  }

  // ── Streaming hash = hash of the finished file ─────────────────────────────

  /** Every planned tensor is a physical unit. */
  lemma {:induction false} PhysicalIsWholeTable(ts: seq<PlannedTensor>)
    requires NoAliases(ts)
    ensures |Physical(ts)| == |ts|
    ensures forall i :: 0 <= i < |ts| ==> Physical(ts)[i] == UnitOf(ts[i])
  {
    if ts != [] {
      PhysicalIsWholeTable(ts[..|ts| - 1]);
    }
  }

  /** The relocate lane produces as many bytes as the plan reserves. */
  ghost predicate SizedPayload(ts: seq<PlannedTensor>, payload: RelocationUnit -> Bytes) {
    forall i :: 0 <= i < |ts| ==> |payload(UnitOf(ts[i]))| == ts[i].length
  }

  function Packets(ts: seq<PlannedTensor>, payload: RelocationUnit -> Bytes): (ps: seq<Packet>)
    ensures |ps| == |ts|
    ensures forall i :: 0 <= i < |ts| ==> ps[i] == Packet(UnitOf(ts[i]), payload(UnitOf(ts[i])))
  {
    seq(|ts|, i requires 0 <= i < |ts| => Packet(UnitOf(ts[i]), payload(UnitOf(ts[i]))))
  }

  /** Files and hasher inputs agree, and are as long as the table says. */
  ghost predicate Agrees(segments: set<SegmentId>, ts: seq<PlannedTensor>, disk: Disk) {
    && disk.files.Keys == segments && disk.hashed.Keys == segments
    && forall s :: s in segments ==> disk.files[s] == disk.hashed[s] && |disk.files[s]| == SegmentBytes(ts, s)
  }

  lemma AppendKeepsAgreement(
    segments: set<SegmentId>, ts: seq<PlannedTensor>, t: PlannedTensor, disk: Disk, data: Bytes)
    requires Agrees(segments, ts, disk) && t.segment in segments
    requires t.offset == SegmentBytes(ts, t.segment) && |data| == t.length
    ensures Agrees(segments, ts + [t], WriteUnit(disk, Packet(UnitOf(t), data)))
  {
    forall s | s in segments {
      SegmentBytesSnoc(ts, t, s);
    }
  }

  lemma ContiguousPrefix(ts: seq<PlannedTensor>)
    requires ts != [] && Contiguous(ts)
    ensures Contiguous(ts[..|ts| - 1])
    ensures ts[|ts| - 1].offset == SegmentBytes(ts[..|ts| - 1], ts[|ts| - 1].segment)
  {
    var before := ts[..|ts| - 1];
    forall i | 0 <= i < |before|
      ensures before[i].offset == SegmentBytes(before[..i], before[i].segment)
    {
      assert before[..i] == ts[..i];
    }
  }

  lemma PacketsSnoc(ts: seq<PlannedTensor>, payload: RelocationUnit -> Bytes)
    requires ts != []
    ensures
      var u := UnitOf(ts[|ts| - 1]);
      Packets(ts, payload) == Packets(ts[..|ts| - 1], payload) + [Packet(u, payload(u))]
    ensures ts[..|ts| - 1] + [ts[|ts| - 1]] == ts
  {
  }

  /** Writing a contiguous table by seeking appends: each file equals its hasher input and is
      as long as the plan says. */
  lemma {:induction false} SeekingIsAppending(
    segments: set<SegmentId>, ts: seq<PlannedTensor>, payload: RelocationUnit -> Bytes)
    requires Contiguous(ts) && SegmentsCovered(ts, segments) && SizedPayload(ts, payload)
    ensures Known(segments, Packets(ts, payload))
    ensures Agrees(segments, ts, Replay(segments, Packets(ts, payload)))
  {
    if ts != [] {
      var before, t := ts[..|ts| - 1], ts[|ts| - 1];
      ContiguousPrefix(ts);
      SeekingIsAppending(segments, before, payload);
      AppendKeepsAgreement(segments, before, t, Replay(segments, Packets(before, payload)), payload(UnitOf(t)));
      PacketsSnoc(ts, payload);
      ReplaySnoc(segments, Packets(before, payload), Packet(UnitOf(t), payload(UnitOf(t))));
    }
  }

  /** Tensor `i` lies in its segment's file at its own offset. */
  ghost predicate InPlace(t: PlannedTensor, data: Bytes, disk: Disk) {
    && t.segment in disk.files
    && t.offset + |data| <= |disk.files[t.segment]|
    && disk.files[t.segment][t.offset..t.offset + |data|] == data
  }

  lemma AppendKeepsInPlace(t: PlannedTensor, data: Bytes, disk: Disk, p: Packet)
    requires InPlace(t, data, disk) && p.unit.segment in disk.files
    requires p.unit.offset == |disk.files[p.unit.segment]|
    ensures InPlace(t, data, WriteUnit(disk, p))
  {
  }

  lemma AppendedIsInPlace(t: PlannedTensor, data: Bytes, disk: Disk)
    requires t.segment in disk.files && t.offset == |disk.files[t.segment]|
    ensures InPlace(t, data, WriteUnit(disk, Packet(UnitOf(t), data)))
  {
    var file := disk.files[t.segment];
    assert (file + data)[|file|..|file| + |data|] == data;
  }

  /** Nothing is overwritten: in the end every tensor's payload lies at its planned place. */
  lemma {:induction false} PayloadsStayInPlace(
    segments: set<SegmentId>, ts: seq<PlannedTensor>, payload: RelocationUnit -> Bytes, i: nat)
    requires Contiguous(ts) && SegmentsCovered(ts, segments) && SizedPayload(ts, payload) && i < |ts|
    ensures Known(segments, Packets(ts, payload))
    ensures InPlace(ts[i], payload(UnitOf(ts[i])), Replay(segments, Packets(ts, payload)))
  {
    var before, t := ts[..|ts| - 1], ts[|ts| - 1];
    var p := Packet(UnitOf(t), payload(UnitOf(t)));
    ContiguousPrefix(ts);
    SeekingIsAppending(segments, before, payload);
    PacketsSnoc(ts, payload);
    ReplaySnoc(segments, Packets(before, payload), p);
    if i < |before| {
      PayloadsStayInPlace(segments, before, payload, i);
      AppendKeepsInPlace(ts[i], payload(UnitOf(ts[i])), Replay(segments, Packets(before, payload)), p);
    } else {
      AppendedIsInPlace(t, p.data, Replay(segments, Packets(before, payload)));
    }
  }

  lemma WorkloadIsWholeTable(job: Job)
    requires NoAliases(job.tensors)
    ensures Workload(job) == Packets(job.tensors, job.payload)
  {
    PhysicalIsWholeTable(job.tensors);
  }

  /** For a contiguous table and every interleaving of the pipeline over it, a run that cannot
      continue and met no I/O error has returned the digests of the finished files. */
  lemma ContiguousRunHashesItsFiles(job: Job, schedule: seq<Action>)
    requires Contiguous(job.tensors) && NoAliases(job.tensors)
    requires SegmentsCovered(job.tensors, job.segments) && SizedPayload(job.tensors, job.payload)
    requires Maximal(job, schedule) && !Faulted(Exec(job, schedule).value)
    ensures AllDone(Exec(job, schedule).value)
    ensures
      var s := Exec(job, schedule).value;
      && s.main.outcome.Ok?
      && s.disk.files.Keys == job.segments == s.main.outcome.value.Keys
      && forall id :: id in job.segments ==>
           && s.main.outcome.value[id] == Sha256(s.disk.files[id])
           && |s.disk.files[id]| == SegmentBytes(job.tensors, id)
  {
    WorkloadIsWholeTable(job);
    SeekingIsAppending(job.segments, job.tensors, job.payload);
    CompleteRunOutcome(job, schedule);
    SuccessRefinesSequential(job, schedule);
  }

  /** For every plan and every complete interleaving without I/O errors, each tensor's payload lies
      at its planned offset in its segment's file. */
  lemma PlannedTensorsInPlace(
    spec: BindingSpec, sources: Sources, plan: CompilationPlan, job: Job, schedule: seq<Action>, i: nat)
    requires IsPlan(spec, sources, plan) && i < |plan.tensors|
    requires job.tensors == plan.tensors && job.segments == SegmentIds(plan.segments)
    requires SizedPayload(plan.tensors, job.payload)
    requires Maximal(job, schedule) && !Faulted(Exec(job, schedule).value)
    ensures
      var t := plan.tensors[i];
      && |job.payload(UnitOf(t))| == t.length
      && InPlace(t, job.payload(UnitOf(t)), Exec(job, schedule).value.disk)
  {
    PlanCoversItsTable(spec, sources, plan);
    ContiguousRunHashesItsFiles(job, schedule);
    SuccessRefinesSequential(job, schedule);
    WorkloadIsWholeTable(job);
    PayloadsStayInPlace(job.segments, job.tensors, job.payload, i);
  }

  /** The writer opens one file per planned segment and keeps the handles by segment id, so that of
      several segments with one id only the last one's file is written to. */
  predicate LastOfItsId(segments: seq<PlannedSegment>, i: nat)
    requires i < |segments|
  {
    forall j :: i < j < |segments| ==> segments[j].id != segments[i].id
  }

  /** Opening the files: each id ends up with the number of the last segment that has it. */
  method OpenFiles(segments: seq<PlannedSegment>) returns (handles: map<SegmentId, nat>)
    ensures handles.Keys == SegmentIds(segments)
    ensures forall i :: 0 <= i < |segments| ==> (handles[segments[i].id] == i <==> LastOfItsId(segments, i))
  {
    handles := map[];
    for k := 0 to |segments|
      invariant handles.Keys == SegmentIds(segments[..k])
      invariant forall id :: id in handles ==> handles[id] < k && segments[handles[id]].id == id
      invariant forall i :: 0 <= i < k ==> segments[i].id in handles && i <= handles[segments[i].id]
    {
      handles := handles[segments[k].id := k];
    }
    assert segments[..|segments|] == segments;
    forall i | 0 <= i < |segments| && LastOfItsId(segments, i) ensures handles[segments[i].id] == i {
      assert segments[handles[segments[i].id]].id == segments[i].id;
    }
  }

  /** What file number `i` holds in the end. */
  function FileContents(segments: seq<PlannedSegment>, disk: Disk, i: nat): (data: Bytes)
    requires i < |segments| && segments[i].id in disk.files
  {
    if LastOfItsId(segments, i) then disk.files[segments[i].id] else []
  }

  /** For every plan the planner makes and every interleaving: the digest recorded for a segment is
      that of its file, and the file has its planned size, if and only if no later segment has the
      same id or the segment is empty. */
  lemma PlannedRunHashesItsFiles(
    spec: BindingSpec, sources: Sources, plan: CompilationPlan, job: Job, schedule: seq<Action>)
    requires IsPlan(spec, sources, plan)
    requires job.tensors == plan.tensors && job.segments == SegmentIds(plan.segments)
    requires SizedPayload(plan.tensors, job.payload)
    requires Maximal(job, schedule) && !Faulted(Exec(job, schedule).value)
    ensures AllDone(Exec(job, schedule).value) && Exec(job, schedule).value.main.outcome.Ok?
    ensures
      var s := Exec(job, schedule).value;
      forall i :: 0 <= i < |plan.segments| ==>
        var seg := plan.segments[i];
        && seg.id in s.disk.files && seg.id in s.main.outcome.value
        && var file := FileContents(plan.segments, s.disk, i);
           (s.main.outcome.value[seg.id] == Sha256(file) && |file| == seg.byteSize <==>
            LastOfItsId(plan.segments, i) || seg.byteSize == 0)
  {
    PlanCoversItsTable(spec, sources, plan);
    ContiguousRunHashesItsFiles(job, schedule);
    assert forall i :: 0 <= i < |plan.segments| ==> plan.segments[i].id in job.segments;
  }

  /** With distinct layer indices every file is hashed. */
  lemma DistinctLayersAllHashed(spec: BindingSpec, sources: Sources, plan: CompilationPlan, i: nat)
    requires IsPlan(spec, sources, plan) && DistinctLayers(spec) && i < |plan.segments|
    ensures LastOfItsId(plan.segments, i)
  {
    PlanIdsDistinct(spec, sources, plan);
  }

  /** The current placeholder payload has the reserved size. */
  lemma ZeroPayloadIsSized(spec: BindingSpec, sources: Sources, plan: CompilationPlan)
    requires IsPlan(spec, sources, plan)
    ensures SizedPayload(plan.tensors, ZeroPayload)
  {
  }

  lemma {:induction false} LayerPlacementsCovered(layers: seq<BoundLayer>, i: nat)
    requires i < |LayerPlacements(layers)|
    ensures exists k :: 0 <= k < |layers| && LayerPlacements(layers)[i].segment == LayerSegment(layers[k].index)
  {
    var init, last := layers[..|layers| - 1], layers[|layers| - 1];
    if i < |LayerPlacements(init)| {
      LayerPlacementsCovered(init, i);
      var k :| 0 <= k < |init| && LayerPlacements(init)[i].segment == LayerSegment(init[k].index);
      assert layers[k] == init[k];
    } else {
      assert LayerPlacements(layers)[i] == PlaceIn(LayerSegment(last.index), last.tensors)[i - |LayerPlacements(init)|];
    }
  }

  lemma PlacementCovered(spec: BindingSpec, segments: seq<PlannedSegment>, i: nat)
    requires i < |Placements(spec)| && |segments| == 1 + |spec.layers| && segments[0].id == Persistent
    requires forall k :: 0 <= k < |spec.layers| ==> segments[k + 1].id == LayerSegment(spec.layers[k].index)
    ensures Placements(spec)[i].segment in SegmentIds(segments)
  {
    var p := Placements(spec)[i];
    if i < |spec.globals| {
      assert p.segment == segments[0].id;
    } else {
      LayerPlacementsCovered(spec.layers, i - |spec.globals|);
      var k :| 0 <= k < |spec.layers| && p.segment == LayerSegment(spec.layers[k].index);
      assert p.segment == segments[k + 1].id;
    }
  }

  /** Every planned tensor goes to one of the plan's segments. */
  lemma PlanCoversItsTable(spec: BindingSpec, sources: Sources, plan: CompilationPlan)
    requires IsPlan(spec, sources, plan)
    ensures SegmentsCovered(plan.tensors, SegmentIds(plan.segments)) && NoAliases(plan.tensors)
  {
    forall i | 0 <= i < |plan.tensors| ensures plan.tensors[i].segment in SegmentIds(plan.segments) {
      PlacementCovered(spec, plan.segments, i);
    }
  }

  // ── Conservation of bytes ──────────────────────────────────────────────────

  function PlannedBytes(ts: seq<PlannedTensor>): (n: nat) {
    if ts == [] then 0 else PlannedBytes(ts[..|ts| - 1]) + ts[|ts| - 1].length
  }

  function SumOver(segments: seq<PlannedSegment>, ts: seq<PlannedTensor>): (n: nat) {
    if segments == [] then 0
    else SumOver(segments[..|segments| - 1], ts) + SegmentBytes(ts, segments[|segments| - 1].id)
  }

  ghost predicate DistinctIds(segments: seq<PlannedSegment>) {
    forall i, j :: 0 <= i < j < |segments| ==> segments[i].id != segments[j].id
  }

  /** One more tensor adds its length to the sum exactly if its segment is listed. */
  lemma {:induction false} SumOverSnoc(segments: seq<PlannedSegment>, ts: seq<PlannedTensor>, t: PlannedTensor)
    requires DistinctIds(segments)
    ensures SumOver(segments, ts + [t])
         == SumOver(segments, ts) + (if t.segment in SegmentIds(segments) then t.length else 0)
  {
    if segments != [] {
      var init, last := segments[..|segments| - 1], segments[|segments| - 1];
      SumOverSnoc(init, ts, t);
      SegmentBytesSnoc(ts, t, last.id);
      assert t.segment in SegmentIds(init) ==> t.segment in SegmentIds(segments);
      assert t.segment in SegmentIds(segments) ==> t.segment in SegmentIds(init) || t.segment == last.id by {
        if t.segment in SegmentIds(segments) {
          var i :| 0 <= i < |segments| && segments[i].id == t.segment;
          assert i < |init| ==> init[i].id == t.segment;
        }
      }
      assert t.segment == last.id ==> last.id in SegmentIds(segments);
      assert last.id !in SegmentIds(init);
    }
  }

  lemma {:induction false} SumOverIsPlannedBytes(segments: seq<PlannedSegment>, ts: seq<PlannedTensor>)
    requires DistinctIds(segments) && SegmentsCovered(ts, SegmentIds(segments))
    ensures SumOver(segments, ts) == PlannedBytes(ts)
  {
    if ts == [] {
      SumOverNothing(segments);
    } else {
      var init := ts[..|ts| - 1];
      SumOverIsPlannedBytes(segments, init);
      SumOverSnoc(segments, init, ts[|ts| - 1]);
      assert init + [ts[|ts| - 1]] == ts;
    }
  }

  lemma {:induction false} SumOverNothing(segments: seq<PlannedSegment>)
    ensures SumOver(segments, []) == 0
  {
    if segments != [] {
      SumOverNothing(segments[..|segments| - 1]);
    }
  }

  lemma {:induction false} SumOverIsTotal(segments: seq<PlannedSegment>, ts: seq<PlannedTensor>)
    requires forall i :: 0 <= i < |segments| ==> segments[i].byteSize == SegmentBytes(ts, segments[i].id)
    ensures TotalBytes(segments) == SumOver(segments, ts)
  {
    if segments != [] {
      SumOverIsTotal(segments[..|segments| - 1], ts);
    }
  }

  ghost predicate DistinctLayers(spec: BindingSpec) {
    forall i, j :: 0 <= i < j < |spec.layers| ==> spec.layers[i].index != spec.layers[j].index
  }

  lemma PlanIdsDistinct(spec: BindingSpec, sources: Sources, plan: CompilationPlan)
    requires IsPlan(spec, sources, plan) && DistinctLayers(spec)
    ensures DistinctIds(plan.segments)
  {
    forall i, j | 0 <= i < j < |plan.segments| ensures plan.segments[i].id != plan.segments[j].id {
      assert plan.segments[j].id == LayerSegment(spec.layers[j - 1].index);
      assert i > 0 ==> plan.segments[i].id == LayerSegment(spec.layers[i - 1].index);
    }
  }

  /** With distinct layer indices the planned image is exactly the planned tensors: no byte is
      counted twice or lost between segments. */
  lemma ImageBytesAreTensorBytes(spec: BindingSpec, sources: Sources, plan: CompilationPlan)
    requires IsPlan(spec, sources, plan) && DistinctLayers(spec)
    ensures plan.totalImageBytes == PlannedBytes(plan.tensors)
  {
    PlanCoversItsTable(spec, sources, plan);
    PlanIdsDistinct(spec, sources, plan);
    SumOverIsTotal(plan.segments, plan.tensors);
    SumOverIsPlannedBytes(plan.segments, plan.tensors);
  }
}

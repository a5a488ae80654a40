/** The three-lane relocation pipeline as a step system: source-read, relocate and
    write+hash lanes joined by two bounded FIFO channels, plus the orchestrating task that
    drops its own sender ends and then awaits the lanes in order. */
module Pipeline {
  import opened Common
  import opened PlanTables

  const CAPACITY: nat := 64

  datatype RelocationUnit = RelocationUnit(
    tensorId: nat,
    name: TensorName,
    sourceShard: string,
    sourceOffset: nat,
    sourceLength: nat,
    segment: SegmentId,
    offset: nat,
    disposition: TensorDisposition)

  datatype Packet = Packet(unit: RelocationUnit, data: Bytes)

  /** What one call of the pipeline works on. `payload` is what the relocate lane produces
      for a unit; the source currently fills it with zeros (see `ZeroPayload`). */
  datatype Job = Job(
    tensors: seq<PlannedTensor>,
    segments: set<SegmentId>,
    payload: RelocationUnit -> Bytes)

  function ZeroPayload(unit: RelocationUnit): (data: Bytes) {
    seq(unit.sourceLength, i => 0)
  }

  // ── Segment files and running hashers ──────────────────────────────────────

  /** Segment files and, per segment, the bytes fed to its SHA-256 hasher so far. */
  datatype Disk = Disk(files: map<SegmentId, Bytes>, hashed: map<SegmentId, Bytes>)

  function FreshDisk(segments: set<SegmentId>): (d: Disk) {
    Disk(map s | s in segments :: [], map s | s in segments :: [])
  }

  /** `seek` then `write_all`: a gap past the end of the file reads as zeros. */
  function WriteAt(file: Bytes, offset: nat, data: Bytes): (r: Bytes)
    ensures |r| == if data != [] && offset + |data| > |file| then offset + |data| else |file|
    ensures data != [] ==> r[offset..offset + |data|] == data
    ensures forall i :: |file| <= i < offset && i < |r| ==> r[i] == 0
    ensures forall i :: 0 <= i < |file| && !(offset <= i < offset + |data|) ==> r[i] == file[i]
    ensures offset == |file| ==> r == file + data
  {
    if data == [] then file
    else
      var padded := if |file| < offset then file + seq(offset - |file|, i => 0) else file;
      if offset + |data| <= |padded|
      then padded[..offset] + data + padded[offset + |data|..]
      else padded[..offset] + data
  }

  function WriteUnit(disk: Disk, p: Packet): (d: Disk)
    requires p.unit.segment in disk.files
    ensures d.files.Keys == disk.files.Keys
  {
    var s := p.unit.segment;
    Disk(
      disk.files[s := WriteAt(disk.files[s], p.unit.offset, p.data)],
      if s in disk.hashed then disk.hashed[s := disk.hashed[s] + p.data] else disk.hashed)
  }

  // ── The sequential loop the pipeline must refine ───────────────────────────

  function UnitOf(t: PlannedTensor): (u: RelocationUnit) {
    RelocationUnit(t.id, t.name, t.sourceShard, t.sourceOffset, t.sourceLength, t.segment, t.offset, t.disposition)
  }

  /** The units of all non-alias tensors, in table order. */
  function Physical(ts: seq<PlannedTensor>): (us: seq<RelocationUnit>)
    ensures |us| <= |ts|
  {
    if ts == [] then []
    else
      var t := ts[|ts| - 1];
      Physical(ts[..|ts| - 1]) + (if t.disposition.AliasOnly? then [] else [UnitOf(t)])
  }

  function Packed(payload: RelocationUnit -> Bytes, us: seq<RelocationUnit>): (ps: seq<Packet>)
    ensures |ps| == |us|
    ensures forall i :: 0 <= i < |us| ==> ps[i] == Packet(us[i], payload(us[i]))
  {
    seq(|us|, i requires 0 <= i < |us| => Packet(us[i], payload(us[i])))
  }

  /** Everything the job has to write, in table order. */
  function Workload(job: Job): (ps: seq<Packet>) { Packed(job.payload, Physical(job.tensors)) }

  ghost predicate Known(segments: set<SegmentId>, ps: seq<Packet>) {
    forall i :: 0 <= i < |ps| ==> ps[i].unit.segment in segments
  }

  /** Packet `k` is the first of the workload whose destination is unknown. */
  ghost predicate FirstUnknown(job: Job, k: nat) {
    var ps := Workload(job);
    k < |ps| && ps[k].unit.segment !in job.segments && Known(job.segments, ps[..k])
  }

  /** The disk after writing `ps` one after another to fresh segment files. */
  function Replay(segments: set<SegmentId>, ps: seq<Packet>): (d: Disk)
    requires Known(segments, ps)
    ensures d.files.Keys == segments && d.hashed.Keys == segments
  {
    if ps == [] then FreshDisk(segments)
    else WriteUnit(Replay(segments, ps[..|ps| - 1]), ps[|ps| - 1])
  }

  function Digests(disk: Disk): (m: map<SegmentId, Digest>) {
    map s | s in disk.hashed :: Sha256(disk.hashed[s])
  }

  // ── The step system ────────────────────────────────────────────────────────

  datatype PipelineError =
    | SourceChannelClosed
    | RelocateChannelClosed
    | UnknownSegment(segment: SegmentId)
    | CreateFailed   // creating a segment file
    | WriteFailed  // seeking or writing

  datatype LaneStatus = Running | Finished | Broken

  datatype WriterStatus = Opening | Draining | Complete | Failed(error: PipelineError)

  type Outcome = Result<map<SegmentId, Digest>, PipelineError>

  datatype MainPhase =
    | HoldingBothSenders | HoldingWriteSender
    | AwaitingSource | AwaitingRelocate | AwaitingWriter
    | Returned(outcome: Outcome)

  datatype State = State(
    main: MainPhase,
    next: nat,                         // index of the source lane in the tensor table
    source: LaneStatus,
    sourceQueue: seq<RelocationUnit>,  // first channel
    relocateHeld: Option<RelocationUnit>,
    relocate: LaneStatus,
    writeQueue: seq<Packet>,           // second channel
    writeHeld: Option<Packet>,
    writer: WriterStatus,
    disk: Disk,
    log: seq<Packet>)                  // packets written so far, oldest first

  function Initial(): (s: State) {
    State(HoldingBothSenders, 0, Running, [], None, Running, [], None, Opening, Disk(map[], map[]), [])
  }

  predicate Ended(w: WriterStatus) { w.Complete? || w.Failed? }

  /** Both senders of the first channel are gone. */
  predicate SourceClosed(s: State) { s.source != Running && !s.main.HoldingBothSenders? }

  /** Both senders of the second channel are gone. */
  predicate WriteClosed(s: State) {
    s.relocate != Running && !s.main.HoldingBothSenders? && !s.main.HoldingWriteSender?
  }

  datatype MainAction = DropSourceSender | DropWriteSender | AwaitSource | AwaitRelocate | AwaitWriter

  datatype SourceAction = SkipAlias | SendUnit | SourceEnds | SourceFails

  datatype RelocateAction = ReceiveUnit | SendPacket | RelocateEnds | RelocateFails

  datatype WriterAction =
    | OpenSegments | ReceivePacket | WritePacket | RejectPacket | WriterEnds
    | WriterFault(left: Disk)  // an I/O error; whatever is then on disk is unspecified

  datatype Action =
    | ByMain(main: MainAction)
    | BySource(source: SourceAction)
    | ByRelocate(relocate: RelocateAction)
    | ByWriter(writer: WriterAction)

  predicate IsFault(a: Action) { a.ByWriter? && a.writer.WriterFault? }

  predicate MainEnabled(s: State, a: MainAction) {
    match a
    case DropSourceSender => s.main.HoldingBothSenders?
    case DropWriteSender => s.main.HoldingWriteSender?
    case AwaitSource => s.main.AwaitingSource? && s.source != Running
    case AwaitRelocate => s.main.AwaitingRelocate? && s.relocate != Running
    case AwaitWriter => s.main.AwaitingWriter? && Ended(s.writer)
  }

  predicate SourceEnabled(job: Job, s: State, a: SourceAction) {
    && s.source == Running
    && match a
       case SkipAlias => s.next < |job.tensors| && job.tensors[s.next].disposition.AliasOnly?
       case SendUnit =>
         s.next < |job.tensors| && !job.tensors[s.next].disposition.AliasOnly? &&
         s.relocate == Running && |s.sourceQueue| < CAPACITY
       case SourceEnds => s.next >= |job.tensors|
       case SourceFails =>
         s.next < |job.tensors| && !job.tensors[s.next].disposition.AliasOnly? && s.relocate != Running
  }

  predicate RelocateEnabled(s: State, a: RelocateAction) {
    && s.relocate == Running
    && match a
       case ReceiveUnit => s.relocateHeld.None? && s.sourceQueue != []
       case SendPacket => s.relocateHeld.Some? && !Ended(s.writer) && |s.writeQueue| < CAPACITY
       case RelocateEnds => s.relocateHeld.None? && s.sourceQueue == [] && SourceClosed(s)
       case RelocateFails => s.relocateHeld.Some? && Ended(s.writer)
  }

  predicate WriterEnabled(s: State, a: WriterAction) {
    match a
    case OpenSegments => s.writer.Opening?
    case ReceivePacket => s.writer.Draining? && s.writeHeld.None? && s.writeQueue != []
    case WritePacket =>
      s.writer.Draining? && s.writeHeld.Some? && s.writeHeld.value.unit.segment in s.disk.files
    case RejectPacket =>
      s.writer.Draining? && s.writeHeld.Some? && s.writeHeld.value.unit.segment !in s.disk.files
    case WriterEnds => s.writer.Draining? && s.writeHeld.None? && s.writeQueue == [] && WriteClosed(s)
    case WriterFault(_) =>
      || s.writer.Opening?
      || (s.writer.Draining? && s.writeHeld.Some? && s.writeHeld.value.unit.segment in s.disk.files)
  }

  predicate Enabled(job: Job, s: State, a: Action) {
    match a
    case ByMain(m) => MainEnabled(s, m)
    case BySource(b) => SourceEnabled(job, s, b)
    case ByRelocate(r) => RelocateEnabled(s, r)
    case ByWriter(w) => WriterEnabled(s, w)
  }

  /** Awaiting a lane: its failure ends the call, otherwise the next lane is awaited. */
  function Join(status: LaneStatus, e: PipelineError, next: MainPhase): (m: MainPhase) {
    if status == Broken then Returned(Err(e)) else next
  }

  function MainStep(s: State, a: MainAction): (s': State)
    requires MainEnabled(s, a)
  {
    match a
    case DropSourceSender => s.(main := HoldingWriteSender)
    case DropWriteSender => s.(main := AwaitingSource)
    case AwaitSource => s.(main := Join(s.source, SourceChannelClosed, AwaitingRelocate))
    case AwaitRelocate => s.(main := Join(s.relocate, RelocateChannelClosed, AwaitingWriter))
    case AwaitWriter =>
      s.(main := Returned(if s.writer.Failed? then Err(s.writer.error) else Ok(Digests(s.disk))))
  }

  function SourceStep(job: Job, s: State, a: SourceAction): (s': State)
    requires SourceEnabled(job, s, a)
  {
    match a
    case SkipAlias => s.(next := s.next + 1)
    case SendUnit =>
      s.(next := s.next + 1, sourceQueue := s.sourceQueue + [UnitOf(job.tensors[s.next])])
    case SourceEnds => s.(source := Finished)
    case SourceFails => s.(source := Broken)
  }

  function RelocateStep(job: Job, s: State, a: RelocateAction): (s': State)
    requires RelocateEnabled(s, a)
  {
    match a
    case ReceiveUnit => s.(relocateHeld := Some(s.sourceQueue[0]), sourceQueue := s.sourceQueue[1..])
    case SendPacket =>
      s.(relocateHeld := None,
         writeQueue := s.writeQueue + [Packet(s.relocateHeld.value, job.payload(s.relocateHeld.value))])
    case RelocateEnds => s.(relocate := Finished)
    case RelocateFails => s.(relocate := Broken, relocateHeld := None, sourceQueue := [])
  }

  function WriterStep(job: Job, s: State, a: WriterAction): (s': State)
    requires WriterEnabled(s, a)
  {
    match a
    case OpenSegments => s.(writer := Draining, disk := FreshDisk(job.segments))
    case ReceivePacket => s.(writeHeld := Some(s.writeQueue[0]), writeQueue := s.writeQueue[1..])
    case WritePacket =>
      s.(writeHeld := None, disk := WriteUnit(s.disk, s.writeHeld.value), log := s.log + [s.writeHeld.value])
    case RejectPacket =>
      s.(writer := Failed(UnknownSegment(s.writeHeld.value.unit.segment)), writeHeld := None, writeQueue := [])
    case WriterEnds => s.(writer := Complete)
    case WriterFault(left) =>
      s.(writer := Failed(if s.writer.Opening? then CreateFailed else WriteFailed),
         writeHeld := None, writeQueue := [], disk := left)
  }

  function Apply(job: Job, s: State, a: Action): (s': State)
    requires Enabled(job, s, a)
  {
    match a
    case ByMain(m) => MainStep(s, m)
    case BySource(b) => SourceStep(job, s, b)
    case ByRelocate(r) => RelocateStep(job, s, r)
    case ByWriter(w) => WriterStep(job, s, w)
  }

  /** The state reached by a schedule, or None if some action was not enabled when taken. */
  function Exec(job: Job, schedule: seq<Action>): (r: Option<State>) {
    if schedule == [] then Some(Initial())
    else
      var r := Exec(job, schedule[..|schedule| - 1]);
      var a := schedule[|schedule| - 1];
      if r.Some? && Enabled(job, r.value, a) then Some(Apply(job, r.value, a)) else None
  }

  /** The orchestrator has returned and all lanes have stopped. */
  predicate AllDone(s: State) {
    s.main.Returned? && s.source != Running && s.relocate != Running && Ended(s.writer)
  }

  // ── Invariant ──────────────────────────────────────────────────────────────

  function Count<T>(o: Option<T>): (n: nat) { if o.Some? then 1 else 0 }

  /** How many units the source lane has sent. */
  function Sent(job: Job, s: State): (n: nat)
    requires s.next <= |job.tensors|
  {
    |Physical(job.tensors[..s.next])|
  }

  /** An I/O error has stopped the writer. */
  predicate IoFailure(w: WriterStatus) { w == Failed(CreateFailed) || w == Failed(WriteFailed) }

  ghost predicate Faulted(s: State) { IoFailure(s.writer) }

  /** What has reached the writer: its log, its held packet and the second channel are
      consecutive packets of the workload `ps`. */
  ghost predicate WriterChain(ps: seq<Packet>, log: seq<Packet>, held: Option<Packet>, queue: seq<Packet>) {
    var b := |log| + Count(held);
    && b + |queue| <= |ps|
    && log == ps[..|log|]
    && (held.Some? ==> held.value == ps[|log|])
    && queue == ps[b..b + |queue|]
  }

  /** What is between source and relocate ends the `n` units sent so far. */
  ghost predicate RelocateChain(
    us: seq<RelocationUnit>, n: nat, held: Option<RelocationUnit>, queue: seq<RelocationUnit>)
  {
    && Count(held) + |queue| <= n <= |us|
    && queue == us[n - |queue|..n]
    && (held.Some? ==> held.value == us[n - |queue| - 1])
  }

  ghost predicate Lanes(job: Job, s: State) {
    && s.next <= |job.tensors|
    && |s.sourceQueue| <= CAPACITY && |s.writeQueue| <= CAPACITY
    && (s.source == Finished ==> s.next == |job.tensors|)
    && (s.source == Broken ==>
          s.relocate == Broken && s.next < |job.tensors| && !job.tensors[s.next].disposition.AliasOnly?)
    && (s.relocate == Finished ==> s.source == Finished && s.sourceQueue == [] && s.relocateHeld.None?)
    && (s.relocate == Broken ==> s.writer.Failed? && s.sourceQueue == [] && s.relocateHeld.None?)
    && (s.writer.Opening? ==> s.writeHeld.None? && s.log == [])
    && (Ended(s.writer) ==> s.writeHeld.None? && s.writeQueue == [])
    && (s.writer.Complete? ==> s.relocate == Finished)
  }

  ghost predicate MainOrder(s: State) {
    match s.main
    case AwaitingRelocate => s.source == Finished
    case AwaitingWriter => s.source == Finished && s.relocate == Finished
    case Returned(Ok(digests)) =>
      s.source == Finished && s.relocate == Finished && s.writer.Complete? && digests == Digests(s.disk)
    case Returned(Err(e)) =>
      || (e == SourceChannelClosed && s.source == Broken)
      || (e == RelocateChannelClosed && s.source == Finished && s.relocate == Broken)
      || (s.source == Finished && s.relocate == Finished && s.writer == Failed(e))
    case _ => true
  }

  ghost predicate Contents(
    segments: set<SegmentId>, ps: seq<Packet>, log: seq<Packet>, writer: WriterStatus, disk: Disk)
  {
    && Known(segments, log)
    && (!writer.Opening? && !IoFailure(writer) ==> disk == Replay(segments, log))
    && (writer.Failed? && writer.error != CreateFailed ==>
          && |log| < |ps|
          && var id := ps[|log|].unit.segment;
             writer.error == if id in segments then WriteFailed else UnknownSegment(id))
    && (writer == Failed(CreateFailed) ==> log == [])
  }

  /** Units the writer has taken by the time it failed: all it wrote and, unless it never opened its
      files, the one it failed over. */
  function Taken(logged: nat, writer: WriterStatus): (n: nat) {
    if writer == Failed(CreateFailed) then logged else logged + 1
  }

  /** Conservation: each of the `n` units sent is logged, in flight downstream or upstream of the
      relocate lane's send, or was discarded by a failing lane; and what is discarded is bounded by
      what the channels and lanes can hold. */
  ghost predicate Conservation(
    n: nat, logged: nat, downstream: nat, upstream: nat, relocate: LaneStatus, writer: WriterStatus)
  {
    var taken := Taken(logged, writer);
    && (!writer.Failed? ==> n == logged + downstream + upstream)
    && (writer.Failed? && relocate != Broken ==> taken + upstream <= n <= taken + upstream + CAPACITY)
    && (relocate == Broken ==> taken + 1 <= n <= taken + 1 + 2 * CAPACITY)
  }

  function Downstream(s: State): (n: nat) { Count(s.writeHeld) + |s.writeQueue| }

  function Upstream(s: State): (n: nat) { Count(s.relocateHeld) + |s.sourceQueue| }

  ghost predicate Inv(job: Job, s: State) {
    && Lanes(job, s)
    && MainOrder(s)
    && WriterChain(Workload(job), s.log, s.writeHeld, s.writeQueue)
    && RelocateChain(Physical(job.tensors), Sent(job, s), s.relocateHeld, s.sourceQueue)
    && Conservation(Sent(job, s), |s.log|, Downstream(s), Upstream(s), s.relocate, s.writer)
    && Contents(job.segments, Workload(job), s.log, s.writer, s.disk)
  }

  // ── Facts about the table ──────────────────────────────────────────────────

  /** The units of a prefix of the table are a prefix of the table's units. */
  lemma {:induction false} PhysicalPrefix(ts: seq<PlannedTensor>, n: nat)
    requires n <= |ts|
    ensures |Physical(ts[..n])| <= |Physical(ts)|
    ensures Physical(ts[..n]) == Physical(ts)[..|Physical(ts[..n])|]
  {
    if n == |ts| {
      assert ts[..n] == ts;
    } else {
      PhysicalPrefix(ts[..|ts| - 1], n);
      assert ts[..|ts| - 1][..n] == ts[..n];
    }
  }

  /** The next physical tensor is the unit at position `Sent`. */
  lemma NextUnit(ts: seq<PlannedTensor>, n: nat)
    requires n < |ts|
    ensures
      var before, after := Physical(ts[..n]), Physical(ts[..n + 1]);
      if ts[n].disposition.AliasOnly? then after == before
      else after == before + [UnitOf(ts[n])] && |before| < |Physical(ts)| && Physical(ts)[|before|] == UnitOf(ts[n])
  {
    assert ts[..n + 1][..n] == ts[..n];
    PhysicalPrefix(ts, n + 1);
  }

  lemma SliceExtends<T>(xs: seq<T>, i: nat, j: nat)
    requires i <= j < |xs|
    ensures xs[i..j + 1] == xs[i..j] + [xs[j]]
  {
  }

  lemma ReplaySnoc(segments: set<SegmentId>, ps: seq<Packet>, p: Packet)
    requires Known(segments, ps) && p.unit.segment in segments
    ensures Known(segments, ps + [p])
    ensures Replay(segments, ps + [p]) == WriteUnit(Replay(segments, ps), p)
  {
    assert (ps + [p])[..|ps|] == ps;
  }

  // ── Every step keeps the invariant ─────────────────────────────────────────

  lemma MainKeepsLanes(job: Job, s: State, a: MainAction)
    requires Lanes(job, s) && MainOrder(s) && MainEnabled(s, a)
    ensures Lanes(job, MainStep(s, a)) && MainOrder(MainStep(s, a))
  {
  }

  lemma SourceKeepsLanes(job: Job, s: State, a: SourceAction)
    requires Lanes(job, s) && MainOrder(s) && SourceEnabled(job, s, a)
    ensures Lanes(job, SourceStep(job, s, a)) && MainOrder(SourceStep(job, s, a))
  {
  }

  lemma RelocateKeepsLanes(job: Job, s: State, a: RelocateAction)
    requires Lanes(job, s) && MainOrder(s) && RelocateEnabled(s, a)
    ensures Lanes(job, RelocateStep(job, s, a)) && MainOrder(RelocateStep(job, s, a))
  {
  }

  lemma WriterKeepsLanes(job: Job, s: State, a: WriterAction)
    requires Lanes(job, s) && MainOrder(s) && WriterEnabled(s, a)
    ensures Lanes(job, WriterStep(job, s, a)) && MainOrder(WriterStep(job, s, a))
  {
  }

  /** The number of units sent grows by one on a send and is otherwise unchanged. */
  lemma SourceAdvancesSent(job: Job, s: State, a: SourceAction)
    requires SourceEnabled(job, s, a) && s.next <= |job.tensors|
    ensures SourceStep(job, s, a).next <= |job.tensors|
    ensures Sent(job, SourceStep(job, s, a)) == Sent(job, s) + (if a.SendUnit? then 1 else 0)
    ensures a.SendUnit? ==>
      Sent(job, s) < |Physical(job.tensors)| && UnitOf(job.tensors[s.next]) == Physical(job.tensors)[Sent(job, s)]
  {
    if a.SkipAlias? || a.SendUnit? {
      NextUnit(job.tensors, s.next);
    }
  }

  /** Sending appends the next unit of the table to the first channel. */
  lemma SendExtendsChain(us: seq<RelocationUnit>, n: nat, held: Option<RelocationUnit>, queue: seq<RelocationUnit>)
    requires RelocateChain(us, n, held, queue) && n < |us|
    ensures RelocateChain(us, n + 1, held, queue + [us[n]])
  {
    SliceExtends(us, n - |queue|, n);
  }

  lemma SourceKeepsChains(job: Job, us: seq<RelocationUnit>, n: nat, s: State, a: SourceAction, s': State, n': nat)
    requires SourceEnabled(job, s, a) && Lanes(job, s) && s' == SourceStep(job, s, a)
    requires n' == n + (if a.SendUnit? then 1 else 0) && RelocateChain(us, n, s.relocateHeld, s.sourceQueue)
    requires Conservation(n, |s.log|, Downstream(s), Upstream(s), s.relocate, s.writer)
    requires a.SendUnit? ==> n < |us| && UnitOf(job.tensors[s.next]) == us[n]
    ensures RelocateChain(us, n', s'.relocateHeld, s'.sourceQueue)
    ensures Conservation(n', |s'.log|, Downstream(s'), Upstream(s'), s'.relocate, s'.writer)
  {
    if a.SendUnit? {
      SendExtendsChain(us, n, s.relocateHeld, s.sourceQueue);
    }
  }

  lemma ReceiveKeepsChain(us: seq<RelocationUnit>, n: nat, queue: seq<RelocationUnit>)
    requires RelocateChain(us, n, None, queue) && queue != []
    ensures RelocateChain(us, n, Some(queue[0]), queue[1..])
  {
    var q := |queue|;
    assert us[n - q..n][0] == us[n - q];
    assert us[n - q..n][1..] == us[n - q + 1..n];
  }

  lemma PacketExtendsChain(ps: seq<Packet>, log: seq<Packet>, held: Option<Packet>, queue: seq<Packet>)
    requires WriterChain(ps, log, held, queue) && |log| + Count(held) + |queue| < |ps|
    ensures WriterChain(ps, log, held, queue + [ps[|log| + Count(held) + |queue|]])
  {
    var b := |log| + Count(held);
    SliceExtends(ps, b, b + |queue|);
  }

  lemma RelocateKeepsWriterChain(job: Job, us: seq<RelocationUnit>, n: nat, s: State, a: RelocateAction)
    requires RelocateEnabled(s, a) && RelocateChain(us, n, s.relocateHeld, s.sourceQueue)
    requires Conservation(n, |s.log|, Downstream(s), Upstream(s), s.relocate, s.writer)
    requires WriterChain(Packed(job.payload, us), s.log, s.writeHeld, s.writeQueue)
    ensures
      var s' := RelocateStep(job, s, a);
      WriterChain(Packed(job.payload, us), s'.log, s'.writeHeld, s'.writeQueue)
  {
    if a.SendPacket? {
      assert n == |s.log| + Downstream(s) + 1 + |s.sourceQueue|;
      PacketExtendsChain(Packed(job.payload, us), s.log, s.writeHeld, s.writeQueue);
    }
  }

  lemma RelocateKeepsChains(job: Job, us: seq<RelocationUnit>, n: nat, s: State, a: RelocateAction)
    requires RelocateEnabled(s, a) && Lanes(job, s) && RelocateChain(us, n, s.relocateHeld, s.sourceQueue)
    requires Conservation(n, |s.log|, Downstream(s), Upstream(s), s.relocate, s.writer)
    ensures
      var s' := RelocateStep(job, s, a);
      && RelocateChain(us, n, s'.relocateHeld, s'.sourceQueue)
      && Conservation(n, |s'.log|, Downstream(s'), Upstream(s'), s'.relocate, s'.writer)
  {
    if a.ReceiveUnit? {
      ReceiveKeepsChain(us, n, s.sourceQueue);
    }
  }

  lemma ReceivePacketKeepsChain(ps: seq<Packet>, log: seq<Packet>, queue: seq<Packet>)
    requires WriterChain(ps, log, None, queue) && queue != []
    ensures WriterChain(ps, log, Some(queue[0]), queue[1..])
  {
    var b := |log|;
    var c := b + |queue|;
    assert ps[b..c][0] == ps[b];
    assert ps[b..c][1..] == ps[b + 1..c];
  }

  lemma WriteKeepsChain(ps: seq<Packet>, log: seq<Packet>, p: Packet, queue: seq<Packet>)
    requires WriterChain(ps, log, Some(p), queue)
    ensures WriterChain(ps, log + [p], None, queue)
  {
    SliceExtends(ps, 0, |log|);
  }

  lemma StopKeepsChain(ps: seq<Packet>, log: seq<Packet>, held: Option<Packet>, queue: seq<Packet>)
    requires WriterChain(ps, log, held, queue)
    ensures WriterChain(ps, log, None, [])
  {
  }

  lemma WriterKeepsContents(job: Job, ps: seq<Packet>, s: State, a: WriterAction)
    requires WriterEnabled(s, a) && Lanes(job, s)
    requires WriterChain(ps, s.log, s.writeHeld, s.writeQueue)
    requires Contents(job.segments, ps, s.log, s.writer, s.disk)
    ensures
      var s' := WriterStep(job, s, a);
      && WriterChain(ps, s'.log, s'.writeHeld, s'.writeQueue)
      && Contents(job.segments, ps, s'.log, s'.writer, s'.disk)
  {
    match a
    case ReceivePacket =>
      ReceivePacketKeepsChain(ps, s.log, s.writeQueue);
    case WritePacket =>
      WriteKeepsChain(ps, s.log, s.writeHeld.value, s.writeQueue);
      ReplaySnoc(job.segments, s.log, s.writeHeld.value);
    case _ =>
      StopKeepsChain(ps, s.log, s.writeHeld, s.writeQueue);
  }

  lemma WriterKeepsConservation(job: Job, n: nat, s: State, a: WriterAction)
    requires WriterEnabled(s, a) && Lanes(job, s)
    requires Conservation(n, |s.log|, Downstream(s), Upstream(s), s.relocate, s.writer)
    ensures
      var s' := WriterStep(job, s, a);
      Conservation(n, |s'.log|, Downstream(s'), Upstream(s'), s'.relocate, s'.writer)
  {
  }

  lemma MainKeepsInv(job: Job, s: State, a: MainAction)
    requires Inv(job, s) && MainEnabled(s, a)
    ensures Inv(job, MainStep(s, a))
  {
    MainKeepsLanes(job, s, a);
  }

  lemma SourceKeepsInv(job: Job, s: State, a: SourceAction)
    requires Inv(job, s) && SourceEnabled(job, s, a)
    ensures Inv(job, SourceStep(job, s, a))
  {
    SourceKeepsLanes(job, s, a);
    SourceAdvancesSent(job, s, a);
    var s' := SourceStep(job, s, a);
    SourceKeepsChains(job, Physical(job.tensors), Sent(job, s), s, a, s', Sent(job, s'));
  }

  lemma RelocateKeepsInv(job: Job, s: State, a: RelocateAction)
    requires Inv(job, s) && RelocateEnabled(s, a)
    ensures Inv(job, RelocateStep(job, s, a))
  {
    RelocateKeepsLanes(job, s, a);
    RelocateKeepsWriterChain(job, Physical(job.tensors), Sent(job, s), s, a);
    RelocateKeepsChains(job, Physical(job.tensors), Sent(job, s), s, a);
  }

  lemma WriterKeepsInv(job: Job, s: State, a: WriterAction)
    requires Inv(job, s) && WriterEnabled(s, a)
    ensures Inv(job, WriterStep(job, s, a))
  {
    WriterKeepsLanes(job, s, a);
    WriterKeepsContents(job, Workload(job), s, a);
    WriterKeepsConservation(job, Sent(job, s), s, a);
  }

  lemma InitialInv(job: Job)
    ensures Inv(job, Initial())
  {
  }

  /** Every step of every lane and of the orchestrator keeps the invariant. */
  lemma StepKeepsInv(job: Job, s: State, a: Action)
    requires Inv(job, s) && Enabled(job, s, a)
    ensures Inv(job, Apply(job, s, a))
  {
    match a
    case ByMain(m) => MainKeepsInv(job, s, m);
    case BySource(b) => SourceKeepsInv(job, s, b);
    case ByRelocate(r) => RelocateKeepsInv(job, s, r);
    case ByWriter(w) => WriterKeepsInv(job, s, w);
  }

  lemma {:induction false} ReachableInv(job: Job, schedule: seq<Action>)
    requires Exec(job, schedule).Some?
    ensures Inv(job, Exec(job, schedule).value)
  {
    if schedule == [] {
      InitialInv(job);
    } else {
      var before := schedule[..|schedule| - 1];
      ReachableInv(job, before);
      StepKeepsInv(job, Exec(job, before).value, schedule[|schedule| - 1]);
    }
  }

  // ── Safety: a successful run is the sequential loop ────────────────────────

  /** Whatever the interleaving and the I/O faults, a run that returns Ok has written every
      non-alias tensor exactly once, in table order; its files, hasher inputs and digests are
      those of the sequential loop. */
  lemma SuccessRefinesSequential(job: Job, schedule: seq<Action>)
    requires Exec(job, schedule).Some? && Exec(job, schedule).value.main.Returned?
    requires Exec(job, schedule).value.main.outcome.Ok?
    ensures
      var s := Exec(job, schedule).value;
      && s.log == Workload(job)
      && Known(job.segments, Workload(job))
      && s.disk == Replay(job.segments, Workload(job))
      && s.main.outcome.value == Digests(Replay(job.segments, Workload(job)))
  {
    ReachableInv(job, schedule);
    var s := Exec(job, schedule).value;
    assert job.tensors[..s.next] == job.tensors;
    assert |s.log| == |Workload(job)|;
  }

  /** At every moment of every run the disk holds exactly a prefix of the workload, unless an
      I/O error has been reported. */
  lemma EveryPrefixIsSequential(job: Job, schedule: seq<Action>)
    requires Exec(job, schedule).Some?
    ensures
      var s := Exec(job, schedule).value;
      && s.log <= Workload(job)
      && Known(job.segments, s.log)
      && (!s.writer.Opening? && !Faulted(s) ==> s.disk == Replay(job.segments, s.log))
  {
    ReachableInv(job, schedule);
  }

  /** Backpressure: the source lane is never more than two channels and two held items ahead
      of the units written. */
  lemma Backpressure(job: Job, schedule: seq<Action>)
    requires Exec(job, schedule).Some?
    ensures
      var s := Exec(job, schedule).value;
      && |s.sourceQueue| <= 64 && |s.writeQueue| <= 64
      && s.next <= |job.tensors|
      && |s.log| <= Sent(job, s) <= |s.log| + 130
  {
    ReachableInv(job, schedule);
  }

  // ── Liveness: no deadlock, and every run is finite ─────────────────────────

  /** What the lanes can do next, or else the orchestrator. */
  function NextWriter(s: State): (a: WriterAction) {
    if s.writer.Opening? then OpenSegments
    else if s.writeHeld.Some? then
      if s.writeHeld.value.unit.segment in s.disk.files then WritePacket else RejectPacket
    else if s.writeQueue != [] then ReceivePacket
    else WriterEnds
  }

  function NextRelocate(s: State): (a: RelocateAction) {
    if s.relocateHeld.Some? then if Ended(s.writer) then RelocateFails else SendPacket
    else if s.sourceQueue != [] then ReceiveUnit
    else RelocateEnds
  }

  function NextSource(job: Job, s: State): (a: SourceAction) {
    if s.next >= |job.tensors| then SourceEnds
    else if job.tensors[s.next].disposition.AliasOnly? then SkipAlias
    else if s.relocate == Running then SendUnit
    else SourceFails
  }

  function NextMain(s: State): (a: MainAction) {
    match s.main
    case HoldingBothSenders => DropSourceSender
    case HoldingWriteSender => DropWriteSender
    case AwaitingSource => AwaitSource
    case AwaitingRelocate => AwaitRelocate
    case _ => AwaitWriter
  }

  /** While the source lane or the relocate lane runs, one of the lanes can move once the
      orchestrator has dropped its senders. */
  lemma LanesProgress(job: Job, s: State)
    requires s.next <= |job.tensors| && !s.main.HoldingBothSenders? && !s.main.HoldingWriteSender?
    requires s.source == Running || s.relocate == Running || !Ended(s.writer)
    ensures
      || WriterEnabled(s, NextWriter(s))
      || RelocateEnabled(s, NextRelocate(s))
      || SourceEnabled(job, s, NextSource(job, s))
  {
  }

  /** Some lane or the orchestrator can move, without relying on an I/O error. */
  lemma Progress(job: Job, s: State)
    requires Inv(job, s) && !AllDone(s)
    ensures exists a :: Enabled(job, s, a) && !IsFault(a)
  {
    var m, w, r, b := NextMain(s), NextWriter(s), NextRelocate(s), NextSource(job, s);
    if MainEnabled(s, m) {
      assert Enabled(job, s, ByMain(m));
    } else {
      LanesProgress(job, s);
      assert WriterEnabled(s, w) ==> Enabled(job, s, ByWriter(w)) && !IsFault(ByWriter(w));
      assert RelocateEnabled(s, r) ==> Enabled(job, s, ByRelocate(r));
      assert SourceEnabled(job, s, b) ==> Enabled(job, s, BySource(b));
    }
  }

  function LaneWork(l: LaneStatus): (n: nat) { if l == Running then 1 else 0 }

  function WriterWork(w: WriterStatus): (n: nat) {
    match w case Opening => 2 case Draining => 1 case _ => 0
  }

  function MainWork(m: MainPhase): (n: nat) {
    match m
    case HoldingBothSenders => 5
    case HoldingWriteSender => 4
    case AwaitingSource => 3
    case AwaitingRelocate => 2
    case AwaitingWriter => 1
    case Returned(_) => 0
  }

  /** Work left: every unit still has to take one step per station on its way to the disk. */
  function Measure(job: Job, s: State): (m: nat)
    requires s.next <= |job.tensors|
  {
    5 * (|job.tensors| - s.next) + 4 * |s.sourceQueue| + 3 * Count(s.relocateHeld)
    + 2 * |s.writeQueue| + Count(s.writeHeld)
    + LaneWork(s.source) + LaneWork(s.relocate) + WriterWork(s.writer) + MainWork(s.main)
  }

  lemma MainDecreasesMeasure(job: Job, s: State, a: MainAction)
    requires s.next <= |job.tensors| && MainEnabled(s, a)
    ensures MainStep(s, a).next <= |job.tensors|
    ensures Measure(job, MainStep(s, a)) < Measure(job, s)
  {
  }

  lemma SourceDecreasesMeasure(job: Job, s: State, a: SourceAction)
    requires s.next <= |job.tensors| && SourceEnabled(job, s, a)
    ensures SourceStep(job, s, a).next <= |job.tensors|
    ensures Measure(job, SourceStep(job, s, a)) < Measure(job, s)
  {
  }

  lemma RelocateDecreasesMeasure(job: Job, s: State, a: RelocateAction)
    requires s.next <= |job.tensors| && RelocateEnabled(s, a)
    ensures RelocateStep(job, s, a).next <= |job.tensors|
    ensures Measure(job, RelocateStep(job, s, a)) < Measure(job, s)
  {
  }

  lemma WriterDecreasesMeasure(job: Job, s: State, a: WriterAction)
    requires s.next <= |job.tensors| && WriterEnabled(s, a)
    ensures WriterStep(job, s, a).next <= |job.tensors|
    ensures Measure(job, WriterStep(job, s, a)) < Measure(job, s)
  {
  }

  lemma StepDecreasesMeasure(job: Job, s: State, a: Action)
    requires s.next <= |job.tensors| && Enabled(job, s, a)
    ensures Apply(job, s, a).next <= |job.tensors|
    ensures Measure(job, Apply(job, s, a)) < Measure(job, s)
  {
    match a
    case ByMain(m) => MainDecreasesMeasure(job, s, m);
    case BySource(b) => SourceDecreasesMeasure(job, s, b);
    case ByRelocate(r) => RelocateDecreasesMeasure(job, s, r);
    case ByWriter(w) => WriterDecreasesMeasure(job, s, w);
  }

  /** No run takes more than 5 steps per tensor plus 9. */
  lemma {:induction false} RunsAreShort(job: Job, schedule: seq<Action>)
    requires Exec(job, schedule).Some?
    ensures Exec(job, schedule).value.next <= |job.tensors|
    ensures |schedule| + Measure(job, Exec(job, schedule).value) <= 5 * |job.tensors| + 9
  {
    if schedule != [] {
      var before := schedule[..|schedule| - 1];
      RunsAreShort(job, before);
      ReachableInv(job, before);
      StepDecreasesMeasure(job, Exec(job, before).value, schedule[|schedule| - 1]);
    }
  }

  /** A schedule that cannot be extended. */
  ghost predicate Maximal(job: Job, schedule: seq<Action>) {
    Exec(job, schedule).Some? && forall a :: !Enabled(job, Exec(job, schedule).value, a)
  }

  /** Every run that cannot continue has stopped all lanes and returned. Without I/O errors it
      returned Ok exactly when every destination segment is known. */
  lemma CompleteRunOutcome(job: Job, schedule: seq<Action>)
    requires Maximal(job, schedule)
    ensures
      var s := Exec(job, schedule).value;
      && AllDone(s)
      && (!Faulted(s) ==> (s.main.outcome.Ok? <==> Known(job.segments, Workload(job))))
  {
    var s := Exec(job, schedule).value;
    ReachableInv(job, schedule);
    if !AllDone(s) {
      Progress(job, s);
    }
    if s.main.outcome.Ok? {
      SuccessRefinesSequential(job, schedule);
    }
  }

  lemma DoneIsMaximal(job: Job, schedule: seq<Action>)
    requires Exec(job, schedule).Some? && AllDone(Exec(job, schedule).value)
    ensures Maximal(job, schedule)
  {
  }

  lemma ExecExtends(job: Job, schedule: seq<Action>, a: Action)
    requires Exec(job, schedule).Some? && Enabled(job, Exec(job, schedule).value, a)
    ensures Exec(job, schedule + [a]) == Some(Apply(job, Exec(job, schedule).value, a))
  {
    assert (schedule + [a])[..|schedule + [a]| - 1] == schedule;
  }

  lemma OnlyFaultsFault(job: Job, s: State, a: Action)
    requires Enabled(job, s, a) && !IsFault(a) && !Faulted(s)
    ensures !Faulted(Apply(job, s, a))
  {
  }

  /** A state that is not done has a fault-free successor. */
  lemma ExtendRun(job: Job, schedule: seq<Action>) returns (longer: seq<Action>)
    requires Exec(job, schedule).Some? && !AllDone(Exec(job, schedule).value)
    ensures |longer| == |schedule| + 1 && schedule <= longer && Exec(job, longer).Some?
    ensures !Faulted(Exec(job, schedule).value) ==> !Faulted(Exec(job, longer).value)
  {
    var s := Exec(job, schedule).value;
    ReachableInv(job, schedule);
    Progress(job, s);
    var a :| Enabled(job, s, a) && !IsFault(a);
    longer := schedule + [a];
    ExecExtends(job, schedule, a);
    if !Faulted(s) {
      OnlyFaultsFault(job, s, a);
    }
  }

  /** Every run can be completed: some extension of it is maximal. */
  lemma {:induction false} RunsComplete(job: Job, schedule: seq<Action>) returns (full: seq<Action>)
    requires Exec(job, schedule).Some?
    ensures schedule <= full && Maximal(job, full)
    ensures !Faulted(Exec(job, schedule).value) ==> !Faulted(Exec(job, full).value)
    decreases 5 * |job.tensors| + 9 - |schedule|
  {
    if AllDone(Exec(job, schedule).value) {
      DoneIsMaximal(job, schedule);
      full := schedule;
    } else {
      var longer := ExtendRun(job, schedule);
      RunsAreShort(job, longer);
      full := RunsComplete(job, longer);
    }
  }

  // ── What the units are ─────────────────────────────────────────────────────

  function Unaliased(ts: seq<PlannedTensor>): (n: nat) {
    if ts == [] then 0
    else Unaliased(ts[..|ts| - 1]) + (if ts[|ts| - 1].disposition.AliasOnly? then 0 else 1)
  }

  /** A unit carries what the plan says about the tensor. */
  ghost predicate CarriesTensor(u: RelocationUnit, t: PlannedTensor) {
    && u.tensorId == t.id && u.name == t.name && u.disposition == t.disposition
    && u.sourceShard == t.sourceShard && u.sourceOffset == t.sourceOffset && u.sourceLength == t.sourceLength
    && u.segment == t.segment && u.offset == t.offset
  }

  /** Each tensor that is no alias has one unit, which carries it: as many units come before its own
      as there are such tensors before it. */
  lemma {:induction false} UnitOfEach(ts: seq<PlannedTensor>, k: nat)
    requires k < |ts| && !ts[k].disposition.AliasOnly?
    ensures |Physical(ts)| == Unaliased(ts)
    ensures Unaliased(ts[..k]) < |Physical(ts)| && CarriesTensor(Physical(ts)[Unaliased(ts[..k])], ts[k])
  {
    var init := ts[..|ts| - 1];
    UnitCount(ts);
    UnitCount(init);
    if k < |init| {
      UnitOfEach(init, k);
      assert init[..k] == ts[..k];
    }
  }

  lemma {:induction false} UnitCount(ts: seq<PlannedTensor>)
    ensures |Physical(ts)| == Unaliased(ts)
  {
    if ts != [] {
      UnitCount(ts[..|ts| - 1]);
    }
  }

  /** With the placeholder payload, what any run of the pipeline has written is zeros. */
  lemma PlaceholderRunsWriteZeros(job: Job, schedule: seq<Action>)
    requires job.payload == ZeroPayload && Exec(job, schedule).Some?
    ensures
      var s := Exec(job, schedule).value;
      !s.writer.Opening? && !Faulted(s) ==> ZeroFiles(s.disk)
  {
    EveryPrefixIsSequential(job, schedule);
    var s := Exec(job, schedule).value;
    assert forall i :: 0 <= i < |s.log| ==> s.log[i] == Workload(job)[i];
    ReplayZeros(job.segments, s.log);
  }

  // ── The lanes run one after another ────────────────────────────────────────

  /** The source-read loop: skip aliases, forward everything else in order. */
  method SourceReadLane(tensors: seq<PlannedTensor>) returns (units: seq<RelocationUnit>)
    ensures units == Physical(tensors)
  {
    units := [];
    for i := 0 to |tensors|
      invariant units == Physical(tensors[..i])
    {
      assert tensors[..i + 1][..i] == tensors[..i];
      if !tensors[i].disposition.AliasOnly? {
        units := units + [UnitOf(tensors[i])];
      }
    }
    assert tensors[..|tensors|] == tensors;
  }

  predicate Zeros(data: Bytes) { forall j :: 0 <= j < |data| ==> data[j] == 0 }

  /** The relocate loop with its placeholder payloads: as many zeros as the unit has source bytes. */
  method RelocateLane(units: seq<RelocationUnit>) returns (packets: seq<Packet>)
    ensures packets == Packed(ZeroPayload, units)
    ensures |packets| == |units|
    ensures forall i :: 0 <= i < |units| ==>
      packets[i].unit == units[i] && |packets[i].data| == units[i].sourceLength && Zeros(packets[i].data)
  {
    packets := [];
    for i := 0 to |units|
      invariant packets == Packed(ZeroPayload, units[..i])
    {
      packets := packets + [Packet(units[i], ZeroPayload(units[i]))];
    }
    assert units[..|units|] == units;
  }

  /** An empty buffer (file contents, hasher input) for every segment id. */
  method OnePerSegment(segments: seq<PlannedSegment>) returns (m: map<SegmentId, Bytes>)
    ensures m == map s | s in SegmentIds(segments) :: []
  {
    m := map[];
    for i := 0 to |segments|
      invariant m.Keys == SegmentIds(segments[..i])
      invariant forall s :: s in m ==> m[s] == []
    {
      m := m[segments[i].id := []];
    }
    assert segments[..|segments|] == segments;
  }

  /** The write loop: open a file and a hasher per segment, then write and hash packets in
      arrival order, stopping at the first unknown segment. */
  method WriteLane(packets: seq<Packet>, segments: seq<PlannedSegment>)
    returns (outcome: Outcome, disk: Disk, written: nat)
    ensures written <= |packets| && Known(SegmentIds(segments), packets[..written])
    ensures disk == Replay(SegmentIds(segments), packets[..written])
    ensures outcome.Ok? ==> written == |packets| && outcome.value == Digests(disk)
    ensures outcome.Err? ==>
      && written < |packets|
      && packets[written].unit.segment !in SegmentIds(segments)
      && outcome.error == UnknownSegment(packets[written].unit.segment)
  {
    var files := OnePerSegment(segments);
    var hashers := OnePerSegment(segments);
    ghost var ids := SegmentIds(segments);
    disk := Disk(files, hashers);
    written := 0;
    while written < |packets|
      invariant 0 <= written <= |packets| && Known(ids, packets[..written])
      invariant disk == Replay(ids, packets[..written])
    {
      var p := packets[written];
      if p.unit.segment !in disk.files {
        return Err(UnknownSegment(p.unit.segment)), disk, written;
      }
      SliceExtends(packets, 0, written);
      ReplaySnoc(ids, packets[..written], p);
      disk := WriteUnit(disk, p);
      written := written + 1;
    }
    outcome := Ok(Digests(disk));
  }

  ghost predicate AllZeros(ps: seq<Packet>) { forall i :: 0 <= i < |ps| ==> Zeros(ps[i].data) }

  ghost predicate ZeroFiles(disk: Disk) {
    && (forall s :: s in disk.files ==> Zeros(disk.files[s]))
    && forall s :: s in disk.hashed ==> Zeros(disk.hashed[s])
  }

  lemma WriteZeros(file: Bytes, offset: nat, data: Bytes)
    requires Zeros(file) && Zeros(data)
    ensures Zeros(WriteAt(file, offset, data)) && Zeros(file + data)
  {
  }

  lemma WriteZeroUnit(disk: Disk, p: Packet)
    requires ZeroFiles(disk) && Zeros(p.data) && p.unit.segment in disk.files
    ensures ZeroFiles(WriteUnit(disk, p))
  {
    var s := p.unit.segment;
    WriteZeros(disk.files[s], p.unit.offset, p.data);
    if s in disk.hashed {
      WriteZeros(disk.hashed[s], 0, p.data);
    }
  }

  /** Zero payloads leave zero files, wherever they are written. */
  lemma {:induction false} ReplayZeros(segments: set<SegmentId>, ps: seq<Packet>)
    requires Known(segments, ps) && AllZeros(ps)
    ensures ZeroFiles(Replay(segments, ps))
  {
    if ps != [] {
      ReplayZeros(segments, ps[..|ps| - 1]);
      WriteZeroUnit(Replay(segments, ps[..|ps| - 1]), ps[|ps| - 1]);
    }
  }

  /** The lanes run to completion one after another: the reference the interleaved runs refine. */
  method RelocateSequentially(plan: CompilationPlan) returns (outcome: Outcome, disk: Disk)
    ensures
      var job := Job(plan.tensors, SegmentIds(plan.segments), ZeroPayload);
      && (outcome.Ok? <==> Known(job.segments, Workload(job)))
      && (outcome.Ok? ==> disk == Replay(job.segments, Workload(job)) && outcome.value == Digests(disk))
      && (outcome.Err? ==>
            exists k: nat ::
              && FirstUnknown(job, k)
              && outcome.error == UnknownSegment(Workload(job)[k].unit.segment)
              && disk == Replay(job.segments, Workload(job)[..k]))
    ensures ZeroFiles(disk)
  {
    var units := SourceReadLane(plan.tensors);
    var packets := RelocateLane(units);
    var written;
    outcome, disk, written := WriteLane(packets, plan.segments);
    ReplayZeros(SegmentIds(plan.segments), packets[..written]);
    ghost var job := Job(plan.tensors, SegmentIds(plan.segments), ZeroPayload);
    assert packets == Workload(job);
    if outcome.Ok? {
      assert packets[..written] == packets;
    } else {
      assert FirstUnknown(job, written);
    }
  }
}

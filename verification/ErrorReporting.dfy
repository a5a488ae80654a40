/** Which error a failing relocation pipeline reports. The orchestrator awaits the source lane
    first, so what surfaces depends on how many units lie behind the one that failed. */
module ErrorReporting {
  import opened Common
  import opened PlanTables
  import opened Pipeline

  // ── How the writer can fail ────────────────────────────────────────────────

  /** The writer's failures, by the number of units it has taken: opening its files, writing a unit
      whose segment is known, or meeting the first unit whose segment is not. */
  ghost predicate CanFail(job: Job, e: PipelineError, taken: nat) {
    match e
    case CreateFailed => taken == 0
    case WriteFailed => 1 <= taken <= |Workload(job)| && Known(job.segments, Workload(job)[..taken])
    case UnknownSegment(id) =>
      taken >= 1 && FirstUnknown(job, taken - 1) && id == Workload(job)[taken - 1].unit.segment
    case _ => false
  }

  ghost predicate FailedAfter(s: State, e: PipelineError, taken: nat) {
    s.writer == Failed(e) && Taken(|s.log|, s.writer) == taken
  }

  /** Some complete run in which the writer fails so returns `outcome`. */
  ghost predicate CanReturnAfter(job: Job, e: PipelineError, taken: nat, outcome: Outcome) {
    exists schedule :: ReturnsAfter(job, schedule, e, taken, outcome)
  }

  ghost predicate ReturnsAfter(job: Job, schedule: seq<Action>, e: PipelineError, taken: nat, outcome: Outcome) {
    && Maximal(job, schedule)
    && FailedAfter(Exec(job, schedule).value, e, taken)
    && Exec(job, schedule).value.main == Returned(outcome)
  }

  lemma KnownPrefix(segments: set<SegmentId>, ps: seq<Packet>, k: nat)
    requires k <= |ps|
    ensures Known(segments, ps[..k]) <==> forall i :: 0 <= i < k ==> ps[i].unit.segment in segments
  {
    assert forall i :: 0 <= i < k ==> ps[..k][i] == ps[i];
  }

  lemma FailureIsThese(job: Job, log: seq<Packet>, writer: WriterStatus, disk: Disk)
    requires writer.Failed? && log <= Workload(job)
    requires Contents(job.segments, Workload(job), log, writer, disk)
    ensures CanFail(job, writer.error, Taken(|log|, writer))
  {
    var ps := Workload(job);
    assert log == ps[..|log|];
    if |log| < |ps| {
      KnownPrefix(job.segments, ps, |log|);
      KnownPrefix(job.segments, ps, |log| + 1);
    }
  }

  /** In every run the writer fails in one of these ways only. */
  lemma FailuresAreThese(job: Job, schedule: seq<Action>)
    requires Exec(job, schedule).Some? && Exec(job, schedule).value.writer.Failed?
    ensures
      var s := Exec(job, schedule).value;
      CanFail(job, s.writer.error, Taken(|s.log|, s.writer))
  {
    ReachableInv(job, schedule);
    EveryPrefixIsSequential(job, schedule);
    var s := Exec(job, schedule).value;
    FailureIsThese(job, s.log, s.writer, s.disk);
  }

  // ── What each error implies ────────────────────────────────────────────────

  /** Each possible outcome, and how many units it takes. */
  ghost predicate Explains(n: nat, e: PipelineError, taken: nat, outcome: Outcome) {
    || (outcome == Err(e) && n <= taken + 64)
    || (outcome == Err(RelocateChannelClosed) && taken + 1 <= n <= taken + 129)
    || (outcome == Err(SourceChannelClosed) && taken + 2 <= n)
  }

  /** How many units have been sent in the end. */
  lemma SentInTheEnd(job: Job, s: State)
    requires Lanes(job, s)
    ensures s.source == Finished ==> Sent(job, s) == |Workload(job)|
    ensures s.source == Broken ==> Sent(job, s) < |Workload(job)|
  {
    if s.source == Finished {
      assert job.tensors[..|job.tensors|] == job.tensors;
    } else if s.source == Broken {
      NextUnit(job.tensors, s.next);
    }
  }

  lemma DoneIsExplained(job: Job, s: State, n: nat, total: nat)
    requires Lanes(job, s) && MainOrder(s) && AllDone(s) && s.writer.Failed?
    requires Conservation(n, |s.log|, Downstream(s), Upstream(s), s.relocate, s.writer)
    requires (s.source == Finished ==> n == total) && (s.source == Broken ==> n < total)
    ensures Explains(total, s.writer.error, Taken(|s.log|, s.writer), s.main.outcome)
  {
  }

  lemma OutcomeIsExplained(job: Job, schedule: seq<Action>, e: PipelineError, taken: nat, outcome: Outcome)
    requires ReturnsAfter(job, schedule, e, taken, outcome)
    ensures Explains(|Workload(job)|, e, taken, outcome)
  {
    var s := Exec(job, schedule).value;
    CompleteRunOutcome(job, schedule);
    ReachableInv(job, schedule);
    SentInTheEnd(job, s);
    DoneIsExplained(job, s, Sent(job, s), |Workload(job)|);
  }

  // ── Runs step by step ──────────────────────────────────────────────────────

  ghost predicate Reached(job: Job, s: State) { exists schedule :: Exec(job, schedule) == Some(s) }

  lemma ReachedInv(job: Job, s: State)
    requires Reached(job, s)
    ensures Inv(job, s)
  {
    var schedule :| Exec(job, schedule) == Some(s);
    ReachableInv(job, schedule);
  }

  lemma ReachStep(job: Job, s: State, a: Action) returns (s': State)
    requires Reached(job, s) && Enabled(job, s, a)
    ensures s' == Apply(job, s, a) && Reached(job, s')
  {
    var schedule :| Exec(job, schedule) == Some(s);
    ExecExtends(job, schedule, a);
    s' := Apply(job, s, a);
  }

  /** The source lane sends its next unit, skipping aliases. */
  lemma {:induction false} FeedUnit(job: Job, s: State) returns (s': State)
    requires Reached(job, s) && s.source == Running && s.relocate == Running && |s.sourceQueue| < CAPACITY
    requires s.next <= |job.tensors| && Sent(job, s) < |Workload(job)|
    ensures Reached(job, s') && s' == s.(next := s'.next, sourceQueue := s'.sourceQueue)
    ensures s'.next <= |job.tensors| && Sent(job, s') == Sent(job, s) + 1 && |s'.sourceQueue| == |s.sourceQueue| + 1
    decreases |job.tensors| - s.next
  {
    assert job.tensors[..|job.tensors|] == job.tensors;
    NextUnit(job.tensors, s.next);
    if job.tensors[s.next].disposition.AliasOnly? {
      var skipped := ReachStep(job, s, BySource(SkipAlias));
      s' := FeedUnit(job, skipped);
    } else {
      s' := ReachStep(job, s, BySource(SendUnit));
    }
  }

  /** With everything sent, the source lane ends. */
  lemma {:induction false} EndSource(job: Job, s: State) returns (s': State)
    requires Reached(job, s) && s.source == Running && s.next <= |job.tensors| && Sent(job, s) == |Workload(job)|
    ensures Reached(job, s') && s' == s.(next := |job.tensors|, source := Finished)
    decreases |job.tensors| - s.next
  {
    if s.next == |job.tensors| {
      s' := ReachStep(job, s, BySource(SourceEnds));
    } else {
      NextUnit(job.tensors, s.next);
      var skipped := ReachStep(job, s, BySource(SkipAlias));
      s' := EndSource(job, skipped);
    }
  }

  /** The relocate lane passes one unit on. */
  lemma Relay(job: Job, s: State) returns (s': State)
    requires Reached(job, s) && s.relocate == Running && s.relocateHeld.None? && s.sourceQueue != []
    requires !Ended(s.writer) && |s.writeQueue| < CAPACITY
    ensures Reached(job, s') && |s'.writeQueue| == |s.writeQueue| + 1
    ensures s' == s.(sourceQueue := s.sourceQueue[1..], writeQueue := s'.writeQueue)
  {
    var held := ReachStep(job, s, ByRelocate(ReceiveUnit));
    s' := ReachStep(job, held, ByRelocate(SendPacket));
  }

  /** Where the lanes are, and how many units each has: waiting in the first channel, carried by
      the relocate lane, written, held by the writer, queued in the second channel. */
  datatype Stage = Stage(
    main: MainPhase, source: LaneStatus, relocate: LaneStatus, writer: WriterStatus,
    waiting: nat, carried: bool, written: nat, held: bool, queued: nat)

  function StageOf(s: State): (g: Stage) {
    Stage(
      s.main, s.source, s.relocate, s.writer,
      |s.sourceQueue|, s.relocateHeld.Some?, |s.log|, s.writeHeld.Some?, |s.writeQueue|)
  }

  /** All lanes run; `written` units are on disk, `queued` wait for the writer, nothing else is
      under way except what the relocate lane and the writer hold. */
  ghost predicate Flowing(
    job: Job, s: State, writer: WriterStatus, carried: bool, written: nat, held: bool, queued: nat)
  {
    && Reached(job, s) && s.next <= |job.tensors|
    && StageOf(s) == Stage(AwaitingSource, Running, Running, writer, 0, carried, written, held, queued)
    && Sent(job, s) == (if carried then 1 else 0) + written + (if held then 1 else 0) + queued
  }

  lemma StartOpening(job: Job) returns (s: State)
    ensures Flowing(job, s, Opening, false, 0, false, 0)
  {
    assert Exec(job, []) == Some(Initial());
    s := Initial();
    s := ReachStep(job, s, ByMain(DropSourceSender));
    s := ReachStep(job, s, ByMain(DropWriteSender));
    assert job.tensors[..0] == [];
  }

  /** One more unit through to the second channel. */
  lemma QueueUnit(job: Job, s: State, writer: WriterStatus, written: nat, held: bool, queued: nat)
    returns (s': State)
    requires Flowing(job, s, writer, false, written, held, queued) && !Ended(writer)
    requires queued < CAPACITY && Sent(job, s) < |Workload(job)|
    ensures Flowing(job, s', writer, false, written, held, queued + 1)
  {
    var fed := FeedUnit(job, s);
    s' := Relay(job, fed);
  }

  lemma HoldPacket(job: Job, s: State, written: nat, queued: nat) returns (s': State)
    requires Flowing(job, s, Draining, false, written, false, queued) && queued > 0
    ensures Flowing(job, s', Draining, false, written, true, queued - 1)
  {
    s' := ReachStep(job, s, ByWriter(ReceivePacket));
  }

  /** The writer's held packet is the next of the workload, and it is written if it is known. */
  lemma WriteHeld(job: Job, s: State, written: nat) returns (s': State)
    requires Flowing(job, s, Draining, false, written, true, 0)
    requires written < |Workload(job)| && Workload(job)[written].unit.segment in job.segments
    ensures Flowing(job, s', Draining, false, written + 1, false, 0)
  {
    ReachedInv(job, s);
    s' := ReachStep(job, s, ByWriter(WritePacket));
  }

  /** Known units can be written one after another before anything else happens. */
  lemma {:induction false} WriteKnown(job: Job, n: nat) returns (s: State)
    requires n <= |Workload(job)| && Known(job.segments, Workload(job)[..n])
    ensures Flowing(job, s, Draining, false, n, false, 0)
  {
    KnownPrefix(job.segments, Workload(job), n);
    if n == 0 {
      s := StartOpening(job);
      s := ReachStep(job, s, ByWriter(OpenSegments));
    } else {
      KnownPrefix(job.segments, Workload(job), n - 1);
      s := WriteKnown(job, n - 1);
      s := QueueUnit(job, s, Draining, n - 1, false, 0);
      s := HoldPacket(job, s, n - 1, 1);
      s := WriteHeld(job, s, n - 1);
    }
  }

  /** The writer is about to fail: it is opening its files, or holds unit number `taken`. */
  ghost predicate AboutToFail(job: Job, s: State, taken: nat, carried: bool, queued: nat) {
    if taken == 0 then Flowing(job, s, Opening, carried, 0, false, queued)
    else Flowing(job, s, Draining, carried, taken - 1, true, queued)
  }

  lemma FirstsKnown(job: Job, e: PipelineError, taken: nat)
    requires CanFail(job, e, taken) && taken > 0
    ensures taken <= |Workload(job)| && Known(job.segments, Workload(job)[..taken - 1])
  {
    KnownPrefix(job.segments, Workload(job), taken);
    KnownPrefix(job.segments, Workload(job), taken - 1);
  }

  /** It can be brought there with any number of units waiting behind, as far as the channel goes. */
  lemma {:induction false} HoldLast(job: Job, e: PipelineError, taken: nat, queued: nat) returns (s: State)
    requires CanFail(job, e, taken) && queued <= CAPACITY && taken + queued <= |Workload(job)|
    ensures AboutToFail(job, s, taken, false, queued)
  {
    if queued > 0 {
      s := HoldLast(job, e, taken, queued - 1);
      if taken == 0 {
        s := QueueUnit(job, s, Opening, 0, false, queued - 1);
      } else {
        s := QueueUnit(job, s, Draining, taken - 1, true, queued - 1);
      }
    } else if taken == 0 {
      s := StartOpening(job);
    } else {
      FirstsKnown(job, e, taken);
      s := WriteKnown(job, taken - 1);
      s := QueueUnit(job, s, Draining, taken - 1, false, 0);
      s := HoldPacket(job, s, taken - 1, 1);
    }
  }

  /** The writer fails. */
  lemma FailWriter(job: Job, s: State, e: PipelineError, taken: nat) returns (s': State)
    requires Reached(job, s) && CanFail(job, e, taken)
    requires if taken == 0 then s.writer.Opening? else s.writer.Draining? && s.writeHeld.Some? && |s.log| + 1 == taken
    ensures Reached(job, s') && FailedAfter(s', e, taken)
    ensures s' == s.(writer := Failed(e), writeHeld := None, writeQueue := [])
  {
    ReachedInv(job, s);
    if taken > 0 {
      KnownPrefix(job.segments, Workload(job), taken);
    }
    s' := ReachStep(job, s, ByWriter(if e.UnknownSegment? then RejectPacket else WriterFault(s.disk)));
  }

  // ── What later steps keep ──────────────────────────────────────────────────

  ghost predicate Later(job: Job, s: State, s': State) {
    && s.next <= |job.tensors| && s'.next <= |job.tensors|
    && (s.source == Finished ==> s'.source == Finished)
    && (s.relocate != Running ==> s'.relocate == s.relocate)
    && (s.relocate == Broken ==> Sent(job, s') == Sent(job, s))
    && (s.writer.Failed? ==> s'.writer == s.writer && s'.log == s.log)
  }

  lemma SourceIsLater(job: Job, s: State, a: SourceAction)
    requires Inv(job, s) && SourceEnabled(job, s, a)
    ensures Later(job, s, SourceStep(job, s, a))
  {
    SourceAdvancesSent(job, s, a);
  }

  lemma RelocateIsLater(job: Job, s: State, a: RelocateAction)
    requires Inv(job, s) && RelocateEnabled(s, a)
    ensures Later(job, s, RelocateStep(job, s, a))
  {
  }

  lemma MainIsLater(job: Job, s: State, a: MainAction)
    requires s.next <= |job.tensors| && MainEnabled(s, a)
    ensures Later(job, s, MainStep(s, a))
  {
  }

  lemma WriterIsLater(job: Job, s: State, a: WriterAction)
    requires s.next <= |job.tensors| && WriterEnabled(s, a)
    ensures Later(job, s, WriterStep(job, s, a))
  {
  }

  lemma StepIsLater(job: Job, s: State, a: Action)
    requires Inv(job, s) && Enabled(job, s, a)
    ensures Later(job, s, Apply(job, s, a))
  {
    match a
    case ByMain(m) => MainIsLater(job, s, m);
    case BySource(b) => SourceIsLater(job, s, b);
    case ByRelocate(r) => RelocateIsLater(job, s, r);
    case ByWriter(w) => WriterIsLater(job, s, w);
  }

  lemma {:induction false} ExtensionIsLater(job: Job, schedule: seq<Action>, full: seq<Action>)
    requires schedule <= full && Exec(job, full).Some?
    ensures Exec(job, schedule).Some? && Later(job, Exec(job, schedule).value, Exec(job, full).value)
  {
    if schedule == full {
      ReachableInv(job, full);
    } else {
      var before := full[..|full| - 1];
      ReachableInv(job, before);
      ExtensionIsLater(job, schedule, before);
      StepIsLater(job, Exec(job, before).value, full[|full| - 1]);
    }
  }

  /** Every reached state in which the writer has failed can be run to its end. */
  lemma Complete(job: Job, s: State, e: PipelineError, taken: nat) returns (full: seq<Action>)
    requires Reached(job, s) && FailedAfter(s, e, taken)
    ensures Maximal(job, full) && AllDone(Exec(job, full).value) && FailedAfter(Exec(job, full).value, e, taken)
    ensures Inv(job, Exec(job, full).value) && Later(job, s, Exec(job, full).value)
  {
    var schedule :| Exec(job, schedule) == Some(s);
    full := RunsComplete(job, schedule);
    ExtensionIsLater(job, schedule, full);
    CompleteRunOutcome(job, full);
    ReachableInv(job, full);
  }

  // ── Runs that return each error ────────────────────────────────────────────

  /** What the orchestrator returned, by the lanes it awaited. */
  lemma DoneOutcome(job: Job, s: State)
    requires Lanes(job, s) && MainOrder(s) && AllDone(s)
    ensures s.source == Broken ==> s.main == Returned(Err(SourceChannelClosed))
    ensures s.source == Finished && s.relocate == Broken ==> s.main == Returned(Err(RelocateChannelClosed))
    ensures s.source == Finished && s.relocate == Finished && s.writer.Failed? ==>
      s.main == Returned(Err(s.writer.error))
  {
  }

  /** Once both other lanes have finished, the writer's own error is what is returned. */
  lemma ThenCause(job: Job, s: State, e: PipelineError, taken: nat)
    requires Reached(job, s) && FailedAfter(s, e, taken) && s.source == Finished && s.relocate == Finished
    ensures CanReturnAfter(job, e, taken, Err(e))
  {
    var full := Complete(job, s, e, taken);
    DoneOutcome(job, Exec(job, full).value);
    assert ReturnsAfter(job, full, e, taken, Err(e));
  }

  /** Once the relocate lane has broken after the source lane finished, its error is returned. */
  lemma ThenRelocate(job: Job, s: State, e: PipelineError, taken: nat)
    requires Reached(job, s) && FailedAfter(s, e, taken) && s.source == Finished && s.relocate == Broken
    ensures CanReturnAfter(job, e, taken, Err(RelocateChannelClosed))
  {
    var full := Complete(job, s, e, taken);
    DoneOutcome(job, Exec(job, full).value);
    assert ReturnsAfter(job, full, e, taken, Err(RelocateChannelClosed));
  }

  /** Once the relocate lane has broken with units still to be sent, the source lane's error is. */
  lemma ThenSource(job: Job, s: State, e: PipelineError, taken: nat)
    requires Reached(job, s) && FailedAfter(s, e, taken) && s.relocate == Broken
    requires s.next <= |job.tensors| && Sent(job, s) < |Workload(job)|
    ensures CanReturnAfter(job, e, taken, Err(SourceChannelClosed))
  {
    var full := Complete(job, s, e, taken);
    assert job.tensors[..|job.tensors|] == job.tensors;
    DoneOutcome(job, Exec(job, full).value);
    assert ReturnsAfter(job, full, e, taken, Err(SourceChannelClosed));
  }

  /** All units behind the last one taken fit the second channel. */
  lemma CauseCanSurface(job: Job, e: PipelineError, taken: nat)
    requires CanFail(job, e, taken) && |Workload(job)| <= taken + CAPACITY
    ensures CanReturnAfter(job, e, taken, Err(e))
  {
    if taken > 0 {
      FirstsKnown(job, e, taken);
    }
    var s := HoldLast(job, e, taken, |Workload(job)| - taken);
    s := EndSource(job, s);
    s := ReachStep(job, s, ByRelocate(RelocateEnds));
    s := FailWriter(job, s, e, taken);
    ThenCause(job, s, e, taken);
  }

  /** The first channel takes `n` more units. */
  lemma {:induction false} FillSource(job: Job, s: State, n: nat) returns (s': State)
    requires Reached(job, s) && s.source == Running && s.relocate == Running && |s.sourceQueue| + n <= CAPACITY
    requires s.next <= |job.tensors| && Sent(job, s) + n <= |Workload(job)|
    ensures Reached(job, s') && s' == s.(next := s'.next, sourceQueue := s'.sourceQueue)
    ensures s'.next <= |job.tensors| && Sent(job, s') == Sent(job, s) + n
    decreases n
  {
    s' := s;
    if n > 0 {
      s' := FeedUnit(job, s);
      s' := FillSource(job, s', n - 1);
    }
  }

  /** The relocate lane takes one unit while the writer is about to fail. */
  lemma HoldNext(job: Job, e: PipelineError, taken: nat, queued: nat) returns (s: State)
    requires CanFail(job, e, taken) && queued <= CAPACITY && taken + 1 + queued <= |Workload(job)|
    ensures AboutToFail(job, s, taken, true, queued)
  {
    s := HoldLast(job, e, taken, queued);
    s := FeedUnit(job, s);
    s := ReachStep(job, s, ByRelocate(ReceiveUnit));
  }

  /** The writer fails while the relocate lane holds a unit; that lane breaks. */
  lemma BreakRelocate(job: Job, s: State, e: PipelineError, taken: nat) returns (s': State)
    requires Reached(job, s) && CanFail(job, e, taken)
    requires if taken == 0 then s.writer.Opening? else s.writer.Draining? && s.writeHeld.Some? && |s.log| + 1 == taken
    requires s.relocate == Running && s.relocateHeld.Some?
    ensures Reached(job, s') && FailedAfter(s', e, taken)
    ensures s'.relocate == Broken && s'.source == s.source && s'.next == s.next
  {
    var failed := FailWriter(job, s, e, taken);
    s' := ReachStep(job, failed, ByRelocate(RelocateFails));
  }

  /** Some unit is still with the relocate lane when the writer fails, and all have been sent. */
  lemma RelocateCanSurface(job: Job, e: PipelineError, taken: nat)
    requires CanFail(job, e, taken) && taken + 1 <= |Workload(job)| <= taken + 1 + 2 * CAPACITY
    ensures CanReturnAfter(job, e, taken, Err(RelocateChannelClosed))
  {
    var behind := |Workload(job)| - taken - 1;
    var queued := if behind < CAPACITY then behind else CAPACITY;
    var s := HoldNext(job, e, taken, queued);
    s := FillSource(job, s, behind - queued);
    s := EndSource(job, s);
    s := BreakRelocate(job, s, e, taken);
    ThenRelocate(job, s, e, taken);
  }

  /** The writer fails, the relocate lane breaks over the next unit, and one more is to be sent. */
  lemma SourceCanSurface(job: Job, e: PipelineError, taken: nat)
    requires CanFail(job, e, taken) && taken + 2 <= |Workload(job)|
    ensures CanReturnAfter(job, e, taken, Err(SourceChannelClosed))
  {
    var s := HoldNext(job, e, taken, 0);
    s := BreakRelocate(job, s, e, taken);
    ThenSource(job, s, e, taken);
  }

  // ── The exact conditions ───────────────────────────────────────────────────

  /** For every job and every way the writer can fail: which errors a complete run can then return,
      depending on the number of units alone. There are no other outcomes. */
  lemma WhichErrorsSurface(job: Job, e: PipelineError, taken: nat)
    requires CanFail(job, e, taken)
    ensures
      var n := |Workload(job)|;
      && (CanReturnAfter(job, e, taken, Err(e)) <==> n <= taken + 64)
      && (CanReturnAfter(job, e, taken, Err(RelocateChannelClosed)) <==> taken + 1 <= n <= taken + 129)
      && (CanReturnAfter(job, e, taken, Err(SourceChannelClosed)) <==> taken + 2 <= n)
    ensures forall outcome ::
      CanReturnAfter(job, e, taken, outcome) ==> Explains(|Workload(job)|, e, taken, outcome)
  {
    var n := |Workload(job)|;
    forall outcome | CanReturnAfter(job, e, taken, outcome) ensures Explains(n, e, taken, outcome) {
      var schedule :| ReturnsAfter(job, schedule, e, taken, outcome);
      OutcomeIsExplained(job, schedule, e, taken, outcome);
    }
    if n <= taken + 64 {
      CauseCanSurface(job, e, taken);
    }
    if taken + 1 <= n <= taken + 129 {
      RelocateCanSurface(job, e, taken);
    }
    if taken + 2 <= n {
      SourceCanSurface(job, e, taken);
    }
  }

  /** Every complete run in which the writer fails so returns `outcome`. */
  ghost predicate AlwaysReturns(job: Job, e: PipelineError, taken: nat, outcome: Outcome) {
    forall other :: CanReturnAfter(job, e, taken, other) ==> other == outcome
  }

  /** The cause is certain to be reported exactly if no unit follows the last one taken. */
  lemma AlwaysReportedIff(job: Job, e: PipelineError, taken: nat)
    requires CanFail(job, e, taken)
    ensures AlwaysReturns(job, e, taken, Err(e)) <==> |Workload(job)| == taken
  {
    WhichErrorsSurface(job, e, taken);
    if taken > 0 {
      FirstsKnown(job, e, taken);
    }
    if |Workload(job)| == taken {
      forall other | CanReturnAfter(job, e, taken, other) ensures other == Err(e) {
        assert Explains(|Workload(job)|, e, taken, other);
      }
    } else if |Workload(job)| == taken + 1 {
      assert CanReturnAfter(job, e, taken, Err(RelocateChannelClosed));
    } else {
      assert CanReturnAfter(job, e, taken, Err(SourceChannelClosed));
    }
  }

  /** The cause is certain to be hidden behind a closed source channel exactly if more units
      follow than both channels and the relocate lane can hold. */
  lemma AlwaysMaskedIff(job: Job, e: PipelineError, taken: nat)
    requires CanFail(job, e, taken)
    ensures
      AlwaysReturns(job, e, taken, Err(SourceChannelClosed)) <==> |Workload(job)| > taken + 129
  {
    WhichErrorsSurface(job, e, taken);
    if |Workload(job)| > taken + 129 {
      forall other | CanReturnAfter(job, e, taken, other) ensures other == Err(SourceChannelClosed) {
        assert Explains(|Workload(job)|, e, taken, other);
      }
    } else if |Workload(job)| <= taken {
      assert CanReturnAfter(job, e, taken, Err(e));
    } else {
      assert CanReturnAfter(job, e, taken, Err(RelocateChannelClosed));
    }
  }

  /** In a job with an unknown segment, first at unit `k`, the complete runs without I/O errors are
      exactly those in which the writer fails over that unit, having written all before it. */
  lemma UnknownSegmentFails(job: Job, schedule: seq<Action>, k: nat)
    requires FirstUnknown(job, k) && Maximal(job, schedule)
    ensures
      !Faulted(Exec(job, schedule).value) <==>
      FailedAfter(Exec(job, schedule).value, UnknownSegment(Workload(job)[k].unit.segment), k + 1)
    ensures CanFail(job, UnknownSegment(Workload(job)[k].unit.segment), k + 1)
  {
    var s := Exec(job, schedule).value;
    if !Faulted(s) {
      CompleteRunOutcome(job, schedule);
      ReachableInv(job, schedule);
      assert job.tensors[..|job.tensors|] == job.tensors;
      KnownPrefix(job.segments, Workload(job), |s.log|);
      KnownPrefix(job.segments, Workload(job), k);
    }
  }
}

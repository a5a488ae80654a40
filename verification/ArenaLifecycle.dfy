/** The lease state machine of a shared arena. */
module ArenaLifecycle {
  import opened Common

  datatype LifecycleState =
    | Free | MlxWriteLeased | MlxWritePending | CoreMlWriteLeased | CoreMlWritePending
    | Produced | MlxReadLeased | CoreMlReadLeased | Retiring | Released

  datatype Backend = Mlx | CoreMl

  datatype IllegalTransition = IllegalTransition(current: LifecycleState, desired: LifecycleState)

  function ValidateTransition(current: LifecycleState, desired: LifecycleState)
    : (r: Result<LifecycleState, IllegalTransition>)
    ensures r == Ok(desired) || r == Err(IllegalTransition(current, desired))
  {
    match (current, desired)
    case (Free, MlxWriteLeased) => Ok(desired)
    case (Free, CoreMlWriteLeased) => Ok(desired)
    case (MlxWriteLeased, MlxWritePending) => Ok(desired)
    case (CoreMlWriteLeased, CoreMlWritePending) => Ok(desired)
    case (MlxWritePending, Produced) => Ok(desired)
    case (CoreMlWritePending, Produced) => Ok(desired)
    case (Produced, MlxReadLeased) => Ok(desired)
    case (Produced, CoreMlReadLeased) => Ok(desired)
    case (MlxReadLeased, Produced) => Ok(desired)
    case (CoreMlReadLeased, Produced) => Ok(desired)
    case (Produced, Free) => Ok(Free)
    case (Free, Retiring) => Ok(Retiring)
    case (Produced, Retiring) => Ok(Retiring)
    case (Retiring, Released) => Ok(Released)
    case _ => Err(IllegalTransition(current, desired))
  }

  /** What may follow each state. */
  function Successors(s: LifecycleState): (next: set<LifecycleState>) {
    match s
    case Free => {MlxWriteLeased, CoreMlWriteLeased, Retiring}
    case MlxWriteLeased => {MlxWritePending}
    case CoreMlWriteLeased => {CoreMlWritePending}
    case MlxWritePending => {Produced}
    case CoreMlWritePending => {Produced}
    case Produced => {MlxReadLeased, CoreMlReadLeased, Free, Retiring}
    case MlxReadLeased => {Produced}
    case CoreMlReadLeased => {Produced}
    case Retiring => {Released}
    case Released => {}
  }

  /** For every pair of states: exactly the listed transitions are accepted, and lead where asked. */
  lemma AcceptedIff(current: LifecycleState, desired: LifecycleState)
    ensures ValidateTransition(current, desired) ==
      if desired in Successors(current) then Ok(desired) else Err(IllegalTransition(current, desired))
  {
  }

  function WriteLeased(b: Backend): (s: LifecycleState) { if b.Mlx? then MlxWriteLeased else CoreMlWriteLeased }

  function WritePending(b: Backend): (s: LifecycleState) { if b.Mlx? then MlxWritePending else CoreMlWritePending }

  function ReadLeased(b: Backend): (s: LifecycleState) { if b.Mlx? then MlxReadLeased else CoreMlReadLeased }

  predicate IsRead(s: LifecycleState) { s.MlxReadLeased? || s.CoreMlReadLeased? }

  predicate IsWrite(s: LifecycleState) {
    s.MlxWriteLeased? || s.MlxWritePending? || s.CoreMlWriteLeased? || s.CoreMlWritePending?
  }

  /** A run from a new arena: every transition was accepted. */
  ghost predicate IsRun(run: seq<LifecycleState>) {
    && |run| > 0 && run[0] == Free
    && forall i :: 0 < i < |run| ==> ValidateTransition(run[i - 1], run[i]).Ok?
  }

  /** Since `f`, the last time the arena was free before `i`: one backend leased it for writing,
      submitted, and produced; after that there were only reads between produced states. */
  ghost predicate WrittenOnceSince(run: seq<LifecycleState>, f: nat, b: Backend, i: nat)
    requires i < |run|
  {
    && f + 3 <= i
    && run[f] == Free && run[f + 1] == WriteLeased(b) && run[f + 2] == WritePending(b) && run[f + 3] == Produced
    && forall j :: f + 3 < j <= i ==> run[j] == Produced || IsRead(run[j])
  }

  /** Where a run can be, given its history. */
  ghost predicate Explained(run: seq<LifecycleState>, i: nat)
    requires i < |run|
  {
    match run[i]
    case Free => true
    case MlxWriteLeased => i >= 1 && run[i - 1] == Free
    case CoreMlWriteLeased => i >= 1 && run[i - 1] == Free
    case MlxWritePending => i >= 2 && run[i - 1] == MlxWriteLeased && run[i - 2] == Free
    case CoreMlWritePending => i >= 2 && run[i - 1] == CoreMlWriteLeased && run[i - 2] == Free
    case Produced => exists f: nat, b :: WrittenOnceSince(run, f, b, i)
    case MlxReadLeased => exists f: nat, b :: WrittenOnceSince(run, f, b, i)
    case CoreMlReadLeased => exists f: nat, b :: WrittenOnceSince(run, f, b, i)
    case Retiring => i >= 1 && (run[i - 1] == Free || run[i - 1] == Produced)
    case Released => i >= 1 && run[i - 1] == Retiring
  }

  lemma {:induction false} RunIsExplained(run: seq<LifecycleState>, i: nat)
    requires IsRun(run) && i < |run|
    ensures Explained(run, i)
  {
    if i > 0 {
      RunIsExplained(run, i - 1);
      assert ValidateTransition(run[i - 1], run[i]).Ok?;
      if run[i] == Produced && IsWrite(run[i - 1]) {
        var b := if run[i - 1] == MlxWritePending then Mlx else CoreMl;
        assert WrittenOnceSince(run, i - 3, b, i);
      } else if run[i] == Produced || IsRead(run[i]) {
        var f: nat, b :| WrittenOnceSince(run, f, b, i - 1);
        assert WrittenOnceSince(run, f, b, i);
      }
    }
  }

  /** In every accepted run, a reader holds only what was written exactly once, by one backend,
      since the arena was last free; nothing writes between that write and the read. */
  lemma ReadsFollowOneWrite(run: seq<LifecycleState>, i: nat) returns (f: nat, b: Backend)
    requires IsRun(run) && i < |run| && IsRead(run[i])
    ensures WrittenOnceSince(run, f, b, i) && f + 4 <= i
    ensures forall j :: f < j <= i ==> run[j] != Free
    ensures forall j :: f < j <= i && IsWrite(run[j]) ==> j == f + 1 || j == f + 2
  {
    RunIsExplained(run, i);
    f, b :| WrittenOnceSince(run, f, b, i);
    forall j | f < j <= i ensures run[j] != Free && (IsWrite(run[j]) ==> j == f + 1 || j == f + 2) {
      if j > f + 3 {
        assert run[j] == Produced || IsRead(run[j]);
      } else {
        assert j == f + 1 || j == f + 2 || j == f + 3;
      }
    }
  }

  /** Each reader takes the arena from the produced state and hands it back to it. */
  lemma ReadsAreBracketed(run: seq<LifecycleState>, i: nat)
    requires IsRun(run) && i < |run| && IsRead(run[i])
    ensures i >= 1 && run[i - 1] == Produced && (i + 1 < |run| ==> run[i + 1] == Produced)
  {
    assert ValidateTransition(run[i - 1], run[i]).Ok?;
    if i + 1 < |run| {
      assert ValidateTransition(run[i + 1 - 1], run[i + 1]).Ok?;
    }
  }

  /** Every write lease starts from a free arena, so none starts while a read is held. */
  lemma WritesStartFree(run: seq<LifecycleState>, i: nat)
    requires IsRun(run) && i < |run| && IsWrite(run[i])
    ensures i >= 1 && (run[i - 1] == Free || (i >= 2 && IsWrite(run[i - 1]) && run[i - 2] == Free))
  {
    RunIsExplained(run, i);
  }

  /** Retiring leads only to released, and released is the end. */
  lemma RetirementIsFinal(run: seq<LifecycleState>, i: nat)
    requires IsRun(run) && i < |run|
    ensures run[i] == Retiring ==> |run| <= i + 2 && (i + 1 < |run| ==> run[i + 1] == Released)
    ensures run[i] == Released ==> |run| == i + 1
  {
    if i + 1 < |run| {
      assert ValidateTransition(run[i + 1 - 1], run[i + 1]).Ok?;
      if i + 2 < |run| {
        assert ValidateTransition(run[i + 2 - 1], run[i + 2]).Ok?;
      }
    }
  }

  /** The states of reading in turn. */
  function Reads(readers: seq<Backend>): (states: seq<LifecycleState>) {
    if readers == [] then [] else Reads(readers[..|readers| - 1]) + [ReadLeased(readers[|readers| - 1]), Produced]
  }

  function Use(writer: Backend, readers: seq<Backend>): (run: seq<LifecycleState>) {
    [Free, WriteLeased(writer), WritePending(writer), Produced] + Reads(readers)
  }

  /** Conversely every such history is accepted: any backend writes, then any backends read in
      any order, and the arena can then be freed or retired. */
  lemma {:induction false} UseIsAccepted(writer: Backend, readers: seq<Backend>)
    ensures IsRun(Use(writer, readers)) && Use(writer, readers)[|Use(writer, readers)| - 1] == Produced
    ensures IsRun(Use(writer, readers) + [Free]) && IsRun(Use(writer, readers) + [Retiring, Released])
  {
    if readers != [] {
      var before, last := readers[..|readers| - 1], ReadLeased(readers[|readers| - 1]);
      UseIsAccepted(writer, before);
      var u := Use(writer, before);
      assert Use(writer, readers) == u + [last, Produced];
      ExtendRun(u, last);
      ExtendRun(u + [last], Produced);
      assert u + [last] + [Produced] == u + [last, Produced];
    }
    var use := Use(writer, readers);
    ExtendRun(use, Free);
    ExtendRun(use, Retiring);
    ExtendRun(use + [Retiring], Released);
    assert use + [Retiring] + [Released] == use + [Retiring, Released];
  }

  lemma ExtendRun(run: seq<LifecycleState>, s: LifecycleState)
    requires IsRun(run) && ValidateTransition(run[|run| - 1], s).Ok?
    ensures IsRun(run + [s])
  {
  }
}

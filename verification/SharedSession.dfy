/** A session on a registry that other clients use at the same time. Between any two registry
    operations of the session the others may insert arrays and free handles of their own. */
module SharedSession {
  import opened Common
  import opened Config
  import opened Registry
  import opened Leases
  import opened SharedRegistry
  import opened ImageManifest
  import opened ImageRuntime

  // ── The session step by step ───────────────────────────────────────────────

  /** Where a session is: inserting persistent tensors, leasing and running layer `done`, freeing a
      lease, releasing the persistent handles, or at its end. */
  datatype Phase<H, T> =
    | Opening
    | Leasing(done: nat, h: H)
    | Returning(done: nat, next: Result<H, RunError>)
    | Releasing(left: set<Handle>, token: T)
    | Finished(result: Result<T, RunError>)

  datatype Session<A, H, T> = Session(w: World<A>, persistent: seq<Handle>, lease: seq<Handle>, phase: Phase<H, T>)

  datatype Act<A> = Own | Release(handle: Handle) | Other(foreign: Foreign<A>)

  function Start<A, H, T>(r: State<A>, m: map<Handle, A>): (s: Session<A, H, T>) {
    Session(World(r, map[], m), [], [], Opening)
  }

  function Layers<A>(image: Image<A>): (layers: seq<LayerPlan>) { image.manifest.executionPlan.layers }

  function Globals<A>(image: Image<A>): (ts: seq<Tensor<A>>) { PersistentTensors(image).tensors }

  function LayerRead<A>(image: Image<A>, done: nat): (read: SegmentRead<A>)
    requires done < |Layers(image)|
  {
    ReadSegment(image, LayerSegment(Layers(image)[done].layerIndex))
  }

  predicate Sized<A, H, T>(image: Image<A>, s: Session<A, H, T>) {
    && |s.persistent| <= |Globals(image)|
    && (s.phase.Opening? || |s.persistent| == |Globals(image)|)
    && match s.phase
       case Leasing(done, _) =>
         && done <= |Layers(image)|
         && |s.lease| <= (if done < |Layers(image)| then |LayerRead(image, done).tensors| else 0)
       case Returning(done, _) => done < |Layers(image)|
       case _ => true
  }

  /** The session's next step inserts an array. */
  predicate Inserts<A, H, T>(image: Image<A>, s: Session<A, H, T>) {
    match s.phase
    case Opening => |s.persistent| < |Globals(image)|
    case Leasing(done, _) => done < |Layers(image)| && |s.lease| < |LayerRead(image, done).tensors|
    case _ => false
  }

  predicate Enabled<A, H, T>(image: Image<A>, s: Session<A, H, T>, a: Act<A>) {
    match a
    case Own =>
      && !s.phase.Finished? && (s.phase.Releasing? ==> s.phase.left == {})
      && (Inserts(image, s) ==> HasRoom(s.w.registry))
    case Release(h) => s.phase.Releasing? && h in s.phase.left
    case Other(f) => Theirs(s.w, f)
  }

  ghost function AfterOpening<A, H, T>(image: Image<A>, exec: Executor<A, H, T>, arrays: map<TensorName, A>)
    : (p: Phase<H, T>)
  {
    if !Opens(image) then Finished(Err(OpenFailed))
    else if !PlanValid(image.manifest.executionPlan) then Finished(Err(InvalidPlan))
    else
      match exec.prologue(arrays)
      case None => Finished(Err(PrologueFailed))
      case Some(h) => Leasing(0, h)
  }

  function AfterLease<A, H, T>(
    image: Image<A>, exec: Executor<A, H, T>, done: nat, h: H, arrays: map<TensorName, A>, leased: map<TensorName, A>)
    : (p: Phase<H, T>)
    requires done < |Layers(image)|
  {
    var plan := Layers(image)[done];
    if !LayerRead(image, done).complete then Finished(Err(LayerUnavailable(plan.layerIndex)))
    else
      match exec.layer(h, plan, arrays + leased)
      case None => Returning(done, Err(LayerFailed(plan.layerIndex)))
      case Some(h') => Returning(done, Ok(h'))
  }

  function AfterLayers<A, H, T>(exec: Executor<A, H, T>, h: H, arrays: map<TensorName, A>, handles: set<Handle>)
    : (p: Phase<H, T>)
  {
    match exec.epilogue(h, arrays)
    case None => Finished(Err(EpilogueFailed))
    case Some(t) => Releasing(handles, t)
  }

  /** The persistent handles by name, and the arrays they resolve to just now. */
  function ByName<A, H, T>(image: Image<A>, s: Session<A, H, T>): (handles: map<TensorName, Handle>)
    requires |s.persistent| == |Globals(image)|
  {
    HandleMap(Names(Globals(image)), s.persistent)
  }

  function ResidentNow<A, H, T>(image: Image<A>, s: Session<A, H, T>): (arrays: map<TensorName, A>)
    requires |s.persistent| == |Globals(image)|
  {
    LookupAll(s.w.registry, ByName(image, s))
  }

  function LeasedNow<A, H, T>(image: Image<A>, s: Session<A, H, T>, done: nat): (arrays: map<TensorName, A>)
    requires done < |Layers(image)| && |s.lease| == |LayerRead(image, done).tensors|
  {
    LookupAll(s.w.registry, HandleMap(Names(LayerRead(image, done).tensors), s.lease))
  }

  ghost function OpeningStep<A, H, T>(image: Image<A>, exec: Executor<A, H, T>, s: Session<A, H, T>)
    : (s': Session<A, H, T>)
    requires Shape(s.w.registry) && Sized(image, s)
  {
    var k := |s.persistent|;
    if k < |Globals(image)| then
      s.(w := Take(s.w, Globals(image)[k].item), persistent := s.persistent + [NextHandle(s.w.registry)])
    else s.(phase := AfterOpening(image, exec, ResidentNow(image, s)))
  }

  function LeasingStep<A, H, T>(image: Image<A>, exec: Executor<A, H, T>, s: Session<A, H, T>): (s': Session<A, H, T>)
    requires Shape(s.w.registry) && Sized(image, s) && s.phase.Leasing?
  {
    var Leasing(done, h) := s.phase;
    var k := |s.lease|;
    if done == |Layers(image)| then
      s.(phase := AfterLayers(exec, h, ResidentNow(image, s), ByName(image, s).Values))
    else if k < |LayerRead(image, done).tensors| then
      s.(w := Take(s.w, LayerRead(image, done).tensors[k].item), lease := s.lease + [NextHandle(s.w.registry)])
    else s.(phase := AfterLease(image, exec, done, h, ResidentNow(image, s), LeasedNow(image, s, done)))
  }

  function ReturningStep<A, H, T>(s: Session<A, H, T>): (s': Session<A, H, T>)
    requires s.phase.Returning?
  {
    var Returning(done, next) := s.phase;
    if s.lease != [] then s.(w := Give(s.w, s.lease[0]), lease := s.lease[1..])
    else if next.Err? then s.(phase := Finished(Err(next.error)))
    else s.(phase := Leasing(done + 1, next.value))
  }

  ghost function Step<A, H, T>(image: Image<A>, exec: Executor<A, H, T>, s: Session<A, H, T>, a: Act<A>)
    : (s': Session<A, H, T>)
    requires Shape(s.w.registry) && Sized(image, s) && Enabled(image, s, a)
  {
    match a
    case Other(f) => s.(w := Interfere(s.w, f))
    case Release(h) => s.(w := Give(s.w, h), phase := Releasing(s.phase.left - {h}, s.phase.token))
    case Own =>
      match s.phase
      case Opening => OpeningStep(image, exec, s)
      case Leasing(_, _) => LeasingStep(image, exec, s)
      case Returning(_, _) => ReturningStep(s)
      case Releasing(_, t) => s.(phase := Finished(Ok(t)))
  }

  // ── What the session holds ─────────────────────────────────────────────────

  /** The session holds exactly its persistent handles and its lease, each once. */
  ghost predicate Carries(held: set<Handle>, persistent: seq<Handle>, lease: seq<Handle>) {
    && NoDuplicates(persistent) && NoDuplicates(lease) && Elements(persistent) !! Elements(lease)
    && held == Elements(persistent) + Elements(lease)
  }

  ghost predicate Holding<A, H, T>(image: Image<A>, s: Session<A, H, T>) {
    && Sized(image, s)
    && match s.phase
       case Opening =>
         && Carries(s.w.held.Keys, s.persistent, s.lease) && s.lease == []
         && Stored(Items(Globals(image))[..|s.persistent|], s.persistent, s.w.held)
       case Leasing(done, _) =>
         && Carries(s.w.held.Keys, s.persistent, s.lease)
         && Stored(Items(Globals(image)), s.persistent, s.w.held)
         && (done < |Layers(image)| ==>
               Stored(Items(LayerRead(image, done).tensors)[..|s.lease|], s.lease, s.w.held))
       case Returning(done, _) =>
         && Carries(s.w.held.Keys, s.persistent, s.lease) && |s.lease| <= |LayerRead(image, done).tensors|
         && Stored(Items(Globals(image)), s.persistent, s.w.held)
       case Releasing(left, _) =>
         && NoDuplicates(s.persistent) && s.lease == [] && left <= ByName(image, s).Values
         && s.w.held.Keys == Elements(s.persistent) - ByName(image, s).Values + left
       case Finished(Ok(_)) =>
         && NoDuplicates(s.persistent) && s.lease == []
         && s.w.held.Keys == Elements(s.persistent) - ByName(image, s).Values
       case Finished(Err(e)) =>
         Carries(s.w.held.Keys, s.persistent, s.lease) && |s.lease| == Leaked<A, T>(image, Err(e))
  }

  lemma CarriesMore(held: set<Handle>, persistent: seq<Handle>, lease: seq<Handle>, h: Handle)
    requires Carries(held, persistent, lease) && h !in held
    ensures lease == [] ==> Carries(held + {h}, persistent + [h], lease)
    ensures Carries(held + {h}, persistent, lease + [h])
  {
    assert Elements(persistent + [h]) == Elements(persistent) + {h};
    assert Elements(lease + [h]) == Elements(lease) + {h};
    assert forall i :: 0 <= i < |persistent| ==> persistent[i] in Elements(persistent);
    assert forall i :: 0 <= i < |lease| ==> lease[i] in Elements(lease);
  }

  lemma CarriesLess(held: set<Handle>, persistent: seq<Handle>, lease: seq<Handle>)
    requires Carries(held, persistent, lease) && lease != []
    ensures lease[0] in held && lease[0] !in Elements(persistent)
    ensures Carries(held - {lease[0]}, persistent, lease[1..])
  {
    assert lease == [lease[0]] + lease[1..];
    assert Elements(lease) == {lease[0]} + Elements(lease[1..]);
    assert lease[0] !in lease[1..];
  }

  lemma StoredMore<A>(items: seq<A>, hs: seq<Handle>, held: map<Handle, A>, h: Handle, k: nat)
    requires k < |items| && Stored(items[..k], hs, held) && h !in held
    ensures Stored(items[..k + 1], hs + [h], held[h := items[k]])
  {
  }

  lemma StoredStays<A>(items: seq<A>, hs: seq<Handle>, held: map<Handle, A>, h: Handle, item: A)
    requires Stored(items, hs, held) && h !in held
    ensures Stored(items, hs, held[h := item])
  {
  }

  /** Everything stored under handles held is what lookup gives, whatever the others do. */
  lemma LookupHeld<A>(w: World<A>, ts: seq<Tensor<A>>, hs: seq<Handle>)
    requires Owned(w) && Stored(Items(ts), hs, w.held)
    ensures LookupAll(w.registry, HandleMap(Names(ts), hs)) == ArraysOf(ts)
  {
    forall i | 0 <= i < |hs| ensures hs[i] in Bindings(w.registry) && Bindings(w.registry)[hs[i]] == Items(ts)[i] {
      assert hs[i] in w.held + w.theirs;
    }
    StoredIsResident(ts, hs, Bindings(w.registry));
    LookupResident(w.registry, HandleMap(Names(ts), hs), ArraysOf(ts));
  }

  lemma TakeGlobalHolds<A, H, T>(image: Image<A>, exec: Executor<A, H, T>, s: Session<A, H, T>)
    requires Owned(s.w) && Holding(image, s) && s.phase.Opening? && Inserts(image, s) && HasRoom(s.w.registry)
    ensures Owned(OpeningStep(image, exec, s).w) && Holding(image, OpeningStep(image, exec, s))
  {
    var k, items, h := |s.persistent|, Items(Globals(image)), NextHandle(s.w.registry);
    TakeKeepsOwned(s.w, items[k]);
    CarriesMore(s.w.held.Keys, s.persistent, s.lease, h);
    StoredMore(items, s.persistent, s.w.held, h, k);
    assert s.w.held[h := items[k]].Keys == s.w.held.Keys + {h};
  }

  /** The session goes on to phase `p` with what it holds. */
  lemma PhaseHolds<A, H, T>(image: Image<A>, s: Session<A, H, T>, p: Phase<H, T>)
    requires |s.persistent| == |Globals(image)| && Carries(s.w.held.Keys, s.persistent, s.lease)
    requires Stored(Items(Globals(image)), s.persistent, s.w.held)
    requires
      || (p.Leasing? && p.done <= |Layers(image)| && s.lease == [])
      || (p.Returning? && p.done < |Layers(image)| && |s.lease| <= |LayerRead(image, p.done).tensors|)
      || (p.Finished? && p.result.Err? && |s.lease| == Leaked(image, p.result))
    ensures Holding(image, s.(phase := p))
  {
    if p.Leasing? && p.done < |Layers(image)| {
      assert Items(LayerRead(image, p.done).tensors)[..0] == [];
    }
  }

  lemma OpeningHolds<A, H, T>(image: Image<A>, exec: Executor<A, H, T>, s: Session<A, H, T>)
    requires Owned(s.w) && Holding(image, s) && s.phase.Opening? && Enabled(image, s, Own)
    ensures Owned(OpeningStep(image, exec, s).w) && Holding(image, OpeningStep(image, exec, s))
  {
    if Inserts(image, s) {
      TakeGlobalHolds(image, exec, s);
    } else {
      assert Items(Globals(image))[..|s.persistent|] == Items(Globals(image));
      PhaseHolds(image, s, AfterOpening(image, exec, ResidentNow(image, s)));
    }
  }

  lemma TakeLeaseHolds<A, H, T>(image: Image<A>, exec: Executor<A, H, T>, s: Session<A, H, T>)
    requires Owned(s.w) && Holding(image, s) && s.phase.Leasing? && Inserts(image, s) && HasRoom(s.w.registry)
    ensures Owned(LeasingStep(image, exec, s).w) && Holding(image, LeasingStep(image, exec, s))
  {
    var k, items, h := |s.lease|, Items(LayerRead(image, s.phase.done).tensors), NextHandle(s.w.registry);
    TakeKeepsOwned(s.w, items[k]);
    CarriesMore(s.w.held.Keys, s.persistent, s.lease, h);
    StoredMore(items, s.lease, s.w.held, h, k);
    StoredStays(Items(Globals(image)), s.persistent, s.w.held, h, items[k]);
    assert s.w.held[h := items[k]].Keys == s.w.held.Keys + {h};
  }

  lemma LeasedHolds<A, H, T>(image: Image<A>, exec: Executor<A, H, T>, s: Session<A, H, T>)
    requires Owned(s.w) && Holding(image, s) && s.phase.Leasing? && !Inserts(image, s)
    ensures Owned(LeasingStep(image, exec, s).w) && Holding(image, LeasingStep(image, exec, s))
  {
    var Leasing(done, h) := s.phase;
    if done == |Layers(image)| {
      LayersDoneHolds(image, s, AfterLayers(exec, h, ResidentNow(image, s), ByName(image, s).Values));
    } else {
      PhaseHolds(image, s, AfterLease(image, exec, done, h, ResidentNow(image, s), LeasedNow(image, s, done)));
    }
  }

  lemma LeasingHolds<A, H, T>(image: Image<A>, exec: Executor<A, H, T>, s: Session<A, H, T>)
    requires Owned(s.w) && Holding(image, s) && s.phase.Leasing? && Enabled(image, s, Own)
    ensures Owned(LeasingStep(image, exec, s).w) && Holding(image, LeasingStep(image, exec, s))
  {
    if Inserts(image, s) {
      TakeLeaseHolds(image, exec, s);
    } else {
      LeasedHolds(image, exec, s);
    }
  }

  lemma LayersDoneHolds<A, H, T>(image: Image<A>, s: Session<A, H, T>, p: Phase<H, T>)
    requires |s.persistent| == |Globals(image)| && s.lease == [] && Carries(s.w.held.Keys, s.persistent, s.lease)
    requires p == Finished(Err(EpilogueFailed)) || (p.Releasing? && p.left == ByName(image, s).Values)
    ensures Holding(image, s.(phase := p))
  {
    ReleasingStarts(image, s);
  }

  /** With no lease, what is held are the handles by name and those under no name. */
  lemma ReleasingStarts<A, H, T>(image: Image<A>, s: Session<A, H, T>)
    requires |s.persistent| == |Globals(image)| && s.lease == [] && Carries(s.w.held.Keys, s.persistent, s.lease)
    ensures ByName(image, s).Values <= Elements(s.persistent)
    ensures s.w.held.Keys == Elements(s.persistent) - ByName(image, s).Values + ByName(image, s).Values
  {
    ValuesCoverIff(Globals(image), s.persistent);
    assert Elements(s.lease) == {};
  }

  lemma ReturningHolds<A, H, T>(image: Image<A>, s: Session<A, H, T>)
    requires Owned(s.w) && Holding(image, s) && s.phase.Returning?
    requires s.lease == [] && s.phase.next.Err? ==> Leaked<A, T>(image, Err(s.phase.next.error)) == 0
    ensures Owned(ReturningStep(s).w) && Holding(image, ReturningStep(s))
  {
    if s.lease != [] {
      CarriesLess(s.w.held.Keys, s.persistent, s.lease);
      GiveKeepsOwned(s.w, s.lease[0]);
      StoredDropped(Items(Globals(image)), s.persistent, s.w.held, s.lease[0]);
      assert (s.w.held - {s.lease[0]}).Keys == s.w.held.Keys - {s.lease[0]};
    } else {
      PhaseHolds(image, s, ReturningStep(s).phase);
    }
  }

  lemma StoredDropped<A>(items: seq<A>, hs: seq<Handle>, held: map<Handle, A>, h: Handle)
    requires Stored(items, hs, held) && h !in Elements(hs)
    ensures Stored(items, hs, held - {h})
  {
    assert forall i :: 0 <= i < |hs| ==> hs[i] in Elements(hs);
  }

  lemma ReleaseHolds<A, H, T>(image: Image<A>, exec: Executor<A, H, T>, s: Session<A, H, T>, h: Handle)
    requires Owned(s.w) && Holding(image, s) && Enabled(image, s, Release(h))
    ensures Owned(Step(image, exec, s, Release(h)).w) && Holding(image, Step(image, exec, s, Release(h)))
  {
    GiveKeepsOwned(s.w, h);
    assert (s.w.held - {h}).Keys == s.w.held.Keys - {h};
    assert h !in Elements(s.persistent) - ByName(image, s).Values;
  }

  // ── What the session computes ──────────────────────────────────────────────

  /** The plan is valid and the first `done` layers evaluate to `r`. */
  ghost predicate Evaluated<A, H, T>(image: Image<A>, exec: Executor<A, H, T>, done: nat, r: Result<H, RunError>) {
    var arrays := ArraysOf(Globals(image));
    && Opens(image) && PlanValid(image.manifest.executionPlan) && exec.prologue(arrays).Some?
    && done <= |Layers(image)|
    && EvalLayers(image, exec, arrays, exec.prologue(arrays).value, Layers(image)[..done]) == r
  }

  /** The session is where evaluation with every tensor at hand would be. */
  ghost predicate Meaning<A, H, T>(image: Image<A>, exec: Executor<A, H, T>, p: Phase<H, T>) {
    match p
    case Opening => true
    case Leasing(done, h) => Evaluated(image, exec, done, Ok(h))
    case Returning(done, next) =>
      Evaluated(image, exec, done + 1, next) && (next.Err? ==> !next.error.LayerUnavailable?)
    case Releasing(_, t) => SessionResult(image, exec) == Ok(t)
    case Finished(result) => result == SessionResult(image, exec)
  }

  lemma AfterOpeningMeans<A, H, T>(image: Image<A>, exec: Executor<A, H, T>)
    ensures Meaning(image, exec, AfterOpening(image, exec, ArraysOf(Globals(image))))
  {
    assert Layers(image)[..0] == [];
  }

  lemma EvalNext<A, H, T>(image: Image<A>, exec: Executor<A, H, T>, done: nat, h: H)
    requires Evaluated(image, exec, done, Ok(h)) && done < |Layers(image)|
    ensures
      Evaluated(image, exec, done + 1, EvalLayer(image, exec, ArraysOf(Globals(image)), h, Layers(image)[done]))
  {
    assert Layers(image)[..done + 1][..done] == Layers(image)[..done];
  }

  /** An error in a layer is the result of the session. */
  lemma ErrorEnds<A, H, T>(image: Image<A>, exec: Executor<A, H, T>, done: nat, e: RunError)
    requires Evaluated(image, exec, done, Err(e))
    ensures SessionResult(image, exec) == Err(e)
  {
    var arrays := ArraysOf(Globals(image));
    LayersStop(Fresh<A>(), image, exec, arrays, exec.prologue(arrays).value, Layers(image), done);
  }

  /** With the arrays at hand the lease evaluates the layer. */
  lemma LeaseEvaluates<A, H, T>(
    image: Image<A>, exec: Executor<A, H, T>, done: nat, h: H, arrays: map<TensorName, A>)
    requires done < |Layers(image)|
    ensures
      var r := EvalLayer(image, exec, arrays, h, Layers(image)[done]);
      var p := AfterLease(image, exec, done, h, arrays, ArraysOf(LayerRead(image, done).tensors));
      if LayerRead(image, done).complete then p == Returning(done, r) && (r.Err? ==> !r.error.LayerUnavailable?)
      else r.Err? && p == Finished(Err(r.error))
  {
  }

  lemma AfterLeaseMeans<A, H, T>(image: Image<A>, exec: Executor<A, H, T>, done: nat, h: H)
    requires Evaluated(image, exec, done, Ok(h)) && done < |Layers(image)|
    ensures
      Meaning(image, exec, AfterLease(
        image, exec, done, h, ArraysOf(Globals(image)), ArraysOf(LayerRead(image, done).tensors)))
  {
    var r := EvalLayer(image, exec, ArraysOf(Globals(image)), h, Layers(image)[done]);
    EvalNext(image, exec, done, h);
    LeaseEvaluates(image, exec, done, h, ArraysOf(Globals(image)));
    if !LayerRead(image, done).complete {
      ErrorEnds(image, exec, done + 1, r.error);
    }
  }

  lemma AfterLayersMeans<A, H, T>(image: Image<A>, exec: Executor<A, H, T>, h: H, handles: set<Handle>)
    requires Evaluated(image, exec, |Layers(image)|, Ok(h))
    ensures Meaning(image, exec, AfterLayers(exec, h, ArraysOf(Globals(image)), handles))
  {
    assert Layers(image)[..|Layers(image)|] == Layers(image);
  }

  lemma OpeningMeans<A, H, T>(image: Image<A>, exec: Executor<A, H, T>, s: Session<A, H, T>)
    requires Owned(s.w) && Holding(image, s) && s.phase.Opening?
    ensures Meaning(image, exec, OpeningStep(image, exec, s).phase)
  {
    if |s.persistent| == |Globals(image)| {
      assert Items(Globals(image))[..|s.persistent|] == Items(Globals(image));
      LookupHeld(s.w, Globals(image), s.persistent);
      AfterOpeningMeans(image, exec);
    }
  }

  lemma LeasingMeans<A, H, T>(image: Image<A>, exec: Executor<A, H, T>, s: Session<A, H, T>)
    requires Owned(s.w) && Holding(image, s) && s.phase.Leasing? && Meaning(image, exec, s.phase)
    ensures Meaning(image, exec, LeasingStep(image, exec, s).phase)
  {
    var Leasing(done, h) := s.phase;
    LookupHeld(s.w, Globals(image), s.persistent);
    if done == |Layers(image)| {
      AfterLayersMeans(image, exec, h, ByName(image, s).Values);
    } else if |s.lease| == |LayerRead(image, done).tensors| {
      var ts := LayerRead(image, done).tensors;
      assert Items(ts)[..|s.lease|] == Items(ts);
      LookupHeld(s.w, ts, s.lease);
      AfterLeaseMeans(image, exec, done, h);
    }
  }

  lemma ReturningMeans<A, H, T>(image: Image<A>, exec: Executor<A, H, T>, s: Session<A, H, T>)
    requires s.phase.Returning? && Meaning(image, exec, s.phase)
    ensures Meaning(image, exec, ReturningStep(s).phase)
  {
    if s.lease == [] && s.phase.next.Err? {
      ErrorEnds(image, exec, s.phase.done + 1, s.phase.next.error);
    }
  }

  // ── Every interleaving ─────────────────────────────────────────────────────

  ghost predicate Inv<A, H, T>(image: Image<A>, exec: Executor<A, H, T>, s: Session<A, H, T>) {
    Owned(s.w) && Holding(image, s) && Meaning(image, exec, s.phase)
  }

  lemma OwnStepKeepsInv<A, H, T>(image: Image<A>, exec: Executor<A, H, T>, s: Session<A, H, T>)
    requires Inv(image, exec, s) && Enabled(image, s, Own)
    ensures Inv(image, exec, Step(image, exec, s, Own))
  {
    if s.phase.Opening? {
      OpeningHolds(image, exec, s);
      OpeningMeans(image, exec, s);
    } else if s.phase.Leasing? {
      LeasingHolds(image, exec, s);
      LeasingMeans(image, exec, s);
    } else if s.phase.Returning? {
      ReturningHolds(image, s);
      ReturningMeans(image, exec, s);
    }
  }

  /** Every step, of the session or of the others, keeps the invariant. */
  lemma StepKeepsInv<A, H, T>(image: Image<A>, exec: Executor<A, H, T>, s: Session<A, H, T>, a: Act<A>)
    requires Inv(image, exec, s) && Enabled(image, s, a)
    ensures Inv(image, exec, Step(image, exec, s, a))
  {
    match a
    case Own => OwnStepKeepsInv(image, exec, s);
    case Release(h) => ReleaseHolds(image, exec, s, h);
    case Other(f) => InterfereKeepsOwned(s.w, f);
  }

  /** The session after a sequence of acts, started on registry `r` whose handles are all others'. */
  ghost function Exec<A, H, T>(image: Image<A>, exec: Executor<A, H, T>, r: State<A>, acts: seq<Act<A>>)
    : (s: Option<Session<A, H, T>>)
    requires Wf(r)
    ensures s.Some? ==> Inv(image, exec, s.value)
  {
    if acts == [] then StartInv(image, exec, r); Some(Start(r, Bindings(r)))
    else
      var s := Exec(image, exec, r, acts[..|acts| - 1]);
      var a := acts[|acts| - 1];
      if s.None? || !Enabled(image, s.value, a) then None
      else StepKeepsInv(image, exec, s.value, a); Some(Step(image, exec, s.value, a))
  }

  lemma StartInv<A, H, T>(image: Image<A>, exec: Executor<A, H, T>, r: State<A>)
    requires Wf(r)
    ensures Inv<A, H, T>(image, exec, Start(r, Bindings(r)))
  {
    assert map[] + Bindings(r) == Bindings(r);
  }

  /** At every moment of every interleaving: the registry binds exactly what the session and the
      others hold, and each handle resolves to the array it was given for. */
  lemma HandlesStaySafe<A, H, T>(
    image: Image<A>, exec: Executor<A, H, T>, r: State<A>, acts: seq<Act<A>>, h: Handle)
    requires Wf(r) && Exec(image, exec, r, acts).Some?
    ensures
      var w := Exec(image, exec, r, acts).value.w;
      && Wf(w.registry) && Bindings(w.registry) == w.held + w.theirs && w.held.Keys !! w.theirs.Keys
      && (h in w.held ==> Get(w.registry, h) == Some(w.held[h]))
      && (h in w.theirs ==> Get(w.registry, h) == Some(w.theirs[h]))
  {
    var w := Exec(image, exec, r, acts).value.w;
    GetIsLookup(w.registry, h);
  }

  /** After a full release nothing is held exactly if the handles by name were all of them. */
  lemma NothingHeldIff<A>(ts: seq<Tensor<A>>, persistent: seq<Handle>, held: map<Handle, A>)
    requires |ts| == |persistent| && NoDuplicates(persistent)
    requires held.Keys == Elements(persistent) - HandleMap(Names(ts), persistent).Values
    ensures held == map[] <==> DistinctTensors(ts)
  {
    ValuesCoverIff(ts, persistent);
    var all, named := Elements(persistent), HandleMap(Names(ts), persistent).Values;
    if all <= named {
      assert held.Keys == {};
    } else {
      var h :| h in all && h !in named;
      assert h in held;
    }
  }

  lemma OnlyTheirsIff<A>(w: World<A>)
    requires Owned(w)
    ensures Bindings(w.registry) == w.theirs <==> w.held == map[]
  {
    if w.held != map[] {
      var h :| h in w.held;
      assert h in w.held + w.theirs;
    } else {
      assert w.held + w.theirs == w.theirs;
    }
  }

  /** A successful session leaves the registry with exactly what the others hold, if and only if no
      two persistent tensors have the same name. */
  lemma OthersAreLeftIff<A, H, T>(image: Image<A>, s: Session<A, H, T>)
    requires Owned(s.w) && Holding(image, s) && s.phase.Finished? && s.phase.result.Ok?
    ensures Bindings(s.w.registry) == s.w.theirs <==> DistinctTensors(Globals(image))
  {
    NothingHeldIff(Globals(image), s.persistent, s.w.held);
    OnlyTheirsIff(s.w);
  }

  lemma CarriedCount<A>(held: map<Handle, A>, persistent: seq<Handle>, lease: seq<Handle>)
    requires Carries(held.Keys, persistent, lease)
    ensures |held| == |persistent| + |lease|
  {
    DistinctCount(persistent);
    DistinctCount(lease);
    assert |held.Keys| == |Elements(persistent)| + |Elements(lease)|;
  }

  lemma FailedCount<A, H, T>(image: Image<A>, s: Session<A, H, T>, e: RunError)
    requires Holding(image, s) && s.phase == Finished(Err(e))
    ensures |s.w.held| == |Globals(image)| + Leaked<A, T>(image, Err(e))
  {
    CarriedCount(s.w.held, s.persistent, s.lease);
  }

  /** Whatever the others do in between: a session returns what it returns alone; if it succeeds, the
      registry is left with exactly what the others hold, if and only if no two persistent tensors
      have the same name; if it fails, it keeps its persistent handles and those of a layer that did
      not load. */
  lemma SharedSessionEnds<A, H, T>(image: Image<A>, exec: Executor<A, H, T>, r: State<A>, acts: seq<Act<A>>)
    requires Wf(r) && Exec(image, exec, r, acts).Some? && Exec(image, exec, r, acts).value.phase.Finished?
    ensures Exec(image, exec, r, acts).value.phase.result == SessionResult(image, exec)
    ensures
      var w := Exec(image, exec, r, acts).value.w;
      && Wf(w.registry)
      && (if SessionResult(image, exec).Ok? then
            Bindings(w.registry) == w.theirs <==> DistinctTensors(Globals(image))
          else |w.held| == |Globals(image)| + Leaked(image, SessionResult(image, exec)))
  {
    var s := Exec(image, exec, r, acts).value;
    if s.phase.result.Ok? {
      OthersAreLeftIff(image, s);
    } else {
      FailedCount(image, s, s.phase.result.error);
    }
  }

  lemma HeldCount<A, H, T>(image: Image<A>, s: Session<A, H, T>, n: nat)
    requires Holding(image, s) && LayersFit(image.manifest, Layers(image), n)
    requires s.phase.Finished? && s.phase.result.Err? ==> |s.lease| <= n
    ensures |s.w.held| <= |Globals(image)| + n
  {
    if s.phase.Releasing? || (s.phase.Finished? && s.phase.result.Ok?) {
      ValuesCoverIff(Globals(image), s.persistent);
      DistinctCount(s.persistent);
      SubsetSize(s.w.held.Keys, Elements(s.persistent));
    } else {
      CarriedCount(s.w.held, s.persistent, s.lease);
    }
  }

  /** At every moment the session holds at most its persistent tensors and one layer's. */
  lemma HeldIsBounded<A, H, T>(
    image: Image<A>, exec: Executor<A, H, T>, r: State<A>, acts: seq<Act<A>>, n: nat)
    requires Wf(r) && Exec(image, exec, r, acts).Some? && LayersFit(image.manifest, Layers(image), n)
    ensures |Exec(image, exec, r, acts).value.w.held| <= |Globals(image)| + n
  {
    LeaksFit(image, exec, n);
    HeldCount(image, Exec(image, exec, r, acts).value, n);
  }

  lemma {:induction false} LayersLeakFit<A, H, T>(
    image: Image<A>, exec: Executor<A, H, T>, arrays: map<TensorName, A>, h: H, layers: seq<LayerPlan>, n: nat)
    requires LayersFit(image.manifest, layers, n)
    ensures Leaked(image, EvalLayers(image, exec, arrays, h, layers)) <= n
  {
    if layers != [] {
      LayersLeakFit(image, exec, arrays, h, layers[..|layers| - 1], n);
    }
  }

  lemma LeaksFit<A, H, T>(image: Image<A>, exec: Executor<A, H, T>, n: nat)
    requires LayersFit(image.manifest, Layers(image), n)
    ensures Leaked(image, SessionResult(image, exec)) <= n
  {
    var arrays := ArraysOf(Globals(image));
    if exec.prologue(arrays).Some? {
      LayersLeakFit(image, exec, arrays, exec.prologue(arrays).value, Layers(image), n);
    }
  }

  // ── Sessions end ───────────────────────────────────────────────────────────

  /** Steps left once layers from `done` on remain. */
  function LayersWork<A>(image: Image<A>, done: nat): (n: nat)
    requires done <= |Layers(image)|
    decreases |Layers(image)| - done
  {
    if done == |Layers(image)| then |Globals(image)| + 2
    else 2 * |LayerRead(image, done).tensors| + 2 + LayersWork(image, done + 1)
  }

  /** A bound on the steps the session has left. */
  function Work<A, H, T>(image: Image<A>, s: Session<A, H, T>): (n: nat)
    requires Sized(image, s)
  {
    match s.phase
    case Opening => |Globals(image)| - |s.persistent| + 1 + LayersWork(image, 0)
    case Leasing(done, _) => LayersWork(image, done) - |s.lease|
    case Returning(done, _) => |s.lease| + 1 + LayersWork(image, done + 1)
    case Releasing(left, _) => |left| + 1
    case Finished(_) => 0
  }

  /** While the registry has room, a session that has not finished can step. */
  lemma OwnStepExists<A, H, T>(image: Image<A>, s: Session<A, H, T>) returns (a: Act<A>)
    requires Sized(image, s) && !s.phase.Finished? && HasRoom(s.w.registry)
    ensures !a.Other? && Enabled(image, s, a)
  {
    if s.phase.Releasing? && s.phase.left != {} {
      var h :| h in s.phase.left;
      a := Release(h);
    } else {
      a := Own;
    }
  }

  lemma NamedCount<A>(ts: seq<Tensor<A>>, persistent: seq<Handle>)
    requires |ts| == |persistent| && NoDuplicates(persistent)
    ensures |HandleMap(Names(ts), persistent).Values| <= |ts|
  {
    ValuesCoverIff(ts, persistent);
    DistinctCount(persistent);
    SubsetSize(HandleMap(Names(ts), persistent).Values, Elements(persistent));
  }

  lemma LeasingReduces<A, H, T>(image: Image<A>, exec: Executor<A, H, T>, s: Session<A, H, T>)
    requires Shape(s.w.registry) && Sized(image, s) && s.phase.Leasing?
    requires |ByName(image, s).Values| <= |Globals(image)|
    ensures
      var s' := LeasingStep(image, exec, s);
      Sized(image, s') ==> Work(image, s') < Work(image, s)
  {
  }

  lemma OwnReduces<A, H, T>(image: Image<A>, exec: Executor<A, H, T>, s: Session<A, H, T>)
    requires Shape(s.w.registry) && Sized(image, s) && Enabled(image, s, Own)
    requires (s.phase.Opening? ==> s.lease == []) && (s.phase.Leasing? ==> NoDuplicates(s.persistent))
    ensures
      var s' := Step(image, exec, s, Own);
      Sized(image, s') ==> Work(image, s') < Work(image, s)
  {
    if s.phase.Leasing? {
      NamedCount(Globals(image), s.persistent);
      LeasingReduces(image, exec, s);
    }
  }

  /** Each of its steps leaves the session less to do; the others' steps do not touch that. */
  lemma StepReduces<A, H, T>(image: Image<A>, exec: Executor<A, H, T>, s: Session<A, H, T>, a: Act<A>)
    requires Shape(s.w.registry) && Sized(image, s) && Enabled(image, s, a)
    requires (s.phase.Opening? ==> s.lease == []) && (s.phase.Leasing? ==> NoDuplicates(s.persistent))
    ensures
      var s' := Step(image, exec, s, a);
      Sized(image, s') ==> Work(image, s') + (if a.Other? then 0 else 1) <= Work(image, s)
  {
    if a.Own? {
      OwnReduces(image, exec, s);
    }
  }

  function OwnActs<A>(acts: seq<Act<A>>): (n: nat) {
    if acts == [] then 0 else OwnActs(acts[..|acts| - 1]) + (if acts[|acts| - 1].Other? then 0 else 1)
  }

  /** However much the others do in between, a session takes a bounded number of steps. */
  lemma {:induction false} SessionsAreShort<A, H, T>(
    image: Image<A>, exec: Executor<A, H, T>, r: State<A>, acts: seq<Act<A>>)
    requires Wf(r) && Exec(image, exec, r, acts).Some?
    ensures
      OwnActs(acts) + Work(image, Exec(image, exec, r, acts).value) <= |Globals(image)| + 1 + LayersWork(image, 0)
  {
    if acts != [] {
      var before := acts[..|acts| - 1];
      SessionsAreShort(image, exec, r, before);
      StepReduces(image, exec, Exec(image, exec, r, before).value, acts[|acts| - 1]);
    }
  }
}

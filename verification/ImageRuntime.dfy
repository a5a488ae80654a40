/** The image runtime: persistent tensors stay resident, layer tensors are leased one layer at a
    time, and every handle the runtime takes from the registry is given back. */
module ImageRuntime {
  import opened Common
  import opened Config
  import opened Registry
  import opened Leases
  import opened ImageManifest
  import opened ImageBuilder

  // ── Reading tensors ────────────────────────────────────────────────────────

  datatype Tensor<A> = Tensor(name: TensorName, item: A)

  /** A verified image on disk. `decode` turns bytes into an array; it fails on unsupported types
      and on lengths that do not fit the shape. */
  datatype Image<!A> = Image(manifest: Manifest, files: Files, decode: (Bytes, string, seq<nat>) -> Option<A>)

  function FindEntry(table: seq<TensorEntry>, id: nat): (r: Option<TensorEntry>)
    ensures r.Some? ==> r.value in table && r.value.id == id
  {
    if table == [] then None
    else if table[0].id == id then Some(table[0])
    else FindEntry(table[1..], id)
  }

  /** A tensor's name and array, if its entry exists, lies within the segment, and decodes. */
  function ReadTensor<A>(image: Image<A>, bytes: Bytes, id: nat): (r: Option<Tensor<A>>) {
    match FindEntry(image.manifest.tensorTable, id)
    case None => None
    case Some(entry) =>
      match SliceTensorBytes(bytes, entry)
      case Err(_) => None
      case Ok(slice) =>
        match image.decode(slice, entry.storageDtype, entry.physicalShape)
        case None => None
        case Some(item) => Some(Tensor(entry.name, item))
  }

  /** The tensors of a segment up to the first that cannot be read. */
  function Readable<A>(image: Image<A>, bytes: Bytes, ids: seq<nat>): (ts: seq<Tensor<A>>)
    ensures |ts| <= |ids|
  {
    if ids == [] then []
    else
      var before := Readable(image, bytes, ids[..|ids| - 1]);
      if |before| < |ids| - 1 then before
      else
        match ReadTensor(image, bytes, ids[|ids| - 1])
        case None => before
        case Some(t) => before + [t]
  }

  function Items<A>(ts: seq<Tensor<A>>): (items: seq<A>)
    ensures |items| == |ts| && forall i :: 0 <= i < |ts| ==> items[i] == ts[i].item
  {
    seq(|ts|, i requires 0 <= i < |ts| => ts[i].item)
  }

  function Names<A>(ts: seq<Tensor<A>>): (names: seq<TensorName>)
    ensures |names| == |ts| && forall i :: 0 <= i < |ts| ==> names[i] == ts[i].name
  {
    seq(|ts|, i requires 0 <= i < |ts| => ts[i].name)
  }

  /** What reading a segment yields, and whether it got to the end. */
  datatype SegmentRead<A> = SegmentRead(tensors: seq<Tensor<A>>, complete: bool)

  function ReadSegment<A>(image: Image<A>, id: SegmentId): (r: SegmentRead<A>)
    ensures |r.tensors| <= TensorCount(image.manifest, id)
  {
    match FindSegment(image.manifest.segments, id)
    case None => SegmentRead([], false)
    case Some(s) =>
      if s.file !in image.files then SegmentRead([], false)
      else
        var ts := Readable(image, image.files[s.file], s.tensorIds);
        SegmentRead(ts, |ts| == |s.tensorIds|)
  }

  function TensorCount(m: Manifest, id: SegmentId): (n: nat) {
    match FindSegment(m.segments, id)
    case None => 0
    case Some(s) => |s.tensorIds|
  }

  /** Persistent segments, one after another, up to the first that cannot be read to the end. */
  function ReadPersistent<A>(image: Image<A>, ids: seq<SegmentId>): (r: SegmentRead<A>) {
    if ids == [] then SegmentRead([], true)
    else
      var before := ReadPersistent(image, ids[..|ids| - 1]);
      if !before.complete then before
      else
        var last := ReadSegment(image, ids[|ids| - 1]);
        SegmentRead(before.tensors + last.tensors, last.complete)
  }

  /** Arrays by name and handles by name; a later tensor of the same name replaces an earlier one. */
  function ArraysOf<A>(ts: seq<Tensor<A>>): (arrays: map<TensorName, A>) {
    if ts == [] then map[] else ArraysOf(ts[..|ts| - 1])[ts[|ts| - 1].name := ts[|ts| - 1].item]
  }

  function HandleMap(names: seq<TensorName>, hs: seq<Handle>): (m: map<TensorName, Handle>)
    requires |names| == |hs|
  {
    if names == [] then map[]
    else HandleMap(names[..|names| - 1], hs[..|hs| - 1])[names[|names| - 1] := hs[|hs| - 1]]
  }

  /** The handles by name resolve, in contents `m`, to the arrays by name. */
  ghost predicate Resident<A>(m: map<Handle, A>, handles: map<TensorName, Handle>, arrays: map<TensorName, A>) {
    && handles.Keys == arrays.Keys
    && forall n :: n in handles ==> handles[n] in m && m[handles[n]] == arrays[n]
  }

  lemma {:induction false} StoredIsResident<A>(ts: seq<Tensor<A>>, hs: seq<Handle>, m: map<Handle, A>)
    requires Stored(Items(ts), hs, m)
    ensures Resident(m, HandleMap(Names(ts), hs), ArraysOf(ts))
  {
    if ts != [] {
      var last := |ts| - 1;
      assert Items(ts[..last]) == Items(ts)[..last] && Names(ts[..last]) == Names(ts)[..last];
      StoredIsResident(ts[..last], hs[..last], m);
    }
  }

  ghost predicate DistinctTensors<A>(ts: seq<Tensor<A>>) {
    forall i, j :: 0 <= i < j < |ts| ==> ts[i].name != ts[j].name
  }

  /** A name's handle is that of the last tensor so named. */
  lemma {:induction false} HandleMapAt(names: seq<TensorName>, hs: seq<Handle>, n: TensorName)
    requires |names| == |hs|
    ensures n in HandleMap(names, hs) <==> n in names
    ensures n in names ==>
      exists k :: 0 <= k < |names| && names[k] == n && HandleMap(names, hs)[n] == hs[k] && n !in names[k + 1..]
  {
    if names != [] {
      var last := |names| - 1;
      HandleMapAt(names[..last], hs[..last], n);
      if names[last] == n {
        assert names[last + 1..] == [];
      } else if n in names {
        var k :| 0 <= k < last && names[..last][k] == n && HandleMap(names[..last], hs[..last])[n] == hs[..last][k]
                 && n !in names[..last][k + 1..];
        assert names[k + 1..] == names[..last][k + 1..] + [names[last]];
      }
    }
  }

  /** The handles by name are all the handles exactly if no name repeats. */
  lemma ValuesCoverIff<A>(ts: seq<Tensor<A>>, hs: seq<Handle>)
    requires |ts| == |hs| && NoDuplicates(hs)
    ensures HandleMap(Names(ts), hs).Values <= Elements(hs)
    ensures Elements(hs) <= HandleMap(Names(ts), hs).Values <==> DistinctTensors(ts)
  {
    var names, byName := Names(ts), HandleMap(Names(ts), hs);
    forall n | n in byName ensures byName[n] in Elements(hs) {
      HandleMapAt(names, hs, n);
    }
    if DistinctTensors(ts) {
      forall i | 0 <= i < |hs| ensures hs[i] in byName.Values {
        DistinctKeepsHandle(ts, hs, i);
      }
    }
    if i, j :| 0 <= i < j < |ts| && ts[i].name == ts[j].name {
      if hs[i] in byName.Values {
        var n :| n in byName && byName[n] == hs[i];
        LostHandle(names, hs, i, j, n);
      }
      assert hs[i] in Elements(hs);
    }
  }

  lemma DistinctKeepsHandle<A>(ts: seq<Tensor<A>>, hs: seq<Handle>, i: nat)
    requires i < |ts| == |hs| && DistinctTensors(ts)
    ensures ts[i].name in HandleMap(Names(ts), hs) && HandleMap(Names(ts), hs)[ts[i].name] == hs[i]
  {
    HandleMapAt(Names(ts), hs, ts[i].name);
  }

  /** The handle of a tensor whose name comes again is under no name. */
  lemma LostHandle(names: seq<TensorName>, hs: seq<Handle>, i: nat, j: nat, n: TensorName)
    requires |names| == |hs| && NoDuplicates(hs) && i < j < |names| && names[i] == names[j]
    ensures n in HandleMap(names, hs) ==> HandleMap(names, hs)[n] != hs[i]
  {
    HandleMapAt(names, hs, n);
    if n in HandleMap(names, hs) {
      var k :| 0 <= k < |names| && names[k] == n && HandleMap(names, hs)[n] == hs[k] && n !in names[k + 1..];
      if k < j {
        assert names[k + 1..][j - (k + 1)] == names[j];
      }
    }
  }

  // ── Running the model, with every tensor at hand ───────────────────────────

  /** The numeric work: embedding lookup, one layer, and the final projection, given arrays by
      name. Each may fail. `H` carries the hidden state and the caches. */
  datatype Executor<!A, !H, !T> = Executor(
    prologue: map<TensorName, A> -> Option<H>,
    layer: (H, LayerPlan, map<TensorName, A>) -> Option<H>,
    epilogue: (H, map<TensorName, A>) -> Option<T>)

  datatype RunError =
    | OpenFailed | AlreadyReleased | InvalidPlan | PrologueFailed
    | LayerUnavailable(layer: nat) | LayerFailed(layer: nat) | EpilogueFailed

  function EvalLayer<A, H, T>(
    image: Image<A>, exec: Executor<A, H, T>, resident: map<TensorName, A>, h: H, plan: LayerPlan)
    : (r: Result<H, RunError>)
  {
    var read := ReadSegment(image, LayerSegment(plan.layerIndex));
    if !read.complete then Err(LayerUnavailable(plan.layerIndex))
    else
      match exec.layer(h, plan, resident + ArraysOf(read.tensors))
      case None => Err(LayerFailed(plan.layerIndex))
      case Some(h') => Ok(h')
  }

  function EvalLayers<A, H, T>(
    image: Image<A>, exec: Executor<A, H, T>, resident: map<TensorName, A>, h: H, layers: seq<LayerPlan>)
    : (r: Result<H, RunError>)
  {
    if layers == [] then Ok(h)
    else
      match EvalLayers(image, exec, resident, h, layers[..|layers| - 1])
      case Err(e) => Err(e)
      case Ok(h') => EvalLayer(image, exec, resident, h', layers[|layers| - 1])
  }

  function EvalForward<A, H, T>(image: Image<A>, exec: Executor<A, H, T>, resident: map<TensorName, A>)
    : (r: Result<T, RunError>)
  {
    match exec.prologue(resident)
    case None => Err(PrologueFailed)
    case Some(h) =>
      match EvalLayers(image, exec, resident, h, image.manifest.executionPlan.layers)
      case Err(e) => Err(e)
      case Ok(h') =>
        match exec.epilogue(h', resident)
        case None => Err(EpilogueFailed)
        case Some(t) => Ok(t)
  }

  ghost predicate PlanValid(plan: ModelExecutionPlan) { forall e :: !Defective(plan, e) }

  ghost function EvalModel<A, H, T>(image: Image<A>, exec: Executor<A, H, T>, resident: map<TensorName, A>)
    : (r: Result<T, RunError>)
  {
    if PlanValid(image.manifest.executionPlan) then EvalForward(image, exec, resident) else Err(InvalidPlan)
  }

  // ── What running layers does to the registry ───────────────────────────────

  /** A layer that can be read to the end is leased, run and returned, whether or not it runs
      well; one that cannot is left with its first tensors inserted. */
  ghost function LayerOps<A>(r: State<A>, read: SegmentRead<A>): (ops: seq<Op<A>>)
    requires Wf(r)
  {
    if read.complete then LeaseOps(r, Items(read.tensors)) else InsertOps(Items(read.tensors))
  }

  ghost function LayersOps<A, H, T>(
    r: State<A>, image: Image<A>, exec: Executor<A, H, T>, resident: map<TensorName, A>, h: H, layers: seq<LayerPlan>)
    : (ops: seq<Op<A>>)
    requires Wf(r)
  {
    if layers == [] then []
    else
      var before := layers[..|layers| - 1];
      var ops := LayersOps(r, image, exec, resident, h, before);
      if EvalLayers(image, exec, resident, h, before).Err? then ops
      else ops + LayerOps(RunFrom(r, ops), ReadSegment(image, LayerSegment(layers[|layers| - 1].layerIndex)))
  }

  /** No layer has more than `n` tensors. */
  ghost predicate LayersFit(m: Manifest, layers: seq<LayerPlan>, n: nat) {
    forall i :: 0 <= i < |layers| ==> TensorCount(m, LayerSegment(layers[i].layerIndex)) <= n
  }

  /** Tensors left in the registry by a layer that failed to load. */
  function Leaked<A, R>(image: Image<A>, r: Result<R, RunError>): (n: nat) {
    if r.Err? && r.error.LayerUnavailable? then |ReadSegment(image, LayerSegment(r.error.layer)).tensors| else 0
  }

  /** Running layers leaves the registry as it was, unless a layer could not be loaded: then
      exactly the tensors loaded before the failing one remain. At no time is there more than
      one layer's tensors on top of the base, and the base is never touched. */
  lemma {:induction false} LayersRestore<A, H, T>(
    r: State<A>, image: Image<A>, exec: Executor<A, H, T>, resident: map<TensorName, A>, h: H, layers: seq<LayerPlan>,
    n: nat)
    requires Roomy(r, n) && LayersFit(image.manifest, layers, n)
    ensures Settles(
              r, LayersOps(r, image, exec, resident, h, layers), n,
              Leaked(image, EvalLayers(image, exec, resident, h, layers)))
  {
    if layers == [] {
      SettlesNothing(r, n);
    } else {
      var before := layers[..|layers| - 1];
      LayersRestore(r, image, exec, resident, h, before, n);
      LayersUnfold(r, image, exec, resident, h, layers);
      if EvalLayers(image, exec, resident, h, before).Ok? {
        var read := ReadSegment(image, LayerSegment(layers[|layers| - 1].layerIndex));
        AfterLayers(r, LayersOps(r, image, exec, resident, h, before), read, n);
      }
    }
  }

  lemma {:induction false} LayersUnfold<A, H, T>(
    r: State<A>, image: Image<A>, exec: Executor<A, H, T>, resident: map<TensorName, A>, h: H, layers: seq<LayerPlan>)
    requires Wf(r) && layers != []
    ensures
      var before, plan := layers[..|layers| - 1], layers[|layers| - 1];
      var soFar, ops := EvalLayers(image, exec, resident, h, before), LayersOps(r, image, exec, resident, h, before);
      var read := ReadSegment(image, LayerSegment(plan.layerIndex));
      if soFar.Err? then
        && EvalLayers(image, exec, resident, h, layers) == soFar
        && LayersOps(r, image, exec, resident, h, layers) == ops
      else
        && EvalLayers(image, exec, resident, h, layers) == EvalLayer(image, exec, resident, soFar.value, plan)
        && Leaked(image, EvalLayers(image, exec, resident, h, layers)) == (if read.complete then 0 else |read.tensors|)
        && LayersOps(r, image, exec, resident, h, layers) == ops + LayerOps(RunFrom(r, ops), read)
  {
  }

  lemma AfterLayers<A>(r: State<A>, ops: seq<Op<A>>, read: SegmentRead<A>, n: nat)
    requires Roomy(r, n) && Settles(r, ops, n, 0) && |read.tensors| <= n
    ensures Settles(r, ops + LayerOps(RunFrom(r, ops), read), n, if read.complete then 0 else |read.tensors|)
  {
    SettledContents(r, ops, n, 0);
    LayerSettles(RunFrom(r, ops), read, n);
    SettlesThen(r, ops, LayerOps(RunFrom(r, ops), read), n, if read.complete then 0 else |read.tensors|);
  }

  lemma LayerSettles<A>(r: State<A>, read: SegmentRead<A>, n: nat)
    requires Roomy(r, n) && |read.tensors| <= n
    ensures Settles(r, LayerOps(r, read), n, if read.complete then 0 else |read.tensors|)
  {
    if read.complete {
      LeaseSettles(r, Items(read.tensors), n);
    } else {
      InsertsSettle(r, Items(read.tensors), n);
    }
  }

  // ── A whole session ────────────────────────────────────────────────────────

  /** What a forward pass does to the registry: it runs the layers if it gets to them. */
  ghost function ForwardOps<A, H, T>(
    r: State<A>, image: Image<A>, exec: Executor<A, H, T>, resident: map<TensorName, A>)
    : (ops: seq<Op<A>>)
    requires Wf(r)
  {
    if !PlanValid(image.manifest.executionPlan) || exec.prologue(resident).None? then []
    else LayersOps(r, image, exec, resident, exec.prologue(resident).value, image.manifest.executionPlan.layers)
  }

  /** A run of the model releases the persistent handles if it succeeds. */
  ghost function ModelOps<A, H, T>(
    r: State<A>, image: Image<A>, exec: Executor<A, H, T>, resident: map<TensorName, A>, freed: seq<Handle>)
    : (ops: seq<Op<A>>)
    requires Wf(r)
  {
    var forward := ForwardOps(r, image, exec, resident);
    if EvalModel(image, exec, resident).Ok? then forward + FreeOps(freed) else forward
  }

  /** Open the runtime with these persistent tensors, and run the model. */
  ghost function SessionOps<A, H, T>(
    r: State<A>, image: Image<A>, exec: Executor<A, H, T>, persistent: seq<Tensor<A>>, freed: seq<Handle>)
    : (ops: seq<Op<A>>)
    requires Wf(r)
  {
    var open := InsertOps(Items(persistent));
    open + ModelOps(RunFrom(r, open), image, exec, ArraysOf(persistent), freed)
  }

  lemma OpenKeepsRoom<A>(r: State<A>, persistent: seq<Tensor<A>>, n: nat)
    requires Roomy(r, |persistent| + n)
    ensures Roomy(RunFrom(r, InsertOps(Items(persistent))), n)
    ensures NoDuplicates(NewHandles(r, Items(persistent)))
  {
    InsertsBorrow(r, Items(persistent));
    BorrowedSize(Bindings(r), NewHandles(r, Items(persistent)), Bindings(RunFrom(r, InsertOps(Items(persistent)))));
  }

  ghost predicate SessionFits<A>(r: State<A>, image: Image<A>, persistent: seq<Tensor<A>>, n: nat) {
    Roomy(r, |persistent| + n) && LayersFit(image.manifest, image.manifest.executionPlan.layers, n)
  }

  /** A successful session ends with the registry exactly as it was before it if and only if no
      two persistent tensors have the same name. */
  lemma SessionRestoresIff<A, H, T>(
    r: State<A>, image: Image<A>, exec: Executor<A, H, T>, persistent: seq<Tensor<A>>, freed: seq<Handle>, n: nat)
    requires SessionFits(r, image, persistent, n) && EvalModel(image, exec, ArraysOf(persistent)).Ok?
    requires Elements(freed) == HandleMap(Names(persistent), NewHandles(r, Items(persistent))).Values
    ensures
      Bindings(RunFrom(r, SessionOps(r, image, exec, persistent, freed))) == Bindings(r) <==>
        DistinctTensors(persistent)
  {
    var items := Items(persistent);
    var r1 := RunFrom(r, InsertOps(items));
    OpenKeepsRoom(r, persistent, n);
    var middle := ForwardOps(r1, image, exec, ArraysOf(persistent));
    ForwardSettles(r1, image, exec, ArraysOf(persistent), n);
    ValuesCoverIff(persistent, NewHandles(r, items));
    HoldAround(r, items, middle, freed, n);
    AppendAssoc(InsertOps(items), middle, FreeOps(freed));
  }

  /** A forward pass settles, apart from what a layer that failed to load left behind. */
  lemma ForwardSettles<A, H, T>(
    r: State<A>, image: Image<A>, exec: Executor<A, H, T>, resident: map<TensorName, A>, n: nat)
    requires Roomy(r, n) && LayersFit(image.manifest, image.manifest.executionPlan.layers, n)
    ensures Settles(r, ForwardOps(r, image, exec, resident), n, Leaked(image, EvalModel(image, exec, resident)))
  {
    if !PlanValid(image.manifest.executionPlan) || exec.prologue(resident).None? {
      SettlesNothing(r, n);
    } else {
      LayersRestore(r, image, exec, resident, exec.prologue(resident).value, image.manifest.executionPlan.layers, n);
      OnlyLayersLeak(image, exec, resident);
    }
  }

  lemma OnlyLayersLeak<A, H, T>(image: Image<A>, exec: Executor<A, H, T>, resident: map<TensorName, A>)
    requires exec.prologue(resident).Some?
    ensures
      Leaked(image, EvalForward(image, exec, resident)) ==
      Leaked(
        image, EvalLayers(image, exec, resident, exec.prologue(resident).value, image.manifest.executionPlan.layers))
  {
  }

  /** In every session, successful or not, other clients' handles are untouched at all times and
      there are never more than the persistent tensors and one layer's on top of them. */
  lemma SessionStaysWithin<A, H, T>(
    r: State<A>, image: Image<A>, exec: Executor<A, H, T>, persistent: seq<Tensor<A>>, freed: seq<Handle>, n: nat)
    requires SessionFits(r, image, persistent, n)
    requires Elements(freed) <= Elements(NewHandles(r, Items(persistent)))
    ensures StaysWithin(r, SessionOps(r, image, exec, persistent, freed), Bindings(r), |persistent| + n)
  {
    var items, resident := Items(persistent), ArraysOf(persistent);
    var r1 := RunFrom(r, InsertOps(items));
    OpenKeepsRoom(r, persistent, n);
    var middle, result := ForwardOps(r1, image, exec, resident), EvalModel(image, exec, resident);
    ForwardSettles(r1, image, exec, resident, n);
    HeldRunStaysWithin(r, items, middle, freed, result.Ok?, n, Leaked(image, result));
  }

  lemma MoreThanBase<A>(base: map<Handle, A>, m: map<Handle, A>) returns (h: Handle)
    requires Extends(base, m) && m != base
    ensures h in m && h !in base
  {
    assert m.Keys != base.Keys;
    h :| h in m && h !in base;
  }

  /** If two persistent tensors have the same name, a successful session leaves a handle behind. */
  lemma SessionLeaves<A, H, T>(
    r: State<A>, image: Image<A>, exec: Executor<A, H, T>, persistent: seq<Tensor<A>>, freed: seq<Handle>, n: nat,
    i: nat, j: nat)
    returns (h: Handle)
    requires SessionFits(r, image, persistent, n) && EvalModel(image, exec, ArraysOf(persistent)).Ok?
    requires Elements(freed) == HandleMap(Names(persistent), NewHandles(r, Items(persistent))).Values
    requires i < j < |persistent| && persistent[i].name == persistent[j].name
    ensures h in Bindings(RunFrom(r, SessionOps(r, image, exec, persistent, freed))) && h !in Bindings(r)
  {
    var ops := SessionOps(r, image, exec, persistent, freed);
    SessionRestoresIff(r, image, exec, persistent, freed, n);
    FreedAreOurs(r, persistent, freed, n);
    SessionStaysWithin(r, image, exec, persistent, freed, n);
    EndsWithin(r, ops, Bindings(r), |persistent| + n);
    h := MoreThanBase(Bindings(r), Bindings(RunFrom(r, ops)));
  }

  // ── The runtime object ─────────────────────────────────────────────────────

  /** The registry was in state `r` with log `log`, and since then has done `ops`. */
  ghost predicate Did<A>(registry: ArrayRegistry<A>, r: State<A>, log: seq<Op<A>>, ops: seq<Op<A>>)
    requires Wf(r)
    reads registry
  {
    registry.log == log + ops && registry.Model() == RunFrom(r, ops)
  }

  lemma {:induction false} RunLast<A>(r: State<A>, ops: seq<Op<A>>, op: Op<A>)
    requires Wf(r)
    ensures RunFrom(r, ops + [op]) == Step(RunFrom(r, ops), op)
  {
    assert (ops + [op])[..|ops|] == ops;
  }

  method InsertNext<A>(
    registry: ArrayRegistry<A>, item: A, ghost r: State<A>, ghost log: seq<Op<A>>, ghost ops: seq<Op<A>>)
    returns (h: Handle)
    requires Wf(r) && Did(registry, r, log, ops)
    modifies registry
    ensures Did(registry, r, log, ops + [InsertOp(item)])
    ensures h == NextHandle(RunFrom(r, ops))
  {
    h := registry.InsertArray(item);
    RunLast(r, ops, InsertOp(item));
  }

  method FreeNext<A>(
    registry: ArrayRegistry<A>, h: Handle, ghost r: State<A>, ghost log: seq<Op<A>>, ghost ops: seq<Op<A>>)
    requires Wf(r) && Did(registry, r, log, ops)
    modifies registry
    ensures Did(registry, r, log, ops + [RemoveOp(h)])
  {
    var _ := registry.RemoveArray(h);
    RunLast(r, ops, RemoveOp(h));
  }

  lemma {:induction false} ReadableStep<A>(image: Image<A>, bytes: Bytes, ids: seq<nat>, i: nat)
    requires i < |ids| && |Readable(image, bytes, ids[..i])| == i
    ensures
      Readable(image, bytes, ids[..i + 1]) ==
      match ReadTensor(image, bytes, ids[i])
      case None => Readable(image, bytes, ids[..i])
      case Some(t) => Readable(image, bytes, ids[..i]) + [t]
  {
    assert ids[..i + 1][..i] == ids[..i];
  }

  lemma {:induction false} ReadableStops<A>(image: Image<A>, bytes: Bytes, ids: seq<nat>, i: nat)
    requires i < |ids| && |Readable(image, bytes, ids[..i])| == i && ReadTensor(image, bytes, ids[i]).None?
    ensures Readable(image, bytes, ids) == Readable(image, bytes, ids[..i])
  {
    var last := |ids| - 1;
    if i < last {
      assert ids[..last][..i] == ids[..i];
      ReadableStops(image, bytes, ids[..last], i);
    }
  }

  lemma ItemsLast<A>(ts: seq<Tensor<A>>, t: Tensor<A>)
    ensures InsertOps(Items(ts + [t])) == InsertOps(Items(ts)) + [InsertOp(t.item)]
    ensures Items(ts + [t]) == Items(ts) + [t.item]
    ensures Names(ts + [t]) == Names(ts) + [t.name]
  {
  }

  /** Insert the tensors of a segment one by one, stopping at the first that cannot be read;
      what was inserted before stays in the registry. */
  method LoadTensors<A>(registry: ArrayRegistry<A>, image: Image<A>, bytes: Bytes, ids: seq<nat>)
    returns (hs: seq<Handle>, names: seq<TensorName>, complete: bool)
    requires registry.Valid()
    modifies registry
    ensures
      var ts := Readable(image, bytes, ids);
      && Did(registry, old(registry.Model()), old(registry.log), InsertOps(Items(ts)))
      && hs == NewHandles(old(registry.Model()), Items(ts)) && names == Names(ts)
      && complete == (|ts| == |ids|)
  {
    ghost var r, log := registry.Model(), registry.log;
    ghost var ts: seq<Tensor<A>> := [];
    hs, names := [], [];
    for i := 0 to |ids|
      invariant ts == Readable(image, bytes, ids[..i]) && |ts| == i
      invariant Did(registry, r, log, InsertOps(Items(ts)))
      invariant hs == NewHandles(r, Items(ts)) && names == Names(ts)
    {
      var t := ReadTensor(image, bytes, ids[i]);
      if t.None? {
        ReadableStops(image, bytes, ids, i);
        return hs, names, false;
      }
      ReadableStep(image, bytes, ids, i);
      ItemsLast(ts, t.value);
      NewHandlesLast(r, Items(ts), t.value.item);
      var h := InsertNext(registry, t.value.item, r, log, InsertOps(Items(ts)));
      hs, names, ts := hs + [h], names + [t.value.name], ts + [t.value];
    }
    assert ids[..|ids|] == ids;
    complete := true;
  }

  method LoadSegment<A>(registry: ArrayRegistry<A>, image: Image<A>, id: SegmentId)
    returns (hs: seq<Handle>, names: seq<TensorName>, complete: bool)
    requires registry.Valid()
    modifies registry
    ensures
      var read := ReadSegment(image, id);
      && Did(registry, old(registry.Model()), old(registry.log), InsertOps(Items(read.tensors)))
      && hs == NewHandles(old(registry.Model()), Items(read.tensors)) && names == Names(read.tensors)
      && complete == read.complete
  {
    var segment := FindSegment(image.manifest.segments, id);
    if segment.None? || segment.value.file !in image.files {
      return [], [], false;
    }
    hs, names, complete := LoadTensors(registry, image, image.files[segment.value.file], segment.value.tensorIds);
  }

  /** Free the handles of a lease. */
  method FreeAll<A>(
    registry: ArrayRegistry<A>, hs: seq<Handle>, ghost r: State<A>, ghost log: seq<Op<A>>, ghost ops: seq<Op<A>>)
    requires Wf(r) && Did(registry, r, log, ops)
    modifies registry
    ensures Did(registry, r, log, ops + FreeOps(hs))
  {
    assert ops + FreeOps(hs[..0]) == ops;
    for i := 0 to |hs|
      invariant Did(registry, r, log, ops + FreeOps(hs[..i]))
    {
      FreeNext(registry, hs[i], r, log, ops + FreeOps(hs[..i]));
      FreeOpsLast(ops, hs, i);
    }
    assert hs[..|hs|] == hs;
  }

  lemma FreeOpsLast<A>(ops: seq<Op<A>>, hs: seq<Handle>, i: nat)
    requires i < |hs|
    ensures ops + FreeOps(hs[..i]) + [RemoveOp(hs[i])] == ops + FreeOps(hs[..i + 1])
  {
  }

  function LookupAll<A>(r: State<A>, handles: map<TensorName, Handle>): (arrays: map<TensorName, A>) {
    map n | n in handles && Get(r, handles[n]).Some? :: Get(r, handles[n]).value
  }

  lemma LookupResident<A>(r: State<A>, handles: map<TensorName, Handle>, arrays: map<TensorName, A>)
    requires Wf(r) && Resident(Bindings(r), handles, arrays)
    ensures LookupAll(r, handles) == arrays
  {
    forall n | n in handles ensures Get(r, handles[n]) == Some(arrays[n]) {
      GetIsLookup(r, handles[n]);
    }
  }

  lemma {:induction false} ReadableAt<A>(image: Image<A>, bytes: Bytes, ids: seq<nat>, i: nat)
    requires i < |Readable(image, bytes, ids)|
    ensures ReadTensor(image, bytes, ids[i]) == Some(Readable(image, bytes, ids)[i])
  {
    if i < |Readable(image, bytes, ids[..|ids| - 1])| {
      ReadableAt(image, bytes, ids[..|ids| - 1], i);
    }
  }

  datatype LayerLease = LayerLease(layer: nat, segment: SegmentId, handles: seq<Handle>)

  lemma {:induction false} LeasedTensorAt<A>(image: Image<A>, lease: LayerLease, m: map<Handle, A>, i: nat)
    requires ReadSegment(image, LayerSegment(lease.layer)).complete && i < |lease.handles|
    requires Stored(Items(ReadSegment(image, LayerSegment(lease.layer)).tensors), lease.handles, m)
    ensures
      var ts := ReadSegment(image, LayerSegment(lease.layer)).tensors;
      var segment := FindSegment(image.manifest.segments, LayerSegment(lease.layer));
      && i < |ts| && segment.Some? && i < |segment.value.tensorIds|
      && lease.handles[i] in m && m[lease.handles[i]] == ts[i].item
      && FindEntry(image.manifest.tensorTable, segment.value.tensorIds[i]).Some?
      && FindEntry(image.manifest.tensorTable, segment.value.tensorIds[i]).value.name == ts[i].name
      && ArraysOf(ts[..i + 1]) == ArraysOf(ts[..i])[ts[i].name := ts[i].item]
  {
    var ts := ReadSegment(image, LayerSegment(lease.layer)).tensors;
    var s := FindSegment(image.manifest.segments, LayerSegment(lease.layer)).value;
    assert Items(ts)[i] == ts[i].item;
    ReadableAt(image, image.files[s.file], s.tensorIds, i);
    assert ts[..i + 1][..i] == ts[..i];
  }

  /** Arrays by name for the handles of a lease. With the lease's tensors stored under its
      handles, these are the layer's own tensors. */
  method BuildLayerArrays<A>(registry: ArrayRegistry<A>, image: Image<A>, lease: LayerLease)
    returns (r: Option<map<TensorName, A>>)
    requires registry.Valid()
    ensures
      var read := ReadSegment(image, LayerSegment(lease.layer));
      read.complete && Stored(Items(read.tensors), lease.handles, Bindings(registry.Model())) ==>
      r == Some(ArraysOf(read.tensors))
  {
    ghost var read := ReadSegment(image, LayerSegment(lease.layer));
    ghost var ts := read.tensors;
    ghost var sound := read.complete && Stored(Items(ts), lease.handles, Bindings(registry.Model()));
    var segment := FindSegment(image.manifest.segments, LayerSegment(lease.layer));
    if segment.None? || |segment.value.tensorIds| != |lease.handles| {
      return None;
    }
    var ids := segment.value.tensorIds;
    var arrays := map[];
    for i := 0 to |ids|
      invariant sound ==> arrays == ArraysOf(ts[..i])
    {
      var entry := FindEntry(image.manifest.tensorTable, ids[i]);
      var item := registry.GetArray(lease.handles[i]);
      if sound {
        LeasedTensorAt(image, lease, Bindings(registry.Model()), i);
      }
      if entry.None? || item.None? {
        return None;
      }
      arrays := arrays[entry.value.name := item.value];
    }
    assert sound ==> ts[..|ids|] == ts;
    return Some(arrays);
  }

  lemma {:induction false} LayersStop<A, H, T>(
    r: State<A>, image: Image<A>, exec: Executor<A, H, T>, resident: map<TensorName, A>, h: H, layers: seq<LayerPlan>,
    k: nat)
    requires Wf(r) && k <= |layers| && EvalLayers(image, exec, resident, h, layers[..k]).Err?
    ensures EvalLayers(image, exec, resident, h, layers) == EvalLayers(image, exec, resident, h, layers[..k])
    ensures LayersOps(r, image, exec, resident, h, layers) == LayersOps(r, image, exec, resident, h, layers[..k])
  {
    if k == |layers| {
      assert layers[..k] == layers;
    } else {
      var before := layers[..|layers| - 1];
      assert before[..k] == layers[..k];
      LayersStop(r, image, exec, resident, h, before, k);
      LayersUnfold(r, image, exec, resident, h, layers);
    }
  }

  lemma {:induction false} ReadPersistentStep<A>(image: Image<A>, ids: seq<SegmentId>, i: nat)
    requires i < |ids|
    ensures
      var before, last := ReadPersistent(image, ids[..i]), ReadSegment(image, ids[i]);
      ReadPersistent(image, ids[..i + 1]) ==
      if before.complete then SegmentRead(before.tensors + last.tensors, last.complete) else before
  {
    assert ids[..i + 1][..i] == ids[..i];
  }

  lemma {:induction false} ReadPersistentStops<A>(image: Image<A>, ids: seq<SegmentId>, k: nat)
    requires k <= |ids| && !ReadPersistent(image, ids[..k]).complete
    ensures ReadPersistent(image, ids) == ReadPersistent(image, ids[..k])
  {
    if k == |ids| {
      assert ids[..k] == ids;
    } else {
      assert ids[..|ids| - 1][..k] == ids[..k];
      ReadPersistentStops(image, ids[..|ids| - 1], k);
    }
  }

  lemma ItemsSplit<A>(xs: seq<Tensor<A>>, ys: seq<Tensor<A>>)
    ensures Items(xs + ys) == Items(xs) + Items(ys) && Names(xs + ys) == Names(xs) + Names(ys)
  {
  }

  lemma LoadMore<A>(r: State<A>, xs: seq<Tensor<A>>, ys: seq<Tensor<A>>)
    requires Wf(r)
    ensures Items(xs + ys) == Items(xs) + Items(ys) && Names(xs + ys) == Names(xs) + Names(ys)
    ensures InsertOps(Items(xs + ys)) == InsertOps(Items(xs)) + InsertOps(Items(ys))
    ensures RunFrom(r, InsertOps(Items(xs + ys))) == RunFrom(RunFrom(r, InsertOps(Items(xs))), InsertOps(Items(ys)))
    ensures NewHandles(r, Items(xs + ys)) ==
      NewHandles(r, Items(xs)) + NewHandles(RunFrom(r, InsertOps(Items(xs))), Items(ys))
  {
    ItemsSplit(xs, ys);
    InsertOpsSplit(Items(xs), Items(ys));
    RunSplit(r, InsertOps(Items(xs)), InsertOps(Items(ys)));
    NewHandlesSplit(r, Items(xs), Items(ys));
  }

  /** Record handles under their names. */
  method RecordHandles(
    m: map<TensorName, Handle>, names: seq<TensorName>, hs: seq<Handle>, ghost oldNames: seq<TensorName>,
    ghost oldHs: seq<Handle>)
    returns (m': map<TensorName, Handle>)
    requires |names| == |hs| && |oldNames| == |oldHs| && m == HandleMap(oldNames, oldHs)
    ensures m' == HandleMap(oldNames + names, oldHs + hs)
  {
    m' := m;
    assert oldNames + names[..0] == oldNames && oldHs + hs[..0] == oldHs;
    for i := 0 to |names|
      invariant m' == HandleMap(oldNames + names[..i], oldHs + hs[..i])
    {
      m' := m'[names[i] := hs[i]];
      assert (oldNames + names[..i + 1])[..|oldNames| + i] == oldNames + names[..i];
      assert (oldHs + hs[..i + 1])[..|oldHs| + i] == oldHs + hs[..i];
    }
    assert names[..|names|] == names && hs[..|hs|] == hs;
  }

  /** The tensors `ts` have been inserted since state `r`, and `handles` holds their handles. */
  ghost predicate Loaded<A>(
    registry: ArrayRegistry<A>, r: State<A>, log: seq<Op<A>>, ts: seq<Tensor<A>>, handles: map<TensorName, Handle>)
    requires Wf(r)
    reads registry
  {
    Did(registry, r, log, InsertOps(Items(ts))) && handles == HandleMap(Names(ts), NewHandles(r, Items(ts)))
  }

  method LoadOneMore<A>(
    registry: ArrayRegistry<A>, image: Image<A>, id: SegmentId, handles: map<TensorName, Handle>,
    ghost r: State<A>, ghost log: seq<Op<A>>, ghost ts: seq<Tensor<A>>)
    returns (handles': map<TensorName, Handle>, complete: bool)
    requires Wf(r) && Loaded(registry, r, log, ts, handles)
    modifies registry
    ensures Loaded(registry, r, log, ts + ReadSegment(image, id).tensors, handles')
    ensures complete == ReadSegment(image, id).complete
  {
    var hs, names;
    hs, names, complete := LoadSegment(registry, image, id);
    handles' := RecordHandles(handles, names, hs, Names(ts), NewHandles(r, Items(ts)));
    LoadMore(r, ts, ReadSegment(image, id).tensors);
    AppendAssoc(log, InsertOps(Items(ts)), InsertOps(Items(ReadSegment(image, id).tensors)));
  }

  /** Load the segments `ids` one after another, up to the first that cannot be read. */
  method LoadPersistent<A>(registry: ArrayRegistry<A>, image: Image<A>, ids: seq<SegmentId>)
    returns (handles: map<TensorName, Handle>, complete: bool)
    requires registry.Valid()
    modifies registry
    ensures Loaded(registry, old(registry.Model()), old(registry.log), ReadPersistent(image, ids).tensors, handles)
    ensures complete == ReadPersistent(image, ids).complete
  {
    ghost var r, log := registry.Model(), registry.log;
    ghost var ts: seq<Tensor<A>> := [];
    handles := map[];
    for i := 0 to |ids|
      invariant ReadPersistent(image, ids[..i]) == SegmentRead(ts, true)
      invariant Loaded(registry, r, log, ts, handles)
    {
      ReadPersistentStep(image, ids, i);
      handles, complete := LoadOneMore(registry, image, ids[i], handles, r, log, ts);
      if !complete {
        ReadPersistentStops(image, ids, i + 1);
        return;
      }
      ts := ts + ReadSegment(image, ids[i]).tensors;
    }
    assert ids[..|ids|] == ids;
    complete := true;
  }

  /** A quantized persistent tensor's weight, scales and biases all have handles. */
  predicate BindingResolves(m: Manifest, entry: TensorEntry, names: set<TensorName>) {
    entry.segment in m.residencyPlan.persistentSegments && entry.quantization.Some? ==>
      var scales := FindEntry(m.tensorTable, entry.quantization.value.scaleTensorId);
      var biases := FindEntry(m.tensorTable, entry.quantization.value.biasTensorId);
      && scales.Some? && biases.Some?
      && entry.name in names && scales.value.name in names && biases.value.name in names
  }

  ghost predicate BindingsResolve(m: Manifest, names: set<TensorName>) {
    forall i :: 0 <= i < |m.tensorTable| ==> BindingResolves(m, m.tensorTable[i], names)
  }

  /** The first entry with this id has a name among these. */
  ghost predicate HasHandle(table: seq<TensorEntry>, k: nat, id: nat, names: set<TensorName>) {
    && k < |table| && table[k].id == id && table[k].name in names
    && forall j :: 0 <= j < k ==> table[j].id != id
  }

  lemma {:induction false} EntryFound(table: seq<TensorEntry>, id: nat, names: set<TensorName>)
    ensures
      (exists k: nat :: HasHandle(table, k, id, names)) <==>
      FindEntry(table, id).Some? && FindEntry(table, id).value.name in names
  {
    if table != [] {
      var rest := table[1..];
      EntryFound(rest, id, names);
      if table[0].id == id {
        assert table[0].name in names ==> HasHandle(table, 0, id, names);
      } else {
        if k: nat :| HasHandle(rest, k, id, names) {
          assert HasHandle(table, k + 1, id, names);
        }
        if k: nat :| HasHandle(table, k, id, names) {
          assert HasHandle(rest, k - 1, id, names);
        }
      }
    }
  }

  /** The bindings resolve exactly if every quantized tensor of a persistent segment has a handle, and
      so have the tensors that its descriptor gives as its scales and biases. */
  lemma BindingsResolveIff(m: Manifest, names: set<TensorName>)
    ensures BindingsResolve(m, names) <==>
      forall i :: 0 <= i < |m.tensorTable| && m.tensorTable[i].quantization.Some? ==>
        m.tensorTable[i].segment in m.residencyPlan.persistentSegments ==>
          && m.tensorTable[i].name in names
          && (exists k: nat :: HasHandle(m.tensorTable, k, m.tensorTable[i].quantization.value.scaleTensorId, names))
          && exists k: nat :: HasHandle(m.tensorTable, k, m.tensorTable[i].quantization.value.biasTensorId, names)
  {
    forall i | 0 <= i < |m.tensorTable| && m.tensorTable[i].quantization.Some?
      ensures BindingResolves(m, m.tensorTable[i], names) <==>
        (m.tensorTable[i].segment in m.residencyPlan.persistentSegments ==>
          && m.tensorTable[i].name in names
          && (exists k: nat :: HasHandle(m.tensorTable, k, m.tensorTable[i].quantization.value.scaleTensorId, names))
          && exists k: nat :: HasHandle(m.tensorTable, k, m.tensorTable[i].quantization.value.biasTensorId, names))
    {
      EntryFound(m.tensorTable, m.tensorTable[i].quantization.value.scaleTensorId, names);
      EntryFound(m.tensorTable, m.tensorTable[i].quantization.value.biasTensorId, names);
    }
  }

  lemma {:induction false} HandleMapKeys(names: seq<TensorName>, hs: seq<Handle>)
    requires |names| == |hs|
    ensures HandleMap(names, hs).Keys == set n | n in names
  {
    forall n ensures n in HandleMap(names, hs) <==> n in names {
      HandleMapAt(names, hs, n);
    }
  }

  class Runtime<A> {
    const image: Image<A>
    const registry: ArrayRegistry<A>
    var persistentHandles: map<TensorName, Handle>
    var released: bool

    constructor (image: Image<A>, registry: ArrayRegistry<A>)
      ensures this.image == image && this.registry == registry
      ensures persistentHandles == map[] && !released
    {
      this.image, this.registry := image, registry;
      persistentHandles, released := map[], false;
    }

    /** Load all persistent segments. On failure what was loaded stays in the registry. */
    method ActivatePersistent() returns (ok: bool)
      requires registry.Valid()
      modifies this, registry
      ensures
        var read := PersistentTensors(image);
        && Loaded(registry, old(registry.Model()), old(registry.log), read.tensors, persistentHandles)
        && ok == Opens(image)
      ensures released == old(released)
    {
      var complete;
      persistentHandles, complete := LoadPersistent(registry, image, image.manifest.residencyPlan.persistentSegments);
      ok := false;
      ghost var names := Names(PersistentTensors(image).tensors);
      HandleMapKeys(names, NewHandles(old(registry.Model()), Items(PersistentTensors(image).tensors)));
      if complete {
        ok := RebuildBindings();
      }
    }

    method RebuildBindings() returns (ok: bool)
      ensures ok <==> BindingsResolve(image.manifest, persistentHandles.Keys)
    {
      for i := 0 to |image.manifest.tensorTable|
        invariant forall j :: 0 <= j < i ==>
          BindingResolves(image.manifest, image.manifest.tensorTable[j], persistentHandles.Keys)
      {
        if !BindingResolves(image.manifest, image.manifest.tensorTable[i], persistentHandles.Keys) {
          return false;
        }
      }
      ok := true;
    }

    /** Lease a layer: read its segment and insert its tensors. */
    method ActivateLayer(layer: nat) returns (lease: Option<LayerLease>)
      requires registry.Valid()
      modifies registry
      ensures
        var read := ReadSegment(image, LayerSegment(layer));
        && Did(registry, old(registry.Model()), old(registry.log), InsertOps(Items(read.tensors)))
        && lease == if read.complete
           then Some(LayerLease(layer, LayerSegment(layer), NewHandles(old(registry.Model()), Items(read.tensors))))
           else None
    {
      var hs, _, complete := LoadSegment(registry, image, LayerSegment(layer));
      lease := if complete then Some(LayerLease(layer, LayerSegment(layer), hs)) else None;
    }

    /** Lease a layer, run it on its own arrays and the persistent ones, and return the lease.
        The result is that of running with every tensor at hand. */
    method RunLayer<H, T>(exec: Executor<A, H, T>, h: H, plan: LayerPlan, ghost resident: map<TensorName, A>)
      returns (result: Result<H, RunError>)
      requires registry.Valid() && Roomy(registry.Model(), TensorCount(image.manifest, LayerSegment(plan.layerIndex)))
      requires Resident(Bindings(registry.Model()), persistentHandles, resident)
      modifies registry
      ensures result == EvalLayer(image, exec, resident, h, plan)
      ensures Did(registry, old(registry.Model()), old(registry.log),
                  LayerOps(old(registry.Model()), ReadSegment(image, LayerSegment(plan.layerIndex))))
    {
      ghost var r, log, ts := registry.Model(), registry.log, ReadSegment(image, LayerSegment(plan.layerIndex)).tensors;
      LeaseHolds(r, ts, persistentHandles, resident);
      var lease := ActivateLayer(plan.layerIndex);
      if lease.None? {
        return Err(LayerUnavailable(plan.layerIndex));
      }
      var out := ExecuteLeased(exec, h, plan, lease.value, resident);
      FreeAll(registry, lease.value.handles, r, log, InsertOps(Items(ts)));
      result := if out.None? then Err(LayerFailed(plan.layerIndex)) else Ok(out.value);
    }

    /** While the lease is held, the layer sees its own tensors and the persistent ones. */
    method ExecuteLeased<H, T>(
      exec: Executor<A, H, T>, h: H, plan: LayerPlan, lease: LayerLease, ghost resident: map<TensorName, A>)
      returns (out: Option<H>)
      requires registry.Valid() && lease.layer == plan.layerIndex
      requires Resident(Bindings(registry.Model()), persistentHandles, resident)
      requires ReadSegment(image, LayerSegment(lease.layer)).complete
      requires Stored(
                 Items(ReadSegment(image, LayerSegment(lease.layer)).tensors), lease.handles,
                 Bindings(registry.Model()))
      ensures out == exec.layer(h, plan, resident + ArraysOf(ReadSegment(image, LayerSegment(lease.layer)).tensors))
    {
      var layerArrays := BuildLayerArrays(registry, image, lease);
      LookupResident(registry.Model(), persistentHandles, resident);
      var persistent := LookupAll(State(registry.slots, registry.freelist, registry.totalAllocated), persistentHandles);
      out := if layerArrays.None? then None else exec.layer(h, plan, persistent + layerArrays.value);
    }

    /** Run layers one after another, each under its own lease. */
    method RunLayers<H, T>(
      exec: Executor<A, H, T>, start: H, layers: seq<LayerPlan>, ghost resident: map<TensorName, A>, ghost n: nat)
      returns (result: Result<H, RunError>)
      requires registry.Valid() && Roomy(registry.Model(), n) && LayersFit(image.manifest, layers, n)
      requires Resident(Bindings(registry.Model()), persistentHandles, resident)
      modifies registry
      ensures result == EvalLayers(image, exec, resident, start, layers)
      ensures Did(registry, old(registry.Model()), old(registry.log),
                  LayersOps(old(registry.Model()), image, exec, resident, start, layers))
    {
      ghost var r, log := registry.Model(), registry.log;
      var h := start;
      for i := 0 to |layers|
        invariant EvalLayers(image, exec, resident, start, layers[..i]) == Ok(h)
        invariant Did(registry, r, log, LayersOps(r, image, exec, resident, start, layers[..i]))
      {
        BetweenLayers(r, image, exec, resident, start, layers, i, n);
        ghost var ops := LayersOps(r, image, exec, resident, start, layers[..i]);
        var next := RunLayer(exec, h, layers[i], resident);
        NextLayer(r, image, exec, resident, start, layers, i);
        AppendAssoc(log, ops, LayerOps(RunFrom(r, ops), ReadSegment(image, LayerSegment(layers[i].layerIndex))));
        if next.Err? {
          LayersStop(r, image, exec, resident, start, layers, i + 1);
          return next;
        }
        h := next.value;
      }
      assert layers[..|layers|] == layers;
      result := Ok(h);
    }

    /** Run the whole model and, if it succeeds, release the persistent tensors. */
    method RunFullModel<H, T>(exec: Executor<A, H, T>, ghost resident: map<TensorName, A>, ghost n: nat)
      returns (result: Result<T, RunError>, ghost freed: seq<Handle>)
      requires registry.Valid() && Roomy(registry.Model(), n)
      requires LayersFit(image.manifest, image.manifest.executionPlan.layers, n)
      requires !released ==> Resident(Bindings(registry.Model()), persistentHandles, resident)
      modifies this, registry
      ensures old(released) ==>
        && result == Err(AlreadyReleased) && released && persistentHandles == old(persistentHandles)
        && registry.Model() == old(registry.Model()) && registry.log == old(registry.log)
      ensures !old(released) ==>
        && result == EvalModel(image, exec, resident) && released == result.Ok?
        && Did(
             registry, old(registry.Model()), old(registry.log),
             ModelOps(old(registry.Model()), image, exec, resident, freed))
        && (if result.Ok? then Elements(freed) == old(persistentHandles).Values && persistentHandles == map[]
            else freed == [] && persistentHandles == old(persistentHandles))
    {
      freed := [];
      if released {
        return Err(AlreadyReleased), freed;
      }
      ghost var r, log, forward := registry.Model(), registry.log, ForwardOps(registry.Model(), image, exec, resident);
      result := Forward(exec, resident, n);
      if result.Ok? {
        freed := Release();
        RunSplit(r, forward, FreeOps(freed));
        AppendAssoc(log, forward, FreeOps(freed));
      }
    }

    /** Embedding lookup, layers, final projection. */
    method Forward<H, T>(exec: Executor<A, H, T>, ghost resident: map<TensorName, A>, ghost n: nat)
      returns (result: Result<T, RunError>)
      requires registry.Valid() && Roomy(registry.Model(), n)
      requires LayersFit(image.manifest, image.manifest.executionPlan.layers, n)
      requires Resident(Bindings(registry.Model()), persistentHandles, resident)
      modifies registry
      ensures result == EvalModel(image, exec, resident)
      ensures Did(
                registry, old(registry.Model()), old(registry.log),
                ForwardOps(old(registry.Model()), image, exec, resident))
    {
      var plan := image.manifest.executionPlan;
      assert registry.log + [] == registry.log;
      var valid := Validate(plan);
      if valid.Err? {
        return Err(InvalidPlan);
      }
      ghost var r, log := registry.Model(), registry.log;
      LookupResident(r, persistentHandles, resident);
      var start := exec.prologue(
        LookupAll(State(registry.slots, registry.freelist, registry.totalAllocated), persistentHandles));
      if start.None? {
        return Err(PrologueFailed);
      }
      var hidden := RunLayers(exec, start.value, plan.layers, resident, n);
      if hidden.Err? {
        return Err(hidden.error);
      }
      assert plan.layers[..|plan.layers|] == plan.layers;
      BetweenLayers(r, image, exec, resident, start.value, plan.layers, |plan.layers|, n);
      LookupResident(registry.Model(), persistentHandles, resident);
      var token := exec.epilogue(
        hidden.value, LookupAll(State(registry.slots, registry.freelist, registry.totalAllocated), persistentHandles));
      result := if token.None? then Err(EpilogueFailed) else Ok(token.value);
    }

    /** Free every persistent handle, once. */
    method Release() returns (ghost freed: seq<Handle>)
      requires registry.Valid()
      modifies this, registry
      ensures released
      ensures Did(registry, old(registry.Model()), old(registry.log), FreeOps(freed))
      ensures if old(released) then freed == [] && persistentHandles == old(persistentHandles)
              else Elements(freed) == old(persistentHandles).Values && persistentHandles == map[]
    {
      freed := [];
      if released {
        return;
      }
      var handles := CollectValues(persistentHandles);
      assert [] + FreeOps<A>(handles) == FreeOps<A>(handles);
      FreeAll(registry, handles, registry.Model(), registry.log, []);
      freed := handles;
      persistentHandles := map[];
      released := true;
    }
  }

  /** Open a runtime on an image and run the model. */
  method OpenAndRun<A, H, T>(image: Image<A>, registry: ArrayRegistry<A>, exec: Executor<A, H, T>, ghost n: nat)
    returns (result: Result<T, RunError>, ghost ops: seq<Op<A>>)
    requires registry.Valid()
    requires SessionFits(registry.Model(), image, PersistentTensors(image).tensors, n)
    modifies registry
    ensures result == SessionResult(image, exec)
    ensures Did(registry, old(registry.Model()), old(registry.log), ops)
    ensures StaysWithin(
              old(registry.Model()), ops, old(Bindings(registry.Model())), |PersistentTensors(image).tensors| + n)
    ensures result.Ok? ==>
      (Bindings(registry.Model()) == old(Bindings(registry.Model())) <==>
       DistinctTensors(PersistentTensors(image).tensors))
  {
    ghost var r, log, ts := registry.Model(), registry.log, PersistentTensors(image).tensors;
    var runtime := new Runtime(image, registry);
    var ready := runtime.ActivatePersistent();
    if !ready {
      ops := InsertOps(Items(ts));
      InsertsStayWithin(r, Items(ts));
      StaysWithinBelow(r, ops, Bindings(r), |ts|, Bindings(r), |ts| + n);
      return Err(OpenFailed), ops;
    }
    OpenIsResident(r, ts, n);
    ghost var freed;
    result, freed := runtime.RunFullModel(exec, ArraysOf(ts), n);
    ops := SessionOps(r, image, exec, ts, freed);
    RunSplit(r, InsertOps(Items(ts)), ModelOps(RunFrom(r, InsertOps(Items(ts))), image, exec, ArraysOf(ts), freed));
    AppendAssoc(
      log, InsertOps(Items(ts)), ModelOps(RunFrom(r, InsertOps(Items(ts))), image, exec, ArraysOf(ts), freed));
    FreedAreOurs(r, ts, freed, n);
    SessionStaysWithin(r, image, exec, ts, freed, n);
    if result.Ok? {
      SessionRestoresIff(r, image, exec, ts, freed, n);
    }
  }

  function PersistentTensors<A>(image: Image<A>): (read: SegmentRead<A>) {
    ReadPersistent(image, image.manifest.residencyPlan.persistentSegments)
  }

  /** The persistent segments can be read and hold what the quantized bindings need. */
  ghost predicate Opens<A>(image: Image<A>) {
    var read := PersistentTensors(image);
    read.complete && BindingsResolve(image.manifest, set n | n in Names(read.tensors))
  }

  /** What opening an image and running the model returns. */
  ghost function SessionResult<A, H, T>(image: Image<A>, exec: Executor<A, H, T>): (r: Result<T, RunError>) {
    if Opens(image) then EvalModel(image, exec, ArraysOf(PersistentTensors(image).tensors)) else Err(OpenFailed)
  }

  /** The values of a handle table, in some order. */
  method CollectValues(m: map<TensorName, Handle>) returns (hs: seq<Handle>)
    ensures Elements(hs) == m.Values
  {
    hs := [];
    var names := m.Keys;
    while names != {}
      invariant names <= m.Keys && Elements(hs) == ValuesOf(m, m.Keys - names)
    {
      var name :| name in names;
      CollectMore(m, m.Keys - names, name, hs);
      assert m.Keys - (names - {name}) == m.Keys - names + {name};
      hs := hs + [m[name]];
      names := names - {name};
    }
    AllValues(m);
  }

  ghost function ValuesOf(m: map<TensorName, Handle>, names: set<TensorName>): (hs: set<Handle>)
    requires names <= m.Keys
  {
    set n | n in names :: m[n]
  }

  lemma AllValues(m: map<TensorName, Handle>)
    ensures ValuesOf(m, m.Keys) == m.Values
  {
  }

  lemma CollectMore(m: map<TensorName, Handle>, done: set<TensorName>, name: TensorName, hs: seq<Handle>)
    requires done <= m.Keys && name in m && Elements(hs) == ValuesOf(m, done)
    ensures Elements(hs + [m[name]]) == ValuesOf(m, done + {name})
  {
    assert Elements(hs + [m[name]]) == Elements(hs) + {m[name]};
  }

  /** After any number of layers that ran well, the registry is as it was before the first. */
  lemma {:induction false} BetweenLayers<A, H, T>(
    r: State<A>, image: Image<A>, exec: Executor<A, H, T>, resident: map<TensorName, A>, h: H, layers: seq<LayerPlan>,
    i: nat, n: nat)
    requires Roomy(r, n) && LayersFit(image.manifest, layers, n) && i <= |layers|
    requires EvalLayers(image, exec, resident, h, layers[..i]).Ok?
    ensures
      var r' := RunFrom(r, LayersOps(r, image, exec, resident, h, layers[..i]));
      && Bindings(r') == Bindings(r)
      && (i < |layers| ==> Roomy(r', TensorCount(image.manifest, LayerSegment(layers[i].layerIndex))))
  {
    LayersRestore(r, image, exec, resident, h, layers[..i], n);
    SettledContents(r, LayersOps(r, image, exec, resident, h, layers[..i]), n, 0);
  }

  lemma FreedAreOurs<A>(r: State<A>, ts: seq<Tensor<A>>, freed: seq<Handle>, n: nat)
    requires Roomy(r, |ts| + n)
    requires freed == [] || Elements(freed) == HandleMap(Names(ts), NewHandles(r, Items(ts))).Values
    ensures Elements(freed) <= Elements(NewHandles(r, Items(ts)))
  {
    OpenKeepsRoom(r, ts, n);
    ValuesCoverIff(ts, NewHandles(r, Items(ts)));
  }

  lemma OpenIsResident<A>(r: State<A>, ts: seq<Tensor<A>>, n: nat)
    requires Roomy(r, |ts| + n)
    ensures
      var r' := RunFrom(r, InsertOps(Items(ts)));
      && Roomy(r', n)
      && Resident(Bindings(r'), HandleMap(Names(ts), NewHandles(r, Items(ts))), ArraysOf(ts))
  {
    OpenKeepsRoom(r, ts, n);
    InsertsBorrow(r, Items(ts));
    StoredIsResident(ts, NewHandles(r, Items(ts)), Bindings(RunFrom(r, InsertOps(Items(ts)))));
  }

  lemma {:induction false} NextLayer<A, H, T>(
    r: State<A>, image: Image<A>, exec: Executor<A, H, T>, resident: map<TensorName, A>, h: H, layers: seq<LayerPlan>,
    i: nat)
    requires Wf(r) && i < |layers| && EvalLayers(image, exec, resident, h, layers[..i]).Ok?
    ensures
      var soFar := EvalLayers(image, exec, resident, h, layers[..i]);
      var ops := LayersOps(r, image, exec, resident, h, layers[..i]);
      var more := LayerOps(RunFrom(r, ops), ReadSegment(image, LayerSegment(layers[i].layerIndex)));
      && EvalLayers(image, exec, resident, h, layers[..i + 1]) ==
        EvalLayer(image, exec, resident, soFar.value, layers[i])
      && LayersOps(r, image, exec, resident, h, layers[..i + 1]) == ops + more
      && RunFrom(r, ops + more) == RunFrom(RunFrom(r, ops), more)
  {
    assert layers[..i + 1][..i] == layers[..i];
    LayersUnfold(r, image, exec, resident, h, layers[..i + 1]);
    var ops := LayersOps(r, image, exec, resident, h, layers[..i]);
    RunSplit(r, ops, LayerOps(RunFrom(r, ops), ReadSegment(image, LayerSegment(layers[i].layerIndex))));
  }

  lemma LeaseHolds<A>(r: State<A>, ts: seq<Tensor<A>>, handles: map<TensorName, Handle>, resident: map<TensorName, A>)
    requires Roomy(r, |ts|) && Resident(Bindings(r), handles, resident)
    ensures
      var m := Bindings(RunFrom(r, InsertOps(Items(ts))));
      Resident(m, handles, resident) && Stored(Items(ts), NewHandles(r, Items(ts)), m)
  {
    InsertsBorrow(r, Items(ts));
  }
}

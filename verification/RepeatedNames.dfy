/** An image on which a session that succeeds keeps a handle: two persistent tensors of one name. */
module RepeatedNames {
  import opened Common
  import opened Config
  import opened Registry
  import opened Leases
  import opened ImageManifest
  import opened ImageBuilder
  import opened ImageVerifier
  import opened ImageRuntime

  const NORM := GlobalTensor("model", FinalNorm, Weight)

  function NormEntry(id: nat): (t: TensorEntry) {
    TensorEntry(id, NORM, WeightRole(FinalNormRole), None, Persistent, 0, 0, "F32", [0], [0], None, 16)
  }

  /** One layer without tensors of its own. */
  function PlainLayer(rope: RopeSpec): (l: LayerPlan) {
    LayerPlan(0, SlidingPlan, LayerSegment(0), 1, 1, 1, 1, None, None, 1, rope, false,
              1, 1, 1, 1, None, None, 1, 1, 1, 1, 1)
  }

  /** An image with the norm twice in the persistent segment. */
  function TwiceNamed(arch: TextArchitecture): (m: Manifest)
    ensures m.imageHash == ComputeManifestHash(m)
  {
    var m := Manifest(
      "1", "1", "1", SourceIdentity("", [], []), arch,
      [Segment(Persistent, 0, 0, Sha256([]), [1, 2], PersistentKind, 4096),
       Segment(LayerSegment(0), 1, 0, Sha256([]), [], LayerKind(0), 4096)],
      [NormEntry(1), NormEntry(2)], [], ResidencyPlan([Persistent], [LayerSegment(0)], 1, 0),
      NoHash, COPIED_V0, [], "",
      ModelExecutionPlan(1, [PlainLayer(arch.ropeLocal)], 1, None, 1, 1, 1));
    m.(imageHash := ComputeManifestHash(m))
  }

  function TwiceImage<A>(arch: TextArchitecture, item: A): (image: Image<A>) {
    Image(TwiceNamed(arch), map[0 := [], 1 := []], (bytes, dtype, shape) => Some(item))
  }

  function Echo<A>(): (exec: Executor<A, (), ()>) {
    Executor(arrays => Some(()), (h, plan, arrays) => Some(()), (h, arrays) => Some(()))
  }

  lemma TwiceIsVerified(arch: TextArchitecture)
    ensures Accepts(TwiceNamed(arch), ReceiptFor(TwiceNamed(arch)), map[0 := [], 1 := []], false)
  {
  }

  lemma TwicePlanValid(arch: TextArchitecture)
    ensures PlanValid(TwiceNamed(arch).executionPlan)
  {
  }

  lemma TwiceTensor<A>(arch: TextArchitecture, item: A, id: nat)
    requires id == 1 || id == 2
    ensures ReadTensor(TwiceImage(arch, item), [], id) == Some(Tensor(NORM, item))
  {
    var table := TwiceNamed(arch).tensorTable;
    assert table[1..] == [NormEntry(2)];
    assert FindEntry(table, id) == Some(NormEntry(id));
  }

  lemma {:induction false} ReadTwo<A>(image: Image<A>, bytes: Bytes, t: Tensor<A>)
    requires ReadTensor(image, bytes, 1) == Some(t) && ReadTensor(image, bytes, 2) == Some(t)
    ensures ImageRuntime.Readable(image, bytes, [1, 2]) == [t, t]
  {
    assert [1, 2][..1] == [1] && [1][..0] == [];
    assert ImageRuntime.Readable(image, bytes, [1]) == [t];
  }

  lemma {:induction false} ReadOnlySegment<A>(image: Image<A>, id: SegmentId, ts: seq<Tensor<A>>)
    requires ReadSegment(image, id) == SegmentRead(ts, true)
    ensures ReadPersistent(image, [id]) == SegmentRead(ts, true)
  {
    assert [id][..0] == [] && [] + ts == ts;
  }

  /** Both are read, under the one name. */
  lemma {:induction false} TwiceReads<A>(arch: TextArchitecture, item: A)
    ensures PersistentTensors(TwiceImage(arch, item)) == SegmentRead([Tensor(NORM, item), Tensor(NORM, item)], true)
  {
    var image := TwiceImage(arch, item);
    TwiceTensor(arch, item, 1);
    TwiceTensor(arch, item, 2);
    ReadTwo(image, [], Tensor(NORM, item));
    assert FindSegment(image.manifest.segments, Persistent) == Some(image.manifest.segments[0]);
    ReadOnlySegment(image, Persistent, [Tensor(NORM, item), Tensor(NORM, item)]);
  }

  lemma TwiceRuns<A>(arch: TextArchitecture, item: A, resident: map<TensorName, A>)
    ensures EvalModel(TwiceImage(arch, item), Echo(), resident).Ok?
  {
    var image := TwiceImage(arch, item);
    TwicePlanValid(arch);
    var segments, layers := image.manifest.segments, image.manifest.executionPlan.layers;
    assert segments[1..][0] == segments[1];
    assert FindSegment(segments, LayerSegment(0)) == Some(segments[1]);
    assert ReadSegment(image, LayerSegment(0)).complete;
    assert layers[..0] == [];
    assert EvalLayers(image, Echo(), resident, (), layers) == Ok(());
  }

  lemma TwiceFits<A>(arch: TextArchitecture, item: A, r: State<A>)
    requires Roomy(r, 2)
    ensures SessionFits(r, TwiceImage(arch, item), [Tensor(NORM, item), Tensor(NORM, item)], 0)
  {
    var segments := TwiceNamed(arch).segments;
    assert segments[1..][0] == segments[1];
    assert FindSegment(segments, LayerSegment(0)) == Some(segments[1]);
  }

  /** The image is accepted and opens, and the session on it succeeds. */
  lemma TwiceSucceeds<A>(arch: TextArchitecture, item: A)
    ensures
      var image := TwiceImage(arch, item);
      && Accepts(image.manifest, ReceiptFor(image.manifest), image.files, false)
      && Opens(image) && SessionResult(image, Echo()).Ok?
  {
    var image := TwiceImage(arch, item);
    TwiceIsVerified(arch);
    TwiceReads(arch, item);
    assert Opens(image) by {
      forall i | 0 <= i < |image.manifest.tensorTable|
        ensures image.manifest.tensorTable[i].quantization.None?
      {
      }
    }
    TwiceRuns(arch, item, ArraysOf(PersistentTensors(image).tensors));
  }

  /** For every registry with room for two, whatever the order of the frees: the session ends with a
      handle that was not there before it. */
  lemma RepeatedNameLeaks<A>(arch: TextArchitecture, item: A, r: State<A>, freed: seq<Handle>) returns (h: Handle)
    requires Roomy(r, 2)
    requires
      var ts := PersistentTensors(TwiceImage(arch, item)).tensors;
      Elements(freed) == HandleMap(Names(ts), NewHandles(r, Items(ts))).Values
    ensures
      var image := TwiceImage(arch, item);
      && Accepts(image.manifest, ReceiptFor(image.manifest), image.files, false)
      && Opens(image) && SessionResult(image, Echo()).Ok?
    ensures
      var image := TwiceImage(arch, item);
      var ops := SessionOps(r, image, Echo(), PersistentTensors(image).tensors, freed);
      h in Bindings(RunFrom(r, ops)) && h !in Bindings(r)
  {
    TwiceSucceeds(arch, item);
    TwiceReads(arch, item);
    TwiceFits(arch, item, r);
    h := SessionLeaves(r, TwiceImage(arch, item), Echo(), [Tensor(NORM, item), Tensor(NORM, item)], freed, 0, 0, 1);
  }
}

/** The immutable compilation plan handed to the relocation pipeline. */
module PlanTables {
  import opened Common

  datatype TensorDisposition =
    | AliasOnly(canonicalTensorId: nat)
    | RelocateAndAlign
    | PreserveInPlace
    | CpuTransform(recipe: string)
    | GpuTransform(recipe: string)
    | CoreMlLoweringInput
    | DiscardWithReason(reason: string)

  datatype PlannedTensor = PlannedTensor(
    id: nat,
    name: TensorName,
    disposition: TensorDisposition,
    sourceShard: string,
    sourceOffset: nat,
    sourceLength: nat,
    segment: SegmentId,
    offset: nat,
    length: nat)

  datatype PlannedSegment = PlannedSegment(id: SegmentId, fileIndex: nat, byteSize: nat, tensorCount: nat)

  datatype CompilationPlan = CompilationPlan(
    tensors: seq<PlannedTensor>,
    segments: seq<PlannedSegment>,
    totalImageBytes: nat)

  /** Bytes that the tensors of `ts` place in segment `id`. */
  function SegmentBytes(ts: seq<PlannedTensor>, id: SegmentId): (n: nat) {
    if ts == [] then 0
    else SegmentBytes(ts[..|ts| - 1], id) + (if ts[|ts| - 1].segment == id then ts[|ts| - 1].length else 0)
  }

  /** Number of tensors of `ts` placed in segment `id`. */
  function SegmentCount(ts: seq<PlannedTensor>, id: SegmentId): (n: nat) {
    if ts == [] then 0
    else SegmentCount(ts[..|ts| - 1], id) + (if ts[|ts| - 1].segment == id then 1 else 0)
  }

  function TotalBytes(segments: seq<PlannedSegment>): (n: nat) {
    if segments == [] then 0 else TotalBytes(segments[..|segments| - 1]) + segments[|segments| - 1].byteSize
  }

  /** Each tensor starts exactly where the earlier tensors of its segment end. */
  ghost predicate Contiguous(ts: seq<PlannedTensor>) {
    forall i :: 0 <= i < |ts| ==> ts[i].offset == SegmentBytes(ts[..i], ts[i].segment)
  }

  ghost predicate NoAliases(ts: seq<PlannedTensor>) {
    forall i :: 0 <= i < |ts| ==> !ts[i].disposition.AliasOnly?
  }

  /** Every tensor's destination segment is one of the plan's segments. */
  ghost predicate SegmentsCovered(ts: seq<PlannedTensor>, ids: set<SegmentId>) {
    forall i :: 0 <= i < |ts| ==> ts[i].segment in ids
  }

  function SegmentIds(segments: seq<PlannedSegment>): (ids: set<SegmentId>) {
    set i | 0 <= i < |segments| :: segments[i].id
  }
}

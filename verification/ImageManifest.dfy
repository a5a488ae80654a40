/** The on-disk image: manifest tables, compile receipt, and hashes over them. JSON is taken as
    lossless, so a hash of serialized data is a hash of the data. */
module ImageManifest {
  import opened Common
  import opened Config

  datatype SegmentKind = PersistentKind | LayerKind(index: nat) | FinalKind

  datatype QuantizationDesc = QuantizationDesc(
    bits: nat, groupSize: nat, groups: nat, scaleTensorId: nat, biasTensorId: nat)

  /** Roles, formatted by the source as "{role}", "{role}::scales" and "{role}::biases". */
  datatype EntryRole = WeightRole(role: TensorRole) | ScalesRole(role: TensorRole) | BiasesRole(role: TensorRole)

  datatype TensorEntry = TensorEntry(
    id: nat, name: TensorName, role: EntryRole, layer: Option<nat>, segment: SegmentId, offset: nat, byteLength: nat,
    storageDtype: string, logicalShape: seq<nat>, physicalShape: seq<nat>, quantization: Option<QuantizationDesc>,
    tensorAlignmentBytes: nat)

  /** Segment files are named "segment_{n}.bin"; `file` is that number. */
  datatype Segment = Segment(
    id: SegmentId, file: nat, byteSize: nat, sha256: Digest, tensorIds: seq<nat>, kind: SegmentKind,
    alignmentBytes: nat)

  datatype AliasEntry = AliasEntry(logicalName: TensorName, physicalTensorId: nat, reason: string)

  datatype ResidencyPlan = ResidencyPlan(
    persistentSegments: seq<SegmentId>, layerSegments: seq<SegmentId>, layerWindowSize: nat, totalBytes: nat)

  /** Identity of the source checkpoint (config, shard, tokenizer and auxiliary hashes). */
  datatype SourceIdentity = SourceIdentity(configHash: string, shardHashes: seq<string>, otherHashes: seq<string>)

  /** What the manifest hash covers. */
  datatype Fingerprint = Fingerprint(
    imageVersion: string, compilerVersion: string, runtimeAbi: string, source: SourceIdentity,
    architecture: TextArchitecture, segments: seq<Segment>, tensorTable: seq<TensorEntry>,
    aliasTable: seq<AliasEntry>, residencyPlan: ResidencyPlan)

  /** SHA-256 of a serialized fingerprint; `NoHash` is the empty string of a new manifest or receipt. */
  datatype ImageHash = NoHash | FingerprintHash(of: Fingerprint)

  datatype Manifest = Manifest(
    imageVersion: string, compilerVersion: string, runtimeAbi: string, source: SourceIdentity,
    architecture: TextArchitecture, segments: seq<Segment>, tensorTable: seq<TensorEntry>,
    aliasTable: seq<AliasEntry>, residencyPlan: ResidencyPlan,
    imageHash: ImageHash,
    requiredStorageAbi: string, requiredCapabilities: seq<string>, prepackedLayout: string,
    executionPlan: ModelExecutionPlan)

  function FingerprintOf(m: Manifest): (f: Fingerprint) {
    Fingerprint(m.imageVersion, m.compilerVersion, m.runtimeAbi, m.source, m.architecture,
                m.segments, m.tensorTable, m.aliasTable, m.residencyPlan)
  }

  function ComputeManifestHash(m: Manifest): (h: ImageHash) { FingerprintHash(FingerprintOf(m)) }

  datatype SegmentReceipt = SegmentReceipt(id: SegmentId, file: nat, sha256: Digest, byteSize: nat)

  /** The part of a compile receipt that verification reads. */
  datatype CompileReceipt = CompileReceipt(completeImageHash: ImageHash, segmentHashes: seq<SegmentReceipt>)

  type Files = map<nat, Bytes>

  function SumSizes(segments: seq<Segment>): (n: nat) {
    if segments == [] then 0 else SumSizes(segments[..|segments| - 1]) + segments[|segments| - 1].byteSize
  }

  function SumLengths(blobs: seq<Bytes>): (n: nat) {
    if blobs == [] then 0 else SumLengths(blobs[..|blobs| - 1]) + |blobs[|blobs| - 1]|
  }
}

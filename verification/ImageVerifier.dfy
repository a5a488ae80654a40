/** Integrity checking of a compiled image against its receipt. */
module ImageVerifier {
  import opened Common
  import opened Config
  import opened ImageManifest
  import opened ImageBuilder

  const COPIED_V0 := "copied-v0"
  const MAPPED_NO_COPY_V1 := "mapped-no-copy-v1"

  /** The receipt compilation writes next to the manifest. */
  function ReceiptFor(m: Manifest): (r: CompileReceipt)
    ensures |r.segmentHashes| == |m.segments|
  {
    CompileReceipt(
      m.imageHash,
      seq(|m.segments|, i requires 0 <= i < |m.segments| =>
        SegmentReceipt(m.segments[i].id, m.segments[i].file, m.segments[i].sha256, m.segments[i].byteSize)))
  }

  predicate ReceiptMatches(r: CompileReceipt, m: Manifest) {
    && r.completeImageHash == m.imageHash
    && |r.segmentHashes| == |m.segments|
    && forall i :: 0 <= i < |m.segments| ==>
         var e, s := r.segmentHashes[i], m.segments[i];
         e.id == s.id && e.file == s.file && e.sha256 == s.sha256 && e.byteSize == s.byteSize
  }

  // ── Extra checks of memory-mapped images ───────────────────────────────────

  predicate PowerOfTwo(n: nat) {
    n == 1 || (n > 1 && n % 2 == 0 && PowerOfTwo(n / 2))
  }

  predicate MappedSegmentOk(s: Segment, files: Files) {
    && s.file in files
    && |files[s.file]| == s.byteSize
    && s.alignmentBytes >= 4096 && PowerOfTwo(s.alignmentBytes)
    && s.byteSize % s.alignmentBytes == 0
  }

  /** Segments by id; the last one wins when an id repeats. */
  function LastSegment(segments: seq<Segment>, id: SegmentId): (r: Option<Segment>) {
    if segments == [] then None
    else if segments[|segments| - 1].id == id then Some(segments[|segments| - 1])
    else LastSegment(segments[..|segments| - 1], id)
  }

  predicate MappedTensorOk(segments: seq<Segment>, t: TensorEntry) {
    var alignment := if t.tensorAlignmentBytes != 0 then t.tensorAlignmentBytes else 16;
    && t.offset % alignment == 0
    && match LastSegment(segments, t.segment)
       case None => true
       case Some(s) => t.offset + t.byteLength <= s.byteSize
  }

  predicate MappedOk(m: Manifest, files: Files) {
    && (forall i :: 0 <= i < |m.segments| ==> MappedSegmentOk(m.segments[i], files))
    && (forall i :: 0 <= i < |m.tensorTable| ==> MappedTensorOk(m.segments, m.tensorTable[i]))
  }

  predicate StorageAbiOk(m: Manifest, files: Files) {
    if m.requiredStorageAbi == MAPPED_NO_COPY_V1 then MappedOk(m, files) else m.requiredStorageAbi == COPIED_V0
  }

  // ── Verification ───────────────────────────────────────────────────────────

  datatype VerifyError =
    | SegmentMissing | ManifestHashMismatch | ReceiptMismatch | SegmentHashMismatch
    | MappedLayoutError | UnknownStorageAbi

  datatype ManifestVerification = ManifestVerification(verifiedSegmentCount: nat, totalBytes: nat)

  ghost predicate FilesPresent(m: Manifest, files: Files) {
    forall i :: 0 <= i < |m.segments| ==> m.segments[i].file in files
  }

  ghost predicate DigestsMatch(m: Manifest, files: Files) {
    forall i :: 0 <= i < |m.segments| ==>
      m.segments[i].file in files && m.segments[i].sha256 == Sha256(files[m.segments[i].file])
  }

  /** What an accepted image satisfies; `skip` is the environment switch that disables the
      manifest-hash check. */
  ghost predicate Accepts(m: Manifest, r: CompileReceipt, files: Files, skip: bool) {
    && DigestsMatch(m, files)
    && (skip || m.imageHash == ComputeManifestHash(m))
    && ReceiptMatches(r, m)
    && StorageAbiOk(m, files)
  }

  ghost function FileBytes(segments: seq<Segment>, files: Files): (n: nat)
    requires forall i :: 0 <= i < |segments| ==> segments[i].file in files
  {
    if segments == [] then 0
    else FileBytes(segments[..|segments| - 1], files) + |files[segments[|segments| - 1].file]|
  }

  method Verify(m: Manifest, r: CompileReceipt, files: Files, skip: bool)
    returns (result: Result<ManifestVerification, VerifyError>)
    ensures result.Ok? <==> Accepts(m, r, files, skip)
    ensures result.Ok? ==>
      && result.value.verifiedSegmentCount == |m.segments|
      && FilesPresent(m, files) && result.value.totalBytes == FileBytes(m.segments, files)
    ensures result == Err(SegmentMissing) <==> !FilesPresent(m, files)
    ensures result == Err(ManifestHashMismatch) <==>
      FilesPresent(m, files) && !skip && m.imageHash != ComputeManifestHash(m)
  {
    var manifestHashMatches := m.imageHash == ComputeManifestHash(m) || skip;
    var receiptMatchesManifest := ReceiptMatches(r, m);
    var segmentHashesMatch := true;
    var verified := 0;
    var totalBytes := 0;
    for i := 0 to |m.segments|
      invariant forall j :: 0 <= j < i ==> m.segments[j].file in files
      invariant segmentHashesMatch <==>
        forall j :: 0 <= j < i ==> m.segments[j].sha256 == Sha256(files[m.segments[j].file])
      invariant segmentHashesMatch ==> verified == i
      invariant totalBytes == FileBytes(m.segments[..i], files)
    {
      var s := m.segments[i];
      if s.file !in files {
        return Err(SegmentMissing);
      }
      assert m.segments[..i + 1][..i] == m.segments[..i];
      if Sha256(files[s.file]) != s.sha256 {
        segmentHashesMatch := false;
      } else {
        verified := verified + 1;
      }
      totalBytes := totalBytes + |files[s.file]|;
    }
    assert m.segments[..|m.segments|] == m.segments;
    if !manifestHashMatches {
      return Err(ManifestHashMismatch);
    }
    if !receiptMatchesManifest {
      return Err(ReceiptMismatch);
    }
    if !segmentHashesMatch {
      return Err(SegmentHashMismatch);
    }
    if m.requiredStorageAbi == MAPPED_NO_COPY_V1 {
      if !MappedOk(m, files) {
        return Err(MappedLayoutError);
      }
    } else if m.requiredStorageAbi != COPIED_V0 {
      return Err(UnknownStorageAbi);
    }
    result := Ok(ManifestVerification(verified, totalBytes));
  }

  // ── What verification guarantees ───────────────────────────────────────────

  /** Every image and receipt that compilation writes is accepted, with the switch on or off. */
  lemma AcceptsCompiledImages(m: Manifest, files: Files, blobs: seq<Bytes>, skip: bool)
    requires IsCompiled(m, files, blobs)
    ensures Accepts(m, ReceiptFor(m), files, skip)
  {
    var payloads :| files == FilesOf(payloads) && IsImage(m.segments, m.tensorTable, m.residencyPlan, payloads, blobs);
    forall i | 0 <= i < |m.segments|
      ensures m.segments[i].file in files && m.segments[i].sha256 == Sha256(files[m.segments[i].file])
    {
      assert ClosedSegment(i, m.segments[i], payloads[i], m.tensorTable, blobs);
    }
  }

  function Power(k: nat): (n: nat) { if k == 0 then 1 else 2 * Power(k - 1) }

  lemma {:induction false} PowerOfTwoPower(k: nat)
    ensures PowerOfTwo(Power(k))
  {
    if k > 0 {
      PowerOfTwoPower(k - 1);
      PowerPositive(k - 1);
      assert 2 * Power(k - 1) / 2 == Power(k - 1);
    }
  }

  lemma {:induction false} ExponentOf(n: nat) returns (k: nat)
    requires PowerOfTwo(n)
    ensures n == Power(k)
  {
    if n == 1 {
      k := 0;
    } else {
      var half := ExponentOf(n / 2);
      k := half + 1;
    }
  }

  lemma {:induction false} PowerPositive(k: nat)
    ensures Power(k) > 0
  {
    if k > 0 {
      PowerPositive(k - 1);
    }
  }

  /** The last segment with an id is the one that counts. */
  ghost predicate IsLastWithId(segments: seq<Segment>, k: nat, id: SegmentId) {
    && k < |segments| && segments[k].id == id
    && forall j :: k < j < |segments| ==> segments[j].id != id
  }

  lemma {:induction false} LastSegmentIs(segments: seq<Segment>, id: SegmentId)
    ensures LastSegment(segments, id).None? ==> forall k :: 0 <= k < |segments| ==> segments[k].id != id
    ensures forall k: nat :: IsLastWithId(segments, k, id) ==> LastSegment(segments, id) == Some(segments[k])
    ensures LastSegment(segments, id).Some? ==> exists k: nat :: IsLastWithId(segments, k, id)
  {
    if segments != [] {
      var last := |segments| - 1;
      if segments[last].id == id {
        assert IsLastWithId(segments, last, id);
      } else {
        var init := segments[..last];
        LastSegmentIs(init, id);
        forall k: nat | IsLastWithId(segments, k, id) ensures IsLastWithId(init, k, id) {
        }
        if LastSegment(init, id).Some? {
          var k: nat :| IsLastWithId(init, k, id);
          assert IsLastWithId(segments, k, id);
        }
      }
    }
  }

  /** What a memory-mapped segment has to be: as long as recorded, in whole pages of a power of two. */
  ghost predicate MappableSegment(s: Segment, files: Files) {
    && s.file in files && |files[s.file]| == s.byteSize
    && 4096 <= s.alignmentBytes && (exists k: nat :: s.alignmentBytes == Power(k))
    && s.byteSize % s.alignmentBytes == 0
  }

  /** What a tensor in one has to be: aligned as it asks for, or by 16, and inside its segment. */
  ghost predicate MappableTensor(segments: seq<Segment>, t: TensorEntry) {
    && t.offset % (if t.tensorAlignmentBytes == 0 then 16 else t.tensorAlignmentBytes) == 0
    && forall k: nat :: IsLastWithId(segments, k, t.segment) ==> t.offset + t.byteLength <= segments[k].byteSize
  }

  lemma MappableSegmentIff(s: Segment, files: Files)
    ensures MappableSegment(s, files) <==> MappedSegmentOk(s, files)
  {
    if k: nat :| s.alignmentBytes == Power(k) {
      PowerOfTwoPower(k);
    }
    if PowerOfTwo(s.alignmentBytes) {
      var k := ExponentOf(s.alignmentBytes);
    }
  }

  lemma MappableTensorIff(segments: seq<Segment>, t: TensorEntry)
    ensures MappableTensor(segments, t) <==> MappedTensorOk(segments, t)
  {
    LastSegmentIs(segments, t.segment);
    if LastSegment(segments, t.segment).Some? {
      var k: nat :| IsLastWithId(segments, k, t.segment);
      assert forall j: nat :: IsLastWithId(segments, j, t.segment) ==> j == k;
    }
  }

  /** An image needs no more than its digests if it is copied; if it is mapped, every segment and
      tensor has to be mappable; no other storage is accepted. */
  lemma StorageAbiOkIff(m: Manifest, files: Files)
    ensures StorageAbiOk(m, files) <==>
      || m.requiredStorageAbi == "copied-v0"
      || (&& m.requiredStorageAbi == "mapped-no-copy-v1"
          && (forall i :: 0 <= i < |m.segments| ==> MappableSegment(m.segments[i], files))
          && (forall i :: 0 <= i < |m.tensorTable| ==> MappableTensor(m.segments, m.tensorTable[i])))
  {
    forall i | 0 <= i < |m.segments|
      ensures MappableSegment(m.segments[i], files) <==> MappedSegmentOk(m.segments[i], files)
    {
      MappableSegmentIff(m.segments[i], files);
    }
    forall i | 0 <= i < |m.tensorTable|
      ensures MappableTensor(m.segments, m.tensorTable[i]) <==> MappedTensorOk(m.segments, m.tensorTable[i])
    {
      MappableTensorIff(m.segments, m.tensorTable[i]);
    }
  }

  /** A receipt pins the image: two accepted images with the same receipt have the same
      fingerprinted fields and the same bytes in every segment. So no change to segment bytes
      or to a fingerprinted field of an accepted image goes unnoticed. */
  lemma ReceiptPinsImage(m: Manifest, m': Manifest, r: CompileReceipt, files: Files, files': Files)
    requires Accepts(m, r, files, false) && Accepts(m', r, files', false)
    ensures
      && m.imageVersion == m'.imageVersion && m.compilerVersion == m'.compilerVersion && m.runtimeAbi == m'.runtimeAbi
      && m.source == m'.source && m.architecture == m'.architecture && m.segments == m'.segments
      && m.tensorTable == m'.tensorTable && m.aliasTable == m'.aliasTable && m.residencyPlan == m'.residencyPlan
    ensures forall i :: 0 <= i < |m.segments| ==>
      && m.segments[i].file in files && m.segments[i].file in files'
      && files[m.segments[i].file] == files'[m.segments[i].file]
  {
    assert m.segments == FingerprintOf(m').segments == m'.segments;
  }

  /** Changing segment bytes alone is rejected even with the manifest-hash switch on. */
  lemma TamperedBytesRejected(
    m: Manifest, r: CompileReceipt, files: Files, files': Files, skip: bool, skip': bool, i: nat)
    requires Accepts(m, r, files, skip) && i < |m.segments|
    requires m.segments[i].file in files' && files'[m.segments[i].file] != files[m.segments[i].file]
    ensures !Accepts(m, r, files', skip')
  {
    assert m.segments[i].sha256 == Sha256(files[m.segments[i].file]);
  }

  /** Fields outside the fingerprint are not protected: manifests that differ only in the
      execution plan, required capabilities or prepacked layout hash alike and are accepted alike. */
  lemma UnfingerprintedFieldsAreFree(
    m: Manifest, r: CompileReceipt, files: Files, skip: bool,
    plan: ModelExecutionPlan, capabilities: seq<string>, layout: string)
    ensures
      var m' := m.(executionPlan := plan, requiredCapabilities := capabilities, prepackedLayout := layout);
      && ComputeManifestHash(m') == ComputeManifestHash(m)
      && (Accepts(m', r, files, skip) <==> Accepts(m, r, files, skip))
  {
    var m' := m.(executionPlan := plan, requiredCapabilities := capabilities, prepackedLayout := layout);
    assert FingerprintOf(m') == FingerprintOf(m);
    assert DigestsMatch(m', files) <==> DigestsMatch(m, files);
    assert MappedOk(m', files) <==> MappedOk(m, files);
  }

  /** The same segment files: ids, file names, digests and sizes. */
  predicate SameFiles(m: Manifest, m': Manifest) {
    && |m'.segments| == |m.segments|
    && forall i :: 0 <= i < |m.segments| ==>
         var s, s' := m.segments[i], m'.segments[i];
         s'.id == s.id && s'.file == s.file && s'.sha256 == s.sha256 && s'.byteSize == s.byteSize
  }

  ghost predicate SameBytes(m: Manifest, files: Files, files': Files) {
    forall i :: 0 <= i < |m.segments| ==>
      && m.segments[i].file in files && m.segments[i].file in files'
      && files'[m.segments[i].file] == files[m.segments[i].file]
  }

  /** What is protected with the switch on, beside an accepted image: the recorded hash, the segment
      files, and what the storage kind asks for. Anything else may change unnoticed: every table, and
      also a segment's kind and tensor ids. */
  lemma SkippingProtectsIff(m: Manifest, m': Manifest, r: CompileReceipt, files: Files, files': Files)
    requires Accepts(m, r, files, true)
    ensures Accepts(m', r, files', true) <==>
      m'.imageHash == m.imageHash && SameFiles(m, m') && SameBytes(m, files, files') && StorageAbiOk(m', files')
  {
    if Accepts(m', r, files', true) {
      forall i | 0 <= i < |m.segments|
        ensures
          && m.segments[i].file in files && m.segments[i].file in files'
          && files'[m.segments[i].file] == files[m.segments[i].file]
      {
        assert m.segments[i].file == r.segmentHashes[i].file == m'.segments[i].file;
      }
    } else if m'.imageHash == m.imageHash && SameFiles(m, m') && SameBytes(m, files, files') {
      assert ReceiptMatches(r, m');
      assert forall i :: 0 <= i < |m'.segments| ==>
        m'.segments[i].file == m.segments[i].file && m'.segments[i].file in files';
      assert DigestsMatch(m', files');
    }
  }
}

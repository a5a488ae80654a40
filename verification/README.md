# Native compute kernel: verified model

A Dafny model of the hard parts of the native compute kernel (`packages/compute-native`) and of two
identity-cutover scripts (`scripts/identity`), with machine-checked properties of that model. Check everything with
`dafny verify dfyconfig.toml`.

| module | what it models |
|---|---|
| `Common`, `PlanTables`, `ImageManifest` | shared vocabulary: bytes, digests, structured names, planned tables, manifests |
| `Pipeline` | the relocation pipeline: an orchestrator and three lanes over two 64-slot channels, as a step system over all interleavings |
| `ErrorReporting` | which error a failing pipeline returns |
| `Planner` | the compilation planner, and what its tables mean for the pipeline's files and hashes |
| `Registry`, `GenerationalRegistry` | the array handle registry as coded, and a variant that keeps generations |
| `SpecMeaning`, `CompiledEntries` | specs, plans and tensor tables in terms of the architecture alone |
| `Config` | spec compiler, execution-plan builder and plan validator |
| `ImageBuilder`, `ImageCompiler`, `ImageVerifier` | writing an image, compiling a checkpoint into one, verifying and reading it |
| `Leases`, `ImageRuntime`, `CompiledRuntime` | persistent handles, layer leases and whole sessions on the registry |
| `CheckpointRun` | compiler and runtime end to end, against the model evaluated directly on the checkpoint |
| `SharedRegistry`, `SharedSession` | a session interleaved with other clients of the registry |
| `RepeatedNames` | an image whose session keeps a handle |
| `Residency` | the layer-window part of the admission estimate |
| `ArenaPool`, `ArenaLifecycle` | the arena pool under interleaved threads, and the lease state machine |
| `Workspace`, `TopologicalSort`, `WorkspaceGraph` | workspace packages, their dependency order, leaves and reverse graph |
| `PackageRename`, `RenameOverlap` | the replace-all loop of the package rename, and how its passes interact |

## How the model is made

- Names that the source formats into strings (`layer_{i}`, `{root}.layers.{i}.{item}.{part}`) are datatypes, so
  distinct names are distinct by construction.
- SHA-256 is symbolic: a digest remembers its input, which is collision freedom and nothing more. JSON is lossless, so
  a hash of serialized data is a hash of the data.
- Arrays are opaque values. Decoding, embedding lookup, layer execution and the final projection are arbitrary partial
  functions, passed in as parameters; so are the allocator's answers and the I/O faults of the write lane.
- Concurrency is a step system: a run is any sequence of enabled steps, and theorems quantify over all runs. In the
  pool, one mutex-guarded section is one step; in a session on a shared registry, one insertion or removal is. The
  lookups before a layer are one step together, which loses nothing: what a session holds resolves to the same arrays at
  every moment (`HandlesStaySafe`).
- The registry object carries a ghost log of its operations. Runtime methods state which operations they performed, and
  the lemmas in `Leases` say what any such sequence does to the registry, at its end and at every point in between.
- Integers are unbounded except where the source's width matters: handles are pairs of 32-bit words, a pushed slot
  index is truncated, and the properties that need an addressable slot say so (`HasRoom`, `Roomy`).
- A source panic is an error result (`Compile`) or a precondition the callers establish (`AddTensor` needs an open
  segment).
- `compile_unchecked` reads a validation switch it does not define; loading and validating a checkpoint are outside the
  model, so the switch does not appear. The switch that disables the manifest hash check is the parameter `skip`.

## Where the code and its comments disagree

The model follows the code.

- `bridge.rs` promises that a stale handle fails once its slot is reused. Removal leaves the slot empty, so reuse
  restarts the generation at 1 and returns the freed handle: `ReuseReturnsTheFreedHandle`, `StaleHandleResolves`, and
  the exact condition in `InsertIsFreshIff`. `GenerationalRegistry` proves the promise for a registry that keeps
  generations.
- `quantized_linear` notes "4-bit→8" values per word, but 4 / (bits / 8) divides by zero below 8 bits, and above 39
  bits the packing divides by zero later on: `Compile` succeeds exactly if bits / 8 is between 1 and 4 and the group
  size is nonzero.
- The pipeline's heading speaks of four lanes; there are three, and hashing happens in the write lane.
- A failed pipeline often hides its cause: the orchestrator awaits the source lane first, so a bad segment or an I/O
  error can surface as a closed channel. `WhichErrorsSurface` says exactly which errors are possible, by the number of
  units behind the last one the writer took; `AlwaysReportedIff` and `AlwaysMaskedIff` say when one is certain.
- `applyAllReplacements` is headed "single pass", but there is one pass per pattern and each sees the output of the
  ones before it: `PassesChain`, `RenamedAgain`. For two passes, `LeftAloneIff` gives the exact condition on the two
  replacements under which, on every text, the second leaves alone what the first inserted. For longer lists
  `InsertionsSurvive` gives a sufficient one. When a pass leaves no old name behind is exact too
  (`RenameIsCompleteIff`).
- The pool's documentation does not ask callers to release under the key they acquired with; the shape of pooled arenas
  depends on it: `PooledArenaFits`, `WrongKeyWrongShape`, and the exact condition in `StoreKeepsShapesIff`.
- A session restores the registry only if persistent tensor names are distinct, because a repeated name overwrites the
  earlier handle: `SessionRestoresIff`, with an image that passes verification and fails it in `RepeatedNameLeaks`.
  Images compiled from a checkpoint always have distinct names: `CompiledSessionRestores`.
- The write lane opens one file per planned segment but keeps the handles by segment id. If a spec repeats a layer
  index, the earlier segment's file stays empty while its planned size is that of both: `PlannedRunHashesItsFiles` says
  for which segments the recorded digest is that of the file.

## Model

| member | source | states |
|---|---|---|
| `Pipeline.StepKeepsInv` | packages/compute-native/src/compile_pipeline.rs:45-208 | every step of the orchestrator and of the three lanes keeps the invariant: what is written, held and queued is, in order, a prefix of the tensor table's physical units |
| `Pipeline.ReachableInv` | packages/compute-native/src/compile_pipeline.rs:45-208 | the invariant holds in every state of every interleaving |
| `Pipeline.SuccessRefinesSequential` | packages/compute-native/src/compile_pipeline.rs:45-208 | whatever the interleaving and the I/O faults, a run that returns Ok has written every physical tensor once, in table order, and its files and hasher inputs are those of the sequential loop |
| `Pipeline.EveryPrefixIsSequential` | packages/compute-native/src/compile_pipeline.rs:183-201 | at every moment the disk is what the sequential loop produces on a prefix of the workload, unless an I/O error was reported |
| `Pipeline.Backpressure` | packages/compute-native/src/compile_pipeline.rs:49-54 | each channel holds at most 64 items, and the source lane is at most 130 units ahead of what is written |
| `Pipeline.Progress` | packages/compute-native/src/compile_pipeline.rs:82-100 | no deadlock: in every reachable state that is not final some lane or the orchestrator can move, without relying on an I/O error |
| `Pipeline.StepDecreasesMeasure` | packages/compute-native/src/compile_pipeline.rs:45-208 | every step decreases a measure over unsent, queued and unwritten units and open lanes |
| `Pipeline.RunsAreShort` | packages/compute-native/src/compile_pipeline.rs:45-208 | no run takes more than five steps per tensor plus nine |
| `Pipeline.CompleteRunOutcome` | packages/compute-native/src/compile_pipeline.rs:86-100 | a run that cannot continue has stopped all lanes and returned; without I/O errors it returned Ok if and only if every destination segment is known |
| `Pipeline.RunsComplete` | packages/compute-native/src/compile_pipeline.rs:45-100 | every run extends to a complete one |
| `ErrorReporting.FailuresAreThese` | packages/compute-native/src/compile_pipeline.rs:156-208 | in every run the writer fails only by not creating its files, by not writing a unit after writing all before it, or over the first unit with an unknown segment |
| `ErrorReporting.WhichErrorsSurface` | packages/compute-native/src/compile_pipeline.rs:86-100 | for every job of n units and every such failure, I/O errors included, with c units taken by the writer: a complete run can return the failure itself if and only if n <= c + 64, a closed relocate channel if and only if c + 1 <= n <= c + 129, a closed source channel if and only if n >= c + 2, and nothing else |
| `ErrorReporting.UnknownSegmentFails` | packages/compute-native/src/compile_pipeline.rs:183-191 | in a job whose unit k is the first with an unknown segment, the complete runs without I/O errors are exactly those in which the writer fails over that unit, with k + 1 units taken |
| `ErrorReporting.AlwaysMaskedIff` | packages/compute-native/src/compile_pipeline.rs:87-90 | for every such failure, the cause is certain to be hidden behind a closed source channel if and only if more than 129 units follow the last one taken |
| `ErrorReporting.AlwaysReportedIff` | packages/compute-native/src/compile_pipeline.rs:97-99 | for every such failure, the cause is certain to be reported if and only if no unit follows the last one taken |
| `Pipeline.SourceReadLane` | packages/compute-native/src/compile_pipeline.rs:106-134 | the loop forwards exactly the non-alias tensors, in table order |
| `Pipeline.RelocateLane` | packages/compute-native/src/compile_pipeline.rs:141-152 | the loop forwards every unit once, in order, with as many payload bytes as it has source bytes, all zero |
| `Pipeline.WriteLane` | packages/compute-native/src/compile_pipeline.rs:156-208 | the loop leaves the disk of the sequential replay and returns its digests, or stops at the first unknown segment |
| `Pipeline.RelocateSequentially` | packages/compute-native/src/compile_pipeline.rs:104-208 | the three loops one after another: Ok exactly if all destination segments are known, and then the replayed disk; every byte of every file is zero |
| `Pipeline.PlaceholderRunsWriteZeros` | packages/compute-native/src/compile_pipeline.rs:146-147 | with the placeholder payload every run of the pipeline writes and hashes zeros only |
| `Pipeline.UnitOfEach` | packages/compute-native/src/compile_pipeline.rs:106-134 | each tensor that is no alias has one unit, in table order, which carries its id, name, source and destination |
| `Planner.Plan` | packages/compute-native/src/compute_image.rs:3121-3229 | the table lists every placed tensor with dense ids and per-segment offsets that start at 0 and are contiguous in table order; segment sizes, counts and the total agree with it |
| `Planner.PlansEachTensor` | packages/compute-native/src/compute_image.rs:3145-3200 | every plan lists the globals first, in the persistent segment, then layer by layer each bound tensor in its layer's segment, with the shard, offset and length the checkpoint has for it, or empty if it has none; nothing else |
| `Planner.PlaceTensors` | packages/compute-native/src/compute_image.rs:3146-3200 | placing one segment's tensors extends the layout and keeps each segment's running offset equal to the bytes placed in it |
| `Planner.SizeSegments` | packages/compute-native/src/compute_image.rs:3202-3216 | segment sizes and tensor counts are those of the table |
| `Planner.SeekingIsAppending` | packages/compute-native/src/compile_pipeline.rs:193-200 | writing a contiguous table by seeking to its offsets appends: each file equals its hasher input and has the planned length |
| `Planner.PlannedTensorsInPlace` | packages/compute-native/src/compile_pipeline.rs:193-196 | for every plan and every complete interleaving without I/O errors, each tensor's payload lies at its planned offset in its segment's file |
| `Planner.ContiguousRunHashesItsFiles` | packages/compute-native/src/compile_pipeline.rs:183-207 | for a contiguous table, every complete interleaving without I/O errors returns the digests of the finished files |
| `Planner.OpenFiles` | packages/compute-native/src/compile_pipeline.rs:165-176 | the loop that opens the files leaves each segment id with the file of the last segment that has it |
| `Planner.PlannedRunHashesItsFiles` | packages/compute-native/src/compute_image.rs:3131-3209 | for every plan, every interleaving without I/O errors and every planned segment: its streaming hash is that of its own file and the file has its planned size, if and only if no later segment has the same id or the segment is empty |
| `Planner.DistinctLayersAllHashed` | packages/compute-native/src/compute_image.rs:3168-3179 | with distinct layer indices that is so for every segment |
| `Planner.ZeroPayloadIsSized` | packages/compute-native/src/compile_pipeline.rs:146-147 | the placeholder payload has the size the plan reserves |
| `Planner.PlanCoversItsTable` | packages/compute-native/src/compute_image.rs:3131-3209 | every planned tensor goes to one of the plan's segments |
| `Planner.ImageBytesAreTensorBytes` | packages/compute-native/src/compute_image.rs:3202-3216 | with distinct layer indices the planned total is the sum of the planned tensors' lengths |
| `Registry.UnpackThenPack` | packages/compute-native/src/bridge.rs:31-38 | unpacking and packing are inverse on every u64 |
| `Registry.ReuseBumps` | packages/compute-native/src/bridge.rs:79-88 | the generation of a reused slot: the next after the entry it still holds, wrapping at 32 bits, or 1 if it is empty |
| `Registry.GetIsLookup` | packages/compute-native/src/bridge.rs:104-118 | get agrees with the abstract map on every handle |
| `Registry.InsertRefinesMap` | packages/compute-native/src/bridge.rs:74-102 | with room, insert binds one new nonzero handle outside the domain and changes nothing else |
| `Registry.RemoveRefinesMap` | packages/compute-native/src/bridge.rs:120-137 | remove deletes exactly the named binding, or changes nothing at all |
| `Registry.DrainRefinesMap` | packages/compute-native/src/bridge.rs:139-143 | drain leaves the empty map |
| `Registry.InsertWithoutRoom` | packages/compute-native/src/bridge.rs:90-98 | without an addressable slot left, insertion changes no binding |
| `Registry.InsertBindsIffRoom` | packages/compute-native/src/bridge.rs:74-102 | insertion binds a new handle if and only if an addressable slot is left; it returns a handle that is already bound, and resolves to the array it was bound to, if and only if none is left and the truncated slot index is not 0 |
| `Registry.HandleCountIsMapSize` | packages/compute-native/src/bridge.rs:274-281 | the number of occupied slots is the size of the map |
| `Registry.SlotsAccountedFor` | packages/compute-native/src/bridge.rs:64-137 | the freelist is exactly the empty slots other than 0: guard, occupied and free slots add up to all slots |
| `Registry.StepRefinesMap` | packages/compute-native/src/bridge.rs:64-144 | each operation acts on the abstract map as the plain map operation, and on the count likewise |
| `Registry.RunRefinesMap` | packages/compute-native/src/bridge.rs:64-144 | in every run of any length that never uses more than 2^32 slots the registry is the map of that run, and the handle count is insertions minus successful removals since the last drain |
| `Registry.RunIssuesUnboundHandles` | packages/compute-native/src/bridge.rs:74-102 | in every such run an insert with room gets a nonzero handle that is not bound, and there is room exactly while fewer than 2^32 - 1 handles are bound |
| `Registry.ReuseReturnsTheFreedHandle` | packages/compute-native/src/bridge.rs:79-88 | an insert that reuses the slot just freed returns exactly the freed handle, and an old copy of it resolves to the new array |
| `Registry.StaleHandleResolves` | packages/compute-native/src/bridge.rs:17-24 | a concrete run in which a freed handle resolves again, against the comment that promises it fails |
| `Registry.InsertIsFreshIff` | packages/compute-native/src/bridge.rs:74-102 | in every such run an insert with room returns a handle never issued before if and only if nothing is on the freelist and no drain has shortened the slot vector |
| `Registry.ArrayRegistry.InsertArray` | packages/compute-native/src/bridge.rs:74-102 | the object's insert is the specified one, and with room adds exactly one binding |
| `Registry.ArrayRegistry.GetArray` | packages/compute-native/src/bridge.rs:104-118 | returns the bound array, and nothing exactly if the handle is unbound |
| `Registry.ArrayRegistry.RemoveArray` | packages/compute-native/src/bridge.rs:120-137 | returns and deletes the bound array, or changes nothing |
| `Registry.ArrayRegistry.DrainAll` | packages/compute-native/src/bridge.rs:139-143 | empties the registry |
| `Registry.ArrayRegistry.HandleCount` | packages/compute-native/src/bridge.rs:274-281 | the count is the size of the abstract map |
| `GenerationalRegistry.CommandsAct` | packages/compute-native/src/bridge.rs:74-143 | the variant is a registry: a new handle resolves to its item, a freed one to nothing, a drain leaves none, and every other handle is as before |
| `GenerationalRegistry.SpentStaysSpent` | packages/compute-native/src/bridge.rs:22-24 | in a variant that keeps generations across release, no operation makes a released handle valid again |
| `GenerationalRegistry.RevokedAreSpent` | packages/compute-native/src/bridge.rs:22-24 | in every run of the variant all freed or drained handles are spent |
| `GenerationalRegistry.StaleHandlesFail` | packages/compute-native/src/bridge.rs:22-24 | in every run of the variant, of any length and with drains, a revoked handle resolves to nothing, and it is not issued again as long as slots and generations fit 32 bits |
| `Config.GroupSizeRecoveredIff` | packages/compute-native/src/config.rs:705-707 | for 8-bit packing the group size computed from packed shapes at runtime is the compile-time one if and only if what rounding to whole groups loses, less what rounding to whole words loses, is between zero and the number of groups |
| `Config.GroupSizeRecovered` | packages/compute-native/src/attention.rs:7-10 | it is recovered whenever 4 and the group size divide a positive input dimension |
| `Config.PackedBitsExactIff` | packages/compute-native/src/config.rs:695-728 | packed words hold exactly the bits of the inputs if and only if the width is 8, 16 or 32 and the input dimension is a whole number of words |
| `Config.Compile` | packages/compute-native/src/config.rs:435-684 | the spec lists the globals and, layer by layer, the tensors of the architecture; the only failure is the packing arithmetic's panic |
| `SpecMeaning.PackingPossibleIff` | packages/compute-native/src/config.rs:712-713 | the packing arithmetic is defined exactly for 8 to 39 bits and a nonzero group size |
| `SpecMeaning.GlobalsBound` | packages/compute-native/src/config.rs:452-497 | for every spec: the embedding, the final norm and, exactly if embeddings are not tied, the head are bound, each with its role and shape; only the embedding is packed, exactly if the checkpoint is quantized |
| `SpecMeaning.LayerItemsBound` | packages/compute-native/src/config.rs:499-640 | for every layer: every item is bound except the value projection of a full layer, and nothing else; each with its role, the shape that the head counts, head widths, hidden and intermediate size give it, and, for projections, the packed shapes, bits and group size |
| `SpecMeaning.LayerSpecSays` | packages/compute-native/src/config.rs:642-680 | widths, heads, window and rope of a layer's spec, by attention kind |
| `SpecMeaning.LayerPlanSays` | packages/compute-native/src/config.rs:335-378 | widths, heads, window, rope and key/value sharing of a layer's plan, by attention kind |
| `SpecMeaning.PlanFitsSpec` | packages/compute-native/src/config.rs:327-684 | spec and plan agree on index, rope, head width and window; heads times head width is the query width, the rows of the query projection and the columns of the output projection; value rows are key rows, up is shaped as gate, and down takes it back |
| `Config.EmittedLayerDefects` | packages/compute-native/src/config.rs:327-433 | a layer of the plan built from the emitted ids has a defect if and only if it is a full-attention layer without a global head dimension |
| `ImageCompiler.LayerPlanPoints` | packages/compute-native/src/config.rs:327-433 | a layer plan built from ids that index a table points every projection and norm at the table entry of that name; a full-attention layer reads its values through the key projection |
| `Config.Validate` | packages/compute-native/src/config.rs:256-322 | the validator accepts a plan if and only if it has no defect, and otherwise reports exactly its defects, each once and in the order of the checks |
| `Config.ValidIff` | packages/compute-native/src/config.rs:256-322 | what a plan without defects is, field by field |
| `Config.RepairRemovesOne` | packages/compute-native/src/config.rs:261-311 | each defect names what is wrong: repairing that in the layer removes this defect and no other |
| `Config.SpecNamesDistinct` | packages/compute-native/src/config.rs:480-684 | no tensor is bound twice in a spec |
| `Config.EmittedIdAt` | packages/compute-native/src/compute_image.rs:877-878 | with distinct names every binding keeps the id it was emitted with |
| `Config.GlobalIds` | packages/compute-native/src/compute_image.rs:1405-1441 | the embedding's id is zero exactly if it is not quantized; the final norm's id never is |
| `Config.LayerItemEmitted` | packages/compute-native/src/compute_image.rs:3308-3344 | every item a layer has is emitted and its weight gets a nonzero id |
| `Config.EmittedPlanValidatesIff` | packages/compute-native/src/config.rs:256-433 | the plan built from the emitted ids validates if and only if quantization metadata is present, there is a layer, the vocabulary is nonzero, and the global head dimension is set whenever a full-attention layer exists |
| `Config.KvWidthAgrees` | packages/compute-native/src/config.rs:355-375 | the cache row width chosen at runtime is the spec's key/value width and the key projection's output dimension in every layer; the plan's own product agrees except exactly on full layers without a global head count, when there is not one key/value head and the head dimension is nonzero |
| `ImageBuilder.ImageBuilder.constructor` | packages/compute-native/src/compute_image.rs:814-845 | a new builder holds nothing |
| `ImageBuilder.ImageBuilder.BeginSegment` | packages/compute-native/src/compute_image.rs:847-859 | closes the open segment and opens an empty one |
| `ImageBuilder.ImageBuilder.AddTensor` | packages/compute-native/src/compute_image.rs:861-908 | appends the bytes at the end of the open segment with the next dense id, keeping every payload tiled by its tensors |
| `ImageBuilder.ImageBuilder.FlushSegment` | packages/compute-native/src/compute_image.rs:949-984 | closes the open segment with its size, digest and residency listing |
| `ImageBuilder.ImageBuilder.AddAlias` | packages/compute-native/src/compute_image.rs:910-917 | adds one alias entry and nothing else |
| `ImageBuilder.ImageBuilder.Finalize` | packages/compute-native/src/compute_image.rs:919-947 | the manifest and files describe exactly the tensors passed in, in id order, with matching totals and hash |
| `ImageBuilder.SliceReturnsBlob` | packages/compute-native/src/compute_image.rs:2431-2441 | slicing a payload by an entry of its segment returns that tensor's own bytes |
| `ImageBuilder.TotalBytesConserved` | packages/compute-native/src/compute_image.rs:919-947 | the image's total bytes are the sum of the lengths passed in |
| `ImageBuilder.ResidencyPartitions` | packages/compute-native/src/compute_image.rs:949-984 | the two residency lists together hold every segment exactly once |
| `ImageBuilder.RoundTrip` | packages/compute-native/src/compute_image.rs:1862-1893 | for every compiled image with distinct segment ids, reading a tensor by name returns exactly the bytes passed in for it, if no earlier tensor has its name |
| `ImageVerifier.Verify` | packages/compute-native/src/compute_image.rs:1720-1859 | accepts exactly the images whose files match the recorded digests, whose receipt matches the manifest, whose manifest hash matches unless skipped, and whose storage form is copied, or mapped with sizes, alignments and bounds in order; says exactly when a file is missing or the hash differs |
| `ImageVerifier.StorageAbiOkIff` | packages/compute-native/src/compute_image.rs:1779-1848 | the storage checks pass if and only if the image is copied, or it is mapped, every segment is as long as recorded and whole in a page size that is a power of two of at least 4096, and every tensor is aligned and inside the last segment of its id |
| `ImageVerifier.AcceptsCompiledImages` | packages/compute-native/src/compute_image.rs:1554-1571 | every image and receipt that compilation writes is accepted, with the switch on or off |
| `ImageVerifier.ReceiptPinsImage` | packages/compute-native/src/compute_image.rs:1496-1524 | two accepted images with the same receipt agree on versions, source, architecture, segments, tensor and alias tables and residency plan, and on all segment bytes |
| `ImageVerifier.TamperedBytesRejected` | packages/compute-native/src/compute_image.rs:1720-1778 | changing segment bytes alone is rejected, whatever the switch |
| `ImageVerifier.UnfingerprintedFieldsAreFree` | packages/compute-native/src/compute_image.rs:1496-1524 | manifests that differ only in execution plan, capabilities or prepacked layout hash alike and are accepted alike |
| `ImageVerifier.SkippingProtectsIff` | packages/compute-native/src/compute_image.rs:1720-1859 | with the switch on, beside an accepted image, another manifest and other files are accepted with the same receipt if and only if the recorded hash, the ids, files, digests and sizes of the segments and the segment bytes are the same and the storage checks pass; everything else is unprotected |
| `ImageCompiler.EmitQuantizedBinding` | packages/compute-native/src/compute_image.rs:1391-1442 | emits scales, biases and weight in that order with their roles and shapes, and the weight's descriptor points at the other two; fails exactly if one of the three is missing |
| `ImageCompiler.EmitBindingSet` | packages/compute-native/src/compute_image.rs:1465-1494 | emits a binding's tensors and returns the weight's id; the table gets the binding's role, shape, layer and, if packed, its scales, biases and a descriptor with its bits, group size and groups |
| `ImageCompiler.EmitBindings` | packages/compute-native/src/compute_image.rs:3308-3335 | emits the bindings of one segment in order and records the weight ids by name |
| `ImageCompiler.EmitLayer` | packages/compute-native/src/compute_image.rs:3322-3336 | closes the previous segment and emits the layer's tensors, and no others, into a segment of the layer's own id and kind |
| `ImageCompiler.EmitLayers` | packages/compute-native/src/compute_image.rs:3322-3336 | one segment per layer after the persistent one, in layer order, each with its own kind and exactly its own tensors |
| `ImageCompiler.CompileSequential` | packages/compute-native/src/compute_image.rs:3288-3392 | succeeds if and only if every tensor the spec binds is in the checkpoint; the image then holds exactly those tensors, entered as bound, the globals in one persistent segment and each layer's in its own layer segment, with their plan and a matching receipt |
| `CompiledEntries.LayerEntriesTell` | packages/compute-native/src/compute_image.rs:1391-1494 | for every compiled image and every item of every layer: the entry at its emitted id has its name, layer, segment, role and shape; it has a descriptor exactly if it is a projection, with the checkpoint's bits and group size, or 16 and 64 if it has none, the whole groups of its columns, and the ids of its own scales and biases |
| `CompiledEntries.GlobalEntriesTell` | packages/compute-native/src/compute_image.rs:3308-3311 | the same for every global; of these the embedding has a descriptor, exactly if the checkpoint is quantized |
| `CompiledEntries.PlannedEntriesTell` | packages/compute-native/src/config.rs:335-400 | for every compiled image, layer and item the plan's id is that of the entry above; a full layer reads values through the key projection |
| `CompiledEntries.MissingIdIs` | packages/compute-native/src/config.rs:340-347 | an item that was not emitted gets id zero, or none for the query and key norms |
| `CompiledEntries.PlannedGlobalsTell` | packages/compute-native/src/config.rs:403-425 | the plan points at the entries of the embedding and the final norm, and at the head's exactly if embeddings are not tied |
| `CompiledEntries.AliasIff` | packages/compute-native/src/compute_image.rs:3313-3320 | one alias, of the head to the embedding's entry, exactly if the namespace aliases the head |
| `ImageCompiler.TableNamesDistinct` | packages/compute-native/src/compute_image.rs:1391-1494 | no tensor name is written twice |
| `ImageCompiler.CompiledCheckpointReadsBack` | packages/compute-native/src/compute_image.rs:3288-3392 | for every architecture and checkpoint that compiles, verification accepts the image and reading each bound tensor returns the checkpoint's own bytes, type and shape |
| `ImageCompiler.PlanPointsAtItsTensors` | packages/compute-native/src/compute_image.rs:3338-3344 | the plan's ids point at the tensors they are named after, in every layer of every compiled image |
| `Leases.InsertsBorrow` | packages/compute-native/src/bridge.rs:74-102 | with room, inserting arrays borrows one new handle for each, holding it, and leaves every other binding as it was |
| `Leases.FreesRemove` | packages/compute-native/src/compute_image.rs:763-769 | freeing a list of handles removes exactly those, whatever the order or repetition |
| `Leases.LeaseRestores` | packages/compute-native/src/compute_image.rs:755-769 | a lease gives back exactly what it took, and at no time are there more than its handles on top of what was there |
| `Leases.HoldAround` | packages/compute-native/src/compute_image.rs:2352-2389 | holding handles around anything that settles: the contents are as before exactly if all of them are freed |
| `ImageRuntime.LoadTensors` | packages/compute-native/src/compute_image.rs:2394-2428 | inserts the tensors of a segment in order up to the first that cannot be read; those stay |
| `ImageRuntime.BuildLayerArrays` | packages/compute-native/src/compute_image.rs:2466-2501 | the arrays by name built from a lease are the layer's own tensors |
| `ImageRuntime.LayersRestore` | packages/compute-native/src/compute_image.rs:2924-3062 | over every run of layers the base is untouched and at most one layer's tensors are added; at the end nothing is left, except exactly the tensors loaded before one that failed to load |
| `ImageRuntime.ValuesCoverIff` | packages/compute-native/src/compute_image.rs:2371-2384 | the handle table holds every persistent handle if and only if no name repeats |
| `ImageRuntime.SessionRestoresIff` | packages/compute-native/src/compute_image.rs:3103-3118 | a successful session leaves the registry exactly as it found it if and only if no two persistent tensors have the same name |
| `ImageRuntime.SessionStaysWithin` | packages/compute-native/src/compute_image.rs:2924-3118 | in every session by itself, successful or not, other clients' handles are untouched at all times and there are never more than the persistent tensors and one layer's on top of them |
| `ImageRuntime.SessionLeaves` | packages/compute-native/src/compute_image.rs:2371-2384 | if two persistent tensors have the same name, every successful session leaves a handle behind |
| `RepeatedNames.RepeatedNameLeaks` | packages/compute-native/src/compute_image.rs:2371-2384 | a concrete image that verification accepts and that opens, on which the session succeeds and leaves a handle behind, on every registry with room |
| `SharedRegistry.InterfereKeepsOwned` | packages/compute-native/src/bridge.rs:186-271 | what other clients do with their own handles keeps the registry the disjoint union of what the session and the others hold |
| `SharedSession.StepKeepsInv` | packages/compute-native/src/compute_image.rs:2352-3118 | every step of a session and every step of other clients between its registry calls keeps the invariant: what the session holds, by phase, and that it is where evaluation with every tensor at hand would be |
| `SharedSession.HandlesStaySafe` | packages/compute-native/src/compute_image.rs:2444-2501 | at every moment of every interleaving each handle the session holds resolves to its own array, and so do the others' handles |
| `SharedSession.SharedSessionEnds` | packages/compute-native/src/compute_image.rs:2835-3118 | whatever other clients do in between, a session that ends returns what it returns alone; on success the registry is left with exactly what the others hold if and only if persistent names are distinct; on failure the session keeps exactly its persistent handles and those of a layer that did not load |
| `SharedSession.HeldIsBounded` | packages/compute-native/src/compute_image.rs:2924-3062 | at every moment of every interleaving the session holds at most its persistent tensors and one layer's |
| `SharedSession.OwnStepExists` | packages/compute-native/src/compute_image.rs:2835-3118 | while the registry has room, a session that has not ended can step |
| `SharedSession.SessionsAreShort` | packages/compute-native/src/compute_image.rs:2835-3118 | however much the others do, a session takes a bounded number of steps |
| `ImageRuntime.Runtime.ActivatePersistent` | packages/compute-native/src/compute_image.rs:2352-2389 | loads the persistent segments in order and records a handle per name; succeeds exactly if all of them can be read and the quantized bindings resolve |
| `ImageRuntime.Runtime.RebuildBindings` | packages/compute-native/src/compute_image.rs:2504-2545 | succeeds exactly if weight, scales and biases of every quantized persistent tensor have handles |
| `ImageRuntime.BindingsResolveIff` | packages/compute-native/src/compute_image.rs:2504-2545 | the bindings resolve if and only if every quantized tensor of a persistent segment has a handle, and so have the tensors its descriptor names |
| `ImageRuntime.Runtime.ActivateLayer` | packages/compute-native/src/compute_image.rs:2394-2428 | a lease on exactly the layer's tensors, or nothing if one of them cannot be read |
| `ImageRuntime.Runtime.ExecuteLeased` | packages/compute-native/src/compute_image.rs:2936-2954 | while the lease is held the layer sees its own tensors and, behind them, the persistent ones |
| `ImageRuntime.Runtime.RunLayer` | packages/compute-native/src/compute_image.rs:2931-3040 | the result is that of running the layer with every tensor at hand, and the registry has done exactly one lease |
| `ImageRuntime.Runtime.RunLayers` | packages/compute-native/src/compute_image.rs:2924-3062 | the results of the layers in order, stopping at the first failure; the registry has done one lease per layer run |
| `ImageRuntime.Runtime.Forward` | packages/compute-native/src/compute_image.rs:2839-3101 | validation, embedding lookup, layers and final projection give what they give with every tensor resident |
| `ImageRuntime.Runtime.RunFullModel` | packages/compute-native/src/compute_image.rs:2835-3105 | a released runtime refuses; otherwise the result is the model's, and the persistent handles are released exactly on success |
| `ImageRuntime.Runtime.Release` | packages/compute-native/src/compute_image.rs:3108-3118 | frees the handles in the table, once; a second call does nothing |
| `ImageRuntime.OpenAndRun` | packages/compute-native/src/compute_image.rs:1904-1940 | the whole session: the model's result, the bound at all times, and on success the registry restored exactly if persistent names are distinct |
| `CompiledRuntime.CompiledSegmentReads` | packages/compute-native/src/compute_image.rs:2394-2428 | activating a segment of a compiled image yields its tensors in order, each decoded from the bytes compiled in, up to the first that does not decode |
| `CompiledRuntime.ResidencyIs` | packages/compute-native/src/compute_image.rs:3305-3336 | for every compiled checkpoint the persistent list is the one persistent segment and the layer list is the layers in order |
| `CompiledRuntime.AnyTwoLayersFit` | packages/compute-native/src/compute_image.rs:2201-2206 | on every compiled checkpoint any two layers fit the estimate's layer window together |
| `CompiledRuntime.LayerReadsCheckpoint` | packages/compute-native/src/compute_image.rs:2394-2428 | for every compiled checkpoint and layer, activating the layer yields exactly that layer's tensors of the checkpoint, in order and decoded, up to the first that does not decode |
| `CompiledRuntime.PersistentReadsCheckpoint` | packages/compute-native/src/compute_image.rs:2352-2384 | for every compiled checkpoint, the persistent tensors are exactly its globals, decoded |
| `CompiledRuntime.PersistentNamesDistinct` | packages/compute-native/src/compute_image.rs:2352-2389 | for every compiled checkpoint no two persistent tensors have the same name |
| `CompiledRuntime.CompiledOpensIff` | packages/compute-native/src/compute_image.rs:2504-2545 | for every checkpoint, its compiled image opens if and only if the persistent tensors decode: rebuilding the quantized bindings never fails on it |
| `CompiledRuntime.CompiledSessionRestores` | packages/compute-native/src/compute_image.rs:3103-3118 | for every checkpoint, a successful session on its compiled image leaves the registry as it found it |
| `CheckpointRun.ImageRunsAsCheckpoint` | packages/compute-native/src/compute_image.rs:2835-3105 | for every checkpoint, decoder and executor: a session on the compiled image returns exactly what running the same plan directly on the checkpoint's decoded tensors returns, errors included |
| `CheckpointRun.SharedImageRunsAsCheckpoint` | packages/compute-native/src/compute_image.rs:2835-3118 | the same whatever other clients of the registry do in between, and on success the registry is left with exactly what they hold |
| `Residency.WindowBoundsEveryChoice` | packages/compute-native/src/compute_image.rs:2193-2206 | the window estimate is at least the size of every choice of listed layer segments of at most one, or at most as many as the recorded window size |
| `Residency.WindowIsAttained` | packages/compute-native/src/compute_image.rs:2193-2206 | some such choice has exactly that size |
| `Residency.TwoLayersFit` | packages/compute-native/src/compute_image.rs:828-828 | with the window the builder records, any two listed segments fit the estimate together |
| `ArenaPool.TakeKeeps` | packages/compute-native/src/arena_pool.rs:72-81 | reuse happens whenever the key has anything cached and moves exactly one arena's bytes out of the cache |
| `ArenaPool.OfferCounts` | packages/compute-native/src/arena_pool.rs:117-132 | storing adds exactly the arena's bytes, refusing adds none |
| `ArenaPool.StepKeepsInv` | packages/compute-native/src/arena_pool.rs:60-135 | every step of every thread keeps the invariant: the budget is exactly what is cached, lent and in hand, no key caches more than its limit, and only a dropping thread holds the entries lock |
| `ArenaPool.ReachableInv` | packages/compute-native/src/arena_pool.rs:60-135 | the invariant holds after every interleaving of any number of threads |
| `ArenaPool.NeverSaturates` | packages/compute-native/src/arena_pool.rs:120-126 | the saturating subtraction never saturates |
| `ArenaPool.AdmittedIff` | packages/compute-native/src/arena_pool.rs:87-99 | a new arena is admitted if and only if it fits beside everything cached, lent and in hand |
| `ArenaPool.QuietBudget` | packages/compute-native/src/arena_pool.rs:60-135 | when no call is under way the budget is exactly what is cached and lent |
| `ArenaPool.SomeCallCanStep` | packages/compute-native/src/arena_pool.rs:72-126 | no deadlock over the two locks: if a call is under way, some call can take its next step |
| `ArenaPool.CallStepsReduceWork` | packages/compute-native/src/arena_pool.rs:60-135 | every step of a call reduces the work outstanding, so calls end |
| `ArenaPool.PooledArenaFits` | packages/compute-native/src/arena_pool.rs:70-81 | if callers release under the arena's own key, every pooled arena has the requested shape |
| `ArenaPool.OfferKeepsShapeIff` | packages/compute-native/src/arena_pool.rs:117-132 | storing keeps every cached arena under a key of its shape if and only if the arena fits the key, or the key is full, or the key's profile cannot be asked for |
| `ArenaPool.StoreKeepsShapesIff` | packages/compute-native/src/arena_pool.rs:107-135 | whatever other calls are under way with their shapes in order, for the guarded section of every release: in all later runs of callers that use their own keys, each pooled arena has the requested shape, if and only if the released arena fits its key, or the key is full, or its profile cannot be asked for |
| `ArenaPool.ReleaseKeepsShapesIff` | packages/compute-native/src/arena_pool.rs:60-135 | the same for a whole release by a thread that is in no call, from every state with its shapes in order |
| `ArenaPool.WrongKeyWrongShape` | packages/compute-native/src/arena_pool.rs:107-135 | a concrete run in which a release under another key makes the pool hand out a wrong shape |
| `ArenaPool.ArenaPool.Acquire` | packages/compute-native/src/arena_pool.rs:60-100 | a cached arena exactly if the key has one, else a new one; each error exactly under its own condition, and errors change nothing |
| `ArenaPool.ArenaPool.Release` | packages/compute-native/src/arena_pool.rs:107-135 | caches the arena exactly if the key has room, else takes its bytes out of the budget; keeps the shapes exactly under the condition above |
| `ArenaLifecycle.AcceptedIff` | packages/compute-native/src/arena_lifecycle.rs:93-120 | for every pair of states, exactly the listed transitions are accepted and lead where asked |
| `ArenaLifecycle.RunIsExplained` | packages/compute-native/src/arena_lifecycle.rs:93-120 | every state of every accepted run has the history its name implies |
| `ArenaLifecycle.ReadsFollowOneWrite` | packages/compute-native/src/arena_lifecycle.rs:93-120 | a reader holds only what was leased, submitted and produced exactly once, by one backend, since the arena was last free, with no write after it |
| `ArenaLifecycle.ReadsAreBracketed` | packages/compute-native/src/arena_lifecycle.rs:93-120 | each reader takes the arena from the produced state and returns it there |
| `ArenaLifecycle.WritesStartFree` | packages/compute-native/src/arena_lifecycle.rs:93-120 | every write starts from a free arena, so none starts during a read |
| `ArenaLifecycle.RetirementIsFinal` | packages/compute-native/src/arena_lifecycle.rs:93-120 | retiring leads only to released, and released is the end of the run |
| `ArenaLifecycle.UseIsAccepted` | packages/compute-native/src/arena_lifecycle.rs:93-120 | conversely any backend's write followed by any reads in any order is accepted, and can then be freed or retired |
| `TopologicalSort.Visitor.Visit` | scripts/identity/plan-source-cutover.ts:212-227 | visits a package's dependencies and then itself, each once, and terminates on any graph; what is visited but not listed is the path being visited |
| `TopologicalSort.Sort` | scripts/identity/plan-source-cutover.ts:208-235 | returns a permutation of the directories in which every dependency comes earlier, unless it reaches its dependent in turn; beyond that the order is that of the names: a package comes before another only if something no larger than the other needs it |
| `TopologicalSort.DependenciesFirstIffAcyclic` | scripts/identity/plan-source-cutover.ts:208-235 | for every workspace, the result lists dependencies first if and only if there is no cycle |
| `Workspace.LeqIff` | scripts/identity/plan-source-cutover.ts:208-265 | the sort order: a prefix comes first, otherwise the first differing character decides |
| `WorkspaceGraph.ComputeLeaves` | scripts/identity/plan-source-cutover.ts:241-265 | the sorted list of exactly the directories that no package's dependency resolves to, each once |
| `WorkspaceGraph.BuildNamedReverseGraph` | scripts/identity/plan-source-cutover.ts:308-325 | a row for every package and dependency name; each row lists, sorted, one entry per dependency on that name |
| `WorkspaceGraph.LeafIff` | scripts/identity/plan-source-cutover.ts:241-325 | a directory is a leaf if and only if nobody depends on its npm name or an earlier package has the same npm name |
| `WorkspaceGraph.LeafIffRowEmpty` | scripts/identity/plan-source-cutover.ts:241-325 | with unique npm names, leaves are exactly the directories whose sorted reverse row is empty |
| `WorkspaceGraph.LastIsLeaf` | scripts/identity/plan-source-cutover.ts:208-265 | without cycles the last package of the order is a leaf, so there always is one |
| `PackageRename.FindIsLeftmost` | scripts/identity/apply-package-rename.ts:267-268 | the search returns an occurrence, and none lies further left |
| `PackageRename.GapsRejoin` | scripts/identity/apply-package-rename.ts:265-277 | the text is its gaps joined by the old name |
| `PackageRename.ReplaceIsRejoin` | scripts/identity/apply-package-rename.ts:265-283 | the result is the same gaps joined by the new name |
| `PackageRename.GapsAreClean` | scripts/identity/apply-package-rename.ts:265-277 | no gap but the last contains the old name, and the last does not unless the pass was cut short |
| `PackageRename.ReplaceLength` | scripts/identity/apply-package-rename.ts:265-283 | the length changes by count times the difference in length |
| `PackageRename.NoMatchIff` | scripts/identity/apply-package-rename.ts:258 | nothing is replaced if and only if the old name is absent |
| `PackageRename.EmptyPattern` | scripts/identity/apply-package-rename.ts:267-277 | an empty pattern puts the new name in front as many times as the limit allows |
| `PackageRename.SplitPass` | scripts/identity/apply-package-rename.ts:260-280 | the loop over pos, count and segments computes the leftmost non-overlapping replacement of at most that many matches |
| `PackageRename.ReplacePass` | scripts/identity/apply-package-rename.ts:256-284 | one pass is the replacement limited to 10,001 matches |
| `PackageRename.PassLimit` | scripts/identity/apply-package-rename.ts:267-276 | for every text: a pass replaces all matches if there are at most 10,001, so that no gap has the old name, and exactly 10,001 otherwise |
| `PackageRename.ApplyAllReplacements` | scripts/identity/apply-package-rename.ts:249-287 | the passes in order, the total count, and the length changed by the sum of count times difference over the list |
| `PackageRename.PassesChain` | scripts/identity/apply-package-rename.ts:245-287 | a concrete family of inputs on which a later pass renames what an earlier one inserted |
| `RenameOverlap.PassesOverGaps` | scripts/identity/apply-package-rename.ts:256-284 | if the inserted name does not clash with a later old name, the later pass works on the gaps one by one and leaves every insertion alone, for all gaps and every limit |
| `RenameOverlap.ClashIff` | scripts/identity/apply-package-rename.ts:256-284 | two names clash if and only if some text around the inserted one has an occurrence of the old one that touches it |
| `RenameOverlap.TextOverGaps` | scripts/identity/apply-package-rename.ts:256-284 | if a later old name cannot touch what a replacement inserts, the later pass works on the gaps of the earlier one, one by one, on every text and for every limit |
| `RenameOverlap.LeftAloneIff` | scripts/identity/apply-package-rename.ts:256-284 | for every two replacements: on every text the second pass makes just the matches it makes in the gaps of the first, if and only if its old name is empty or cannot touch what the first inserts: no overlap of it with the new name whose part before the new name leaves the match of the first old name where it is |
| `RenameOverlap.InsertionsSurvive` | scripts/identity/apply-package-rename.ts:249-287 | for every text and list: if the next old name cannot touch what a replacement inserts, no old name after that clashes with it, and no later pass reaches its limit, all its insertions are still there at the end and the later passes have worked on the text around them |
| `RenameOverlap.RenamedAgain` | scripts/identity/apply-package-rename.ts:249-287 | on every text with the old name, a new name that contains a later old name is renamed again |
| `RenameOverlap.RenameIsCompleteIff` | scripts/identity/apply-package-rename.ts:256-284 | every pass that does not reach its limit leaves no old name behind, on every text, if and only if the old name cannot be completed around the new one |
| `RenameOverlap.SecondRunIsIdle` | scripts/identity/apply-package-rename.ts:256-284 | and then a second run changes nothing |

## Left out

- MLX, Core ML and IOSurface calls, attention and layer numerics, float decoding: foreign code; arrays are opaque.
- Real source bytes in the pipeline: payloads are an arbitrary function of the unit; the zero placeholder is one
  instance (`ZeroPayload`).
- Lane panics in the pipeline, and a caller that drops the future before it completes.
- I/O failures while the builder writes segment files and receipts; the pipeline's write lane does model them.
- 32- and 64-bit overflow of tensor ids, offsets, byte counts and budgets.
- Agreement between planned and emitted offsets: the plan counts only weights while emission also writes scales and
  biases, so there is none to prove.
- `prepack_quantized_weights`, `byte_provenance`, stage timing and telemetry.
- The memory admission check and backend selection of `open_runtime`, and `run_six_layer_prefix`, whose lease protocol
  is that of the full run.
- The quantized-binding table itself: only whether it can be built is modelled (`RebuildBindings`), not the panic on a
  logical shape with fewer than two dimensions.
- The parts of the admission estimate other than the layer window.
- Drop callbacks of registry entries.
- `ArenaPool.stats`, arena ids and generations (the pool stores a placeholder generation).
- JavaScript string order is taken as order of characters; object keys that clash with built-in properties are ignored.
- Reading package manifests, the authority map and the choice and ordering of replacements.
- GenerationalRegistry.StaleHandlesFail: generations are unbounded numbers there, so what happens once a 32-bit
  generation wraps around is not modelled.
- ArenaPool.ArenaPool.Acquire: runs without interruption; interleavings are the subject of the step system beside it.
- ImageRuntime.OpenAndRun: the object runs by itself; other clients acting in between are the subject of
  `SharedSession`, where they free only handles they hold and nobody drains the registry. It assumes fewer than
  2^32 - 1 live handles (`SessionFits`), since beyond that insertion returns handles that are unbound or another
  client's (`InsertBindsIffRoom`), and that the layer executor itself inserts no handles.
- RenameOverlap.InsertionsSurvive: exact for the pass right after the insertion (`LeftAloneIff`). Passes after that meet
  gaps that passes before them have changed, and for those the condition is sufficient only.
- Compute lanes and services, ledgers, audits, error tables, user interface and release scripts.

/** The array handle registry: a slot vector with a freelist, addressed by handles that pack a
    slot index (low 32 bits) and a generation (high 32 bits). Arrays are opaque values. */
module Registry {
  import opened Common

  const WORD: nat := 0x1_0000_0000

  type Handle = nat  // a u64; 0 is the null handle

  function PackHandle(slot: nat, generation: nat): (h: Handle)
    requires slot < WORD && generation < WORD
    ensures h < WORD * WORD
    ensures SlotOf(h) == slot && GenerationOf(h) == generation
  {
    PackingInverts(slot, generation);
    generation * WORD + slot
  }

  function SlotOf(h: Handle): (slot: nat)
    ensures slot < WORD
  {
    h % WORD
  }

  function GenerationOf(h: Handle): (generation: nat) { h / WORD }

  lemma PackingInverts(slot: nat, generation: nat)
    requires slot < WORD && generation < WORD
    ensures (generation * WORD + slot) % WORD == slot && (generation * WORD + slot) / WORD == generation
    ensures generation * WORD + slot < WORD * WORD
  {
  }

  /** Packing and unpacking are inverse on all of u64: handles are exactly (slot, generation) pairs. */
  lemma UnpackThenPack(h: Handle)
    requires h < WORD * WORD
    ensures GenerationOf(h) < WORD && PackHandle(SlotOf(h), GenerationOf(h)) == h
  {
  }

  // ── The registry as a value ────────────────────────────────────────────────

  datatype Entry<A> = Entry(item: A, generation: nat)

  datatype State<A> = State(slots: seq<Option<Entry<A>>>, freelist: seq<nat>, totalAllocated: nat)

  /** The freelist only names slots that exist and that a handle can address. */
  predicate Shape<A>(r: State<A>) {
    && |r.slots| > 0
    && forall i :: 0 <= i < |r.freelist| ==> 0 < r.freelist[i] < |r.slots| && r.freelist[i] < WORD
  }

  function Fresh<A>(): (r: State<A>) { State([None], [], 0) }

  /** The generation for a slot taken off the freelist, given what the slot still holds. */
  function ReusedGeneration<A>(existing: Option<Entry<A>>): (g: nat)
    ensures g < WORD
  {
    match existing
    case Some(e) => (e.generation + 1) % WORD
    case None => 1
  }

  /** A slot that still held an entry would get the next generation, wrapping around at 32 bits; an empty
      one starts over. */
  lemma ReuseBumps<A>(existing: Option<Entry<A>>)
    ensures existing.None? ==> ReusedGeneration(existing) == 1
    ensures existing.Some? && existing.value.generation < WORD - 1 ==>
      ReusedGeneration(existing) == existing.value.generation + 1
    ensures existing.Some? && existing.value.generation == WORD - 1 ==> ReusedGeneration(existing) == 0
  {
  }

  /** The slot the next insertion uses; a pushed slot's index is truncated to 32 bits. */
  function NextSlot<A>(r: State<A>): (slot: nat)
    requires Shape(r)
    ensures slot < WORD
  {
    if r.freelist != [] then r.freelist[|r.freelist| - 1] else |r.slots| % WORD
  }

  function NextGeneration<A>(r: State<A>): (g: nat)
    requires Shape(r)
    ensures g < WORD
  {
    if r.freelist != [] then ReusedGeneration(r.slots[r.freelist[|r.freelist| - 1]]) else 1
  }

  function NextHandle<A>(r: State<A>): (h: Handle)
    requires Shape(r)
    ensures SlotOf(h) == NextSlot(r) && GenerationOf(h) == NextGeneration(r)
  {
    PackHandle(NextSlot(r), NextGeneration(r))
  }

  function Insert<A>(r: State<A>, item: A): (r': State<A>)
    requires Shape(r)
  {
    var entry := Some(Entry(item, NextGeneration(r)));
    if r.freelist != [] then
      var n := |r.freelist| - 1;
      State(r.slots[r.freelist[n] := entry], r.freelist[..n], r.totalAllocated + 1)
    else State(r.slots + [entry], [], r.totalAllocated + 1)
  }

  function Get<A>(r: State<A>, h: Handle): (o: Option<A>) {
    var slot := SlotOf(h);
    if slot == 0 || slot >= |r.slots| then None
    else match r.slots[slot]
      case Some(e) => if e.generation == GenerationOf(h) then Some(e.item) else None
      case None => None
  }

  function Remove<A>(r: State<A>, h: Handle): (r': State<A>) {
    if Get(r, h).Some? then
      State(r.slots[SlotOf(h) := None], r.freelist + [SlotOf(h)], r.totalAllocated)
    else r
  }

  function Drain<A>(r: State<A>): (r': State<A>) { State([None], [], r.totalAllocated) }

  /** Occupied slots: what `handle_count` reports. */
  function Occupied<A>(slots: seq<Option<Entry<A>>>): (n: nat)
    ensures n <= |slots|
  {
    if slots == [] then 0
    else Occupied(slots[..|slots| - 1]) + (if slots[|slots| - 1].Some? then 1 else 0)
  }

  // ── Invariant ──────────────────────────────────────────────────────────────

  ghost predicate NoDuplicates(xs: seq<nat>) {
    forall i, j :: 0 <= i < j < |xs| ==> xs[i] != xs[j]
  }

  /** Slot 0 is the guard; the freelist lists, without duplicates, exactly the empty slots
      other than 0; every occupied slot is in its first generation. */
  ghost predicate Wf<A>(r: State<A>) {
    && Shape(r)
    && r.slots[0].None?
    && NoDuplicates(r.freelist)
    && (forall i :: 0 <= i < |r.freelist| ==> r.slots[r.freelist[i]].None?)
    && (forall s :: 0 < s < |r.slots| && r.slots[s].None? ==> s in r.freelist)
    && (forall s :: 0 <= s < |r.slots| && r.slots[s].Some? ==> r.slots[s].value.generation == 1)
  }

  lemma {:induction false} OccupiedUpdate<A>(slots: seq<Option<Entry<A>>>, s: nat, e: Option<Entry<A>>)
    requires s < |slots|
    ensures Occupied(slots[s := e]) + (if slots[s].Some? then 1 else 0) == Occupied(slots) + (if e.Some? then 1 else 0)
  {
    var last := |slots| - 1;
    if s == last {
      assert slots[s := e][..last] == slots[..last];
    } else {
      assert slots[s := e][..last] == slots[..last][s := e];
      OccupiedUpdate(slots[..last], s, e);
    }
  }

  lemma InsertKeepsWf<A>(r: State<A>, item: A)
    requires Wf(r)
    ensures Wf(Insert(r, item))
  {
    var r' := Insert(r, item);
    if r.freelist != [] {
      var n := |r.freelist| - 1;
      var reused := r.freelist[n];
      assert forall s :: s in r'.freelist ==> s in r.freelist && s != reused;
      forall s | 0 < s < |r'.slots| && r'.slots[s].None?
        ensures s in r'.freelist
      {
        var i :| 0 <= i < |r.freelist| && r.freelist[i] == s;
        assert r'.freelist[i] == s;
      }
    }
  }

  lemma RemoveKeepsWf<A>(r: State<A>, h: Handle)
    requires Wf(r)
    ensures Wf(Remove(r, h))
  {
    var r' := Remove(r, h);
    if Get(r, h).Some? {
      assert forall s :: s in r'.freelist <==> s in r.freelist || s == SlotOf(h);
    }
  }

  // ── Refinement of a finite map ─────────────────────────────────────────────

  ghost function Handles<A>(r: State<A>): (hs: set<Handle>)
    requires Wf(r)
  {
    set s | 0 < s < |r.slots| && s < WORD && r.slots[s].Some? :: PackHandle(s, 1)
  }

  /** The registry's abstract value: the live handles and their arrays. */
  ghost function Bindings<A>(r: State<A>): (m: map<Handle, A>)
    requires Wf(r)
  {
    map h | h in Handles(r) && Get(r, h).Some? :: Get(r, h).value
  }

  /** `Get` is lookup in the abstract map, for every u64 (and beyond). */
  lemma GetIsLookup<A>(r: State<A>, h: Handle)
    requires Wf(r)
    ensures h in Bindings(r) <==> Get(r, h).Some?
    ensures h in Bindings(r) ==> Bindings(r)[h] == Get(r, h).value
  {
    if Get(r, h).Some? {
      assert h == PackHandle(SlotOf(h), 1);
    }
  }

  function Lookup<A>(m: map<Handle, A>, h: Handle): (o: Option<A>) { if h in m then Some(m[h]) else None }

  /** A map that agrees with `Get` everywhere is the abstract value. */
  lemma LookupDeterminesBindings<A>(r: State<A>, m: map<Handle, A>)
    requires Wf(r) && forall h: Handle :: Get(r, h) == Lookup(m, h)
    ensures Bindings(r) == m
  {
    forall h: Handle
      ensures h in Bindings(r) <==> h in m
      ensures h in m ==> Bindings(r)[h] == m[h]
    {
      GetIsLookup(r, h);
      assert Get(r, h) == Lookup(m, h);
    }
  }

  /** Room for one more addressable slot. */
  predicate HasRoom<A>(r: State<A>) { r.freelist != [] || |r.slots| < WORD }

  lemma GetAfterInsert<A>(r: State<A>, item: A, k: Handle)
    requires Wf(r) && HasRoom(r)
    ensures Get(Insert(r, item), k) == if k == NextHandle(r) then Some(item) else Get(r, k)
  {
    if SlotOf(k) == NextSlot(r) && GenerationOf(k) == 1 {
      assert k == PackHandle(NextSlot(r), 1) == NextHandle(r);
    }
  }

  lemma NextHandleIsUnbound<A>(r: State<A>)
    requires Wf(r) && HasRoom(r)
    ensures NextHandle(r) != 0 && Get(r, NextHandle(r)).None?
  {
  }

  /** With room, insertion binds one new nonzero handle and changes nothing else. */
  lemma InsertRefinesMap<A>(r: State<A>, item: A)
    requires Wf(r) && HasRoom(r)
    ensures Wf(Insert(r, item))
    ensures NextHandle(r) != 0 && NextHandle(r) !in Bindings(r)
    ensures Bindings(Insert(r, item)) == Bindings(r)[NextHandle(r) := item]
  {
    InsertKeepsWf(r, item);
    NextHandleIsUnbound(r);
    var h := NextHandle(r);
    GetIsLookup(r, h);
    forall k: Handle ensures Get(Insert(r, item), k) == Lookup(Bindings(r)[h := item], k) {
      GetAfterInsert(r, item, k);
      GetIsLookup(r, k);
    }
    LookupDeterminesBindings(Insert(r, item), Bindings(r)[h := item]);
  }

  /** Removal deletes exactly the named binding, or changes nothing. */
  lemma RemoveRefinesMap<A>(r: State<A>, h: Handle)
    requires Wf(r)
    ensures Wf(Remove(r, h))
    ensures Bindings(Remove(r, h)) == Bindings(r) - {h}
    ensures h !in Bindings(r) ==> Remove(r, h) == r
  {
    RemoveKeepsWf(r, h);
    var r' := Remove(r, h);
    GetIsLookup(r, h);
    forall k: Handle
      ensures Get(r', k) == Lookup(Bindings(r) - {h}, k)
    {
      GetIsLookup(r, k);
      GetAfterRemove(r, h, k);
    }
    LookupDeterminesBindings(r', Bindings(r) - {h});
  }

  lemma GetAfterRemove<A>(r: State<A>, h: Handle, k: Handle)
    requires Wf(r)
    ensures Get(Remove(r, h), k) == if k == h then None else Get(r, k)
  {
    if SlotOf(k) == SlotOf(h) && Get(r, k).Some? && Get(r, h).Some? {
      assert k == PackHandle(SlotOf(h), 1) == h;
    }
  }

  lemma DrainRefinesMap<A>(r: State<A>)
    ensures Wf(Drain(r)) && Bindings(Drain(r)) == map[]
  {
  }

  /** Without room the array goes to a slot no handle can address, and no binding changes. */
  lemma InsertWithoutRoom<A>(r: State<A>, item: A)
    requires Wf(r) && !HasRoom(r)
    ensures Wf(Insert(r, item)) && Bindings(Insert(r, item)) == Bindings(r)
  {
    InsertKeepsWf(r, item);
    forall h: Handle ensures Get(Insert(r, item), h) == Lookup(Bindings(r), h) {
      GetIsLookup(r, h);
    }
    LookupDeterminesBindings(Insert(r, item), Bindings(r));
  }

  /** Insertion binds a new handle exactly when there is room. The handle it returns is already
      another client's exactly when there is none and the truncated slot index is not 0. */
  lemma InsertBindsIffRoom<A>(r: State<A>, item: A)
    requires Wf(r)
    ensures Wf(Insert(r, item))
    ensures NextHandle(r) !in Bindings(r) && NextHandle(r) in Bindings(Insert(r, item)) <==> HasRoom(r)
    ensures NextHandle(r) in Bindings(r) <==> !HasRoom(r) && |r.slots| % WORD != 0
    ensures NextHandle(r) in Bindings(r) ==>
      Get(Insert(r, item), NextHandle(r)) == Some(Bindings(r)[NextHandle(r)])
  {
    InsertKeepsWf(r, item);
    if HasRoom(r) {
      InsertRefinesMap(r, item);
    } else {
      InsertWithoutRoom(r, item);
      GetIsLookup(r, NextHandle(r));
      GetIsLookup(Insert(r, item), NextHandle(r));
    }
  }

  // ── Counting handles ───────────────────────────────────────────────────────

  lemma InsertCounts<A>(r: State<A>, item: A)
    requires Wf(r)
    ensures Occupied(Insert(r, item).slots) == Occupied(r.slots) + 1
  {
    if r.freelist != [] {
      var reused := r.freelist[|r.freelist| - 1];
      OccupiedUpdate(r.slots, reused, Insert(r, item).slots[reused]);
    } else {
      assert Insert(r, item).slots[..|r.slots|] == r.slots;
    }
  }

  lemma RemoveCounts<A>(r: State<A>, h: Handle)
    requires Wf(r)
    ensures Occupied(Remove(r, h).slots) + (if h in Bindings(r) then 1 else 0) == Occupied(r.slots)
  {
    GetIsLookup(r, h);
    if Get(r, h).Some? {
      OccupiedUpdate(r.slots, SlotOf(h), None);
    }
  }

  ghost function HandlesBelow<A>(slots: seq<Option<Entry<A>>>, n: nat): (hs: set<Handle>)
    requires n <= |slots| && n <= WORD
  {
    set s | 0 < s < n && slots[s].Some? :: PackHandle(s, 1)
  }

  lemma HandlesBelowNext<A>(slots: seq<Option<Entry<A>>>, n: nat)
    requires 0 < n < |slots| && n < WORD
    ensures PackHandle(n, 1) !in HandlesBelow(slots, n)
    ensures HandlesBelow(slots, n + 1) ==
      if slots[n].Some? then HandlesBelow(slots, n) + {PackHandle(n, 1)} else HandlesBelow(slots, n)
  {
    forall s | 0 < s < n ensures PackHandle(s, 1) != PackHandle(n, 1) {
      assert SlotOf(PackHandle(s, 1)) == s;
    }
  }

  lemma OccupiedNext<A>(slots: seq<Option<Entry<A>>>, n: nat)
    requires n < |slots|
    ensures Occupied(slots[..n + 1]) == Occupied(slots[..n]) + (if slots[n].Some? then 1 else 0)
  {
    assert slots[..n + 1][..n] == slots[..n];
  }

  lemma {:induction false} HandlesBelowCount<A>(slots: seq<Option<Entry<A>>>, n: nat)
    requires 0 < n <= |slots| && n <= WORD && slots[0].None?
    ensures |HandlesBelow(slots, n)| == Occupied(slots[..n])
  {
    OccupiedNext(slots, n - 1);
    if n == 1 {
      assert HandlesBelow(slots, 1) == {};
      assert Occupied(slots[..0]) == 0;
    } else {
      HandlesBelowCount(slots, n - 1);
      HandlesBelowNext(slots, n - 1);
    }
  }

  /** While every slot is addressable, `handle_count` is the size of the abstract map. */
  lemma HandleCountIsMapSize<A>(r: State<A>)
    requires Wf(r) && |r.slots| <= WORD
    ensures Occupied(r.slots) == |Bindings(r)|
  {
    HandlesBelowCount(r.slots, |r.slots|);
    assert r.slots[..|r.slots|] == r.slots;
    assert Handles(r) == HandlesBelow(r.slots, |r.slots|);
    assert Bindings(r).Keys == Handles(r) by {
      forall h | h in Handles(r) ensures h in Bindings(r) {
        GetIsLookup(r, h);
      }
    }
  }

  function EmptyBelow<A>(slots: seq<Option<Entry<A>>>, n: nat): (es: set<nat>)
    requires n <= |slots|
  {
    set s: nat | 0 < s < n && slots[s].None?
  }

  lemma {:induction false} EmptyBelowCount<A>(slots: seq<Option<Entry<A>>>, n: nat)
    requires 0 < n <= |slots| && slots[0].None?
    ensures |EmptyBelow(slots, n)| + Occupied(slots[..n]) + 1 == n
  {
    OccupiedNext(slots, n - 1);
    if n == 1 {
      assert EmptyBelow(slots, 1) == {};
      assert Occupied(slots[..0]) == 0;
    } else {
      EmptyBelowCount(slots, n - 1);
      assert EmptyBelow(slots, n) == EmptyBelow(slots, n - 1) + (if slots[n - 1].None? then {n - 1} else {});
    }
  }

  function Elements(xs: seq<nat>): (s: set<nat>) { set x | x in xs }

  lemma {:induction false} DistinctCount(xs: seq<nat>)
    requires NoDuplicates(xs)
    ensures |Elements(xs)| == |xs|
  {
    if xs == [] {
      assert Elements(xs) == {};
    } else {
      var last := |xs| - 1;
      DistinctCount(xs[..last]);
      assert xs[last] !in Elements(xs[..last]);
      assert Elements(xs) == Elements(xs[..last]) + {xs[last]};
    }
  }

  /** Every slot is the guard, occupied, or on the freelist. */
  lemma SlotsAccountedFor<A>(r: State<A>)
    requires Wf(r)
    ensures Occupied(r.slots) + |r.freelist| + 1 == |r.slots|
  {
    EmptyBelowCount(r.slots, |r.slots|);
    assert r.slots[..|r.slots|] == r.slots;
    DistinctCount(r.freelist);
    assert Elements(r.freelist) == EmptyBelow(r.slots, |r.slots|);
  }

  /** While every slot is addressable, there is room exactly when the map is not full. */
  lemma RoomIffNotFull<A>(r: State<A>)
    requires Wf(r) && |r.slots| <= WORD
    ensures HasRoom(r) <==> |Bindings(r)| < WORD - 1
  {
    SlotsAccountedFor(r);
    HandleCountIsMapSize(r);
  }

  // ── Whole runs ─────────────────────────────────────────────────────────────

  datatype Op<A> = InsertOp(item: A) | RemoveOp(handle: Handle) | DrainOp

  ghost function Step<A>(r: State<A>, op: Op<A>): (r': State<A>)
    requires Wf(r)
    ensures Wf(r')
  {
    match op
    case InsertOp(item) => InsertKeepsWf(r, item); Insert(r, item)
    case RemoveOp(h) => RemoveKeepsWf(r, h); Remove(r, h)
    case DrainOp => Drain(r)
  }

  /** The registry after a run of operations on registry `r`. */
  ghost function RunFrom<A>(r: State<A>, ops: seq<Op<A>>): (r': State<A>)
    requires Wf(r)
    ensures Wf(r')
  {
    if ops == [] then r else Step(RunFrom(r, ops[..|ops| - 1]), ops[|ops| - 1])
  }

  /** The registry after a run of operations on a new registry. */
  ghost function Run<A>(ops: seq<Op<A>>): (r: State<A>)
    ensures Wf(r)
  {
    RunFrom(Fresh(), ops)
  }

  /** One operation on a plain map that is told which handle an insertion got. */
  function MapStep<A>(m: map<Handle, A>, op: Op<A>, h: Handle): (m': map<Handle, A>) {
    match op
    case InsertOp(item) => m[h := item]
    case RemoveOp(k) => m - {k}
    case DrainOp => map[]
  }

  ghost function MapRun<A>(ops: seq<Op<A>>): (m: map<Handle, A>) {
    if ops == [] then map[]
    else
      var before := ops[..|ops| - 1];
      MapStep(MapRun(before), ops[|ops| - 1], NextHandle(Run(before)))
  }

  /** Counting insertions up and removals that found something down; a drain starts over. */
  function CountStep<A>(m: map<Handle, A>, n: int, op: Op<A>): (n': int) {
    match op
    case InsertOp(_) => n + 1
    case RemoveOp(h) => if h in m then n - 1 else n
    case DrainOp => 0
  }

  ghost function Outstanding<A>(ops: seq<Op<A>>): (n: int) {
    if ops == [] then 0
    else CountStep(MapRun(ops[..|ops| - 1]), Outstanding(ops[..|ops| - 1]), ops[|ops| - 1])
  }

  lemma StepRefinesMap<A>(r: State<A>, op: Op<A>)
    requires Wf(r) && (op.InsertOp? ==> HasRoom(r))
    ensures Bindings(Step(r, op)) == MapStep(Bindings(r), op, NextHandle(r))
    ensures Occupied(Step(r, op).slots) == CountStep(Bindings(r), Occupied(r.slots), op)
  {
    match op
    case InsertOp(item) =>
      InsertRefinesMap(r, item);
      InsertCounts(r, item);
    case RemoveOp(h) =>
      RemoveRefinesMap(r, h);
      RemoveCounts(r, h);
    case DrainOp =>
      DrainRefinesMap(r);
  }

  /** The longest the slot vector has been. */
  ghost function HighWater<A>(ops: seq<Op<A>>): (n: nat)
    ensures n >= |Run(ops).slots|
  {
    if ops == [] then 1
    else
      var n := HighWater(ops[..|ops| - 1]);
      if |Run(ops).slots| > n then |Run(ops).slots| else n
  }

  lemma StepLength<A>(r: State<A>, op: Op<A>)
    requires Wf(r)
    ensures |Step(r, op).slots| ==
      match op
      case InsertOp(_) => if r.freelist == [] then |r.slots| + 1 else |r.slots|
      case RemoveOp(_) => |r.slots|
      case DrainOp => 1
  {
  }

  /** A run that stays within the addressable slots had room for each of its insertions. */
  lemma InsertHadRoom<A>(ops: seq<Op<A>>)
    requires ops != [] && HighWater(ops) <= WORD
    ensures HighWater(ops[..|ops| - 1]) <= WORD
    ensures ops[|ops| - 1].InsertOp? ==> HasRoom(Run(ops[..|ops| - 1]))
  {
    StepLength(Run(ops[..|ops| - 1]), ops[|ops| - 1]);
  }

  /** In every run, however long, that never uses more than 2^32 slots the registry is the map:
      lookup agrees on every handle, and the handle count is the number of insertions minus
      successful removals. */
  lemma {:induction false} RunRefinesMap<A>(ops: seq<Op<A>>)
    requires HighWater(ops) <= WORD
    ensures Bindings(Run(ops)) == MapRun(ops)
    ensures Occupied(Run(ops).slots) == Outstanding(ops)
  {
    if ops == [] {
      EmptyRun<A>();
    } else {
      InsertHadRoom(ops);
      RunRefinesMap(ops[..|ops| - 1]);
      StepRefinesMap(Run(ops[..|ops| - 1]), ops[|ops| - 1]);
    }
  }

  lemma EmptyRun<A>()
    ensures Bindings(Fresh<A>()) == map[] && Occupied(Fresh<A>().slots) == 0
  {
  }

  /** Every insertion in such a run gets a nonzero handle outside the map, and the map has
      exactly the outstanding handles. */
  lemma {:induction false} RunIssuesUnboundHandles<A>(ops: seq<Op<A>>)
    requires HighWater(ops) <= WORD
    ensures HasRoom(Run(ops)) ==> NextHandle(Run(ops)) != 0 && NextHandle(Run(ops)) !in MapRun(ops)
    ensures HasRoom(Run(ops)) <==> |MapRun(ops)| < WORD - 1
    ensures Outstanding(ops) == |MapRun(ops)|
  {
    RunRefinesMap(ops);
    if HasRoom(Run(ops)) {
      RoomGivesFreshHandle(Run(ops));
    }
    RoomIffNotFull(Run(ops));
    HandleCountIsMapSize(Run(ops));
  }

  lemma RoomGivesFreshHandle<A>(r: State<A>)
    requires Wf(r) && HasRoom(r)
    ensures NextHandle(r) != 0 && NextHandle(r) !in Bindings(r)
  {
    GetIsLookup(r, NextHandle(r));
  }

  // ── Stale handles: what the code does ──────────────────────────────────────

  /** Reusing a slot returns exactly the handle last freed from it, and an old copy of that
      handle resolves to the new array. */
  lemma ReuseReturnsTheFreedHandle<A>(r: State<A>, h: Handle, item: A)
    requires Wf(r) && Get(r, h).Some?
    ensures Wf(Remove(r, h)) && Wf(Insert(Remove(r, h), item))
    ensures Get(Remove(r, h), h).None?
    ensures NextHandle(Remove(r, h)) == h
    ensures Get(Insert(Remove(r, h), item), h) == Some(item)
  {
    RemoveKeepsWf(r, h);
    InsertKeepsWf(Remove(r, h), item);
    assert h == PackHandle(SlotOf(h), 1);
  }

  lemma {:induction false} RunExtends<A>(ops: seq<Op<A>>, op: Op<A>)
    ensures Run(ops + [op]) == Step(Run(ops), op)
  {
    assert (ops + [op])[..|ops|] == ops;
  }

  /** A concrete stale handle: insert `a`, free it, insert `b`, and the first handle yields `b`. */
  lemma {:induction false} StaleHandleResolves<A>(a: A, b: A)
    ensures
      var first := NextHandle(Fresh<A>());
      Get(Run([] + [InsertOp(a)] + [RemoveOp(first)] + [InsertOp(b)]), first) == Some(b)
  {
    var first := NextHandle(Fresh<A>());
    RunExtends([], InsertOp(a));
    RunExtends([] + [InsertOp(a)], RemoveOp(first));
    RunExtends([] + [InsertOp(a)] + [RemoveOp(first)], InsertOp(b));
    InsertRefinesMap(Fresh(), a);
    GetIsLookup(Insert(Fresh(), a), first);
    ReuseReturnsTheFreedHandle(Insert(Fresh(), a), first, b);
  }

  /** All handles insertions returned during a run. */
  ghost function Issued<A>(ops: seq<Op<A>>): (hs: set<Handle>) {
    if ops == [] then {}
    else
      Issued(ops[..|ops| - 1]) +
      (if ops[|ops| - 1].InsertOp? then {NextHandle(Run(ops[..|ops| - 1]))} else {})
  }

  ghost function FirstGeneration(n: nat): (hs: set<Handle>)
    requires n <= WORD
  {
    set s | 0 < s < n :: PackHandle(s, 1)
  }

  lemma FirstGenerationMember(n: nat, s: nat)
    requires n <= WORD && s < WORD
    ensures PackHandle(s, 1) in FirstGeneration(n) <==> 0 < s < n
    ensures s < WORD && n == s && s > 0 ==> FirstGeneration(s + 1) == FirstGeneration(s) + {PackHandle(s, 1)}
  {
  }

  /** The next handle is in the first generation; its slot is new exactly if nothing is free. */
  lemma NextHandleSlot<A>(r: State<A>)
    requires Wf(r) && HasRoom(r)
    ensures var s := SlotOf(NextHandle(r));
      && NextHandle(r) == PackHandle(s, 1)
      && (if r.freelist == [] then s == |r.slots| else 0 < s < |r.slots|)
  {
  }

  lemma {:induction false} IssuedIsFirstGeneration<A>(ops: seq<Op<A>>)
    requires HighWater(ops) <= WORD
    ensures Issued(ops) == FirstGeneration(HighWater(ops))
  {
    if ops == [] {
      assert FirstGeneration(1) == {};
    } else {
      var before, op := ops[..|ops| - 1], ops[|ops| - 1];
      var r := Run(before);
      InsertHadRoom(ops);
      IssuedIsFirstGeneration(before);
      StepLength(r, op);
      if op.InsertOp? {
        NextHandleSlot(r);
        FirstGenerationMember(HighWater(before), SlotOf(NextHandle(r)));
      }
    }
  }

  /** The promise that a released handle stays dead holds for an insertion exactly when it does
      not reuse a slot: its handle was never issued before iff the freelist is empty and no
      drain has shortened the slot vector. */
  lemma {:induction false} InsertIsFreshIff<A>(ops: seq<Op<A>>)
    requires HighWater(ops) <= WORD && HasRoom(Run(ops))
    ensures NextHandle(Run(ops)) !in Issued(ops) <==>
            Run(ops).freelist == [] && |Run(ops).slots| == HighWater(ops)
  {
    IssuedIsFirstGeneration(ops);
    NextHandleSlot(Run(ops));
    FirstGenerationMember(HighWater(ops), SlotOf(NextHandle(Run(ops))));
  }

  lemma InsertFacts<A>(r: State<A>, item: A)
    requires Wf(r)
    ensures Wf(Insert(r, item)) && Occupied(Insert(r, item).slots) == Occupied(r.slots) + 1
    ensures HasRoom(r) ==>
      var h := NextHandle(r);
      h != 0 && h !in Bindings(r) && Bindings(Insert(r, item)) == Bindings(r)[h := item]
  {
    InsertKeepsWf(r, item);
    InsertCounts(r, item);
    if HasRoom(r) {
      InsertRefinesMap(r, item);
    }
  }

  // ── The registry object ────────────────────────────────────────────────────

  class ArrayRegistry<A> {
    var slots: seq<Option<Entry<A>>>
    var freelist: seq<nat>
    var totalAllocated: nat
    ghost var log: seq<Op<A>>  // every change so far

    ghost function Model(): (r: State<A>)
      reads this
    {
      State(slots, freelist, totalAllocated)
    }

    ghost predicate Valid()
      reads this
    {
      Wf(Model())
    }

    constructor ()
      ensures Valid() && Model() == Fresh() && log == []
    {
      slots := [None];
      freelist := [];
      totalAllocated := 0;
      log := [];
    }

    method InsertArray(item: A) returns (h: Handle)
      requires Valid()
      modifies this
      ensures Valid() && Model() == Insert(old(Model()), item) && h == NextHandle(old(Model()))
      ensures old(HasRoom(Model())) ==>
        h != 0 && h !in old(Bindings(Model())) && Bindings(Model()) == old(Bindings(Model()))[h := item]
      ensures Occupied(slots) == old(Occupied(slots)) + 1
      ensures old(HasRoom(Model())) && |old(slots)| <= WORD ==> |slots| <= WORD
      ensures log == old(log) + [InsertOp(item)]
    {
      ghost var r := Model();
      InsertFacts(r, item);
      h := PlaceArray(item);
      log := log + [InsertOp(item)];
      assert Model() == Insert(r, item) && slots == Insert(r, item).slots;
    }

    /** Reuse a free slot, or push a new one. */
    method PlaceArray(item: A) returns (h: Handle)
      requires Shape(Model())
      modifies this
      ensures Model() == Insert(old(Model()), item) && h == NextHandle(old(Model())) && log == old(log)
    {
      if freelist != [] {
        var reused := freelist[|freelist| - 1];
        freelist := freelist[..|freelist| - 1];
        var existing := slots[reused];
        var generation := ReusedGeneration(existing);
        slots := slots[reused := Some(Entry(item, generation))];
        h := PackHandle(reused, generation);
      } else {
        var slot := |slots| % WORD;
        slots := slots + [Some(Entry(item, 1))];
        h := PackHandle(slot, 1);
      }
      totalAllocated := totalAllocated + 1;
    }

    method GetArray(h: Handle) returns (found: Option<A>)
      requires Valid()
      ensures found.Some? <==> h in Bindings(Model())
      ensures found.Some? ==> found.value == Bindings(Model())[h]
    {
      GetIsLookup(Model(), h);
      var slot, generation := SlotOf(h), GenerationOf(h);
      if slot == 0 || slot >= |slots| {
        return None;
      }
      match slots[slot]
      case Some(e) =>
        found := if e.generation == generation then Some(e.item) else None;
      case None =>
        found := None;
    }

    method RemoveArray(h: Handle) returns (removed: Option<A>)
      requires Valid()
      modifies this
      ensures Valid() && Model() == Remove(old(Model()), h)
      ensures Bindings(Model()) == old(Bindings(Model())) - {h}
      ensures |slots| == |old(slots)|
      ensures log == old(log) + [RemoveOp(h)]
      ensures removed.Some? <==> h in old(Bindings(Model()))
      ensures removed.Some? ==> removed.value == old(Bindings(Model()))[h]
    {
      GetIsLookup(Model(), h);
      RemoveRefinesMap(Model(), h);
      removed := TakeArray(h);
      log := log + [RemoveOp(h)];
    }

    /** Take what the slot holds; put it back if it has another generation. */
    method TakeArray(h: Handle) returns (removed: Option<A>)
      modifies this
      ensures Model() == Remove(old(Model()), h) && removed == old(Get(Model(), h)) && log == old(log)
    {
      var slot, generation := SlotOf(h), GenerationOf(h);
      if slot == 0 || slot >= |slots| {
        return None;
      }
      var taken := slots[slot];
      slots := slots[slot := None];
      if taken.Some? && taken.value.generation == generation {
        freelist := freelist + [slot];
        removed := Some(taken.value.item);
      } else {
        slots := slots[slot := taken];
        removed := None;
      }
    }

    method DrainAll()
      modifies this
      ensures Valid() && Model() == Drain(old(Model())) && Bindings(Model()) == map[]
      ensures log == old(log) + [DrainOp]
    {
      slots := [None];
      freelist := [];
      DrainRefinesMap(Model());
      log := log + [DrainOp];
    }

    method HandleCount() returns (n: nat)
      requires Valid()
      ensures n == Occupied(slots)
      ensures |slots| <= WORD ==> n == |Bindings(Model())|
    {
      n := 0;
      for i := 0 to |slots|
        invariant n == Occupied(slots[..i])
      {
        assert slots[..i + 1][..i] == slots[..i];
        if slots[i].Some? {
          n := n + 1;
        }
      }
      assert slots[..|slots|] == slots;
      if |slots| <= WORD {
        HandleCountIsMapSize(Model());
      }
    }
  }
}

/** A registry that keeps a slot's generation when the slot is freed, so that reuse bumps it.
    This is what the handle documentation describes; `Registry` models what the code does. */
module GenerationalRegistry {
  import opened Common
  import opened Registry

  datatype Slot<A> = Slot(content: Option<A>, generation: nat)

  datatype Table<A> = Table(slots: seq<Slot<A>>, freelist: seq<nat>)

  datatype Command<A> = Put(item: A) | Free(handle: Handle) | DrainAll

  function Empty<A>(): (t: Table<A>) { Table([Slot(None, 0)], []) }

  ghost predicate WellFormed<A>(t: Table<A>) {
    && |t.slots| > 0 && t.slots[0].content.None?
    && (forall i :: 0 <= i < |t.freelist| ==> 0 < t.freelist[i] < |t.slots| && t.slots[t.freelist[i]].content.None?)
    && (forall i, j :: 0 <= i < j < |t.freelist| ==> t.freelist[i] != t.freelist[j])
  }

  /** Every index and generation used so far, and the next one, fits 32 bits. */
  ghost predicate Bounded<A>(t: Table<A>) {
    |t.slots| < WORD && forall i :: 0 <= i < |t.slots| ==> t.slots[i].generation + 1 < WORD
  }

  function TargetSlot<A>(t: Table<A>): (s: nat) {
    if t.freelist != [] then t.freelist[|t.freelist| - 1] else |t.slots|
  }

  function TargetGeneration<A>(t: Table<A>): (g: nat)
    requires t.freelist != [] ==> t.freelist[|t.freelist| - 1] < |t.slots|
  {
    if t.freelist != [] then t.slots[TargetSlot(t)].generation + 1 else 1
  }

  ghost function PutHandle<A>(t: Table<A>): (h: Handle)
    requires WellFormed(t) && Bounded(t)
  {
    PackHandle(TargetSlot(t), TargetGeneration(t))
  }

  function PutItem<A>(t: Table<A>, item: A): (t': Table<A>)
    requires t.freelist != [] ==> t.freelist[|t.freelist| - 1] < |t.slots|
  {
    var filled := Slot(Some(item), TargetGeneration(t));
    if t.freelist != [] then Table(t.slots[TargetSlot(t) := filled], t.freelist[..|t.freelist| - 1])
    else Table(t.slots + [filled], [])
  }

  function Find<A>(t: Table<A>, h: Handle): (o: Option<A>) {
    var s := SlotOf(h);
    if s == 0 || s >= |t.slots| || t.slots[s].generation != GenerationOf(h) then None else t.slots[s].content
  }

  /** Freeing empties the slot and keeps its generation. */
  function FreeHandle<A>(t: Table<A>, h: Handle): (t': Table<A>) {
    if Find(t, h).None? then t
    else
      var s := SlotOf(h);
      Table(t.slots[s := t.slots[s].(content := None)], t.freelist + [s])
  }

  /** Draining empties every slot and keeps the generations. */
  function DrainTable<A>(t: Table<A>): (t': Table<A>)
    requires |t.slots| > 0
  {
    Table(
      seq(|t.slots|, s requires 0 <= s < |t.slots| => t.slots[s].(content := None)),
      seq(|t.slots| - 1, i => i + 1))
  }

  ghost function After<A>(t: Table<A>, c: Command<A>): (t': Table<A>)
    requires WellFormed(t)
    ensures WellFormed(t')
  {
    match c
    case Put(item) => PutItem(t, item)
    case Free(h) => FreeHandle(t, h)
    case DrainAll => DrainTable(t)
  }

  ghost function Replayed<A>(cs: seq<Command<A>>): (t: Table<A>)
    ensures WellFormed(t)
  {
    if cs == [] then Empty() else After(Replayed(cs[..|cs| - 1]), cs[|cs| - 1])
  }

  /** The variant is a registry: a new handle resolves to its item, a freed one to nothing, a drain
      leaves none, and otherwise every handle resolves to what it did. */
  lemma CommandsAct<A>(t: Table<A>, c: Command<A>, k: Handle)
    requires WellFormed(t) && (c.Put? ==> Bounded(t))
    ensures
      Find(After(t, c), k) ==
      match c
      case Put(item) => (if k == PutHandle(t) then Some(item) else Find(t, k))
      case Free(h) => (if k == h then None else Find(t, k))
      case DrainAll => None
  {
    UnpackPack(k);
    if c.Free? {
      UnpackPack(c.handle);
    }
  }

  lemma UnpackPack(h: Handle)
    ensures h == GenerationOf(h) * WORD + SlotOf(h)
  {
  }

  /** A handle is spent in `t` if it is older than its slot's current content: an earlier
      generation, or the current generation of an empty slot. */
  ghost predicate Spent<A>(t: Table<A>, h: Handle) {
    var s := SlotOf(h);
    && 0 < s < |t.slots|
    && GenerationOf(h) <= t.slots[s].generation
    && (GenerationOf(h) == t.slots[s].generation ==> t.slots[s].content.None?)
  }

  /** Spent handles do not resolve, are not handed out again, and stay spent. */
  lemma SpentStaysSpent<A>(t: Table<A>, c: Command<A>, h: Handle)
    requires WellFormed(t) && Spent(t, h)
    ensures Find(t, h).None?
    ensures Bounded(t) ==> PutHandle(t) != h
    ensures Spent(After(t, c), h)
  {
  }

  /** A command revokes a live handle by freeing it or by draining. */
  ghost predicate Revokes<A>(t: Table<A>, c: Command<A>, h: Handle) {
    Find(t, h).Some? && (c == Free(h) || c.DrainAll?)
  }

  ghost predicate Revoked<A>(cs: seq<Command<A>>, h: Handle) {
    cs != [] && (Revoked(cs[..|cs| - 1], h) || Revokes(Replayed(cs[..|cs| - 1]), cs[|cs| - 1], h))
  }

  lemma RevokingSpends<A>(t: Table<A>, c: Command<A>, h: Handle)
    requires WellFormed(t) && Revokes(t, c, h)
    ensures Spent(After(t, c), h)
  {
  }

  lemma {:induction false} RevokedAreSpent<A>(cs: seq<Command<A>>, h: Handle)
    requires Revoked(cs, h)
    ensures Spent(Replayed(cs), h)
  {
    var before, c := cs[..|cs| - 1], cs[|cs| - 1];
    if Revoked(before, h) {
      RevokedAreSpent(before, h);
      SpentStaysSpent(Replayed(before), c, h);
    } else {
      RevokingSpends(Replayed(before), c, h);
    }
  }

  /** The documented promise, for every run of any length: a revoked handle does not resolve, and
      it is not issued again as long as slots and generations fit 32 bits. */
  lemma {:induction false} StaleHandlesFail<A>(cs: seq<Command<A>>, h: Handle)
    requires Revoked(cs, h)
    ensures Find(Replayed(cs), h).None?
    ensures Bounded(Replayed(cs)) ==> PutHandle(Replayed(cs)) != h
  {
    RevokedAreSpent(cs, h);
    SpentStaysSpent(Replayed(cs), Free(h), h);
  }
}

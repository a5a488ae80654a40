/** The registry shared by several clients: each inserts arrays and frees handles of its own, in any
    interleaving, and nobody drains. What one client holds is safe from the others. */
module SharedRegistry {
  import opened Common
  import opened Registry

  /** The registry, the handles one client holds, and those of all the others. */
  datatype World<A> = World(registry: State<A>, held: map<Handle, A>, theirs: map<Handle, A>)

  /** The registry binds exactly the handles that someone holds, and each has one holder. */
  ghost predicate Owned<A>(w: World<A>) {
    Wf(w.registry) && w.held.Keys !! w.theirs.Keys && Bindings(w.registry) == w.held + w.theirs
  }

  function Take<A>(w: World<A>, item: A): (w': World<A>)
    requires Shape(w.registry)
  {
    World(Insert(w.registry, item), w.held[NextHandle(w.registry) := item], w.theirs)
  }

  function Give<A>(w: World<A>, h: Handle): (w': World<A>) {
    World(Remove(w.registry, h), w.held - {h}, w.theirs)
  }

  /** What the others do: insert an array, or free a handle. */
  datatype Foreign<A> = TheyInsert(item: A) | TheyFree(handle: Handle)

  /** They free only handles they hold. */
  predicate Theirs<A>(w: World<A>, f: Foreign<A>) {
    match f
    case TheyInsert(_) => HasRoom(w.registry)
    case TheyFree(h) => h in w.theirs
  }

  function Interfere<A>(w: World<A>, f: Foreign<A>): (w': World<A>)
    requires Shape(w.registry)
  {
    match f
    case TheyInsert(item) =>
      World(Insert(w.registry, item), w.held, w.theirs[NextHandle(w.registry) := item])
    case TheyFree(h) => World(Remove(w.registry, h), w.held, w.theirs - {h})
  }

  lemma UnionAdd<A>(a: map<Handle, A>, b: map<Handle, A>, h: Handle, item: A)
    requires h !in a + b
    ensures (a + b)[h := item] == a[h := item] + b && (a + b)[h := item] == a + b[h := item]
    ensures h !in a && h !in b
  {
  }

  lemma UnionDrop<A>(a: map<Handle, A>, b: map<Handle, A>, h: Handle)
    requires a.Keys !! b.Keys
    ensures h in a ==> (a + b) - {h} == (a - {h}) + b
    ensures h in b ==> (a + b) - {h} == a + (b - {h})
  {
  }

  lemma TakeKeepsOwned<A>(w: World<A>, item: A)
    requires Owned(w) && HasRoom(w.registry)
    ensures Owned(Take(w, item)) && NextHandle(w.registry) !in w.held && NextHandle(w.registry) !in w.theirs
  {
    InsertRefinesMap(w.registry, item);
    UnionAdd(w.held, w.theirs, NextHandle(w.registry), item);
  }

  lemma GiveKeepsOwned<A>(w: World<A>, h: Handle)
    requires Owned(w) && h in w.held
    ensures Owned(Give(w, h))
  {
    RemoveRefinesMap(w.registry, h);
    UnionDrop(w.held, w.theirs, h);
  }

  lemma InterfereKeepsOwned<A>(w: World<A>, f: Foreign<A>)
    requires Owned(w) && Theirs(w, f)
    ensures Owned(Interfere(w, f)) && Interfere(w, f).held == w.held
  {
    if f.TheyInsert? {
      InsertRefinesMap(w.registry, f.item);
      UnionAdd(w.held, w.theirs, NextHandle(w.registry), f.item);
    } else {
      RemoveRefinesMap(w.registry, f.handle);
      UnionDrop(w.held, w.theirs, f.handle);
    }
  }
}

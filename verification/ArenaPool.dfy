/** The arena pool under concurrency. Every mutex-guarded section is one step, `acquire` and
    `release` are several, and steps of any number of threads interleave. */
module ArenaPool {
  import opened Common
  import opened ArenaLifecycle

  datatype Profile = IOSurfaceFp16ContiguousV1 | OtherProfile(text: string)

  datatype PoolKey = PoolKey(profile: Profile, dim0: nat, dim1: nat)

  /** An arena knows its logical shape; its byte size is what the allocator made it. */
  datatype Arena = Arena(dim0: nat, dim1: nat, bytes: nat)

  datatype PoolEntry = PoolEntry(arena: Arena, generation: nat, state: LifecycleState)

  type Entries = map<PoolKey, seq<PoolEntry>>

  datatype Limits = Limits(maxTotalBytes: nat, maxArenasPerKey: nat)

  // ── Guarded sections ───────────────────────────────────────────────────────

  /** The position of the first free entry. */
  function FirstFree(es: seq<PoolEntry>): (i: Option<nat>)
    ensures i.Some? ==> i.value < |es| && es[i.value].state == Free
    ensures i.None? ==> forall j :: 0 <= j < |es| ==> es[j].state != Free
  {
    if es == [] then None
    else if es[0].state == Free then Some(0)
    else
      match FirstFree(es[1..])
      case None => None
      case Some(i) => Some(i + 1)
  }

  /** Under the entries lock: take a free entry for the key out of the cache. */
  function TakeFree(entries: Entries, key: PoolKey): (r: (Option<Arena>, Entries)) {
    if key !in entries then (None, entries)
    else
      match FirstFree(entries[key])
      case None => (None, entries)
      case Some(i) => (Some(entries[key][i].arena), entries[key := entries[key][..i] + entries[key][i + 1..]])
  }

  /** Under the entries lock: cache the arena if the key has room. */
  function Offer(entries: Entries, key: PoolKey, arena: Arena, limit: nat): (r: (bool, Entries)) {
    var es := if key in entries then entries[key] else [];
    if |es| >= limit then (false, entries[key := es])
    else (true, entries[key := es + [PoolEntry(arena, 0, Free)]])
  }

  function SaturatingSub(a: nat, b: nat): (n: nat)
    ensures n + b == a || (n == 0 && a < b)
  {
    if a >= b then a - b else 0
  }

  // ── Sums ───────────────────────────────────────────────────────────────────

  ghost function Sum<K>(m: map<K, nat>): (n: nat) {
    if m == map[] then 0 else var k :| k in m; m[k] + Sum(m - {k})
  }

  lemma {:induction false} SumRemove<K>(m: map<K, nat>, k: K)
    requires k in m
    ensures Sum(m) == m[k] + Sum(m - {k})
    decreases |m|
  {
    var c :| c in m && Sum(m) == m[c] + Sum(m - {c});
    if c != k {
      SumRemove(m - {c}, k);
      SumRemove(m - {k}, c);
      assert m - {c} - {k} == m - {k} - {c};
    }
  }

  lemma SumSet<K>(m: map<K, nat>, k: K, v: nat)
    ensures Sum(m[k := v]) + (if k in m then m[k] else 0) == Sum(m) + v
  {
    SumRemove(m[k := v], k);
    assert m[k := v] - {k} == m - {k};
    if k in m {
      SumRemove(m, k);
    } else {
      assert m - {k} == m;
    }
  }

  function EntryBytes(es: seq<PoolEntry>): (n: nat) {
    if es == [] then 0 else EntryBytes(es[..|es| - 1]) + es[|es| - 1].arena.bytes
  }

  function ArenaBytes(arenas: seq<Arena>): (n: nat) {
    if arenas == [] then 0 else ArenaBytes(arenas[..|arenas| - 1]) + arenas[|arenas| - 1].bytes
  }

  ghost function Sizes(entries: Entries): (m: map<PoolKey, nat>) {
    map k | k in entries :: EntryBytes(entries[k])
  }

  ghost function CachedBytes(entries: Entries): (n: nat) { Sum(Sizes(entries)) }

  lemma SizesSet(entries: Entries, key: PoolKey, es: seq<PoolEntry>)
    ensures Sizes(entries[key := es]) == Sizes(entries)[key := EntryBytes(es)]
  {
  }

  lemma CachedSet(entries: Entries, key: PoolKey, es: seq<PoolEntry>)
    ensures
      CachedBytes(entries[key := es]) + (if key in entries then EntryBytes(entries[key]) else 0) ==
      CachedBytes(entries) + EntryBytes(es)
  {
    SizesSet(entries, key, es);
    SumSet(Sizes(entries), key, EntryBytes(es));
  }

  lemma EntryAppend(es: seq<PoolEntry>, e: PoolEntry)
    ensures EntryBytes(es + [e]) == EntryBytes(es) + e.arena.bytes
  {
    assert (es + [e])[..|es|] == es;
  }

  lemma {:induction false} EntryRemove(es: seq<PoolEntry>, i: nat)
    requires i < |es|
    ensures EntryBytes(es) == EntryBytes(es[..i] + es[i + 1..]) + es[i].arena.bytes
  {
    var last := |es| - 1;
    if i == last {
      assert es[..i] + es[i + 1..] == es[..last];
    } else {
      EntryRemove(es[..last], i);
      assert (es[..i] + es[i + 1..])[..last - 1] == es[..last][..i] + es[..last][i + 1..];
    }
  }

  lemma {:induction false} ArenaRemove(xs: seq<Arena>, i: nat)
    requires i < |xs|
    ensures ArenaBytes(xs) == ArenaBytes(xs[..i] + xs[i + 1..]) + xs[i].bytes
  {
    var last := |xs| - 1;
    if i == last {
      assert xs[..i] + xs[i + 1..] == xs[..last];
    } else {
      ArenaRemove(xs[..last], i);
      assert (xs[..i] + xs[i + 1..])[..last - 1] == xs[..last][..i] + xs[..last][i + 1..];
    }
  }

  lemma ArenaAppend(xs: seq<Arena>, a: Arena)
    ensures ArenaBytes(xs + [a]) == ArenaBytes(xs) + a.bytes
  {
    assert (xs + [a])[..|xs|] == xs;
  }

  // ── What the sections keep ─────────────────────────────────────────────────

  /** No key caches more than its limit, and everything cached is free for reuse. */
  ghost predicate Tidy(entries: Entries, limit: nat) {
    forall k :: k in entries ==>
      |entries[k]| <= limit && forall i :: 0 <= i < |entries[k]| ==> entries[k][i].state == Free
  }

  /** Only keys with the supported profile can be asked for. */
  predicate Served(key: PoolKey) { key.profile == IOSurfaceFp16ContiguousV1 }

  /** Under every key that can be asked for, cached arenas have the shape the key says. */
  ghost predicate Shaped(entries: Entries) {
    forall k :: k in entries && Served(k) ==> forall i :: 0 <= i < |entries[k]| ==> Fits(k, entries[k][i].arena)
  }

  predicate Fits(key: PoolKey, a: Arena) { a.dim0 == key.dim0 && a.dim1 == key.dim1 }

  /** Reuse moves exactly one arena's bytes out of the cache; it happens whenever the key has
      anything cached. */
  lemma TakeKeeps(entries: Entries, key: PoolKey, limit: nat)
    requires Tidy(entries, limit)
    ensures Tidy(TakeFree(entries, key).1, limit)
    ensures TakeFree(entries, key).0.Some? <==> key in entries && entries[key] != []
    ensures
      var (got, rest) := TakeFree(entries, key);
      CachedBytes(entries) == CachedBytes(rest) + (if got.Some? then got.value.bytes else 0)
  {
    if key in entries && FirstFree(entries[key]).Some? {
      var i := FirstFree(entries[key]).value;
      EntryRemove(entries[key], i);
      CachedSet(entries, key, entries[key][..i] + entries[key][i + 1..]);
    }
  }

  lemma TakeKeepsShape(entries: Entries, key: PoolKey)
    requires Shaped(entries)
    ensures Shaped(TakeFree(entries, key).1)
    ensures Served(key) && TakeFree(entries, key).0.Some? ==> Fits(key, TakeFree(entries, key).0.value)
  {
  }

  lemma OfferKeepsTidy(entries: Entries, key: PoolKey, arena: Arena, limit: nat)
    requires Tidy(entries, limit)
    ensures Tidy(Offer(entries, key, arena, limit).1, limit)
  {
  }

  /** Storing adds exactly the arena's bytes; refusing changes nothing. */
  lemma OfferCounts(entries: Entries, key: PoolKey, arena: Arena, limit: nat)
    ensures
      var (stored, grown) := Offer(entries, key, arena, limit);
      CachedBytes(grown) == CachedBytes(entries) + (if stored then arena.bytes else 0)
  {
    var es := if key in entries then entries[key] else [];
    var e := PoolEntry(arena, 0, Free);
    EntryAppend(es, e);
    if |es| >= limit {
      CachedSet(entries, key, es);
    } else {
      CachedSet(entries, key, es + [e]);
    }
  }

  function CachedUnder(entries: Entries, key: PoolKey): (n: nat) { if key in entries then |entries[key]| else 0 }

  /** Offering an arena keeps a shaped cache shaped exactly if the arena fits the key, or the key is
      full and the arena is dropped, or the key cannot be asked for. */
  lemma OfferKeepsShapeIff(entries: Entries, key: PoolKey, arena: Arena, limit: nat)
    requires Shaped(entries)
    ensures
      Shaped(Offer(entries, key, arena, limit).1) <==>
      Fits(key, arena) || CachedUnder(entries, key) >= limit || !Served(key)
  {
    var n := CachedUnder(entries, key);
    var (stored, grown) := Offer(entries, key, arena, limit);
    if stored {
      assert grown[key][n].arena == arena;
    }
  }

  // ── Threads ────────────────────────────────────────────────────────────────

  /** Where a thread is inside a call. */
  datatype Thread =
    | Idle
    | Acquiring(key: PoolKey)                 // about to look for a free entry
    | Allocating(key: PoolKey)                // found none, lock given up
    | Charging(key: PoolKey, arena: Arena)    // allocated, not yet in the budget
    | Releasing(key: PoolKey, arena: Arena)   // about to offer the arena to the cache
    | Dropping(bytes: nat)                    // arena dropped, entries lock held, budget not yet reduced

  datatype Pool = Pool(
    entries: Entries, currentBytes: nat, holder: Option<nat>, lent: seq<Arena>, threads: seq<Thread>)

  /** Steps. `CallAcquire` and `CallRelease` start calls; the rest run them. The allocator's
      answer is in the `Allocate` label. */
  datatype Action =
    | CallAcquire(t: nat, key: PoolKey)
    | TryReuse(t: nat)
    | Allocate(t: nat, bytes: Option<nat>)
    | Charge(t: nat)
    | CallRelease(t: nat, key: PoolKey, i: nat)
    | Store(t: nat)
    | Uncharge(t: nat)

  predicate Enabled(s: Pool, a: Action) {
    && a.t < |s.threads|
    && match a
       case CallAcquire(t, _) => s.threads[t].Idle?
       case TryReuse(t) => s.threads[t].Acquiring? && s.holder.None?
       case Allocate(t, _) => s.threads[t].Allocating?
       case Charge(t) => s.threads[t].Charging?
       case CallRelease(t, _, i) => s.threads[t].Idle? && i < |s.lent|
       case Store(t) => s.threads[t].Releasing? && s.holder.None?
       case Uncharge(t) => s.threads[t].Dropping?
  }

  function Goto(s: Pool, t: nat, th: Thread): (s': Pool)
    requires t < |s.threads|
  {
    s.(threads := s.threads[t := th])
  }

  function Step(l: Limits, s: Pool, a: Action): (s': Pool)
    requires Enabled(s, a)
  {
    match a
    case CallAcquire(t, key) =>
      if key.profile != IOSurfaceFp16ContiguousV1 then s else Goto(s, t, Acquiring(key))
    case TryReuse(t) =>
      var key := s.threads[t].key;
      (match TakeFree(s.entries, key)
       case (None, _) => Goto(s, t, Allocating(key))
       case (Some(arena), rest) => Goto(s, t, Idle).(entries := rest, lent := s.lent + [arena]))
    case Allocate(t, bytes) =>
      var key := s.threads[t].key;
      if bytes.None? then Goto(s, t, Idle) else Goto(s, t, Charging(key, Arena(key.dim0, key.dim1, bytes.value)))
    case Charge(t) =>
      var arena := s.threads[t].arena;
      if s.currentBytes + arena.bytes > l.maxTotalBytes then Goto(s, t, Idle)
      else Goto(s, t, Idle).(currentBytes := s.currentBytes + arena.bytes, lent := s.lent + [arena])
    case CallRelease(t, key, i) =>
      Goto(s, t, Releasing(key, s.lent[i])).(lent := s.lent[..i] + s.lent[i + 1..])
    case Store(t) =>
      var th := s.threads[t];
      var (stored, entries) := Offer(s.entries, th.key, th.arena, l.maxArenasPerKey);
      if stored then Goto(s, t, Idle).(entries := entries)
      else Goto(s, t, Dropping(th.arena.bytes)).(entries := entries, holder := Some(t))
    case Uncharge(t) =>
      Goto(s, t, Idle).(currentBytes := SaturatingSub(s.currentBytes, s.threads[t].bytes), holder := None)
  }

  /** Bytes still in the budget that a call has in hand: an arena on its way back, or one dropped
      but not yet subtracted. */
  function InHand(th: Thread): (n: nat) {
    match th
    case Releasing(_, arena) => arena.bytes
    case Dropping(bytes) => bytes
    case _ => 0
  }

  function InHandBytes(threads: seq<Thread>): (n: nat) {
    if threads == [] then 0 else InHandBytes(threads[..|threads| - 1]) + InHand(threads[|threads| - 1])
  }

  lemma {:induction false} InHandUpdate(threads: seq<Thread>, t: nat, th: Thread)
    requires t < |threads|
    ensures InHandBytes(threads[t := th]) + InHand(threads[t]) == InHandBytes(threads) + InHand(th)
  {
    var last := |threads| - 1;
    if t == last {
      assert threads[t := th][..last] == threads[..last];
    } else {
      assert threads[t := th][..last] == threads[..last][t := th];
      InHandUpdate(threads[..last], t, th);
    }
  }

  lemma {:induction false} InHandAtLeast(threads: seq<Thread>, t: nat)
    requires t < |threads|
    ensures InHand(threads[t]) <= InHandBytes(threads)
  {
    if t < |threads| - 1 {
      InHandAtLeast(threads[..|threads| - 1], t);
    }
  }

  // ── Invariant ──────────────────────────────────────────────────────────────

  /** The budget counts exactly the bytes cached, lent, and in hand, and is never exceeded. */
  ghost predicate Accounted(l: Limits, s: Pool) {
    && s.currentBytes == CachedBytes(s.entries) + ArenaBytes(s.lent) + InHandBytes(s.threads)
    && s.currentBytes <= l.maxTotalBytes
  }

  /** The entries lock is held across a step exactly by the thread that is dropping an arena. */
  ghost predicate Locked(s: Pool) {
    && (s.holder.Some? ==> s.holder.value < |s.threads|)
    && forall t :: 0 <= t < |s.threads| ==> (s.threads[t].Dropping? <==> s.holder == Some(t))
  }

  ghost predicate Inv(l: Limits, s: Pool) {
    Accounted(l, s) && Tidy(s.entries, l.maxArenasPerKey) && Locked(s)
  }

  function Start(threads: nat): (s: Pool) { Pool(map[], 0, None, [], seq(threads, _ => Idle)) }

  lemma {:induction false} AllIdle(threads: seq<Thread>)
    requires forall t :: 0 <= t < |threads| ==> threads[t].Idle?
    ensures InHandBytes(threads) == 0
  {
    if threads != [] {
      AllIdle(threads[..|threads| - 1]);
    }
  }

  lemma StartInv(l: Limits, n: nat)
    ensures Inv(l, Start(n))
  {
    AllIdle(Start(n).threads);
    assert Sizes(map[]) == map[];
  }

  lemma StepKeepsLock(l: Limits, s: Pool, a: Action)
    requires Locked(s) && Enabled(s, a)
    ensures Locked(Step(l, s, a))
  {
  }

  lemma StepKeepsTidy(l: Limits, s: Pool, a: Action)
    requires Tidy(s.entries, l.maxArenasPerKey) && Enabled(s, a)
    ensures Tidy(Step(l, s, a).entries, l.maxArenasPerKey)
  {
    if a.TryReuse? {
      TakeKeeps(s.entries, s.threads[a.t].key, l.maxArenasPerKey);
    } else if a.Store? {
      OfferKeepsTidy(s.entries, s.threads[a.t].key, s.threads[a.t].arena, l.maxArenasPerKey);
    }
  }

  lemma ReuseKeepsAccount(l: Limits, s: Pool, t: nat)
    requires Inv(l, s) && Enabled(s, TryReuse(t))
    ensures Accounted(l, Step(l, s, TryReuse(t)))
  {
    var key := s.threads[t].key;
    InHandUpdate(s.threads, t, Step(l, s, TryReuse(t)).threads[t]);
    TakeKeeps(s.entries, key, l.maxArenasPerKey);
    if TakeFree(s.entries, key).0.Some? {
      ArenaAppend(s.lent, TakeFree(s.entries, key).0.value);
    }
  }

  lemma StoreKeepsAccount(l: Limits, s: Pool, t: nat)
    requires Inv(l, s) && Enabled(s, Store(t))
    ensures Accounted(l, Step(l, s, Store(t)))
  {
    var th := s.threads[t];
    InHandUpdate(s.threads, t, Step(l, s, Store(t)).threads[t]);
    OfferCounts(s.entries, th.key, th.arena, l.maxArenasPerKey);
  }

  lemma StepKeepsAccount(l: Limits, s: Pool, a: Action)
    requires Inv(l, s) && Enabled(s, a)
    ensures Accounted(l, Step(l, s, a))
  {
    if a.TryReuse? {
      ReuseKeepsAccount(l, s, a.t);
    } else if a.Store? {
      StoreKeepsAccount(l, s, a.t);
    } else {
      OtherKeepsAccount(l, s, a);
    }
  }

  /** A step of one thread that leaves the cache alone moves bytes between its hand, the arenas lent
      and the budget. */
  lemma GotoKeepsAccount(l: Limits, s: Pool, t: nat, th: Thread, lent: seq<Arena>, bytes: nat)
    requires Accounted(l, s) && t < |s.threads| && bytes <= l.maxTotalBytes
    requires
      bytes + ArenaBytes(s.lent) + InHand(s.threads[t]) == s.currentBytes + ArenaBytes(lent) + InHand(th)
    ensures Accounted(l, Goto(s, t, th).(lent := lent, currentBytes := bytes))
    ensures Accounted(l, Goto(s, t, th).(lent := lent, currentBytes := bytes, holder := None))
  {
    InHandUpdate(s.threads, t, th);
  }

  lemma ChargeKeepsAccount(l: Limits, s: Pool, t: nat)
    requires Accounted(l, s) && Enabled(s, Charge(t))
    ensures Accounted(l, Step(l, s, Charge(t)))
  {
    var arena := s.threads[t].arena;
    if s.currentBytes + arena.bytes > l.maxTotalBytes {
      GotoKeepsAccount(l, s, t, Idle, s.lent, s.currentBytes);
    } else {
      ArenaAppend(s.lent, arena);
      GotoKeepsAccount(l, s, t, Idle, s.lent + [arena], s.currentBytes + arena.bytes);
    }
  }

  lemma UnchargeKeepsAccount(l: Limits, s: Pool, t: nat)
    requires Accounted(l, s) && Enabled(s, Uncharge(t))
    ensures Accounted(l, Step(l, s, Uncharge(t)))
  {
    InHandAtLeast(s.threads, t);
    GotoKeepsAccount(l, s, t, Idle, s.lent, s.currentBytes - s.threads[t].bytes);
  }

  lemma OtherKeepsAccount(l: Limits, s: Pool, a: Action)
    requires Accounted(l, s) && Enabled(s, a) && !a.TryReuse? && !a.Store?
    ensures Accounted(l, Step(l, s, a))
  {
    if a.Charge? {
      ChargeKeepsAccount(l, s, a.t);
    } else if a.Uncharge? {
      UnchargeKeepsAccount(l, s, a.t);
    } else if a.CallRelease? {
      ArenaRemove(s.lent, a.i);
      GotoKeepsAccount(l, s, a.t, Releasing(a.key, s.lent[a.i]), s.lent[..a.i] + s.lent[a.i + 1..], s.currentBytes);
    } else {
      GotoKeepsAccount(l, s, a.t, Step(l, s, a).threads[a.t], s.lent, s.currentBytes);
    }
  }

  lemma StepKeepsInv(l: Limits, s: Pool, a: Action)
    requires Inv(l, s) && Enabled(s, a)
    ensures Inv(l, Step(l, s, a))
  {
    StepKeepsAccount(l, s, a);
    StepKeepsTidy(l, s, a);
    StepKeepsLock(l, s, a);
  }

  // ── Whole runs ─────────────────────────────────────────────────────────────

  /** The state after a run from `start`, if every step was enabled in its turn. */
  function ExecFrom(l: Limits, start: Pool, run: seq<Action>): (s: Option<Pool>) {
    if run == [] then Some(start)
    else
      match ExecFrom(l, start, run[..|run| - 1])
      case None => None
      case Some(s) => if Enabled(s, run[|run| - 1]) then Some(Step(l, s, run[|run| - 1])) else None
  }

  /** The state after a run of `n` threads on a new pool. */
  function Exec(l: Limits, n: nat, run: seq<Action>): (s: Option<Pool>) { ExecFrom(l, Start(n), run) }

  /** In every reachable state of every interleaving the budget is exact and kept, no key caches
      more than its limit, and the lock is where it should be. */
  lemma {:induction false} ReachableInv(l: Limits, n: nat, run: seq<Action>)
    ensures Exec(l, n, run).Some? ==> Inv(l, Exec(l, n, run).value)
  {
    if run == [] {
      StartInv(l, n);
    } else {
      ReachableInv(l, n, run[..|run| - 1]);
      var before := Exec(l, n, run[..|run| - 1]);
      if before.Some? && Enabled(before.value, run[|run| - 1]) {
        StepKeepsInv(l, before.value, run[|run| - 1]);
      }
    }
  }

  /** The saturating subtraction never saturates. */
  lemma NeverSaturates(l: Limits, n: nat, run: seq<Action>, t: nat)
    requires Exec(l, n, run).Some? && Enabled(Exec(l, n, run).value, Uncharge(t))
    ensures
      var s := Exec(l, n, run).value;
      && s.threads[t].bytes <= s.currentBytes
      && Step(l, s, Uncharge(t)).currentBytes == s.currentBytes - s.threads[t].bytes
  {
    ReachableInv(l, n, run);
    InHandAtLeast(Exec(l, n, run).value.threads, t);
  }

  /** A new arena is admitted exactly if it fits beside everything cached, lent and in hand. */
  lemma AdmittedIff(l: Limits, n: nat, run: seq<Action>, t: nat)
    requires Exec(l, n, run).Some? && Enabled(Exec(l, n, run).value, Charge(t))
    ensures
      var s := Exec(l, n, run).value;
      var arena := s.threads[t].arena;
      Step(l, s, Charge(t)).lent == s.lent + [arena] <==>
      CachedBytes(s.entries) + ArenaBytes(s.lent) + InHandBytes(s.threads) + arena.bytes <= l.maxTotalBytes
  {
    ReachableInv(l, n, run);
  }

  /** No call is under way. */
  ghost predicate NoCalls(s: Pool) { forall t :: 0 <= t < |s.threads| ==> s.threads[t].Idle? }

  /** Once all calls have returned, the budget is exactly what is cached and what is lent. */
  lemma QuietBudget(l: Limits, n: nat, run: seq<Action>)
    requires Exec(l, n, run).Some? && NoCalls(Exec(l, n, run).value)
    ensures
      var s := Exec(l, n, run).value;
      s.currentBytes == CachedBytes(s.entries) + ArenaBytes(s.lent) <= l.maxTotalBytes && s.holder.None?
  {
    ReachableInv(l, n, run);
    AllIdle(Exec(l, n, run).value.threads);
  }

  // ── Progress ───────────────────────────────────────────────────────────────

  /** The next step of a call. An allocation may answer anything; `bytes` stands for its answer. */
  function NextAction(s: Pool, t: nat, bytes: Option<nat>): (a: Action)
    requires t < |s.threads| && !s.threads[t].Idle?
  {
    match s.threads[t]
    case Acquiring(_) => TryReuse(t)
    case Allocating(_) => Allocate(t, bytes)
    case Charging(_, _) => Charge(t)
    case Releasing(_, _) => Store(t)
    case Dropping(_) => Uncharge(t)
  }

  /** No deadlock: if some call is under way, some call can take its next step. A thread waits
      only for the entries lock, whose holder needs nothing that anyone holds. */
  lemma SomeCallCanStep(l: Limits, n: nat, run: seq<Action>, t: nat, bytes: Option<nat>) returns (u: nat)
    requires Exec(l, n, run).Some?
    requires t < |Exec(l, n, run).value.threads| && !Exec(l, n, run).value.threads[t].Idle?
    ensures
      var s := Exec(l, n, run).value;
      u < |s.threads| && !s.threads[u].Idle? && Enabled(s, NextAction(s, u, bytes))
  {
    ReachableInv(l, n, run);
    var s := Exec(l, n, run).value;
    u := if s.holder.Some? then s.holder.value else t;
  }

  function StepsLeft(th: Thread): (n: nat) {
    match th
    case Idle => 0
    case Acquiring(_) => 3
    case Allocating(_) => 2
    case Charging(_, _) => 1
    case Releasing(_, _) => 2
    case Dropping(_) => 1
  }

  function Work(threads: seq<Thread>): (n: nat) {
    if threads == [] then 0 else Work(threads[..|threads| - 1]) + StepsLeft(threads[|threads| - 1])
  }

  lemma {:induction false} WorkUpdate(threads: seq<Thread>, t: nat, th: Thread)
    requires t < |threads|
    ensures Work(threads[t := th]) + StepsLeft(threads[t]) == Work(threads) + StepsLeft(th)
  {
    var last := |threads| - 1;
    if t == last {
      assert threads[t := th][..last] == threads[..last];
    } else {
      assert threads[t := th][..last] == threads[..last][t := th];
      WorkUpdate(threads[..last], t, th);
    }
  }

  /** Every call ends: each of its steps reduces the work outstanding, whatever the others do. */
  lemma CallStepsReduceWork(l: Limits, s: Pool, a: Action)
    requires Enabled(s, a) && !a.CallAcquire? && !a.CallRelease?
    ensures Work(Step(l, s, a).threads) < Work(s.threads)
  {
    WorkUpdate(s.threads, a.t, Step(l, s, a).threads[a.t]);
  }

  // ── Shapes ─────────────────────────────────────────────────────────────────

  /** Callers give arenas back under the key they have the shape of. */
  predicate OwnKey(s: Pool, a: Action) {
    a.CallRelease? && a.i < |s.lent| ==> Fits(a.key, s.lent[a.i])
  }

  ghost predicate OwnKeysFrom(l: Limits, start: Pool, run: seq<Action>) {
    forall k :: 0 <= k < |run| ==>
      ExecFrom(l, start, run[..k]).Some? ==> OwnKey(ExecFrom(l, start, run[..k]).value, run[k])
  }

  ghost predicate OwnKeys(l: Limits, n: nat, run: seq<Action>) { OwnKeysFrom(l, Start(n), run) }

  ghost predicate ShapesKept(s: Pool) {
    && Shaped(s.entries)
    && (forall t :: 0 <= t < |s.threads| && s.threads[t].Releasing? ==> Fits(s.threads[t].key, s.threads[t].arena))
    && (forall t :: 0 <= t < |s.threads| && s.threads[t].Acquiring? ==> Served(s.threads[t].key))
  }

  lemma StepKeepsShapes(l: Limits, s: Pool, a: Action)
    requires ShapesKept(s) && Enabled(s, a) && OwnKey(s, a)
    ensures ShapesKept(Step(l, s, a))
  {
    if a.TryReuse? {
      TakeKeepsShape(s.entries, s.threads[a.t].key);
    } else if a.Store? {
      OfferKeepsShapeIff(s.entries, s.threads[a.t].key, s.threads[a.t].arena, l.maxArenasPerKey);
    }
  }

  lemma OwnKeysPrefix(l: Limits, start: Pool, run: seq<Action>)
    requires run != [] && OwnKeysFrom(l, start, run)
    ensures OwnKeysFrom(l, start, run[..|run| - 1])
  {
    var init := run[..|run| - 1];
    forall k | 0 <= k < |init| && ExecFrom(l, start, init[..k]).Some?
      ensures OwnKey(ExecFrom(l, start, init[..k]).value, init[k])
    {
      assert init[..k] == run[..k];
    }
  }

  /** Own-key runs keep the shapes of a pool that has them. */
  lemma {:induction false} ShapesKeptFrom(l: Limits, start: Pool, run: seq<Action>)
    requires ShapesKept(start) && OwnKeysFrom(l, start, run)
    ensures ExecFrom(l, start, run).Some? ==> ShapesKept(ExecFrom(l, start, run).value)
  {
    if run != [] {
      OwnKeysPrefix(l, start, run);
      ShapesKeptFrom(l, start, run[..|run| - 1]);
      var before := ExecFrom(l, start, run[..|run| - 1]);
      if before.Some? && Enabled(before.value, run[|run| - 1]) {
        StepKeepsShapes(l, before.value, run[|run| - 1]);
      }
    }
  }

  /** With callers that do so, every pooled arena handed out has the requested shape. */
  lemma PooledArenaFits(l: Limits, n: nat, run: seq<Action>, t: nat)
    requires OwnKeys(l, n, run) && Exec(l, n, run).Some? && Enabled(Exec(l, n, run).value, TryReuse(t))
    ensures
      var s := Exec(l, n, run).value;
      var (got, _) := TakeFree(s.entries, s.threads[t].key);
      && (got.Some? ==>
            && got.value.dim0 == s.threads[t].key.dim0 && got.value.dim1 == s.threads[t].key.dim1
            && Step(l, s, TryReuse(t)).lent == s.lent + [got.value])
      && (got.Some? <==> s.threads[t].key in s.entries && s.entries[s.threads[t].key] != [])
  {
    ShapesKeptFrom(l, Start(n), run);
    ReachableInv(l, n, run);
    var s := Exec(l, n, run).value;
    TakeKeepsShape(s.entries, s.threads[t].key);
    TakeKeeps(s.entries, s.threads[t].key, l.maxArenasPerKey);
  }

  lemma ExecStep(l: Limits, start: Pool, run: seq<Action>, a: Action, s: Pool)
    requires ExecFrom(l, start, run) == Some(s) && Enabled(s, a)
    ensures ExecFrom(l, start, run + [a]) == Some(Step(l, s, a))
    ensures OwnKeysFrom(l, start, run) && OwnKey(s, a) ==> OwnKeysFrom(l, start, run + [a])
  {
    var longer := run + [a];
    assert longer[..|run|] == run;
    assert forall k :: 0 <= k < |run| ==> longer[..k] == run[..k];
  }

  /** Whatever own-key callers do from here on, each pooled arena they get has the shape they asked
      for. */
  ghost predicate HandsOutOnlyFitting(l: Limits, s: Pool) {
    forall run, t: nat :: OwnKeysFrom(l, s, run) ==> FitsNext(l, s, run, t)
  }

  ghost predicate FitsNext(l: Limits, s: Pool, run: seq<Action>, t: nat) {
    var r := ExecFrom(l, s, run);
    r.Some? && Enabled(r.value, TryReuse(t)) ==>
      var key := r.value.threads[t].key;
      var (got, _) := TakeFree(r.value.entries, key);
      got.Some? ==> Fits(key, got.value)
  }

  lemma ShapesHandOutFitting(l: Limits, s: Pool)
    requires ShapesKept(s)
    ensures HandsOutOnlyFitting(l, s)
  {
    forall run, t: nat | OwnKeysFrom(l, s, run) ensures FitsNext(l, s, run, t) {
      ShapesKeptFrom(l, s, run);
      var r := ExecFrom(l, s, run);
      if r.Some? && Enabled(r.value, TryReuse(t)) {
        TakeKeepsShape(r.value.entries, r.value.threads[t].key);
      }
    }
  }

  /** Cached arenas come out in the order they went in: taking one leaves the rest. */
  lemma TakeFirst(entries: Entries, key: PoolKey, limit: nat)
    requires Tidy(entries, limit) && key in entries && entries[key] != []
    ensures TakeFree(entries, key) == (Some(entries[key][0].arena), entries[key := entries[key][1..]])
  {
    assert FirstFree(entries[key]) == Some(0);
    assert entries[key][..0] + entries[key][1..] == entries[key][1..];
  }

  /** A thread that keeps asking for the key gets its last cached arena in the end. */
  lemma {:induction false} AskUntilLast(l: Limits, s: Pool, run: seq<Action>, now: Pool, t: nat, key: PoolKey)
    returns (run': seq<Action>, now': Pool)
    requires ExecFrom(l, s, run) == Some(now) && OwnKeysFrom(l, s, run)
    requires t < |now.threads| && now.threads[t].Idle? && now.holder.None?
    requires Served(key) && Tidy(now.entries, l.maxArenasPerKey)
    requires key in now.entries && now.entries[key] != []
    ensures ExecFrom(l, s, run') == Some(now') && OwnKeysFrom(l, s, run')
    ensures Enabled(now', TryReuse(t)) && now'.threads[t].key == key
    ensures
      TakeFree(now'.entries, key).0 == Some(now.entries[key][|now.entries[key]| - 1].arena)
    decreases |now.entries[key]|
  {
    var last := now.entries[key][|now.entries[key]| - 1].arena;
    ExecStep(l, s, run, CallAcquire(t, key), now);
    run', now' := run + [CallAcquire(t, key)], Goto(now, t, Acquiring(key));
    TakeFirst(now.entries, key, l.maxArenasPerKey);
    if |now.entries[key]| > 1 {
      TakeKeeps(now.entries, key, l.maxArenasPerKey);
      ExecStep(l, s, run', TryReuse(t), now');
      var next := Step(l, now', TryReuse(t));
      run' := run' + [TryReuse(t)];
      assert next.entries[key][|next.entries[key]| - 1].arena == last;
      run', now' := AskUntilLast(l, s, run', next, t, key);
    }
  }

  function AfterRelease(l: Limits, s: Pool, t: nat, key: PoolKey, i: nat): (s': Pool)
    requires t < |s.threads| && s.threads[t].Idle? && s.holder.None? && i < |s.lent|
  {
    Step(l, Step(l, s, CallRelease(t, key, i)), Store(t))
  }

  /** Shapes are in order in the cache and in every call but `t`'s. */
  ghost predicate OthersKeepShapes(s: Pool, t: nat) {
    && Shaped(s.entries)
    && (forall u :: 0 <= u < |s.threads| && u != t && s.threads[u].Releasing? ==>
          Fits(s.threads[u].key, s.threads[u].arena))
    && (forall u :: 0 <= u < |s.threads| && u != t && s.threads[u].Acquiring? ==> Served(s.threads[u].key))
  }

  /** Whatever other calls are under way: after a release's guarded section, own-key callers get only
      what they ask for from then on, if and only if the arena fits the key it is released under, or
      that key is full, or no request for that key can be made. */
  lemma StoreKeepsShapesIff(l: Limits, s: Pool, t: nat)
    requires Enabled(s, Store(t)) && Tidy(s.entries, l.maxArenasPerKey) && OthersKeepShapes(s, t)
    ensures
      var key, arena := s.threads[t].key, s.threads[t].arena;
      HandsOutOnlyFitting(l, Step(l, s, Store(t))) <==>
      || Fits(key, arena)
      || CachedUnder(s.entries, key) >= l.maxArenasPerKey
      || !Served(key)
  {
    var key, arena, after := s.threads[t].key, s.threads[t].arena, Step(l, s, Store(t));
    OfferKeepsShapeIff(s.entries, key, arena, l.maxArenasPerKey);
    if Shaped(after.entries) {
      ShapesHandOutFitting(l, after);
    } else {
      OfferKeepsTidy(s.entries, key, arena, l.maxArenasPerKey);
      assert ExecFrom(l, after, []) == Some(after);
      var run, now := AskUntilLast(l, after, [], after, t, key);
      assert !FitsNext(l, after, run, t);
    }
  }

  /** So for every release by a thread that is in no call, whatever calls the others are in. */
  lemma ReleaseKeepsShapesIff(l: Limits, s: Pool, t: nat, key: PoolKey, i: nat)
    requires Tidy(s.entries, l.maxArenasPerKey) && ShapesKept(s) && s.holder.None? && i < |s.lent|
    requires t < |s.threads| && s.threads[t].Idle?
    ensures
      HandsOutOnlyFitting(l, AfterRelease(l, s, t, key, i)) <==>
      || Fits(key, s.lent[i])
      || CachedUnder(s.entries, key) >= l.maxArenasPerKey
      || !Served(key)
  {
    StoreKeepsShapesIff(l, Step(l, s, CallRelease(t, key, i)), t);
  }

  /** One thread borrows a 1x4 arena. */
  lemma {:induction false} BorrowFirst() returns (run: seq<Action>, s: Pool)
    ensures Exec(Limits(8, 1), 1, run) == Some(s) && s == Pool(map[], 8, None, [Arena(1, 4, 8)], [Idle])
  {
    var l, a, k14 := Limits(8, 1), Arena(1, 4, 8), PoolKey(IOSurfaceFp16ContiguousV1, 1, 4);
    run, s := [], Start(1);
    run, s := ReachNext(l, run, s, CallAcquire(0, k14), Pool(map[], 0, None, [], [Acquiring(k14)]));
    run, s := ReachNext(l, run, s, TryReuse(0), Pool(map[], 0, None, [], [Allocating(k14)]));
    run, s := ReachNext(l, run, s, Allocate(0, Some(8)), Pool(map[], 0, None, [], [Charging(k14, a)]));
    run, s := ReachNext(l, run, s, Charge(0), Pool(map[], 8, None, [a], [Idle]));
  }

  /** Callers that name another key get wrong shapes: a 1x4 arena given back under a 2x2 key is
      what the next request for 2x2 gets. */
  lemma {:induction false} WrongKeyWrongShape() returns (run: seq<Action>, s: Pool)
    ensures Exec(Limits(8, 1), 1, run) == Some(s) && Enabled(s, TryReuse(0))
    ensures
      var key := PoolKey(IOSurfaceFp16ContiguousV1, 2, 2);
      s.threads[0].key == key && TakeFree(s.entries, key).0 == Some(Arena(1, 4, 8))
  {
    var l, a, k22 := Limits(8, 1), Arena(1, 4, 8), PoolKey(IOSurfaceFp16ContiguousV1, 2, 2);
    run, s := BorrowFirst();
    assert s.lent[..0] + s.lent[1..] == [];
    assert [] + [PoolEntry(a, 0, Free)] == [PoolEntry(a, 0, Free)];
    run, s := ReachNext(l, run, s, CallRelease(0, k22, 0), Pool(map[], 8, None, [], [Releasing(k22, a)]));
    run, s := ReachNext(l, run, s, Store(0), Pool(map[k22 := [PoolEntry(a, 0, Free)]], 8, None, [], [Idle]));
    run, s := ReachNext(
      l, run, s, CallAcquire(0, k22), Pool(map[k22 := [PoolEntry(a, 0, Free)]], 8, None, [], [Acquiring(k22)]));
  }

  lemma ReachNext(l: Limits, run: seq<Action>, s: Pool, a: Action, next: Pool) returns (run': seq<Action>, s': Pool)
    requires Exec(l, 1, run) == Some(s) && Enabled(s, a) && Step(l, s, a) == next
    ensures Exec(l, 1, run') == Some(s') && s' == next
  {
    ExecStep(l, Start(1), run, a, s);
    run', s' := run + [a], next;
  }

  // ── The pool object ────────────────────────────────────────────────────────

  datatype Acquired = Acquired(arena: Arena, wasPooled: bool)

  datatype AcquireError = UnsupportedProfile | AllocationFailed | BudgetExceeded

  /** The pool with its two guarded fields; each method here runs without interruption. */
  class ArenaPool {
    const limits: Limits
    var entries: Entries
    var currentBytes: nat
    ghost var lent: seq<Arena>

    ghost predicate Valid()
      reads this
    {
      && currentBytes == CachedBytes(entries) + ArenaBytes(lent) <= limits.maxTotalBytes
      && Tidy(entries, limits.maxArenasPerKey)
    }

    constructor (maxTotalBytes: nat, maxArenasPerKey: nat)
      ensures Valid() && limits == Limits(maxTotalBytes, maxArenasPerKey) && entries == map[] && lent == []
    {
      limits := Limits(maxTotalBytes, maxArenasPerKey);
      entries, currentBytes, lent := map[], 0, [];
      new;
      assert Sizes(map[]) == map[];
    }

    /** Lend an arena: a cached one whenever the key has one, else a new one if it is allocated
        and fits the budget. `size` is the byte size the allocator would give. */
    method Acquire(key: PoolKey, size: Option<nat>) returns (r: Result<Acquired, AcquireError>)
      requires Valid()
      modifies this
      ensures Valid()
      ensures r == Err(UnsupportedProfile) <==> !Served(key)
      ensures r.Ok? && r.value.wasPooled <==> Served(key) && old(CachedUnder(entries, key)) > 0
      ensures r == Err(AllocationFailed) <==> Served(key) && old(CachedUnder(entries, key)) == 0 && size.None?
      ensures r == Err(BudgetExceeded) <==>
        && Served(key) && old(CachedUnder(entries, key)) == 0 && size.Some?
        && old(CachedBytes(entries) + ArenaBytes(lent)) + size.value > limits.maxTotalBytes
      ensures r.Err? ==> entries == old(entries) && currentBytes == old(currentBytes) && lent == old(lent)
      ensures r.Ok? ==> lent == old(lent) + [r.value.arena]
      ensures r.Ok? && r.value.wasPooled ==>
        && currentBytes == old(currentBytes) && (old(Shaped(entries)) ==> Fits(key, r.value.arena))
        && CachedBytes(entries) + r.value.arena.bytes == old(CachedBytes(entries))
      ensures r.Ok? && !r.value.wasPooled ==>
        && entries == old(entries) && size.Some? && r.value.arena == Arena(key.dim0, key.dim1, size.value)
        && currentBytes == old(currentBytes) + size.value
      ensures old(Shaped(entries)) ==> Shaped(entries)
    {
      if key.profile != IOSurfaceFp16ContiguousV1 {
        return Err(UnsupportedProfile);
      }
      TakeKeeps(entries, key, limits.maxArenasPerKey);
      if Shaped(entries) {
        TakeKeepsShape(entries, key);
      }
      var (got, rest) := TakeFree(entries, key);
      if got.Some? {
        ArenaAppend(lent, got.value);
        entries, lent := rest, lent + [got.value];
        return Ok(Acquired(got.value, true));
      }
      if size.None? {
        return Err(AllocationFailed);
      }
      var arena := Arena(key.dim0, key.dim1, size.value);
      if currentBytes + arena.bytes > limits.maxTotalBytes {
        return Err(BudgetExceeded);
      }
      ArenaAppend(lent, arena);
      currentBytes, lent := currentBytes + arena.bytes, lent + [arena];
      r := Ok(Acquired(arena, false));
    }

    /** Take a lent arena back: cache it while the key has room, else drop it from the budget. */
    method Release(key: PoolKey, arena: Arena, ghost i: nat)
      requires Valid() && i < |lent| && lent[i] == arena
      modifies this
      ensures Valid() && lent == old(lent)[..i] + old(lent)[i + 1..]
      ensures
        var room := old(CachedUnder(entries, key)) < limits.maxArenasPerKey;
        && currentBytes == old(currentBytes) - (if room then 0 else arena.bytes)
        && CachedBytes(entries) == old(CachedBytes(entries)) + (if room then arena.bytes else 0)
      ensures old(Shaped(entries)) ==>
        (Shaped(entries) <==>
         Fits(key, arena) || old(CachedUnder(entries, key)) >= limits.maxArenasPerKey || !Served(key))
    {
      OfferCounts(entries, key, arena, limits.maxArenasPerKey);
      OfferKeepsTidy(entries, key, arena, limits.maxArenasPerKey);
      ArenaRemove(lent, i);
      if Shaped(entries) {
        OfferKeepsShapeIff(entries, key, arena, limits.maxArenasPerKey);
      }
      var (stored, grown) := Offer(entries, key, arena, limits.maxArenasPerKey);
      entries := grown;
      lent := lent[..i] + lent[i + 1..];
      if !stored {
        currentBytes := SaturatingSub(currentBytes, arena.bytes);
      }
    }
  }
}

/** Leases on the registry: a client inserts arrays, keeps their handles, and frees them. What a
    lease does to the registry's contents, while it is held and after it is returned. */
module Leases {
  import opened Common
  import opened Registry

  // ── Contents as base plus borrowed handles ─────────────────────────────────

  /** Other clients' handles are untouched. */
  ghost predicate Extends<A>(base: map<Handle, A>, m: map<Handle, A>) {
    forall h :: h in base ==> h in m && m[h] == base[h]
  }

  /** `m` is `base` plus exactly the handles `hs`, each new and taken once. */
  ghost predicate Borrowed<A>(base: map<Handle, A>, hs: seq<Handle>, m: map<Handle, A>) {
    && NoDuplicates(hs)
    && (forall i :: 0 <= i < |hs| ==> hs[i] !in base)
    && m.Keys == base.Keys + Elements(hs)
    && Extends(base, m)
  }

  lemma BorrowNothing<A>(base: map<Handle, A>)
    ensures Borrowed(base, [], base)
  {
    assert Elements([]) == {};
  }

  lemma BorrowOne<A>(base: map<Handle, A>, hs: seq<Handle>, m: map<Handle, A>, h: Handle, item: A)
    requires Borrowed(base, hs, m) && h !in m
    ensures Borrowed(base, hs + [h], m[h := item])
  {
    assert Elements(hs + [h]) == Elements(hs) + {h};
    assert forall i :: 0 <= i < |hs| ==> hs[i] in Elements(hs);
  }

  lemma BorrowedSize<A>(base: map<Handle, A>, hs: seq<Handle>, m: map<Handle, A>)
    requires Borrowed(base, hs, m)
    ensures |m| == |base| + |hs|
  {
    DistinctCount(hs);
    assert base.Keys !! Elements(hs);
    assert |m.Keys| == |base.Keys| + |Elements(hs)|;
  }

  /** At most `n` handles more than `base`, and everything in `base` still there. */
  ghost predicate Within<A>(base: map<Handle, A>, n: nat, m: map<Handle, A>) {
    Extends(base, m) && |m| <= |base| + n
  }

  lemma SubsetSize(a: set<Handle>, b: set<Handle>)
    requires a <= b
    ensures |a| <= |b|
  {
    assert b == a + (b - a);
  }

  /** Giving back only borrowed handles stays within the borrow. */
  lemma ReturnsStayWithin<A>(base: map<Handle, A>, hs: seq<Handle>, m: map<Handle, A>, freed: set<Handle>)
    requires Borrowed(base, hs, m) && freed !! base.Keys
    ensures Within(base, |hs|, m - freed)
  {
    BorrowedSize(base, hs, m);
    SubsetSize((m - freed).Keys, m.Keys);
  }

  /** Giving handles back restores the base exactly if all of the borrowed ones are given back
      and none of the base. */
  lemma ReturnRestoresIff<A>(base: map<Handle, A>, hs: seq<Handle>, m: map<Handle, A>, freed: set<Handle>)
    requires Borrowed(base, hs, m)
    ensures m - freed == base <==> Elements(hs) <= freed && freed !! base.Keys
  {
    if m - freed == base {
      forall h | h in Elements(hs) ensures h in freed {
        assert h in m && h !in base;
      }
    }
    if Elements(hs) <= freed && freed !! base.Keys {
      assert m - freed == base;
    }
  }

  // ── Runs of insertions and removals ────────────────────────────────────────

  /** The registry addresses all its slots and can take `n` more handles. */
  ghost predicate Roomy<A>(r: State<A>, n: nat) {
    Wf(r) && |r.slots| <= WORD && |Bindings(r)| + n < WORD
  }

  function InsertOps<A>(items: seq<A>): (ops: seq<Op<A>>)
    ensures |ops| == |items| && forall i :: 0 <= i < |items| ==> ops[i] == InsertOp(items[i])
  {
    seq(|items|, i requires 0 <= i < |items| => InsertOp(items[i]))
  }

  function FreeOps<A>(hs: seq<Handle>): (ops: seq<Op<A>>)
    ensures |ops| == |hs| && forall i :: 0 <= i < |hs| ==> ops[i] == RemoveOp(hs[i])
  {
    seq(|hs|, i requires 0 <= i < |hs| => RemoveOp(hs[i]))
  }

  /** The handles that inserting `items` one after another returns. */
  ghost function NewHandles<A>(r: State<A>, items: seq<A>): (hs: seq<Handle>)
    requires Wf(r)
    ensures |hs| == |items|
  {
    if items == [] then []
    else
      var before := items[..|items| - 1];
      NewHandles(r, before) + [NextHandle(RunFrom(r, InsertOps(before)))]
  }

  /** Every state of a run, from the first to the last, is within `n` handles of `base`. */
  ghost predicate StaysWithin<A>(r: State<A>, ops: seq<Op<A>>, base: map<Handle, A>, n: nat)
    requires Wf(r)
  {
    forall k :: 0 <= k <= |ops| ==> Within(base, n, Bindings(RunFrom(r, ops[..k])))
  }

  /** In particular the last. */
  lemma EndsWithin<A>(r: State<A>, ops: seq<Op<A>>, base: map<Handle, A>, n: nat)
    requires Wf(r) && StaysWithin(r, ops, base, n)
    ensures Within(base, n, Bindings(RunFrom(r, ops)))
  {
    assert ops[..|ops|] == ops;
  }

  lemma {:induction false} RunSplit<A>(r: State<A>, xs: seq<Op<A>>, ys: seq<Op<A>>)
    requires Wf(r)
    ensures RunFrom(r, xs + ys) == RunFrom(RunFrom(r, xs), ys)
  {
    if ys == [] {
      assert xs + ys == xs;
    } else {
      RunSplit(r, xs, ys[..|ys| - 1]);
      ConcatPrefix(xs, ys);
    }
  }

  lemma TakeOfConcat<T>(xs: seq<T>, ys: seq<T>, k: nat)
    requires k <= |xs| + |ys|
    ensures (xs + ys)[..k] == if k <= |xs| then xs[..k] else xs + ys[..k - |xs|]
  {
  }

  lemma {:induction false} StaysWithinSplit<A>(
    r: State<A>, xs: seq<Op<A>>, ys: seq<Op<A>>, base: map<Handle, A>, n: nat)
    requires Wf(r) && StaysWithin(r, xs, base, n) && StaysWithin(RunFrom(r, xs), ys, base, n)
    ensures StaysWithin(r, xs + ys, base, n)
  {
    forall k | 0 <= k <= |xs + ys| ensures Within(base, n, Bindings(RunFrom(r, (xs + ys)[..k]))) {
      TakeOfConcat(xs, ys, k);
      if k <= |xs| {
        assert Within(base, n, Bindings(RunFrom(r, xs[..k])));
      } else {
        RunSplit(r, xs, ys[..k - |xs|]);
        assert Within(base, n, Bindings(RunFrom(RunFrom(r, xs), ys[..k - |xs|])));
      }
    }
  }

  /** A bound over a larger base is a bound over a smaller one. */
  lemma {:induction false} StaysWithinBelow<A>(
    r: State<A>, ops: seq<Op<A>>, base: map<Handle, A>, n: nat, low: map<Handle, A>, k: nat)
    requires Wf(r) && StaysWithin(r, ops, base, n) && Extends(low, base) && |base| + n <= |low| + k
    ensures StaysWithin(r, ops, low, k)
  {
    forall j | 0 <= j <= |ops| ensures Within(low, k, Bindings(RunFrom(r, ops[..j]))) {
      assert Within(base, n, Bindings(RunFrom(r, ops[..j])));
    }
  }

  lemma SplitLast<T>(xs: seq<T>)
    requires xs != []
    ensures xs == xs[..|xs| - 1] + [xs[|xs| - 1]]
  {
  }

  lemma ConcatPrefix<T>(xs: seq<T>, ys: seq<T>)
    requires ys != []
    ensures (xs + ys)[..|xs + ys| - 1] == xs + ys[..|ys| - 1]
  {
  }

  lemma ElementsLast(hs: seq<Handle>)
    requires hs != []
    ensures Elements(hs) == Elements(hs[..|hs| - 1]) + {hs[|hs| - 1]}
  {
  }

  lemma InsertOpsSplit<A>(xs: seq<A>, ys: seq<A>)
    ensures InsertOps(xs + ys) == InsertOps(xs) + InsertOps(ys)
  {
  }

  lemma OpsTake<A>(items: seq<A>, hs: seq<Handle>, k: nat)
    ensures k <= |items| ==> InsertOps(items)[..k] == InsertOps(items[..k])
    ensures k <= |hs| ==> FreeOps<A>(hs)[..k] == FreeOps<A>(hs[..k])
  {
  }

  /** The handles `hs` hold the arrays `items`, in order. */
  ghost predicate Stored<A>(items: seq<A>, hs: seq<Handle>, m: map<Handle, A>) {
    && |hs| == |items|
    && forall i :: 0 <= i < |hs| ==> hs[i] in m && m[hs[i]] == items[i]
  }

  lemma StoreOne<A>(items: seq<A>, hs: seq<Handle>, m: map<Handle, A>, item: A, h: Handle)
    requires Stored(items, hs, m) && h !in m
    ensures Stored(items + [item], hs + [h], m[h := item])
  {
  }

  lemma InsertOne<A>(r: State<A>, item: A)
    requires Roomy(r, 1)
    ensures
      var r' := Step(r, InsertOp(item));
      && NextHandle(r) !in Bindings(r)
      && Bindings(r') == Bindings(r)[NextHandle(r) := item]
      && |r'.slots| <= WORD
  {
    RoomIffNotFull(r);
    InsertRefinesMap(r, item);
    StepLength(r, InsertOp(item));
  }

  /** With room, inserting arrays borrows one new handle for each, holding it. */
  lemma {:induction false} InsertsBorrow<A>(r: State<A>, items: seq<A>)
    requires Roomy(r, |items|)
    ensures
      var r', hs := RunFrom(r, InsertOps(items)), NewHandles(r, items);
      && |r'.slots| <= WORD
      && Borrowed(Bindings(r), hs, Bindings(r'))
      && Stored(items, hs, Bindings(r'))
  {
    if items == [] {
      BorrowNothing(Bindings(r));
    } else {
      var before, item := items[..|items| - 1], items[|items| - 1];
      SplitLast(items);
      OpsTake(items, [], |items| - 1);
      InsertsBorrow(r, before);
      var r1, hs := RunFrom(r, InsertOps(before)), NewHandles(r, before);
      BorrowedSize(Bindings(r), hs, Bindings(r1));
      InsertOne(r1, item);
      BorrowOne(Bindings(r), hs, Bindings(r1), NextHandle(r1), item);
      StoreOne(before, hs, Bindings(r1), item, NextHandle(r1));
    }
  }

  /** While arrays are being inserted, the base stays and at most that many handles are added. */
  lemma {:induction false} InsertsStayWithin<A>(r: State<A>, items: seq<A>)
    requires Roomy(r, |items|)
    ensures StaysWithin(r, InsertOps(items), Bindings(r), |items|)
  {
    forall k | 0 <= k <= |items| ensures Within(Bindings(r), |items|, Bindings(RunFrom(r, InsertOps(items)[..k]))) {
      OpsTake(items, [], k);
      InsertsBorrow(r, items[..k]);
      BorrowedSize(Bindings(r), NewHandles(r, items[..k]), Bindings(RunFrom(r, InsertOps(items[..k]))));
    }
  }

  lemma {:induction false} NewHandlesLast<A>(r: State<A>, items: seq<A>, item: A)
    requires Wf(r)
    ensures NewHandles(r, items + [item]) == NewHandles(r, items) + [NextHandle(RunFrom(r, InsertOps(items)))]
  {
    assert (items + [item])[..|items|] == items;
  }

  lemma AppendAssoc<T>(xs: seq<T>, ys: seq<T>, zs: seq<T>)
    ensures xs + (ys + zs) == xs + ys + zs
  {
  }

  lemma {:induction false} NewHandlesSplit<A>(r: State<A>, xs: seq<A>, ys: seq<A>)
    requires Wf(r)
    ensures NewHandles(r, xs + ys) == NewHandles(r, xs) + NewHandles(RunFrom(r, InsertOps(xs)), ys)
  {
    if ys == [] {
      assert xs + ys == xs;
    } else {
      var before, y, r' := ys[..|ys| - 1], ys[|ys| - 1], RunFrom(r, InsertOps(xs));
      NewHandlesSplit(r, xs, before);
      SplitLast(ys);
      AppendAssoc(xs, before, [y]);
      NewHandlesLast(r, xs + before, y);
      NewHandlesLast(r', before, y);
      InsertOpsSplit(xs, before);
      RunSplit(r, InsertOps(xs), InsertOps(before));
      AppendAssoc(NewHandles(r, xs), NewHandles(r', before), [NextHandle(RunFrom(r', InsertOps(before)))]);
    }
  }

  /** Freeing handles removes exactly those, whatever order and repetition. */
  lemma {:induction false} FreesRemove<A>(r: State<A>, hs: seq<Handle>)
    requires Wf(r)
    ensures
      var r' := RunFrom(r, FreeOps(hs));
      Bindings(r') == Bindings(r) - Elements(hs) && |r'.slots| == |r.slots|
  {
    if hs == [] {
      assert Elements(hs) == {};
    } else {
      FreesRemove(r, hs[..|hs| - 1]);
      OpsTake<A>([], hs, |hs| - 1);
      FreeOne(RunFrom(r, FreeOps(hs[..|hs| - 1])), hs[|hs| - 1], Bindings(r), Elements(hs[..|hs| - 1]));
      ElementsLast(hs);
    }
  }

  lemma FreeOne<A>(r: State<A>, h: Handle, m: map<Handle, A>, freed: set<Handle>)
    requires Wf(r) && Bindings(r) == m - freed
    ensures
      var r' := Step(r, RemoveOp(h));
      Bindings(r') == m - (freed + {h}) && |r'.slots| == |r.slots|
  {
    RemoveRefinesMap(r, h);
    StepLength(r, RemoveOp(h));
    assert m - freed - {h} == m - (freed + {h});
  }

  lemma {:induction false} FreesStayWithin<A>(r: State<A>, base: map<Handle, A>, hs: seq<Handle>, freed: seq<Handle>)
    requires Wf(r) && Borrowed(base, hs, Bindings(r)) && Elements(freed) !! base.Keys
    ensures StaysWithin(r, FreeOps(freed), base, |hs|)
  {
    forall k | 0 <= k <= |freed| ensures Within(base, |hs|, Bindings(RunFrom(r, FreeOps(freed)[..k]))) {
      OpsTake<A>([], freed, k);
      FreesRemove(r, freed[..k]);
      assert Elements(freed[..k]) <= Elements(freed);
      ReturnsStayWithin(base, hs, Bindings(r), Elements(freed[..k]));
    }
  }

  // ── A whole lease ──────────────────────────────────────────────────────────

  /** Insert the arrays, use them, free their handles. */
  ghost function LeaseOps<A>(r: State<A>, items: seq<A>): (ops: seq<Op<A>>)
    requires Wf(r)
  {
    InsertOps(items) + FreeOps(NewHandles(r, items))
  }

  /** A lease gives back exactly what it took: afterwards the contents are as before, and at no
      time are there more than the leased handles on top of them. */
  lemma LeaseRestores<A>(r: State<A>, items: seq<A>)
    requires Roomy(r, |items|)
    ensures
      var r' := RunFrom(r, LeaseOps(r, items));
      Bindings(r') == Bindings(r) && |r'.slots| <= WORD
    ensures StaysWithin(r, LeaseOps(r, items), Bindings(r), |items|)
  {
    var hs, held := NewHandles(r, items), RunFrom(r, InsertOps(items));
    InsertsBorrow(r, items);
    RunSplit(r, InsertOps(items), FreeOps(hs));
    FreesRemove(held, hs);
    ReturnRestoresIff(Bindings(r), hs, Bindings(held), Elements(hs));
    InsertsStayWithin(r, items);
    FreesStayWithin(held, Bindings(r), hs, hs);
    StaysWithinSplit(r, InsertOps(items), FreeOps(hs), Bindings(r), |items|);
  }

  // ── Composing runs ─────────────────────────────────────────────────────────

  lemma SameSize<A>(base: map<Handle, A>, m: map<Handle, A>)
    requires Extends(base, m) && |m| == |base|
    ensures m == base
  {
    if h :| h in m && h !in base {
      SubsetSize(base.Keys + {h}, m.Keys);
    }
  }

  /** A run that keeps the contents it found, never adds more than `n` handles, and leaves
      `leaked` of them behind. */
  ghost predicate Settles<A>(r: State<A>, ops: seq<Op<A>>, n: nat, leaked: nat) {
    && Wf(r)
    && |RunFrom(r, ops).slots| <= WORD
    && |Bindings(RunFrom(r, ops))| == |Bindings(r)| + leaked
    && StaysWithin(r, ops, Bindings(r), n)
  }

  lemma SettledContents<A>(r: State<A>, ops: seq<Op<A>>, n: nat, leaked: nat)
    requires Settles(r, ops, n, leaked)
    ensures Extends(Bindings(r), Bindings(RunFrom(r, ops)))
    ensures leaked == 0 ==> Bindings(RunFrom(r, ops)) == Bindings(r)
  {
    EndsWithin(r, ops, Bindings(r), n);
    if leaked == 0 {
      SameSize(Bindings(r), Bindings(RunFrom(r, ops)));
    }
  }

  lemma SettlesNothing<A>(r: State<A>, n: nat)
    requires Roomy(r, n)
    ensures Settles(r, [], n, 0)
  {
  }

  lemma SettlesThen<A>(r: State<A>, xs: seq<Op<A>>, ys: seq<Op<A>>, n: nat, leaked: nat)
    requires Settles(r, xs, n, 0) && Settles(RunFrom(r, xs), ys, n, leaked)
    ensures Settles(r, xs + ys, n, leaked)
  {
    SettledContents(r, xs, n, 0);
    RunSplit(r, xs, ys);
    StaysWithinSplit(r, xs, ys, Bindings(r), n);
  }

  lemma LeaseSettles<A>(r: State<A>, items: seq<A>, n: nat)
    requires Roomy(r, n) && |items| <= n
    ensures Settles(r, LeaseOps(r, items), n, 0)
  {
    LeaseRestores(r, items);
    StaysWithinBelow(r, LeaseOps(r, items), Bindings(r), |items|, Bindings(r), n);
  }

  lemma InsertsSettle<A>(r: State<A>, items: seq<A>, n: nat)
    requires Roomy(r, n) && |items| <= n
    ensures Settles(r, InsertOps(items), n, |items|)
  {
    InsertsBorrow(r, items);
    BorrowedSize(Bindings(r), NewHandles(r, items), Bindings(RunFrom(r, InsertOps(items))));
    InsertsStayWithin(r, items);
    StaysWithinBelow(r, InsertOps(items), Bindings(r), |items|, Bindings(r), n);
  }

  /** Take `items`, do something that settles, free some of the handles taken: the contents are
      as before exactly if all of them were freed. */
  lemma HoldAround<A>(r: State<A>, items: seq<A>, middle: seq<Op<A>>, freed: seq<Handle>, n: nat)
    requires Roomy(r, |items| + n) && Elements(freed) <= Elements(NewHandles(r, items))
    requires Settles(RunFrom(r, InsertOps(items)), middle, n, 0)
    ensures
      var ops := InsertOps(items) + middle + FreeOps(freed);
      && (Bindings(RunFrom(r, ops)) == Bindings(r) <==> Elements(NewHandles(r, items)) <= Elements(freed))
      && StaysWithin(r, ops, Bindings(r), |items| + n)
  {
    var base, hs, open := Bindings(r), NewHandles(r, items), InsertOps(items);
    var r1 := RunFrom(r, open);
    InsertsBorrow(r, items);
    BorrowedSize(base, hs, Bindings(r1));
    SettledContents(r1, middle, n, 0);
    FreeSome(RunFrom(r1, middle), base, hs, freed);
    RunSplit(r, open, middle);
    RunSplit(r, open + middle, FreeOps(freed));
    HoldStaysWithin(r, items, middle, freed, n);
  }

  lemma FreeSome<A>(r: State<A>, base: map<Handle, A>, hs: seq<Handle>, freed: seq<Handle>)
    requires Wf(r) && Borrowed(base, hs, Bindings(r)) && Elements(freed) <= Elements(hs)
    ensures Bindings(RunFrom(r, FreeOps(freed))) == base <==> Elements(hs) <= Elements(freed)
    ensures StaysWithin(r, FreeOps(freed), base, |hs|)
  {
    FreesRemove(r, freed);
    assert Elements(freed) !! base.Keys;
    ReturnRestoresIff(base, hs, Bindings(r), Elements(freed));
    FreesStayWithin(r, base, hs, freed);
  }

  lemma ThreePartsStayWithin<A>(
    r: State<A>, xs: seq<Op<A>>, ys: seq<Op<A>>, zs: seq<Op<A>>, base: map<Handle, A>, n: nat)
    requires Wf(r) && StaysWithin(r, xs, base, n)
    requires StaysWithin(RunFrom(r, xs), ys, base, n)
    requires StaysWithin(RunFrom(RunFrom(r, xs), ys), zs, base, n)
    ensures StaysWithin(r, xs + ys + zs, base, n)
  {
    RunSplit(r, xs, ys);
    StaysWithinSplit(r, xs, ys, base, n);
    StaysWithinSplit(r, xs + ys, zs, base, n);
  }

  lemma HoldStaysWithin<A>(r: State<A>, items: seq<A>, middle: seq<Op<A>>, freed: seq<Handle>, n: nat)
    requires Roomy(r, |items| + n) && Elements(freed) <= Elements(NewHandles(r, items))
    requires Settles(RunFrom(r, InsertOps(items)), middle, n, 0)
    ensures StaysWithin(r, InsertOps(items) + middle + FreeOps(freed), Bindings(r), |items| + n)
  {
    var base, hs, open, k := Bindings(r), NewHandles(r, items), InsertOps(items), |items| + n;
    var r1 := RunFrom(r, open);
    InsertsBorrow(r, items);
    BorrowedSize(base, hs, Bindings(r1));
    InsertsStayWithin(r, items);
    SettledContents(r1, middle, n, 0);
    FreeSome(RunFrom(r1, middle), base, hs, freed);
    StaysWithinBelow(r, open, base, |items|, base, k);
    StaysWithinBelow(r1, middle, Bindings(r1), n, base, k);
    StaysWithinBelow(RunFrom(r1, middle), FreeOps(freed), base, |hs|, base, k);
    ThreePartsStayWithin(r, open, middle, FreeOps(freed), base, k);
  }

  /** The same without freeing: whatever settles on top of held handles stays in bounds. */
  lemma HoldOpenStaysWithin<A>(r: State<A>, items: seq<A>, middle: seq<Op<A>>, n: nat, leaked: nat)
    requires Roomy(r, |items| + n)
    requires Settles(RunFrom(r, InsertOps(items)), middle, n, leaked)
    ensures StaysWithin(r, InsertOps(items) + middle, Bindings(r), |items| + n)
  {
    var base, hs, open, k := Bindings(r), NewHandles(r, items), InsertOps(items), |items| + n;
    var r1 := RunFrom(r, open);
    InsertsBorrow(r, items);
    BorrowedSize(base, hs, Bindings(r1));
    InsertsStayWithin(r, items);
    StaysWithinBelow(r, open, base, |items|, base, k);
    StaysWithinBelow(r1, middle, Bindings(r1), n, base, k);
    StaysWithinSplit(r, open, middle, base, k);
  }

  lemma HeldRunStaysWithin<A>(
    r: State<A>, items: seq<A>, middle: seq<Op<A>>, freed: seq<Handle>, release: bool, n: nat, leaked: nat)
    requires Roomy(r, |items| + n) && Elements(freed) <= Elements(NewHandles(r, items))
    requires Settles(RunFrom(r, InsertOps(items)), middle, n, leaked) && (release ==> leaked == 0)
    ensures StaysWithin(
              r, InsertOps(items) + (if release then middle + FreeOps(freed) else middle), Bindings(r), |items| + n)
  {
    if release {
      HoldStaysWithin(r, items, middle, freed, n);
      AppendAssoc(InsertOps(items), middle, FreeOps(freed));
    } else {
      HoldOpenStaysWithin(r, items, middle, n, leaked);
    }
  }
}

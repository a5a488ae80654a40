/** Depth-first ordering of workspace packages, dependencies first. */
module TopologicalSort {
  import opened Common
  import opened Workspace

  // ── Paths and cycles ───────────────────────────────────────────────────────

  ghost predicate IsPath(pkgs: seq<Package>, path: seq<Dir>) {
    forall i :: 0 < i < |path| ==> DependsOn(pkgs, path[i - 1], path[i])
  }

  ghost predicate PathBetween(pkgs: seq<Package>, path: seq<Dir>, a: Dir, b: Dir) {
    path != [] && path[0] == a && path[|path| - 1] == b && IsPath(pkgs, path)
  }

  ghost predicate Reaches(pkgs: seq<Package>, a: Dir, b: Dir) { exists path :: PathBetween(pkgs, path, a, b) }

  /** A cycle: a path whose end depends on its start. */
  ghost predicate IsCycle(pkgs: seq<Package>, c: seq<Dir>) {
    c != [] && IsPath(pkgs, c) && DependsOn(pkgs, c[|c| - 1], c[0])
  }

  ghost predicate Acyclic(pkgs: seq<Package>) { forall c :: !IsCycle(pkgs, c) }

  lemma SuffixReaches(pkgs: seq<Package>, path: seq<Dir>, e: Dir)
    requires path != [] && IsPath(pkgs, path) && e in path
    ensures Reaches(pkgs, e, path[|path| - 1])
  {
    var i :| 0 <= i < |path| && path[i] == e;
    assert PathBetween(pkgs, path[i..], e, path[|path| - 1]);
  }

  lemma ExtendPath(pkgs: seq<Package>, path: seq<Dir>, e: Dir)
    requires path != [] && IsPath(pkgs, path) && DependsOn(pkgs, path[|path| - 1], e)
    ensures IsPath(pkgs, path + [e])
  {
  }

  lemma DependencyIsADir(pkgs: seq<Package>, d: Dir, e: Dir)
    requires DependsOn(pkgs, d, e)
    ensures e in Dirs(pkgs)
  {
    var k :| 0 <= k < |PackageAt(pkgs, d).workspaceDeps| && ResolvesTo(pkgs, d, k, e);
    LookupIsADir(pkgs, PackageAt(pkgs, d).workspaceDeps[k]);
  }

  // ── Orders ─────────────────────────────────────────────────────────────────

  function Members(xs: seq<Dir>): (s: set<Dir>) { set x | x in xs }

  ghost predicate Unique(xs: seq<Dir>) { forall i, j :: 0 <= i < j < |xs| ==> xs[i] != xs[j] }

  /** Each dependency of the package at `p` comes earlier, unless it depends on that package in
      turn. */
  ghost predicate Settled(pkgs: seq<Package>, order: seq<Dir>, p: nat)
    requires p < |order|
  {
    forall e :: DependsOn(pkgs, order[p], e) ==> e in order[..p] || Reaches(pkgs, e, order[p])
  }

  ghost predicate AllSettled(pkgs: seq<Package>, order: seq<Dir>) {
    forall p :: 0 <= p < |order| ==> Settled(pkgs, order, p)
  }

  lemma PushSettled(pkgs: seq<Package>, order: seq<Dir>, d: Dir)
    requires AllSettled(pkgs, order)
    requires forall e :: DependsOn(pkgs, d, e) ==> e in order || Reaches(pkgs, e, d)
    ensures AllSettled(pkgs, order + [d])
  {
    var longer := order + [d];
    forall p | 0 <= p < |longer| ensures Settled(pkgs, longer, p) {
      assert longer[..p] == order[..p];
      if p < |order| {
        assert Settled(pkgs, order, p);
      } else {
        assert order[..p] == order;
      }
    }
  }

  /** The state of a traversal between calls: what is visited but not yet listed is the stack. */
  ghost predicate Between(pkgs: seq<Package>, visited: set<Dir>, order: seq<Dir>, stack: seq<Dir>) {
    && Unique(order)
    && visited == Members(order) + Members(stack)
    && Members(order) !! Members(stack)
    && visited <= Dirs(pkgs)
    && AllSettled(pkgs, order)
  }

  lemma Enter(pkgs: seq<Package>, visited: set<Dir>, order: seq<Dir>, stack: seq<Dir>, dir: Dir)
    requires Between(pkgs, visited, order, stack) && dir in Dirs(pkgs) && dir !in visited
    ensures Between(pkgs, visited + {dir}, order, stack + [dir])
  {
    assert Members(stack + [dir]) == Members(stack) + {dir};
  }

  /** All dependencies of the package on top of the stack are visited. */
  ghost predicate DepsVisited(pkgs: seq<Package>, visited: set<Dir>, dir: Dir, k: nat)
    requires dir in Dirs(pkgs)
  {
    forall j, e :: 0 <= j < k && ResolvesTo(pkgs, dir, j, e) ==> e in visited
  }

  lemma Leave(pkgs: seq<Package>, visited: set<Dir>, order: seq<Dir>, stack: seq<Dir>, dir: Dir)
    requires dir in Dirs(pkgs) && Between(pkgs, visited, order, stack + [dir]) && dir !in stack
    requires IsPath(pkgs, stack + [dir]) && DepsVisited(pkgs, visited, dir, |PackageAt(pkgs, dir).workspaceDeps|)
    ensures Between(pkgs, visited, order + [dir], stack)
  {
    assert Members(stack + [dir]) == Members(stack) + {dir};
    assert Members(order + [dir]) == Members(order) + {dir};
    forall e | DependsOn(pkgs, dir, e) ensures e in order || Reaches(pkgs, e, dir) {
      var k :| 0 <= k < |PackageAt(pkgs, dir).workspaceDeps| && ResolvesTo(pkgs, dir, k, e);
      assert e in visited;
      if e !in order {
        SuffixReaches(pkgs, stack + [dir], e);
      }
    }
    PushSettled(pkgs, order, dir);
  }

  lemma ReachesItself(pkgs: seq<Package>, d: Dir)
    ensures Reaches(pkgs, d, d)
  {
    assert PathBetween(pkgs, [d], d, d);
  }

  lemma ReachesThrough(pkgs: seq<Package>, d: Dir, e: Dir, x: Dir)
    requires DependsOn(pkgs, d, e) && Reaches(pkgs, e, x)
    ensures Reaches(pkgs, d, x)
  {
    var path :| PathBetween(pkgs, path, e, x);
    var longer := [d] + path;
    forall i | 0 < i < |longer| ensures DependsOn(pkgs, longer[i - 1], longer[i]) {
      if i > 1 {
        assert DependsOn(pkgs, path[i - 2], path[i - 1]);
      }
    }
    assert PathBetween(pkgs, longer, d, x);
  }

  /** What has been visited since was reached from `d`. */
  ghost predicate ReachedFrom(pkgs: seq<Package>, d: Dir, before: set<Dir>, visited: set<Dir>) {
    forall x :: x in visited && x !in before ==> Reaches(pkgs, d, x)
  }

  lemma ReachedOnward(pkgs: seq<Package>, d: Dir, e: Dir, before: set<Dir>, between: set<Dir>, visited: set<Dir>)
    requires ReachedFrom(pkgs, d, before, between) && ReachedFrom(pkgs, e, between, visited) && DependsOn(pkgs, d, e)
    ensures ReachedFrom(pkgs, d, before, visited)
  {
    forall x | x in visited && x !in before ensures Reaches(pkgs, d, x) {
      if x !in between {
        ReachesThrough(pkgs, d, e, x);
      }
    }
  }

  class Visitor {
    const pkgs: seq<Package>
    var visited: set<Dir>
    var order: seq<Dir>

    constructor (pkgs: seq<Package>)
      ensures this.pkgs == pkgs && visited == {} && order == []
    {
      this.pkgs := pkgs;
      visited, order := {}, [];
    }

    /** Visit a package: its dependencies first, then itself, each once. Terminates on any graph. */
    method Visit(dir: Dir, ghost stack: seq<Dir>)
      requires Between(pkgs, visited, order, stack) && dir in Dirs(pkgs) && IsPath(pkgs, stack + [dir])
      modifies this
      ensures Between(pkgs, visited, order, stack) && dir in visited && old(visited) <= visited
      ensures old(order) <= order && ReachedFrom(pkgs, dir, old(visited), visited)
      decreases Dirs(pkgs) - visited
    {
      if dir in visited {
        return;
      }
      Enter(pkgs, visited, order, stack, dir);
      visited := visited + {dir};
      ReachesItself(pkgs, dir);
      var deps := PackageAt(pkgs, dir).workspaceDeps;
      for k := 0 to |deps|
        invariant Between(pkgs, visited, order, stack + [dir])
        invariant old(visited) + {dir} <= visited && DepsVisited(pkgs, visited, dir, k)
        invariant old(order) <= order && ReachedFrom(pkgs, dir, old(visited), visited)
      {
        var other := Lookup(pkgs, deps[k]);
        if other.Some? {
          LookupIsADir(pkgs, deps[k]);
          assert ResolvesTo(pkgs, dir, k, other.value);
          ExtendPath(pkgs, stack + [dir], other.value);
          ghost var before := visited;
          Visit(other.value, stack + [dir]);
          ReachedOnward(pkgs, dir, other.value, old(visited), before, visited);
        }
      }
      Leave(pkgs, visited, order, stack, dir);
      order := order + [dir];
    }
  }

  /** A package comes before another only if something no larger by name than the other needs it, which
      may be the package itself: beyond dependencies, the order is that of the names. */
  ghost predicate TiesByName(pkgs: seq<Package>, order: seq<Dir>) {
    forall p, q :: 0 <= p < q < |order| ==> NeededBefore(pkgs, order[p], order[q])
  }

  ghost predicate NeededBefore(pkgs: seq<Package>, a: Dir, b: Dir) { exists r :: Reaches(pkgs, r, a) && Leq(r, b) }

  /** Everything listed is reached from one of the first `n` names. */
  ghost predicate FromRoots(pkgs: seq<Package>, order: seq<Dir>, dirs: seq<Dir>, n: nat) {
    forall p :: 0 <= p < |order| ==> FromRoot(pkgs, order[p], dirs, n)
  }

  ghost predicate FromRoot(pkgs: seq<Package>, d: Dir, dirs: seq<Dir>, n: nat) {
    exists a :: 0 <= a < n && a < |dirs| && Reaches(pkgs, dirs[a], d)
  }

  lemma RootIsSmaller(pkgs: seq<Package>, dirs: seq<Dir>, n: nat, d: Dir, x: Dir)
    requires Sorted(dirs) && n <= |dirs| && FromRoot(pkgs, d, dirs, n)
    requires x in dirs && forall j :: 0 <= j < n - 1 ==> dirs[j] != x
    ensures NeededBefore(pkgs, d, x)
  {
    var a :| 0 <= a < n && Reaches(pkgs, dirs[a], d);
    var c :| 0 <= c < |dirs| && dirs[c] == x;
    LeqTotal(x, x);
    assert Leq(dirs[a], dirs[c]);
  }

  lemma FromMoreRoots(pkgs: seq<Package>, before: seq<Dir>, order: seq<Dir>, dirs: seq<Dir>, i: nat)
    requires i < |dirs| && Unique(order) && before <= order && FromRoots(pkgs, before, dirs, i)
    requires forall x :: x in order && x !in before ==> Reaches(pkgs, dirs[i], x)
    ensures FromRoots(pkgs, order, dirs, i + 1)
  {
    forall p | 0 <= p < |order| ensures FromRoot(pkgs, order[p], dirs, i + 1) {
      if p < |before| {
        assert before[p] == order[p] && FromRoot(pkgs, before[p], dirs, i);
      } else {
        assert order[p] !in before;
      }
    }
  }

  /** A package listed anew comes after all roots so far, which are no larger. */
  lemma NewIsLater(pkgs: seq<Package>, before: seq<Dir>, order: seq<Dir>, dirs: seq<Dir>, i: nat, p: nat, q: nat)
    requires i < |dirs| && Sorted(dirs) && Unique(order) && before <= order && p < q < |order| && |before| <= q
    requires FromRoot(pkgs, order[p], dirs, i + 1) && order[q] in dirs
    requires forall j :: 0 <= j < i ==> dirs[j] in before
    ensures NeededBefore(pkgs, order[p], order[q])
  {
    forall j | 0 <= j < i ensures dirs[j] != order[q] {
      var k :| 0 <= k < |before| && before[k] == dirs[j];
      assert order[k] == dirs[j];
    }
    RootIsSmaller(pkgs, dirs, i + 1, order[p], order[q]);
  }

  /** The first `n` roots are listed with what they reach, ties broken by name. */
  ghost predicate Rooted(pkgs: seq<Package>, order: seq<Dir>, dirs: seq<Dir>, n: nat) {
    && TiesByName(pkgs, order) && FromRoots(pkgs, order, dirs, n)
    && n <= |dirs| && forall j :: 0 <= j < n ==> dirs[j] in order
  }

  lemma TiesAgain(pkgs: seq<Package>, before: seq<Dir>, order: seq<Dir>, dirs: seq<Dir>, i: nat)
    requires i < |dirs| && Sorted(dirs) && Unique(order) && before <= order && TiesByName(pkgs, before)
    requires FromRoots(pkgs, order, dirs, i + 1) && forall p :: 0 <= p < |order| ==> order[p] in dirs
    requires forall j :: 0 <= j < i ==> dirs[j] in before
    ensures TiesByName(pkgs, order)
  {
    forall p, q | 0 <= p < q < |order| ensures NeededBefore(pkgs, order[p], order[q]) {
      if q < |before| {
        assert before[p] == order[p] && before[q] == order[q];
      } else {
        NewIsLater(pkgs, before, order, dirs, i, p, q);
      }
    }
  }

  lemma OneMoreRoot(pkgs: seq<Package>, before: seq<Dir>, order: seq<Dir>, dirs: seq<Dir>, i: nat)
    requires i < |dirs| && Sorted(dirs) && Unique(order) && before <= order && Rooted(pkgs, before, dirs, i)
    requires dirs[i] in order && forall p :: 0 <= p < |order| ==> order[p] in dirs
    requires forall x :: x in order && x !in before ==> Reaches(pkgs, dirs[i], x)
    ensures Rooted(pkgs, order, dirs, i + 1)
  {
    FromMoreRoots(pkgs, before, order, dirs, i);
    TiesAgain(pkgs, before, order, dirs, i);
  }

  /** One more root visited: the state between calls, in terms of the order alone. */
  lemma RootVisited(
    pkgs: seq<Package>, visited0: set<Dir>, order0: seq<Dir>, visited: set<Dir>, order: seq<Dir>, dirs: seq<Dir>,
    i: nat)
    requires Between(pkgs, visited0, order0, []) && Between(pkgs, visited, order, []) && order0 <= order
    requires i < |dirs| && ReachedFrom(pkgs, dirs[i], visited0, visited) && dirs[i] in visited
    requires Sorted(dirs) && Members(dirs) == Dirs(pkgs) && Rooted(pkgs, order0, dirs, i)
    ensures Rooted(pkgs, order, dirs, i + 1)
  {
    assert Members([]) == {};
    assert visited0 == Members(order0) && visited == Members(order);
    forall p | 0 <= p < |order| ensures order[p] in dirs {
      assert order[p] in Members(order) && order[p] in Members(dirs);
    }
    OneMoreRoot(pkgs, order0, order, dirs, i);
  }

  lemma SortedDirsAre(pkgs: seq<Package>)
    ensures Members(SortStrings(DirSeq(pkgs))) == Dirs(pkgs)
  {
    forall d ensures d in SortStrings(DirSeq(pkgs)) <==> d in Dirs(pkgs) {
      SortKeepsElements(DirSeq(pkgs), d);
    }
  }

  /** List every package once; each dependency of a package comes before it unless the two are on
      a common cycle. */
  method Sort(pkgs: seq<Package>) returns (order: seq<Dir>)
    requires DistinctDirs(pkgs)
    ensures multiset(order) == multiset(DirSeq(pkgs))
    ensures AllSettled(pkgs, order) && TiesByName(pkgs, order)
  {
    var dirs := SortStrings(DirSeq(pkgs));
    SortSorts(DirSeq(pkgs));
    SortedDirsAre(pkgs);
    order := VisitAll(pkgs, dirs);
    Complete(pkgs, order);
  }

  method VisitAll(pkgs: seq<Package>, dirs: seq<Dir>) returns (order: seq<Dir>)
    requires Sorted(dirs) && Members(dirs) == Dirs(pkgs)
    ensures Unique(order) && Members(order) == Dirs(pkgs)
    ensures AllSettled(pkgs, order) && TiesByName(pkgs, order)
  {
    var visitor := new Visitor(pkgs);
    for i := 0 to |dirs|
      invariant Between(pkgs, visitor.visited, visitor.order, []) && Rooted(pkgs, visitor.order, dirs, i)
    {
      ghost var before, seen := visitor.order, visitor.visited;
      assert dirs[i] in Members(dirs);
      visitor.Visit(dirs[i], []);
      RootVisited(pkgs, seen, before, visitor.visited, visitor.order, dirs, i);
    }
    order := visitor.order;
    AllRootsListed(pkgs, visitor.visited, order, dirs);
  }

  lemma AllRootsListed(pkgs: seq<Package>, visited: set<Dir>, order: seq<Dir>, dirs: seq<Dir>)
    requires Between(pkgs, visited, order, []) && Rooted(pkgs, order, dirs, |dirs|) && Members(dirs) == Dirs(pkgs)
    ensures Members(order) == Dirs(pkgs)
  {
    assert Members([]) == {};
    forall d | d in Dirs(pkgs) ensures d in order {
      assert d in Members(dirs);
    }
  }

  lemma {:induction false} UniqueMultiset(xs: seq<Dir>)
    requires Unique(xs)
    ensures multiset(xs) == multiset(Members(xs))
  {
    if xs != [] {
      var last := |xs| - 1;
      UniqueMultiset(xs[..last]);
      assert xs == xs[..last] + [xs[last]];
      assert Members(xs) == Members(xs[..last]) + {xs[last]};
    }
  }

  lemma Complete(pkgs: seq<Package>, order: seq<Dir>)
    requires DistinctDirs(pkgs) && Unique(order) && Members(order) == Dirs(pkgs)
    ensures multiset(order) == multiset(DirSeq(pkgs))
  {
    assert Members(DirSeq(pkgs)) == Dirs(pkgs) by {
      forall d | d in Dirs(pkgs) ensures d in DirSeq(pkgs) {
        var i :| 0 <= i < |pkgs| && pkgs[i].dir == d;
        assert DirSeq(pkgs)[i] == d;
      }
    }
    UniqueMultiset(order);
    UniqueMultiset(DirSeq(pkgs));
  }

  // ── Dependencies first, exactly on acyclic graphs ──────────────────────────

  /** Every package comes after all its dependencies. */
  ghost predicate DependenciesFirst(pkgs: seq<Package>, order: seq<Dir>) {
    forall p, e :: 0 <= p < |order| && DependsOn(pkgs, order[p], e) ==> e in order[..p]
  }

  lemma AcyclicSettles(pkgs: seq<Package>, order: seq<Dir>)
    requires AllSettled(pkgs, order) && Acyclic(pkgs)
    ensures DependenciesFirst(pkgs, order)
  {
    forall p, e | 0 <= p < |order| && DependsOn(pkgs, order[p], e) ensures e in order[..p] {
      assert Settled(pkgs, order, p);
      if Reaches(pkgs, e, order[p]) {
        var path :| PathBetween(pkgs, path, e, order[p]);
        assert IsCycle(pkgs, path);
      }
    }
  }

  /** Going along dependencies goes down in the order. */
  lemma {:induction false} PathDescends(
    pkgs: seq<Package>, order: seq<Dir>, path: seq<Dir>, i: nat, p: nat)
    returns (q: nat)
    requires DependenciesFirst(pkgs, order) && IsPath(pkgs, path) && i < |path|
    requires p < |order| && order[p] == path[0]
    ensures q <= p && order[q] == path[i]
  {
    if i == 0 {
      q := p;
    } else {
      var r := PathDescends(pkgs, order, path, i - 1, p);
      assert DependsOn(pkgs, path[i - 1], path[i]);
      q :| 0 <= q < r && order[q] == path[i];
    }
  }

  /** For every workspace, the result lists dependencies first if and only if there is no cycle. */
  lemma DependenciesFirstIffAcyclic(pkgs: seq<Package>, order: seq<Dir>)
    requires DistinctDirs(pkgs) && AllSettled(pkgs, order) && multiset(order) == multiset(DirSeq(pkgs))
    ensures DependenciesFirst(pkgs, order) <==> Acyclic(pkgs)
  {
    if Acyclic(pkgs) {
      AcyclicSettles(pkgs, order);
    }
    if DependenciesFirst(pkgs, order) {
      forall c ensures !IsCycle(pkgs, c) {
        if IsCycle(pkgs, c) {
          CycleBreaksOrder(pkgs, order, c);
        }
      }
    }
  }

  lemma PermutationIsUnique(pkgs: seq<Package>, order: seq<Dir>)
    requires DistinctDirs(pkgs) && multiset(order) == multiset(DirSeq(pkgs))
    ensures Unique(order) && forall d :: d in order <==> d in Dirs(pkgs)
  {
    UniqueMultiset(DirSeq(pkgs));
    forall i, j | 0 <= i < j < |order| ensures order[i] != order[j] {
      if order[i] == order[j] {
        TwiceCountsTwo(order, i, j);
      }
    }
    forall d ensures d in order <==> d in Dirs(pkgs) {
      assert d in order <==> d in multiset(order);
      assert d in DirSeq(pkgs) <==> d in multiset(DirSeq(pkgs));
      assert d in DirSeq(pkgs) <==> d in Dirs(pkgs);
    }
  }

  lemma TwiceCountsTwo(xs: seq<Dir>, i: nat, j: nat)
    requires i < j < |xs| && xs[i] == xs[j]
    ensures multiset(xs)[xs[i]] >= 2
  {
    assert xs == xs[..j] + xs[j..];
    assert xs[i] in xs[..j] && xs[i] in xs[j..];
  }

  lemma CycleBreaksOrder(pkgs: seq<Package>, order: seq<Dir>, c: seq<Dir>)
    requires DistinctDirs(pkgs) && multiset(order) == multiset(DirSeq(pkgs)) && IsCycle(pkgs, c)
    ensures !DependenciesFirst(pkgs, order)
  {
    PermutationIsUnique(pkgs, order);
    DependencyIsADir(pkgs, c[|c| - 1], c[0]);
    if DependenciesFirst(pkgs, order) {
      var p :| 0 <= p < |order| && order[p] == c[0];
      var q := PathDescends(pkgs, order, c, |c| - 1, p);
    }
  }
}

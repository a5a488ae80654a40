/** Leaves and the reverse dependency graph of a workspace. */
module WorkspaceGraph {
  import opened Common
  import opened Workspace
  import opened TopologicalSort

  /** Some dependency of one of the first `n` packages resolves to `d`. */
  ghost predicate HasDependent(pkgs: seq<Package>, n: nat, d: Dir) {
    exists i :: 0 <= i < n && i < |pkgs| && Mentions(pkgs, i, |pkgs[i].workspaceDeps|, d)
  }

  /** One of the first `m` dependencies of package `i` resolves to `d`. */
  ghost predicate Mentions(pkgs: seq<Package>, i: nat, m: nat, d: Dir)
    requires i < |pkgs|
  {
    exists k :: 0 <= k < m && k < |pkgs[i].workspaceDeps| && Lookup(pkgs, pkgs[i].workspaceDeps[k]) == Some(d)
  }

  ghost predicate IsLeaf(pkgs: seq<Package>, d: Dir) { d in Dirs(pkgs) && !HasDependent(pkgs, |pkgs|, d) }

  /** The keys of the dependents table are the directories depended on so far. */
  ghost predicate Tracks(pkgs: seq<Package>, dependents: map<Dir, set<Dir>>, i: nat, m: nat)
    requires i < |pkgs|
  {
    && (forall d :: d in dependents <==> HasDependent(pkgs, i, d) || Mentions(pkgs, i, m, d))
    && (forall d :: d in dependents ==> dependents[d] != {})
  }

  lemma MentionsOneMore(pkgs: seq<Package>, i: nat, m: nat, d: Dir)
    requires i < |pkgs| && m < |pkgs[i].workspaceDeps|
    ensures Mentions(pkgs, i, m + 1, d) <==>
      Mentions(pkgs, i, m, d) || Lookup(pkgs, pkgs[i].workspaceDeps[m]) == Some(d)
  {
  }

  lemma HasDependentOneMore(pkgs: seq<Package>, i: nat, d: Dir)
    requires i < |pkgs|
    ensures HasDependent(pkgs, i + 1, d) <==> HasDependent(pkgs, i, d) || Mentions(pkgs, i, |pkgs[i].workspaceDeps|, d)
  {
  }

  /** Add one package to the dependents of everything it depends on. */
  method AddDependents(pkgs: seq<Package>, i: nat, before: map<Dir, set<Dir>>) returns (dependents: map<Dir, set<Dir>>)
    requires i < |pkgs| && Tracks(pkgs, before, i, 0)
    ensures Tracks(pkgs, dependents, i, |pkgs[i].workspaceDeps|)
  {
    dependents := before;
    var pkg := pkgs[i];
    for k := 0 to |pkg.workspaceDeps|
      invariant Tracks(pkgs, dependents, i, k)
    {
      var other := Lookup(pkgs, pkg.workspaceDeps[k]);
      forall d ensures Mentions(pkgs, i, k + 1, d) <==> Mentions(pkgs, i, k, d) || other == Some(d) {
        MentionsOneMore(pkgs, i, k, d);
      }
      if other.Some? {
        if other.value !in dependents {
          dependents := dependents[other.value := {}];
        }
        dependents := dependents[other.value := dependents[other.value] + {pkg.dir}];
      }
    }
  }

  method ComputeDependents(pkgs: seq<Package>) returns (dependents: map<Dir, set<Dir>>)
    ensures forall d :: d in dependents <==> HasDependent(pkgs, |pkgs|, d)
    ensures forall d :: d in dependents ==> dependents[d] != {}
  {
    dependents := map[];
    for i := 0 to |pkgs|
      invariant forall d :: d in dependents <==> HasDependent(pkgs, i, d)
      invariant forall d :: d in dependents ==> dependents[d] != {}
    {
      dependents := AddDependents(pkgs, i, dependents);
      forall d
        ensures
          HasDependent(pkgs, i + 1, d) <==>
          HasDependent(pkgs, i, d) || Mentions(pkgs, i, |pkgs[i].workspaceDeps|, d)
      {
        HasDependentOneMore(pkgs, i, d);
      }
    }
  }

  /** The directories nothing depends on, sorted, each once. */
  method ComputeLeaves(pkgs: seq<Package>) returns (leaves: seq<Dir>)
    requires DistinctDirs(pkgs)
    ensures forall d :: d in leaves <==> IsLeaf(pkgs, d)
    ensures Sorted(leaves)
    ensures |leaves| == |set d | d in Dirs(pkgs) && IsLeaf(pkgs, d)|
  {
    var dependents := ComputeDependents(pkgs);
    leaves := [];
    for i := 0 to |pkgs|
      invariant forall d :: d in leaves <==> d in Dirs(pkgs[..i]) && IsLeaf(pkgs, d)
      invariant Unique(leaves)
    {
      var dir := pkgs[i].dir;
      DirsOneMore(pkgs, i);
      if dir !in dependents || dependents[dir] == {} {
        leaves := leaves + [dir];
      }
    }
    assert pkgs[..|pkgs|] == pkgs;
    UniqueMultiset(leaves);
    assert Members(leaves) == set d | d in Dirs(pkgs) && IsLeaf(pkgs, d);
    assert |multiset(Members(leaves))| == |Members(leaves)|;
    forall d ensures d in SortStrings(leaves) <==> d in leaves {
      SortKeepsElements(leaves, d);
    }
    SortKeepsElements(leaves, "");
    SortSorts(leaves);
    leaves := SortStrings(leaves);
  }

  lemma DirsOneMore(pkgs: seq<Package>, i: nat)
    requires DistinctDirs(pkgs) && i < |pkgs|
    ensures Dirs(pkgs[..i + 1]) == Dirs(pkgs[..i]) + {pkgs[i].dir} && pkgs[i].dir !in Dirs(pkgs[..i])
    ensures pkgs[i].dir in Dirs(pkgs)
  {
  }

  // ── Reverse graph ──────────────────────────────────────────────────────────

  /** One `name` for each occurrence of `n` among the dependencies `deps`. */
  function Repeats(deps: seq<string>, n: string, name: string): (row: seq<string>) {
    if deps == [] then []
    else Repeats(deps[..|deps| - 1], n, name) + (if deps[|deps| - 1] == n then [name] else [])
  }

  /** Who depends on `n`, in package order. */
  function Dependents(pkgs: seq<Package>, n: string): (row: seq<string>) {
    if pkgs == [] then []
    else
      var last := pkgs[|pkgs| - 1];
      Dependents(pkgs[..|pkgs| - 1], n) + Repeats(last.workspaceDeps, n, last.npmName)
  }

  function Row(rev: map<string, seq<string>>, n: string): (row: seq<string>) { if n in rev then rev[n] else [] }

  function NpmNames(pkgs: seq<Package>): (names: set<string>) { set i | 0 <= i < |pkgs| :: pkgs[i].npmName }

  lemma NpmNamesOneMore(pkgs: seq<Package>, i: nat)
    requires i < |pkgs|
    ensures NpmNames(pkgs[..i + 1]) == NpmNames(pkgs[..i]) + {pkgs[i].npmName}
  {
  }

  /** An empty row for every package. */
  method EmptyRows(pkgs: seq<Package>) returns (rev: map<string, seq<string>>)
    ensures rev.Keys == NpmNames(pkgs) && forall n :: n in rev ==> rev[n] == []
  {
    rev := map[];
    for i := 0 to |pkgs|
      invariant rev.Keys == NpmNames(pkgs[..i]) && forall n :: n in rev ==> rev[n] == []
    {
      NpmNamesOneMore(pkgs, i);
      if pkgs[i].npmName !in rev {
        rev := rev[pkgs[i].npmName := []];
      }
    }
    assert pkgs[..|pkgs|] == pkgs;
  }

  /** `rev` is `rows` with one `name` pushed for each of the dependencies `deps`. */
  ghost predicate Pushed(
    rows: map<string, seq<string>>, deps: seq<string>, name: string, rev: map<string, seq<string>>)
  {
    && (forall n :: Row(rev, n) == Row(rows, n) + Repeats(deps, n, name))
    && (forall n :: n in rev <==> n in rows || n in deps)
  }

  lemma {:induction false} RepeatsOneMore(deps: seq<string>, k: nat, n: string, name: string)
    requires k < |deps|
    ensures Repeats(deps[..k + 1], n, name) == Repeats(deps[..k], n, name) + (if deps[k] == n then [name] else [])
  {
    assert deps[..k + 1][..k] == deps[..k];
  }

  lemma PushOne(rows: map<string, seq<string>>, deps: seq<string>, k: nat, name: string, rev: map<string, seq<string>>)
    requires k < |deps| && Pushed(rows, deps[..k], name, rev)
    ensures Pushed(rows, deps[..k + 1], name, rev[deps[k] := Row(rev, deps[k]) + [name]])
  {
    var more := rev[deps[k] := Row(rev, deps[k]) + [name]];
    forall n
      ensures Row(more, n) == Row(rows, n) + Repeats(deps[..k + 1], n, name)
      ensures n in more <==> n in rows || n in deps[..k + 1]
    {
      RepeatsOneMore(deps, k, n, name);
      RowOneMore(rows, rev, n, Repeats(deps[..k], n, name), name);
      TakeOneMore(deps, k, n);
    }
  }

  lemma RowOneMore(
    rows: map<string, seq<string>>, rev: map<string, seq<string>>, n: string, row: seq<string>, name: string)
    requires Row(rev, n) == Row(rows, n) + row
    ensures Row(rev, n) + [name] == Row(rows, n) + (row + [name]) && row + [] == row
  {
  }

  lemma TakeOneMore(deps: seq<string>, k: nat, n: string)
    requires k < |deps|
    ensures n in deps[..k + 1] <==> n in deps[..k] || n == deps[k]
  {
    assert deps[..k + 1] == deps[..k] + [deps[k]];
  }

  method PushRows(pkg: Package, rows: map<string, seq<string>>) returns (rev: map<string, seq<string>>)
    ensures Pushed(rows, pkg.workspaceDeps, pkg.npmName, rev)
  {
    rev := rows;
    for k := 0 to |pkg.workspaceDeps|
      invariant Pushed(rows, pkg.workspaceDeps[..k], pkg.npmName, rev)
    {
      PushOne(rows, pkg.workspaceDeps, k, pkg.npmName, rev);
      var depName := pkg.workspaceDeps[k];
      if depName !in rev {
        rev := rev[depName := []];
      }
      rev := rev[depName := rev[depName] + [pkg.npmName]];
    }
    assert pkg.workspaceDeps[..|pkg.workspaceDeps|] == pkg.workspaceDeps;
  }

  /** Rows for the first packages, unsorted. */
  ghost predicate IsReverse(pkgs: seq<Package>, rev: map<string, seq<string>>, names: set<string>) {
    && (forall n :: Row(rev, n) == Dependents(pkgs, n))
    && (forall n :: n in rev <==> n in names || Dependents(pkgs, n) != [])
  }

  lemma {:induction false} RepeatsEmptyIff(deps: seq<string>, n: string, name: string)
    ensures Repeats(deps, n, name) == [] <==> n !in deps
  {
    if deps != [] {
      RepeatsEmptyIff(deps[..|deps| - 1], n, name);
      assert deps == deps[..|deps| - 1] + [deps[|deps| - 1]];
    }
  }

  lemma ReverseOneMore(
    pkgs: seq<Package>, i: nat, rows: map<string, seq<string>>, rev: map<string, seq<string>>, names: set<string>)
    requires i < |pkgs| && IsReverse(pkgs[..i], rows, names)
    requires Pushed(rows, pkgs[i].workspaceDeps, pkgs[i].npmName, rev)
    ensures IsReverse(pkgs[..i + 1], rev, names)
  {
    assert pkgs[..i + 1][..i] == pkgs[..i];
    forall n
      ensures Row(rev, n) == Dependents(pkgs[..i + 1], n)
      ensures n in rev <==> n in names || Dependents(pkgs[..i + 1], n) != []
    {
      RepeatsEmptyIff(pkgs[i].workspaceDeps, n, pkgs[i].npmName);
      assert Row(rev, n) == Row(rows, n) + Repeats(pkgs[i].workspaceDeps, n, pkgs[i].npmName);
      assert Row(rows, n) == Dependents(pkgs[..i], n);
    }
  }

  /** A row for every package and every dependency name; each row lists, sorted, one entry for
      each time a package depends on that name. */
  method BuildNamedReverseGraph(pkgs: seq<Package>) returns (rev: map<string, seq<string>>)
    ensures forall n :: n in rev <==> n in NpmNames(pkgs) || Dependents(pkgs, n) != []
    ensures forall n :: n in rev ==> rev[n] == SortStrings(Dependents(pkgs, n))
  {
    rev := EmptyRows(pkgs);
    for i := 0 to |pkgs|
      invariant IsReverse(pkgs[..i], rev, NpmNames(pkgs))
    {
      ghost var rows := rev;
      rev := PushRows(pkgs[i], rev);
      ReverseOneMore(pkgs, i, rows, rev, NpmNames(pkgs));
    }
    assert pkgs[..|pkgs|] == pkgs;
    ghost var unsorted := rev;
    rev := SortRows(rev);
    forall n | n in rev ensures rev[n] == SortStrings(Dependents(pkgs, n)) {
      assert Row(unsorted, n) == Dependents(pkgs, n);
    }
  }

  method SortRows(rows: map<string, seq<string>>) returns (rev: map<string, seq<string>>)
    ensures rev.Keys == rows.Keys && forall n :: n in rows ==> rev[n] == SortStrings(rows[n])
  {
    rev := rows;
    var todo := rows.Keys;
    while todo != {}
      invariant todo <= rows.Keys && rev.Keys == rows.Keys
      invariant forall n :: n in rows ==> rev[n] == if n in todo then rows[n] else SortStrings(rows[n])
    {
      var n :| n in todo;
      rev := rev[n := SortStrings(rev[n])];
      todo := todo - {n};
    }
  }

  // ── Leaves and reverse rows agree ──────────────────────────────────────────

  lemma {:induction false} DependentsEmptyIff(pkgs: seq<Package>, n: string)
    ensures Dependents(pkgs, n) == [] <==> forall i :: 0 <= i < |pkgs| ==> n !in pkgs[i].workspaceDeps
  {
    if pkgs != [] {
      var init, last := pkgs[..|pkgs| - 1], pkgs[|pkgs| - 1];
      DependentsEmptyIff(init, n);
      RepeatsEmptyIff(last.workspaceDeps, n, last.npmName);
      assert forall i :: 0 <= i < |init| ==> init[i] == pkgs[i];
    }
  }

  /** What a name resolves to has that name. */
  lemma {:induction false} LookupHasName(pkgs: seq<Package>, name: string, i: nat)
    requires DistinctDirs(pkgs) && i < |pkgs| && Lookup(pkgs, name) == Some(pkgs[i].dir)
    ensures pkgs[i].npmName == name
  {
    if pkgs[0].npmName != name {
      LookupInTail(pkgs, name);
      if i > 0 {
        LookupHasName(pkgs[1..], name, i - 1);
      }
    }
  }

  /** A name resolves to the first package that has it. */
  lemma {:induction false} LookupIsFirst(pkgs: seq<Package>, i: nat)
    requires DistinctDirs(pkgs) && i < |pkgs|
    ensures Lookup(pkgs, pkgs[i].npmName) == Some(pkgs[i].dir) <==>
      forall j :: 0 <= j < i ==> pkgs[j].npmName != pkgs[i].npmName
  {
    if i > 0 {
      if pkgs[0].npmName != pkgs[i].npmName {
        LookupIsFirst(pkgs[1..], i - 1);
        assert forall j :: 0 < j < i ==> pkgs[j] == pkgs[1..][j - 1];
      }
    }
  }

  lemma LookupInTail(pkgs: seq<Package>, name: string)
    requires DistinctDirs(pkgs) && pkgs != [] && Lookup(pkgs[1..], name).Some?
    ensures Lookup(pkgs[1..], name).value != pkgs[0].dir
  {
    LookupIsADir(pkgs[1..], name);
  }

  /** A directory is a leaf exactly if its row in the reverse graph is empty, or another package
      listed before it has the same npm name. */
  lemma LeafIff(pkgs: seq<Package>, i: nat)
    requires DistinctDirs(pkgs) && i < |pkgs|
    ensures
      IsLeaf(pkgs, pkgs[i].dir) <==>
      Dependents(pkgs, pkgs[i].npmName) == [] || exists j :: 0 <= j < i && pkgs[j].npmName == pkgs[i].npmName
  {
    LookupIsFirst(pkgs, i);
    var d, n := pkgs[i].dir, pkgs[i].npmName;
    DependentsEmptyIff(pkgs, n);
    if HasDependent(pkgs, |pkgs|, d) {
      var j :| 0 <= j < |pkgs| && Mentions(pkgs, j, |pkgs[j].workspaceDeps|, d);
      var k :| 0 <= k < |pkgs[j].workspaceDeps| && Lookup(pkgs, pkgs[j].workspaceDeps[k]) == Some(d);
      LookupHasName(pkgs, pkgs[j].workspaceDeps[k], i);
    } else if Lookup(pkgs, n) == Some(d) {
      forall j | 0 <= j < |pkgs| ensures n !in pkgs[j].workspaceDeps {
        assert !Mentions(pkgs, j, |pkgs[j].workspaceDeps|, d);
      }
    }
  }

  ghost predicate DistinctNpmNames(pkgs: seq<Package>) {
    forall i, j :: 0 <= i < j < |pkgs| ==> pkgs[i].npmName != pkgs[j].npmName
  }

  lemma {:induction false} LookupUnique(pkgs: seq<Package>, i: nat)
    requires DistinctNpmNames(pkgs) && i < |pkgs|
    ensures Lookup(pkgs, pkgs[i].npmName) == Some(pkgs[i].dir)
  {
    if i > 0 {
      LookupUnique(pkgs[1..], i - 1);
    }
  }

  /** With unique npm names, leaves are exactly the directories with an empty reverse row. */
  lemma LeafIffRowEmpty(pkgs: seq<Package>, i: nat)
    requires DistinctDirs(pkgs) && DistinctNpmNames(pkgs) && i < |pkgs|
    ensures IsLeaf(pkgs, pkgs[i].dir) <==> SortStrings(Dependents(pkgs, pkgs[i].npmName)) == []
  {
    LeafIff(pkgs, i);
    LookupUnique(pkgs, i);
    SortKeepsElements(Dependents(pkgs, pkgs[i].npmName), "");
  }

  lemma {:induction false} PackageAtIndex(pkgs: seq<Package>, i: nat)
    requires DistinctDirs(pkgs) && i < |pkgs|
    ensures pkgs[i].dir in Dirs(pkgs) && PackageAt(pkgs, pkgs[i].dir) == pkgs[i]
  {
    assert pkgs[i].dir in Dirs(pkgs);
    if i > 0 {
      PackageAtIndex(pkgs[1..], i - 1);
    }
  }

  /** In a workspace without cycles the last package of the topological order is a leaf; so every
      such workspace with any packages has one. */
  lemma LastIsLeaf(pkgs: seq<Package>, order: seq<Dir>)
    requires DistinctDirs(pkgs) && pkgs != [] && Acyclic(pkgs)
    requires AllSettled(pkgs, order) && multiset(order) == multiset(DirSeq(pkgs))
    ensures order != [] && IsLeaf(pkgs, order[|order| - 1])
  {
    PermutationIsUnique(pkgs, order);
    AcyclicSettles(pkgs, order);
    assert pkgs[0].dir in Dirs(pkgs);
    var d := order[|order| - 1];
    if HasDependent(pkgs, |pkgs|, d) {
      var j :| 0 <= j < |pkgs| && Mentions(pkgs, j, |pkgs[j].workspaceDeps|, d);
      var k :| 0 <= k < |pkgs[j].workspaceDeps| && Lookup(pkgs, pkgs[j].workspaceDeps[k]) == Some(d);
      PackageAtIndex(pkgs, j);
      assert ResolvesTo(pkgs, pkgs[j].dir, k, d);
      DependentComesLater(pkgs, order, pkgs[j].dir, d);
    }
  }

  lemma DependentComesLater(pkgs: seq<Package>, order: seq<Dir>, d: Dir, e: Dir)
    requires DependenciesFirst(pkgs, order) && Unique(order) && d in order && DependsOn(pkgs, d, e)
    ensures order[|order| - 1] != e
  {
    var p :| 0 <= p < |order| && order[p] == d;
    assert e in order[..p];
  }
}

/** Workspace packages and their production dependencies, as the cutover planner reads them. */
module Workspace {
  import opened Common

  type Dir = string

  datatype Package = Package(dir: Dir, npmName: string, workspaceDeps: seq<string>)

  /** A map from directory to package, in insertion order; no directory occurs twice. */
  ghost predicate DistinctDirs(pkgs: seq<Package>) {
    forall i, j :: 0 <= i < j < |pkgs| ==> pkgs[i].dir != pkgs[j].dir
  }

  /** The first package with a given npm name. */
  function Lookup(pkgs: seq<Package>, name: string): (dir: Option<Dir>)
    ensures dir.Some? <==> exists i :: 0 <= i < |pkgs| && pkgs[i].npmName == name
  {
    if pkgs == [] then None
    else if pkgs[0].npmName == name then Some(pkgs[0].dir)
    else Lookup(pkgs[1..], name)
  }

  lemma {:induction false} LookupIsADir(pkgs: seq<Package>, name: string)
    ensures Lookup(pkgs, name).Some? ==> Lookup(pkgs, name).value in Dirs(pkgs)
  {
    if pkgs != [] && pkgs[0].npmName != name {
      LookupIsADir(pkgs[1..], name);
      assert forall d :: d in Dirs(pkgs[1..]) ==> d in Dirs(pkgs);
    }
  }

  function Dirs(pkgs: seq<Package>): (ds: set<Dir>) { set i | 0 <= i < |pkgs| :: pkgs[i].dir }

  function DirSeq(pkgs: seq<Package>): (ds: seq<Dir>)
    ensures |ds| == |pkgs| && forall i :: 0 <= i < |pkgs| ==> ds[i] == pkgs[i].dir
  {
    seq(|pkgs|, i requires 0 <= i < |pkgs| => pkgs[i].dir)
  }

  /** The package in a directory. */
  function PackageAt(pkgs: seq<Package>, dir: Dir): (p: Package)
    requires dir in Dirs(pkgs)
    ensures p in pkgs && p.dir == dir
  {
    if pkgs[0].dir == dir then pkgs[0]
    else
      assert dir in Dirs(pkgs[1..]) by {
        var i :| 0 <= i < |pkgs| && pkgs[i].dir == dir;
        assert pkgs[1..][i - 1].dir == dir;
      }
      PackageAt(pkgs[1..], dir)
  }

  /** Package `d` has a production dependency that resolves to directory `e`. */
  ghost predicate DependsOn(pkgs: seq<Package>, d: Dir, e: Dir) {
    d in Dirs(pkgs) && exists k :: 0 <= k < |PackageAt(pkgs, d).workspaceDeps| && ResolvesTo(pkgs, d, k, e)
  }

  ghost predicate ResolvesTo(pkgs: seq<Package>, d: Dir, k: nat, e: Dir)
    requires d in Dirs(pkgs)
  {
    k < |PackageAt(pkgs, d).workspaceDeps| && Lookup(pkgs, PackageAt(pkgs, d).workspaceDeps[k]) == Some(e)
  }

  // ── Sorting strings ────────────────────────────────────────────────────────

  predicate Leq(a: string, b: string) {
    a == [] || (b != [] && (a[0] < b[0] || (a[0] == b[0] && Leq(a[1..], b[1..]))))
  }

  /** The two differ first at `k`, and `a` is smaller there. */
  ghost predicate SmallerAt(a: string, b: string, k: nat) {
    k < |a| && k < |b| && a[..k] == b[..k] && a[k] < b[k]
  }

  /** The order is that of dictionaries: a prefix comes first, and otherwise the first difference
      decides. */
  lemma {:induction false} LeqIff(a: string, b: string)
    ensures Leq(a, b) <==> a <= b || exists k: nat :: SmallerAt(a, b, k)
  {
    if a != [] && b != [] {
      if a[0] == b[0] {
        LeqIff(a[1..], b[1..]);
        assert a == [a[0]] + a[1..] && b == [b[0]] + b[1..];
        if k: nat :| SmallerAt(a[1..], b[1..], k) {
          assert a[..k + 1] == [a[0]] + a[1..][..k] && b[..k + 1] == [b[0]] + b[1..][..k];
          assert SmallerAt(a, b, k + 1);
        }
        if k: nat :| SmallerAt(a, b, k) {
          assert a[..k][0] == a[0] || k == 0;
          assert a[1..][..k - 1] == a[..k][1..] && b[1..][..k - 1] == b[..k][1..];
          assert SmallerAt(a[1..], b[1..], k - 1);
        }
      } else {
        FirstDecides(a, b);
      }
    }
  }

  lemma FirstDecides(a: string, b: string)
    requires a != [] && b != [] && a[0] != b[0]
    ensures !(a <= b) && (a[0] < b[0] <==> exists k: nat :: SmallerAt(a, b, k))
  {
    if a[0] < b[0] {
      assert SmallerAt(a, b, 0);
    }
    if k: nat :| SmallerAt(a, b, k) {
      assert k > 0 ==> a[..k][0] == b[..k][0];
    }
  }

  lemma {:induction false} LeqTotal(a: string, b: string)
    ensures Leq(a, b) || Leq(b, a)
  {
    if a != [] && b != [] && a[0] == b[0] {
      LeqTotal(a[1..], b[1..]);
    }
  }

  lemma {:induction false} LeqTransitive(a: string, b: string, c: string)
    requires Leq(a, b) && Leq(b, c)
    ensures Leq(a, c)
  {
    if a != [] && a[0] == b[0] && b[0] == c[0] {
      LeqTransitive(a[1..], b[1..], c[1..]);
    }
  }

  ghost predicate Sorted(s: seq<string>) { forall i, j :: 0 <= i < j < |s| ==> Leq(s[i], s[j]) }

  function InsertString(x: string, s: seq<string>): (r: seq<string>)
    ensures multiset(r) == multiset(s) + multiset{x}
  {
    if s == [] || Leq(x, s[0]) then [x] + s
    else
      assert s == [s[0]] + s[1..];
      [s[0]] + InsertString(x, s[1..])
  }

  function SortStrings(s: seq<string>): (r: seq<string>)
    ensures multiset(r) == multiset(s)
  {
    if s == [] then []
    else
      assert s == [s[0]] + s[1..];
      InsertString(s[0], SortStrings(s[1..]))
  }

  lemma {:induction false} InsertSorted(x: string, s: seq<string>)
    requires Sorted(s)
    ensures Sorted(InsertString(x, s))
  {
    if s != [] {
      if Leq(x, s[0]) {
        forall j | 0 <= j < |s| ensures Leq(x, s[j]) {
          if j > 0 {
            LeqTransitive(x, s[0], s[j]);
          }
        }
      } else {
        LeqTotal(x, s[0]);
        InsertSorted(x, s[1..]);
        var rest := InsertString(x, s[1..]);
        forall j | 0 <= j < |rest| ensures Leq(s[0], rest[j]) {
          assert rest[j] in multiset(rest);
          assert rest[j] == x || rest[j] in s[1..];
        }
      }
    }
  }

  lemma {:induction false} SortSorts(s: seq<string>)
    ensures Sorted(SortStrings(s))
  {
    if s != [] {
      SortSorts(s[1..]);
      InsertSorted(s[0], SortStrings(s[1..]));
    }
  }

  lemma SortKeepsElements(s: seq<string>, x: string)
    ensures x in SortStrings(s) <==> x in s
    ensures |SortStrings(s)| == |s|
  {
    assert x in multiset(SortStrings(s)) <==> x in multiset(s);
    assert |multiset(SortStrings(s))| == |SortStrings(s)|;
    assert |multiset(s)| == |s|;
  }
}

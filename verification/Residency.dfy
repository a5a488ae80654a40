/** The layer window of the admission estimate: the largest layer segments that can be resident
    together. */
module Residency {
  import opened Common
  import opened ImageManifest
  import opened ImageBuilder

  /** The segments that a residency list names, in its order; unknown ids are skipped. */
  function Resolve(segments: seq<Segment>, ids: seq<SegmentId>): (found: seq<Segment>) {
    if ids == [] then []
    else
      match FindSegment(segments, ids[0])
      case None => Resolve(segments, ids[1..])
      case Some(s) => [s] + Resolve(segments, ids[1..])
  }

  function SizesOf(segments: seq<Segment>): (sizes: seq<nat>)
    ensures |sizes| == |segments| && forall i :: 0 <= i < |sizes| ==> sizes[i] == segments[i].byteSize
  {
    seq(|segments|, i requires 0 <= i < |segments| => segments[i].byteSize)
  }

  // ── Sorting and taking ─────────────────────────────────────────────────────

  function Insert(x: nat, s: seq<nat>): (r: seq<nat>)
    ensures |r| == |s| + 1
  {
    if s == [] || x >= s[0] then [x] + s else [s[0]] + Insert(x, s[1..])
  }

  function SortDescending(xs: seq<nat>): (r: seq<nat>)
    ensures |r| == |xs|
  {
    if xs == [] then [] else Insert(xs[0], SortDescending(xs[1..]))
  }

  function SumOfFirst(s: seq<nat>, n: nat): (total: nat) {
    if s == [] || n == 0 then 0 else s[0] + SumOfFirst(s[1..], n - 1)
  }

  function WindowOf(m: Manifest): (w: nat) {
    if m.residencyPlan.layerWindowSize < 1 then 1 else m.residencyPlan.layerWindowSize
  }

  function MaxLayerWindowBytes(m: Manifest): (n: nat) {
    SumOfFirst(SortDescending(SizesOf(Resolve(m.segments, m.residencyPlan.layerSegments))), WindowOf(m))
  }

  ghost predicate Descending(s: seq<nat>) { forall i, j :: 0 <= i < j < |s| ==> s[i] >= s[j] }

  lemma {:induction false} InsertDescends(x: nat, s: seq<nat>)
    requires Descending(s)
    ensures Descending(Insert(x, s)) && (s != [] ==> Insert(x, s)[0] == x || Insert(x, s)[0] == s[0])
    ensures s == [] ==> Insert(x, s) == [x]
    ensures Insert(x, s)[0] >= x
  {
    if s != [] && x < s[0] {
      InsertDescends(x, s[1..]);
      var rest := Insert(x, s[1..]);
      assert rest[0] <= s[0];
      assert forall i :: 0 <= i < |rest| ==> rest[i] <= rest[0];
    }
  }

  lemma {:induction false} SortDescends(xs: seq<nat>)
    ensures Descending(SortDescending(xs))
  {
    if xs != [] {
      SortDescends(xs[1..]);
      InsertDescends(xs[0], SortDescending(xs[1..]));
    }
  }

  // ── Choices of segments ────────────────────────────────────────────────────

  /** A choice says of each segment whether it is resident; no segment is chosen twice. */
  type Choice = seq<bool>

  function Chosen(c: Choice): (n: nat) {
    if c == [] then 0 else (if c[0] then 1 else 0) + Chosen(c[1..])
  }

  function ChoiceBytes(sizes: seq<nat>, c: Choice): (n: nat)
    requires |c| == |sizes|
  {
    if c == [] then 0 else (if c[0] then sizes[0] else 0) + ChoiceBytes(sizes[1..], c[1..])
  }

  /** Taking one more element from a descending sequence adds at most its head bound. */
  lemma {:induction false} FirstGrows(s: seq<nat>, n: nat, x: nat)
    requires n > 0 && forall i :: 0 <= i < |s| ==> s[i] <= x
    ensures SumOfFirst(s, n) <= x + SumOfFirst(s, n - 1)
  {
    if s != [] && n > 1 {
      FirstGrows(s[1..], n - 1, x);
    }
  }

  /** Among descending sizes, no choice of at most `n` beats the first `n`. */
  lemma {:induction false} FirstAreLargest(s: seq<nat>, c: Choice, n: nat)
    requires Descending(s) && |c| == |s| && Chosen(c) <= n
    ensures ChoiceBytes(s, c) <= SumOfFirst(s, n)
  {
    if s != [] {
      if c[0] {
        FirstAreLargest(s[1..], c[1..], n - 1);
      } else if n > 0 {
        FirstAreLargest(s[1..], c[1..], n);
        FirstGrows(s[1..], n, s[0]);
      } else {
        FirstAreLargest(s[1..], c[1..], 0);
      }
    }
  }

  function FirstChoice(len: nat, n: nat): (c: Choice)
    ensures |c| == len
  {
    if len == 0 then [] else [n > 0] + FirstChoice(len - 1, if n > 0 then n - 1 else 0)
  }

  lemma {:induction false} FirstChoiceIs(s: seq<nat>, n: nat)
    ensures Chosen(FirstChoice(|s|, n)) <= n && ChoiceBytes(s, FirstChoice(|s|, n)) == SumOfFirst(s, n)
  {
    if s != [] {
      FirstChoiceIs(s[1..], if n > 0 then n - 1 else 0);
    }
  }

  // ── Choices move with the sort ─────────────────────────────────────────────

  /** The same choice after `x`, chosen or not, was inserted. */
  lemma {:induction false} ChoiceAfterInsert(x: nat, s: seq<nat>, b: bool, c: Choice) returns (c': Choice)
    requires |c| == |s|
    ensures |c'| == |s| + 1 && Chosen(c') == Chosen(c) + (if b then 1 else 0)
    ensures ChoiceBytes(Insert(x, s), c') == ChoiceBytes(s, c) + (if b then x else 0)
  {
    if s == [] || x >= s[0] {
      c' := [b] + c;
    } else {
      var rest := ChoiceAfterInsert(x, s[1..], b, c[1..]);
      c' := [c[0]] + rest;
    }
  }

  /** And back: which part of a choice fell on `x`. */
  lemma {:induction false} ChoiceBeforeInsert(x: nat, s: seq<nat>, c': Choice) returns (b: bool, c: Choice)
    requires |c'| == |s| + 1
    ensures |c| == |s| && Chosen(c') == Chosen(c) + (if b then 1 else 0)
    ensures ChoiceBytes(Insert(x, s), c') == ChoiceBytes(s, c) + (if b then x else 0)
  {
    if s == [] || x >= s[0] {
      b, c := c'[0], c'[1..];
    } else {
      var rest;
      b, rest := ChoiceBeforeInsert(x, s[1..], c'[1..]);
      c := [c'[0]] + rest;
    }
  }

  lemma {:induction false} ChoiceAfterSort(xs: seq<nat>, c: Choice) returns (c': Choice)
    requires |c| == |xs|
    ensures |c'| == |xs| && Chosen(c') == Chosen(c) && ChoiceBytes(SortDescending(xs), c') == ChoiceBytes(xs, c)
  {
    if xs == [] {
      c' := [];
    } else {
      var rest := ChoiceAfterSort(xs[1..], c[1..]);
      c' := ChoiceAfterInsert(xs[0], SortDescending(xs[1..]), c[0], rest);
    }
  }

  lemma {:induction false} ChoiceBeforeSort(xs: seq<nat>, c': Choice) returns (c: Choice)
    requires |c'| == |xs|
    ensures |c| == |xs| && Chosen(c') == Chosen(c) && ChoiceBytes(SortDescending(xs), c') == ChoiceBytes(xs, c)
  {
    if xs == [] {
      c := [];
    } else {
      var b, rest := ChoiceBeforeInsert(xs[0], SortDescending(xs[1..]), c');
      var before := ChoiceBeforeSort(xs[1..], rest);
      c := [b] + before;
    }
  }

  // ── What the window estimate means ─────────────────────────────────────────

  /** Bytes of the segments that a choice among listed ids makes resident; an id the manifest does not
      have takes none. */
  function ResidentBytes(segments: seq<Segment>, ids: seq<SegmentId>, c: Choice): (n: nat)
    requires |c| == |ids|
  {
    if ids == [] then 0
    else
      var own := match FindSegment(segments, ids[0]) case Some(s) => s.byteSize case None => 0;
      (if c[0] then own else 0) + ResidentBytes(segments, ids[1..], c[1..])
  }

  /** The same choice among the segments found. */
  lemma {:induction false} ChoiceResolves(segments: seq<Segment>, ids: seq<SegmentId>, c: Choice) returns (c': Choice)
    requires |c| == |ids|
    ensures |c'| == |Resolve(segments, ids)| && Chosen(c') <= Chosen(c)
    ensures ChoiceBytes(SizesOf(Resolve(segments, ids)), c') == ResidentBytes(segments, ids, c)
  {
    if ids == [] {
      c' := [];
    } else {
      var rest := ChoiceResolves(segments, ids[1..], c[1..]);
      if FindSegment(segments, ids[0]).Some? {
        c' := [c[0]] + rest;
        SizesCons(FindSegment(segments, ids[0]).value, Resolve(segments, ids[1..]));
      } else {
        c' := rest;
      }
    }
  }

  /** And back. */
  lemma {:induction false} ChoiceListed(segments: seq<Segment>, ids: seq<SegmentId>, c': Choice) returns (c: Choice)
    requires |c'| == |Resolve(segments, ids)|
    ensures |c| == |ids| && Chosen(c) == Chosen(c')
    ensures ResidentBytes(segments, ids, c) == ChoiceBytes(SizesOf(Resolve(segments, ids)), c')
  {
    if ids == [] {
      c := [];
    } else if FindSegment(segments, ids[0]).Some? {
      var rest := ChoiceListed(segments, ids[1..], c'[1..]);
      c := [c'[0]] + rest;
      SizesCons(FindSegment(segments, ids[0]).value, Resolve(segments, ids[1..]));
    } else {
      var rest := ChoiceListed(segments, ids[1..], c');
      c := [false] + rest;
    }
  }

  lemma SizesCons(s: Segment, rest: seq<Segment>)
    ensures SizesOf([s] + rest)[0] == s.byteSize && SizesOf([s] + rest)[1..] == SizesOf(rest)
  {
  }

  /** The window allows one segment at least, and otherwise as many as the manifest records. */
  ghost predicate Allowed(m: Manifest, c: Choice) {
    && |c| == |m.residencyPlan.layerSegments|
    && (Chosen(c) <= 1 || Chosen(c) <= m.residencyPlan.layerWindowSize)
  }

  /** The estimate bounds every set of layer segments that the window allows at once. */
  lemma WindowBoundsEveryChoice(m: Manifest, c: Choice)
    requires Allowed(m, c)
    ensures ResidentBytes(m.segments, m.residencyPlan.layerSegments, c) <= MaxLayerWindowBytes(m)
  {
    var sizes := SizesOf(Resolve(m.segments, m.residencyPlan.layerSegments));
    var found := ChoiceResolves(m.segments, m.residencyPlan.layerSegments, c);
    var c' := ChoiceAfterSort(sizes, found);
    SortDescends(sizes);
    FirstAreLargest(SortDescending(sizes), c', WindowOf(m));
  }

  /** And some such set needs exactly that much. */
  lemma WindowIsAttained(m: Manifest) returns (c: Choice)
    ensures Allowed(m, c)
    ensures ResidentBytes(m.segments, m.residencyPlan.layerSegments, c) == MaxLayerWindowBytes(m)
  {
    var sizes := SizesOf(Resolve(m.segments, m.residencyPlan.layerSegments));
    FirstChoiceIs(SortDescending(sizes), WindowOf(m));
    var found := ChoiceBeforeSort(sizes, FirstChoice(|sizes|, WindowOf(m)));
    c := ChoiceListed(m.segments, m.residencyPlan.layerSegments, found);
  }

  // ── Compiled images ────────────────────────────────────────────────────────

  function PairChoice(n: nat, i: nat, j: nat): (c: Choice)
    ensures |c| == n && forall k :: 0 <= k < n ==> (c[k] <==> k == i || k == j)
  {
    seq(n, k => k == i || k == j)
  }

  lemma {:induction false} NoneChosen(segments: seq<Segment>, ids: seq<SegmentId>, c: Choice)
    requires |c| == |ids| && forall k :: 0 <= k < |c| ==> !c[k]
    ensures Chosen(c) == 0
  {
    if c != [] {
      NoneChosen(segments, ids[1..], c[1..]);
    }
  }

  lemma {:induction false} OneChosen(segments: seq<Segment>, ids: seq<SegmentId>, c: Choice, i: nat)
    requires |c| == |ids| && i < |ids| && (forall k :: 0 <= k < |c| ==> (c[k] <==> k == i))
    ensures Chosen(c) == 1
    ensures FindSegment(segments, ids[i]).Some? ==>
      FindSegment(segments, ids[i]).value.byteSize <= ResidentBytes(segments, ids, c)
  {
    if i == 0 {
      NoneChosen(segments, ids[1..], c[1..]);
    } else {
      OneChosen(segments, ids[1..], c[1..], i - 1);
    }
  }

  lemma {:induction false} TwoChosen(segments: seq<Segment>, ids: seq<SegmentId>, c: Choice, i: nat, j: nat)
    requires |c| == |ids| && i < j < |ids| && (forall k :: 0 <= k < |c| ==> (c[k] <==> k == i || k == j))
    requires FindSegment(segments, ids[i]).Some? && FindSegment(segments, ids[j]).Some?
    ensures Chosen(c) == 2
    ensures
      FindSegment(segments, ids[i]).value.byteSize + FindSegment(segments, ids[j]).value.byteSize <=
      ResidentBytes(segments, ids, c)
  {
    if i == 0 {
      OneChosen(segments, ids[1..], c[1..], j - 1);
    } else {
      TwoChosen(segments, ids[1..], c[1..], i - 1, j - 1);
    }
  }

  /** On every compiled image any two of the listed layer segments fit the estimate together. */
  lemma TwoLayersFit(m: Manifest, files: Files, blobs: seq<Bytes>, i: nat, j: nat)
    requires IsCompiled(m, files, blobs) && i < j < |m.residencyPlan.layerSegments|
    requires FindSegment(m.segments, m.residencyPlan.layerSegments[i]).Some?
    requires FindSegment(m.segments, m.residencyPlan.layerSegments[j]).Some?
    ensures
      var ids := m.residencyPlan.layerSegments;
      FindSegment(m.segments, ids[i]).value.byteSize + FindSegment(m.segments, ids[j]).value.byteSize <=
      MaxLayerWindowBytes(m)
  {
    var c := PairChoice(|m.residencyPlan.layerSegments|, i, j);
    TwoChosen(m.segments, m.residencyPlan.layerSegments, c, i, j);
    WindowBoundsEveryChoice(m, c);
  }
}

/** When a rename leaves inserted names alone, and when it leaves no old name behind. */
module RenameOverlap {
  import opened Common
  import opened PackageRename

  // ── Overlaps ───────────────────────────────────────────────────────────────

  /** Laid over `inserted` at offset `d`, the pattern agrees with it wherever both have a character. */
  predicate Agree(inserted: string, pattern: string, d: int) {
    forall j :: 0 <= j < |inserted| && 0 <= j - d < |pattern| ==> inserted[j] == pattern[j - d]
  }

  /** The offsets at which an occurrence of the pattern would touch or straddle the insertion. */
  predicate Touches(inserted: string, pattern: string, d: int) { -|pattern| < d < |inserted| }

  /** The pattern contains the insertion, is contained in it, or starts with an end of it or ends
      with a start of it. A caller can check this before renaming. */
  predicate Clash(inserted: string, pattern: string) {
    exists d :: -|pattern| < d < |inserted| && Agree(inserted, pattern, d)
  }

  lemma OccursElement(s: string, pattern: string, i: nat, k: nat)
    requires OccursAt(s, pattern, i) && k < |pattern|
    ensures s[i + k] == pattern[k]
  {
    assert s[i..i + |pattern|][k] == pattern[k];
  }

  lemma OccursIf(s: string, pattern: string, i: nat)
    requires i + |pattern| <= |s| && forall k :: 0 <= k < |pattern| ==> s[i + k] == pattern[k]
    ensures OccursAt(s, pattern, i)
  {
    assert s[i..i + |pattern|] == pattern;
  }

  /** An occurrence that touches the insertion agrees with it. */
  lemma TouchingAgrees(x: string, inserted: string, y: string, pattern: string, i: nat)
    requires OccursAt(x + inserted + y, pattern, i)
    ensures Agree(inserted, pattern, i - |x|)
  {
    forall j | 0 <= j < |inserted| && 0 <= j - (i - |x|) < |pattern|
      ensures inserted[j] == pattern[j - (i - |x|)]
    {
      OccursElement(x + inserted + y, pattern, i, j - (i - |x|));
      assert (x + inserted + y)[|x| + j] == inserted[j];
    }
  }

  /** The part of the pattern before the insertion, and the part after it. */
  function LeftPart(pattern: string, d: int): (x: string)
    requires -|pattern| <= d
  {
    if d < 0 then pattern[..-d] else []
  }

  function RightPart(inserted: string, pattern: string, d: int): (y: string)
    requires d <= |inserted|
  {
    if |inserted| - d < |pattern| then pattern[|inserted| - d..] else []
  }

  /** Conversely, around an insertion it agrees with, the pattern is completed by its own parts. */
  lemma AgreeingOccurs(inserted: string, pattern: string, d: int)
    requires Touches(inserted, pattern, d) && pattern != [] && Agree(inserted, pattern, d)
    ensures |LeftPart(pattern, d)| < |pattern| && |RightPart(inserted, pattern, d)| < |pattern|
    ensures |LeftPart(pattern, d)| + d >= 0
    ensures OccursAt(
              LeftPart(pattern, d) + inserted + RightPart(inserted, pattern, d), pattern, |LeftPart(pattern, d)| + d)
  {
    var x, y := LeftPart(pattern, d), RightPart(inserted, pattern, d);
    var s, i := x + inserted + y, |x| + d;
    forall k | 0 <= k < |pattern| ensures i + k < |s| && s[i + k] == pattern[k] {
      if i + k < |x| {
        assert s[i + k] == x[i + k];
      } else if i + k < |x| + |inserted| {
        assert s[i + k] == inserted[d + k];
      } else {
        assert s[i + k] == y[d + k - |inserted|];
      }
    }
    OccursIf(s, pattern, i);
  }

  /** The occurrence of a pattern at `i` has a character of the insertion, or has it strictly inside. */
  ghost predicate TouchedAt(x: string, inserted: string, y: string, pattern: string, i: nat) {
    OccursAt(x + inserted + y, pattern, i) && |x| < i + |pattern| && i < |x| + |inserted|
  }

  /** Two names clash exactly if, in some text around the inserted one, the pattern touches it. */
  lemma ClashIff(inserted: string, pattern: string)
    ensures Clash(inserted, pattern) <==> exists x, y, i: nat :: TouchedAt(x, inserted, y, pattern, i)
  {
    if d :| Touches(inserted, pattern, d) && Agree(inserted, pattern, d) {
      if pattern == [] {
        assert TouchedAt([], inserted, [], pattern, d);
      } else {
        AgreeingOccurs(inserted, pattern, d);
        var x, y := LeftPart(pattern, d), RightPart(inserted, pattern, d);
        assert TouchedAt(x, inserted, y, pattern, |x| + d);
      }
    }
    if x, y, i: nat :| TouchedAt(x, inserted, y, pattern, i) {
      TouchingAgrees(x, inserted, y, pattern, i);
      assert Touches(inserted, pattern, i - |x|);
    }
  }

  lemma TooShort(s: string, pattern: string, n: nat)
    requires |s| < |pattern|
    ensures !Contains(s, pattern) && Matches(s, pattern, n) == 0
  {
    AbsentIff(s, pattern);
  }

  // ── A pass works gap by gap ────────────────────────────────────────────────

  lemma FindIs(s: string, pattern: string, i: nat)
    requires OccursAt(s, pattern, i) && forall j: nat :: j < i ==> !OccursAt(s, pattern, j)
    ensures Find(s, pattern) == Some(i)
  {
    FindIsLeftmost(s, pattern, i);
  }

  lemma OccursInLeft(g: string, rest: string, pattern: string, i: nat)
    requires i + |pattern| <= |g|
    ensures OccursAt(g + rest, pattern, i) <==> OccursAt(g, pattern, i)
  {
    assert (g + rest)[i..i + |pattern|] == g[i..i + |pattern|];
  }

  lemma OccursInRight(front: string, t: string, pattern: string, i: nat)
    ensures OccursAt(front + t, pattern, |front| + i) <==> OccursAt(t, pattern, i)
  {
    if i + |pattern| <= |t| {
      assert (front + t)[|front| + i..|front| + i + |pattern|] == t[i..i + |pattern|];
    }
  }

  /** What occurs in the text on the left is found there first. */
  lemma FindInLeft(g: string, rest: string, pattern: string, i: nat)
    requires Find(g, pattern) == Some(i)
    ensures Find(g + rest, pattern) == Some(i)
  {
    FindIsLeftmost(g, pattern, 0);
    OccursInLeft(g, rest, pattern, i);
    forall j: nat | j < i ensures !OccursAt(g + rest, pattern, j) {
      OccursInLeft(g, rest, pattern, j);
      FindIsLeftmost(g, pattern, j);
    }
    FindIs(g + rest, pattern, i);
  }

  /** Every occurrence in the text around the insertion is on one side of it. */
  ghost predicate Apart(g: string, inserted: string, t: string, pattern: string) {
    forall i: nat :: OccursAt(g + inserted + t, pattern, i) ==> i + |pattern| <= |g| || |g| + |inserted| <= i
  }

  /** So it is if the two do not clash. */
  lemma ClashFreeApart(g: string, inserted: string, t: string, pattern: string)
    requires !Clash(inserted, pattern)
    ensures Apart(g, inserted, t, pattern)
  {
    forall i: nat | OccursAt(g + inserted + t, pattern, i) ensures i + |pattern| <= |g| || |g| + |inserted| <= i {
      TouchingAgrees(g, inserted, t, pattern, i);
      assert Touches(inserted, pattern, i - |g|) ==> Clash(inserted, pattern);
    }
  }

  /** It stays so when the text loses a part on the left. */
  lemma ApartSuffix(g: string, inserted: string, t: string, pattern: string, k: nat)
    requires Apart(g, inserted, t, pattern) && k <= |g|
    ensures Apart(g[k..], inserted, t, pattern)
  {
    assert g[..k] + (g[k..] + inserted + t) == g + inserted + t;
    forall i: nat | OccursAt(g[k..] + inserted + t, pattern, i)
      ensures i + |pattern| <= |g[k..]| || |g[k..]| + |inserted| <= i
    {
      OccursInRight(g[..k], g[k..] + inserted + t, pattern, i);
    }
  }

  lemma ConcatAssoc(a: string, b: string, c: string)
    ensures a + b + c == a + (b + c)
  {
  }

  /** With nothing on the left, occurrences are those on the right. */
  lemma OnlyOnRight(g: string, inserted: string, t: string, pattern: string, j: nat)
    requires Apart(g, inserted, t, pattern) && Find(g, pattern).None?
    ensures
      OccursAt(g + inserted + t, pattern, j) <==>
      |g + inserted| <= j && OccursAt(t, pattern, j - |g + inserted|)
  {
    if OccursAt(g + inserted + t, pattern, j) {
      FindIsLeftmost(g, pattern, j);
      ConcatAssoc(g, inserted, t);
      if j + |pattern| <= |g| {
        OccursInLeft(g, inserted + t, pattern, j);
      }
    }
    if |g + inserted| <= j {
      OccursInRight(g + inserted, t, pattern, j - |g + inserted|);
    }
  }

  lemma FindInRight(g: string, inserted: string, t: string, pattern: string)
    requires Apart(g, inserted, t, pattern) && Find(g, pattern).None?
    ensures Find(g + inserted + t, pattern) ==
      if Find(t, pattern).Some? then Some(|g| + |inserted| + Find(t, pattern).value) else None
  {
    var s, n := g + inserted + t, |g + inserted|;
    if Find(t, pattern).Some? {
      var v := Find(t, pattern).value;
      FindIsLeftmost(t, pattern, 0);
      OnlyOnRight(g, inserted, t, pattern, n + v);
      forall j: nat | j < n + v ensures !OccursAt(s, pattern, j) {
        OnlyOnRight(g, inserted, t, pattern, j);
        if n <= j {
          FindIsLeftmost(t, pattern, j - n);
        }
      }
      FindIs(s, pattern, n + v);
    } else {
      FindIsLeftmost(s, pattern, 0);
      if Find(s, pattern).Some? {
        var v := Find(s, pattern).value;
        OnlyOnRight(g, inserted, t, pattern, v);
        FindIsLeftmost(t, pattern, v - n);
      }
    }
  }

  /** Two results side by side with an insertion between them. */
  function Beside(a: PassResult, inserted: string, b: PassResult): (r: PassResult) {
    PassResult(a.text + inserted + b.text, a.count + b.count)
  }

  lemma SlicesAround(g: string, inserted: string, t: string, i: nat, k: nat)
    requires i + k <= |g|
    ensures (g + inserted + t)[..i] == g[..i] && (g + inserted + t)[i + k..] == g[i + k..] + inserted + t
  {
  }

  lemma SlicesBeyond(front: string, t: string, i: nat, k: nat)
    requires i + k <= |t|
    ensures |front + t[..i]| == |front| + i
    ensures (front + t)[..|front| + i] == front + t[..i] && (front + t)[|front| + i + k..] == t[i + k..]
  {
  }

  /** One more match, after `front`. */
  function After(front: string, rep: Replacement, r: PassResult): (r': PassResult) {
    PassResult(front + rep.newPattern + r.text, 1 + r.count)
  }

  /** A match between `front` and `tail` replaced, and then the rest. */
  lemma {:induction false} ReplacedFirst(s: string, rep: Replacement, n: nat, front: string, tail: string)
    requires n > 0 && Find(s, rep.oldPattern) == Some(|front|)
    requires s[..|front|] == front && s[|front| + |rep.oldPattern|..] == tail
    ensures Replaced(s, rep, n) == After(front, rep, Replaced(tail, rep, n - 1))
  {
  }

  lemma {:induction false} ReplacedNone(s: string, rep: Replacement, n: nat)
    requires n == 0 || Find(s, rep.oldPattern).None?
    ensures Replaced(s, rep, n) == PassResult(s, 0)
  {
  }

  lemma PrefixBeside(front: string, rep: Replacement, a: PassResult, inserted: string, b: PassResult)
    ensures After(front, rep, Beside(a, inserted, b)) == Beside(After(front, rep, a), inserted, b)
  {
    var fn := front + rep.newPattern;
    assert fn + (a.text + inserted + b.text) == fn + a.text + inserted + b.text;
  }

  lemma SuffixBeside(g: string, inserted: string, gap: string, rep: Replacement, r: PassResult)
    ensures After(g + inserted + gap, rep, r) == Beside(PassResult(g, 0), inserted, After(gap, rep, r))
  {
    assert g + inserted + gap + rep.newPattern + r.text == g + inserted + (gap + rep.newPattern + r.text);
  }

  /** Both sides of an insertion start with the match at `i` of the left one. */
  lemma {:induction false} FirstOnLeft(g: string, inserted: string, t: string, rep: Replacement, n: nat, i: nat)
    requires n > 0 && Find(g, rep.oldPattern) == Some(i)
    ensures
      var front, tail := g[..i], g[i + |rep.oldPattern|..];
      && Replaced(g + inserted + t, rep, n) == After(front, rep, Replaced(tail + inserted + t, rep, n - 1))
      && Replaced(g, rep, n) == After(front, rep, Replaced(tail, rep, n - 1))
  {
    var front, tail := g[..i], g[i + |rep.oldPattern|..];
    ConcatAssoc(g, inserted, t);
    FindInLeft(g, inserted + t, rep.oldPattern, i);
    SlicesAround(g, inserted, t, i, |rep.oldPattern|);
    ReplacedFirst(g + inserted + t, rep, n, front, tail + inserted + t);
    ReplacedFirst(g, rep, n, front, tail);
  }

  /** With no match on the left, both start with the match at `v` of the right one. */
  lemma {:induction false} FirstOnRight(g: string, inserted: string, t: string, rep: Replacement, n: nat, v: nat)
    requires n > 0 && Apart(g, inserted, t, rep.oldPattern) && Find(g, rep.oldPattern).None?
    requires Find(t, rep.oldPattern) == Some(v)
    ensures
      var gap, tail := t[..v], t[v + |rep.oldPattern|..];
      && Replaced(g + inserted + t, rep, n) == After(g + inserted + gap, rep, Replaced(tail, rep, n - 1))
      && Replaced(t, rep, n) == After(gap, rep, Replaced(tail, rep, n - 1))
  {
    var front, gap, tail := g + inserted, t[..v], t[v + |rep.oldPattern|..];
    FindInRight(g, inserted, t, rep.oldPattern);
    SlicesBeyond(front, t, v, |rep.oldPattern|);
    ReplacedFirst(front + t, rep, n, front + gap, tail);
    ReplacedFirst(t, rep, n, gap, tail);
  }

  /** A pass works on the two sides of an insertion in turn, and leaves the insertion alone. */
  ghost predicate SideBySide(g: string, inserted: string, t: string, rep: Replacement, n: nat) {
    var left := Replaced(g, rep, n);
    left.count <= n && Replaced(g + inserted + t, rep, n) == Beside(left, inserted, Replaced(t, rep, n - left.count))
  }

  /** It does if it does not touch the insertion. */
  lemma {:induction false} PassAround(g: string, inserted: string, t: string, rep: Replacement, n: nat)
    requires Apart(g, inserted, t, rep.oldPattern)
    ensures SideBySide(g, inserted, t, rep, n)
    decreases n
  {
    if n == 0 {
      ReplacedNone(g, rep, n);
      ReplacedNone(t, rep, n);
      ReplacedNone(g + inserted + t, rep, n);
    } else if Find(g, rep.oldPattern).Some? {
      var i := Find(g, rep.oldPattern).value;
      ApartSuffix(g, inserted, t, rep.oldPattern, i + |rep.oldPattern|);
      PassAround(g[i + |rep.oldPattern|..], inserted, t, rep, n - 1);
      PassAroundLeft(g, inserted, t, rep, n, i);
    } else {
      PassAroundRight(g, inserted, t, rep, n);
    }
  }

  lemma {:induction false} PassAroundLeft(g: string, inserted: string, t: string, rep: Replacement, n: nat, i: nat)
    requires n > 0 && Find(g, rep.oldPattern) == Some(i)
    requires SideBySide(g[i + |rep.oldPattern|..], inserted, t, rep, n - 1)
    ensures SideBySide(g, inserted, t, rep, n)
  {
    var front, tail := g[..i], g[i + |rep.oldPattern|..];
    var rest := Replaced(tail, rep, n - 1);
    FirstOnLeft(g, inserted, t, rep, n, i);
    PrefixBeside(front, rep, rest, inserted, Replaced(t, rep, n - 1 - rest.count));
    assert After(front, rep, rest).count == 1 + rest.count;
  }

  lemma {:induction false} PassAroundRight(g: string, inserted: string, t: string, rep: Replacement, n: nat)
    requires n > 0 && Apart(g, inserted, t, rep.oldPattern) && Find(g, rep.oldPattern).None?
    ensures SideBySide(g, inserted, t, rep, n)
  {
    ReplacedNone(g, rep, n);
    if Find(t, rep.oldPattern).Some? {
      var v := Find(t, rep.oldPattern).value;
      FirstOnRight(g, inserted, t, rep, n, v);
      SuffixBeside(g, inserted, t[..v], rep, Replaced(t[v + |rep.oldPattern|..], rep, n - 1));
    } else {
      FindInRight(g, inserted, t, rep.oldPattern);
      ReplacedNone(g + inserted + t, rep, n);
      ReplacedNone(t, rep, n);
    }
  }

  /** A pass applied to one gap after another, sharing the limit. */
  function EachReplaced(gaps: seq<string>, rep: Replacement, n: nat): (r: seq<string>)
    ensures |r| == |gaps|
  {
    if gaps == [] then []
    else
      var first := Replaced(gaps[0], rep, n);
      [first.text] + EachReplaced(gaps[1..], rep, n - first.count)
  }

  function EachCount(gaps: seq<string>, rep: Replacement, n: nat): (count: nat)
    ensures count <= n
  {
    if gaps == [] then 0
    else
      var first := Replaced(gaps[0], rep, n);
      first.count + EachCount(gaps[1..], rep, n - first.count)
  }

  lemma {:induction false} EachUnfolds(g: string, rest: seq<string>, rep: Replacement, n: nat)
    ensures
      var first := Replaced(g, rep, n);
      && first.count <= n
      && EachReplaced([g] + rest, rep, n) == [first.text] + EachReplaced(rest, rep, n - first.count)
      && EachCount([g] + rest, rep, n) == first.count + EachCount(rest, rep, n - first.count)
  {
    assert ([g] + rest)[1..] == rest;
  }

  /** The pass works on these gaps one by one, and leaves the insertions between them alone. */
  ghost predicate GapByGap(gaps: seq<string>, inserted: string, rep: Replacement, n: nat) {
    Replaced(Join(gaps, inserted), rep, n) ==
    PassResult(Join(EachReplaced(gaps, rep, n), inserted), EachCount(gaps, rep, n))
  }

  lemma {:induction false} OneGap(g: string, inserted: string, rep: Replacement, n: nat)
    ensures GapByGap([g], inserted, rep, n)
  {
    EachUnfolds(g, [], rep, n);
    assert [g] + [] == [g];
    assert EachReplaced([g], rep, n) == [Replaced(g, rep, n).text];
  }

  lemma {:induction false} MoreGaps(g: string, rest: seq<string>, inserted: string, rep: Replacement, n: nat)
    requires rest != [] && Apart(g, inserted, Join(rest, inserted), rep.oldPattern)
    requires Replaced(g, rep, n).count <= n && GapByGap(rest, inserted, rep, n - Replaced(g, rep, n).count)
    ensures GapByGap([g] + rest, inserted, rep, n)
  {
    var first := Replaced(g, rep, n);
    EachUnfolds(g, rest, rep, n);
    JoinCons(g, rest, inserted);
    PassAround(g, inserted, Join(rest, inserted), rep, n);
    JoinCons(first.text, EachReplaced(rest, rep, n - first.count), inserted);
  }

  /** A pass that does not clash with the insertion works gap by gap, whatever the gaps. */
  lemma {:induction false} PassesOverGaps(gaps: seq<string>, inserted: string, rep: Replacement, n: nat)
    requires gaps != [] && !Clash(inserted, rep.oldPattern)
    ensures GapByGap(gaps, inserted, rep, n)
  {
    var g, rest := gaps[0], gaps[1..];
    assert gaps == [g] + rest;
    if rest == [] {
      OneGap(g, inserted, rep, n);
    } else {
      EachUnfolds(g, rest, rep, n);
      PassesOverGaps(rest, inserted, rep, n - Replaced(g, rep, n).count);
      ClashFreeApart(g, inserted, Join(rest, inserted), rep.oldPattern);
      MoreGaps(g, rest, inserted, rep, n);
    }
  }

  // ── Which pairs of replacements touch, on texts ────────────────────────────

  /** A pattern can be completed around what a replacement inserts into some text: it agrees with
      the new name at some offset, and the part of it before the new name does not itself bring the
      match of the old name forward. A caller can check this before renaming. */
  predicate CanTouch(first: Replacement, pattern: string) {
    exists d ::
      -|pattern| < d < |first.newPattern| && Agree(first.newPattern, pattern, d) && Reachable(first, pattern, d)
  }

  predicate Reachable(first: Replacement, pattern: string, d: int)
    requires -|pattern| <= d
  {
    Find(LeftPart(pattern, d) + first.oldPattern, first.oldPattern) == Some(|LeftPart(pattern, d)|)
  }

  lemma LeftPartIsSuffix(g: string, rest: string, pattern: string, j: nat)
    requires OccursAt(g + rest, pattern, j) && |g| < j + |pattern|
    ensures
      var x := LeftPart(pattern, j - |g|);
      |x| <= |g| && g[|g| - |x|..] == x
  {
    var x := LeftPart(pattern, j - |g|);
    forall k | 0 <= k < |x| ensures g[|g| - |x| + k] == x[k] {
      OccursElement(g + rest, pattern, j, k);
    }
  }

  /** An occurrence in `x + oldName` is one in the text whose gap ends with `x`. */
  lemma ShiftedOccurrence(g: string, x: string, oldName: string, tail: string, v: nat)
    requires |x| <= |g| && g[|g| - |x|..] == x && v <= |x|
    ensures OccursAt(x + oldName, oldName, v) ==> OccursAt(g + oldName + tail, oldName, |g| - |x| + v)
  {
    if OccursAt(x + oldName, oldName, v) {
      var front := g[..|g| - |x|];
      OccursInRight(front, x + oldName, oldName, v);
      assert front + (x + oldName) == g + oldName;
      OccursInLeft(g + oldName, tail, oldName, |g| - |x| + v);
    }
  }

  /** The end of a gap before the old name does not bring its match forward. */
  lemma {:induction false} GapEndReaches(g: string, x: string, oldName: string, tail: string)
    requires Find(g + oldName + tail, oldName) == Some(|g|) && |x| <= |g| && g[|g| - |x|..] == x
    ensures Find(x + oldName, oldName) == Some(|x|)
  {
    forall v: nat | v < |x| ensures !OccursAt(x + oldName, oldName, v) {
      ShiftedOccurrence(g, x, oldName, tail, v);
      FindIsLeftmost(g + oldName + tail, oldName, |g| - |x| + v);
    }
    OccursIf(oldName, oldName, 0);
    OccursInRight(x, oldName, oldName, 0);
    FindIs(x + oldName, oldName, |x|);
  }

  /** An occurrence that touches the first insertion shows that the pattern can touch it. */
  lemma {:induction false} TouchingCanTouch(
    g: string, tail: string, first: Replacement, after: string, pattern: string, j: nat)
    requires Find(g + first.oldPattern + tail, first.oldPattern) == Some(|g|)
    requires OccursAt(g + first.newPattern + after, pattern, j) && |g| < j + |pattern| && j < |g| + |first.newPattern|
    ensures CanTouch(first, pattern)
  {
    ConcatAssoc(g, first.newPattern, after);
    TouchingAgrees(g, first.newPattern, after, pattern, j);
    LeftPartIsSuffix(g, first.newPattern + after, pattern, j);
    GapEndReaches(g, LeftPart(pattern, j - |g|), first.oldPattern, tail);
    assert Agree(first.newPattern, pattern, j - |g|) && Reachable(first, pattern, j - |g|);
  }

  /** A pattern that cannot touch what the replacement inserts is apart from its first insertion,
      whatever the text after it. */
  lemma {:induction false} FirstInsertionApart(
    g: string, tail: string, first: Replacement, after: string, pattern: string)
    requires Find(g + first.oldPattern + tail, first.oldPattern) == Some(|g|) && !CanTouch(first, pattern)
    ensures Apart(g, first.newPattern, after, pattern)
  {
    forall j: nat | OccursAt(g + first.newPattern + after, pattern, j)
      ensures j + |pattern| <= |g| || |g| + |first.newPattern| <= j
    {
      if |g| < j + |pattern| && j < |g| + |first.newPattern| {
        TouchingCanTouch(g, tail, first, after, pattern, j);
      }
    }
  }

  /** On every text: a later pass that cannot touch what an earlier one inserts works on the gaps of
      the earlier one, one by one, for all limits. */
  lemma {:induction false} TextOverGaps(s: string, first: Replacement, second: Replacement, m: nat, n: nat)
    requires !CanTouch(first, second.oldPattern)
    ensures GapByGap(Gaps(s, first.oldPattern, m), first.newPattern, second, n)
    decreases m
  {
    if m == 0 || Find(s, first.oldPattern).None? {
      UncutText(s, first, second, m, n);
    } else {
      var i := Find(s, first.oldPattern).value;
      var g, tail := s[..i], s[i + |first.oldPattern|..];
      CountWithinLimit(g, second, n);
      var left := n - Replaced(g, second, n).count;
      TextOverGaps(tail, first, second, m - 1, left);
      TextStep(s, first, second, i, m, n, left);
    }
  }

  lemma {:induction false} UncutText(s: string, first: Replacement, second: Replacement, m: nat, n: nat)
    requires m == 0 || Find(s, first.oldPattern).None?
    ensures GapByGap(Gaps(s, first.oldPattern, m), first.newPattern, second, n)
  {
    OneGap(s, first.newPattern, second, n);
    assert Gaps(s, first.oldPattern, m) == [s];
  }

  lemma {:induction false} CountWithinLimit(s: string, rep: Replacement, n: nat)
    ensures Replaced(s, rep, n).count <= n
  {
  }

  lemma {:induction false} GapsUnfold(s: string, oldName: string, m: nat, i: nat)
    requires m > 0 && Find(s, oldName) == Some(i)
    ensures Gaps(s, oldName, m) == [s[..i]] + Gaps(s[i + |oldName|..], oldName, m - 1)
  {
  }

  lemma {:induction false} TextStep(
    s: string, first: Replacement, second: Replacement, i: nat, m: nat, n: nat, left: nat)
    requires !CanTouch(first, second.oldPattern) && Find(s, first.oldPattern) == Some(i) && m > 0
    requires left + Replaced(s[..i], second, n).count == n
    requires GapByGap(Gaps(s[i + |first.oldPattern|..], first.oldPattern, m - 1), first.newPattern, second, left)
    ensures GapByGap(Gaps(s, first.oldPattern, m), first.newPattern, second, n)
  {
    GapsUnfold(s, first.oldPattern, m, i);
    GapStep(s, first, second, i, Gaps(s[i + |first.oldPattern|..], first.oldPattern, m - 1), n, left);
  }

  lemma {:induction false} GapStep(
    s: string, first: Replacement, second: Replacement, i: nat, rest: seq<string>, n: nat, left: nat)
    requires !CanTouch(first, second.oldPattern) && Find(s, first.oldPattern) == Some(i) && rest != []
    requires left + Replaced(s[..i], second, n).count == n && GapByGap(rest, first.newPattern, second, left)
    ensures GapByGap([s[..i]] + rest, first.newPattern, second, n)
  {
    FindIsLeftmost(s, first.oldPattern, 0);
    AroundMatch(s, first.oldPattern, i);
    var g, tail := s[..i], s[i + |first.oldPattern|..];
    FirstInsertionApart(g, tail, first, Join(rest, first.newPattern), second.oldPattern);
    MoreGaps(g, rest, first.newPattern, second, n);
  }

  // ── A text on which a later pass touches an insertion ──────────────────────

  /** `k` times a word, and then the text. */
  function Led(word: string, k: nat, end: string): (s: string) {
    if k == 0 then end else word + Led(word, k - 1, end)
  }

  /** `k` empty gaps, and then the others. */
  function LedGaps(k: nat, gaps: seq<string>): (r: seq<string>) {
    if k == 0 then gaps else [[]] + LedGaps(k - 1, gaps)
  }

  /** With one match to go, the text after it is not searched. */
  lemma {:induction false} LastMatch(rep: Replacement, x: string, y: string)
    requires Find(x + rep.oldPattern, rep.oldPattern) == Some(|x|)
    ensures Gaps(x + rep.oldPattern + y, rep.oldPattern, 1) == [x, y]
    ensures Replaced(x + rep.oldPattern + y, rep, 1).text == x + rep.newPattern + y
  {
    var end := x + rep.oldPattern + y;
    FindInLeft(x + rep.oldPattern, y, rep.oldPattern, |x|);
    assert end[..|x|] == x && end[|x| + |rep.oldPattern|..] == y;
    ReplacedFirst(end, rep, 1, x, y);
    ReplacedNone(y, rep, 0);
  }

  lemma {:induction false} FirstIsFound(rep: Replacement, rest: string, k: nat)
    requires k > 0
    ensures
      var s := rep.oldPattern + rest;
      && Gaps(s, rep.oldPattern, k) == [[]] + Gaps(rest, rep.oldPattern, k - 1)
      && Replaced(s, rep, k).text == rep.newPattern + Replaced(rest, rep, k - 1).text
  {
    var s := rep.oldPattern + rest;
    OccursIf(rep.oldPattern, rep.oldPattern, 0);
    OccursInLeft(rep.oldPattern, rest, rep.oldPattern, 0);
    FindIs(s, rep.oldPattern, 0);
    assert s[..0] == [] && s[|rep.oldPattern|..] == rest;
    ReplacedFirst(s, rep, k, [], rest);
    assert [] + rep.newPattern == rep.newPattern;
  }

  /** The old name `k` times, and then a text that takes the last match. */
  lemma {:induction false} RepeatedText(rep: Replacement, end: string, k: nat)
    ensures
      Gaps(Led(rep.oldPattern, k, end), rep.oldPattern, k + 1) == LedGaps(k, Gaps(end, rep.oldPattern, 1))
    ensures
      Replaced(Led(rep.oldPattern, k, end), rep, k + 1).text ==
      Led(rep.newPattern, k, Replaced(end, rep, 1).text)
  {
    if k > 0 {
      RepeatedText(rep, end, k - 1);
      RepeatedStep(
        rep, Led(rep.oldPattern, k - 1, end), k, LedGaps(k - 1, Gaps(end, rep.oldPattern, 1)),
        Led(rep.newPattern, k - 1, Replaced(end, rep, 1).text), Led(rep.oldPattern, k, end));
    }
  }

  lemma {:induction false} RepeatedStep(
    rep: Replacement, rest: string, k: nat, gaps: seq<string>, text: string, s: string)
    requires k > 0 && s == rep.oldPattern + rest
    requires Gaps(rest, rep.oldPattern, k) == gaps && Replaced(rest, rep, k).text == text
    ensures Gaps(s, rep.oldPattern, k + 1) == [[]] + gaps && Replaced(s, rep, k + 1).text == rep.newPattern + text
  {
    FirstIsFound(rep, rest, k + 1);
  }

  /** Gaps shorter than the pattern have no match. */
  lemma {:induction false} ShortGaps(gaps: seq<string>, rep: Replacement, n: nat)
    requires forall i :: 0 <= i < |gaps| ==> |gaps[i]| < |rep.oldPattern|
    ensures EachCount(gaps, rep, n) == 0
  {
    if gaps != [] {
      TooShort(gaps[0], rep.oldPattern, n);
      ShortGaps(gaps[1..], rep, n);
    }
  }

  lemma {:induction false} LedGapsShort(k: nat, gaps: seq<string>, n: nat)
    requires n > 0 && forall i :: 0 <= i < |gaps| ==> |gaps[i]| < n
    ensures forall i :: 0 <= i < |LedGaps(k, gaps)| ==> |LedGaps(k, gaps)[i]| < n
  {
    if k > 0 {
      LedGapsShort(k - 1, gaps, n);
    }
  }

  lemma {:induction false} LedContains(word: string, k: nat, end: string, pattern: string)
    requires Contains(end, pattern)
    ensures Contains(Led(word, k, end), pattern)
  {
    if k > 0 {
      LedContains(word, k - 1, end, pattern);
      ContainsAround(word, Led(word, k - 1, end), [], pattern);
      assert word + Led(word, k - 1, end) + [] == Led(word, k, end);
    }
  }

  /** If the later pattern can touch the insertion, some text has a match although no gap has one. */
  lemma {:induction false} TouchedText(first: Replacement, second: Replacement, k: nat, n: nat) returns (s: string)
    requires second.oldPattern != [] && CanTouch(first, second.oldPattern) && n > 0
    ensures EachCount(Gaps(s, first.oldPattern, k + 1), second, n) == 0
    ensures Replaced(Replaced(s, first, k + 1).text, second, n).count > 0
  {
    var p, q := second.oldPattern, first.newPattern;
    var d :| -|p| < d < |q| && Agree(q, p, d) && Reachable(first, p, d);
    var x, y := LeftPart(p, d), RightPart(q, p, d);
    AgreeingOccurs(q, p, d);
    s := Led(first.oldPattern, k, x + first.oldPattern + y);
    LastMatch(first, x, y);
    RepeatedText(first, x + first.oldPattern + y, k);
    LedGapsShort(k, [x, y], |p|);
    ShortGaps(LedGaps(k, [x, y]), second, n);
    LedContains(q, k, x + q + y, p);
    NoMatchIff(Replaced(s, first, k + 1).text, p, n);
  }

  /** An empty pattern spends its whole limit in front, in the text as in the first gap. */
  lemma {:induction false} EmptyIsLeftAlone(s: string, first: Replacement, second: Replacement)
    requires second.oldPattern == []
    ensures LeftAlone(s, first, second)
  {
    var gaps := Gaps(s, first.oldPattern, MAX_MATCHES);
    EmptyPattern(Replaced(s, first, MAX_MATCHES).text, second.newPattern, MAX_MATCHES);
    EmptyPattern(gaps[0], second.newPattern, MAX_MATCHES);
    assert gaps == [gaps[0]] + gaps[1..];
    EachUnfolds(gaps[0], gaps[1..], second, MAX_MATCHES);
  }

  /** For every two replacements: the second pass makes, on every text, just the matches it makes in
      the gaps of the first, if and only if its old name is empty or cannot touch what the first
      inserts. */
  lemma LeftAloneIff(first: Replacement, second: Replacement)
    ensures second.oldPattern == [] || !CanTouch(first, second.oldPattern) <==>
      forall s :: LeftAlone(s, first, second)
  {
    if second.oldPattern == [] {
      forall s ensures LeftAlone(s, first, second) {
        EmptyIsLeftAlone(s, first, second);
      }
    } else if CanTouch(first, second.oldPattern) {
      var s := TouchedText(first, second, MAX_MATCHES - 1, MAX_MATCHES);
      assert !LeftAlone(s, first, second);
    } else {
      forall s ensures LeftAlone(s, first, second) {
        TextOverGaps(s, first, second, MAX_MATCHES, MAX_MATCHES);
        ReplaceIsRejoin(s, first.oldPattern, first.newPattern, MAX_MATCHES);
      }
    }
  }

  ghost predicate LeftAlone(s: string, first: Replacement, second: Replacement) {
    Replaced(Replaced(s, first, MAX_MATCHES).text, second, MAX_MATCHES).count ==
    EachCount(Gaps(s, first.oldPattern, MAX_MATCHES), second, MAX_MATCHES)
  }

  lemma ContainsAround(x: string, s: string, y: string, pattern: string)
    requires Contains(s, pattern)
    ensures Contains(x + s + y, pattern)
  {
    var i: nat :| OccursAt(s, pattern, i);
    OccursInRight(x, s, pattern, i);
    OccursInLeft(x + s, y, pattern, |x| + i);
  }

  // ── Whole lists of replacements ────────────────────────────────────────────

  lemma {:induction false} PassesAppend(content: string, xs: seq<Replacement>, ys: seq<Replacement>)
    ensures Passes(content, xs + ys) == Passes(Passes(content, xs), ys)
    ensures Counts(content, xs + ys) == Counts(content, xs) + Counts(Passes(content, xs), ys)
  {
    if ys == [] {
      assert xs + ys == xs;
    } else {
      PassesAppend(content, xs, ys[..|ys| - 1]);
      assert (xs + ys)[..|xs + ys| - 1] == xs + ys[..|ys| - 1];
    }
  }

  lemma {:induction false} OnePass(content: string, rep: Replacement)
    ensures Passes(content, [rep]) == Replaced(content, rep, MAX_MATCHES).text
    ensures Counts(content, [rep]) == [Replaced(content, rep, MAX_MATCHES).count]
  {
    assert [rep][..0] == [];
  }

  /** A pass that did not reach its limit does the same with a higher one. */
  lemma {:induction false} MoreLimit(s: string, rep: Replacement, n: nat, more: nat)
    requires Replaced(s, rep, n).count < n <= more
    ensures Replaced(s, rep, more) == Replaced(s, rep, n)
  {
    if Find(s, rep.oldPattern).Some? {
      var i := Find(s, rep.oldPattern).value;
      var front, tail := s[..i], s[i + |rep.oldPattern|..];
      ReplacedFirst(s, rep, n, front, tail);
      ReplacedFirst(s, rep, more, front, tail);
      MoreLimit(tail, rep, n - 1, more - 1);
    }
  }

  lemma {:induction false} EachUncapped(gaps: seq<string>, rep: Replacement, n: nat, more: nat, i: nat)
    requires EachCount(gaps, rep, n) < n <= more && i < |gaps|
    ensures EachReplaced(gaps, rep, n)[i] == Replaced(gaps[i], rep, more).text
  {
    var first := Replaced(gaps[0], rep, n);
    if i == 0 {
      MoreLimit(gaps[0], rep, n, more);
    } else {
      EachUncapped(gaps[1..], rep, n - first.count, more, i - 1);
    }
  }

  /** All passes applied to each gap by itself. */
  function EachPassed(gaps: seq<string>, reps: seq<Replacement>): (r: seq<string>)
    ensures |r| == |gaps| && forall i :: 0 <= i < |gaps| ==> r[i] == Passes(gaps[i], reps)
  {
    seq(|gaps|, i requires 0 <= i < |gaps| => Passes(gaps[i], reps))
  }

  /** None of the patterns clashes with the insertion. */
  predicate ClashFree(inserted: string, reps: seq<Replacement>) {
    forall k :: 0 <= k < |reps| ==> !Clash(inserted, reps[k].oldPattern)
  }

  ghost predicate Uncapped(counts: seq<nat>) { forall k :: 0 <= k < |counts| ==> counts[k] < MAX_MATCHES }

  lemma {:induction false} EachPassedLast(gaps: seq<string>, before: seq<Replacement>, rep: Replacement)
    requires EachCount(EachPassed(gaps, before), rep, MAX_MATCHES) < MAX_MATCHES
    ensures EachReplaced(EachPassed(gaps, before), rep, MAX_MATCHES) == EachPassed(gaps, before + [rep])
  {
    var each := EachPassed(gaps, before);
    forall i | 0 <= i < |gaps|
      ensures EachReplaced(each, rep, MAX_MATCHES)[i] == EachPassed(gaps, before + [rep])[i]
    {
      EachUncapped(each, rep, MAX_MATCHES, MAX_MATCHES, i);
      PassesAppend(gaps[i], before, [rep]);
      OnePass(each[i], rep);
    }
  }

  /** Any number of passes, none of which clashes with the insertion or reaches its limit, work on
      the gaps one by one and leave every insertion alone. */
  lemma {:induction false} ListOverGaps(gaps: seq<string>, inserted: string, reps: seq<Replacement>)
    requires gaps != [] && ClashFree(inserted, reps) && Uncapped(Counts(Join(gaps, inserted), reps))
    ensures Passes(Join(gaps, inserted), reps) == Join(EachPassed(gaps, reps), inserted)
    decreases |reps|, 0
  {
    if reps == [] {
      assert EachPassed(gaps, []) == gaps;
    } else {
      var before, rep := reps[..|reps| - 1], reps[|reps| - 1];
      assert reps == before + [rep];
      LastPass(gaps, inserted, before, rep);
    }
  }

  lemma {:induction false} LastPass(gaps: seq<string>, inserted: string, before: seq<Replacement>, rep: Replacement)
    requires gaps != [] && ClashFree(inserted, before + [rep]) && Uncapped(Counts(Join(gaps, inserted), before + [rep]))
    ensures Passes(Join(gaps, inserted), before + [rep]) == Join(EachPassed(gaps, before + [rep]), inserted)
    decreases |before|, 1
  {
    var text := Join(gaps, inserted);
    PassesAppend(text, before, [rep]);
    OnePass(Passes(text, before), rep);
    UncappedParts(inserted, text, before, rep);
    ListOverGaps(gaps, inserted, before);
    var each := EachPassed(gaps, before);
    PassesOverGaps(each, inserted, rep, MAX_MATCHES);
    EachPassedLast(gaps, before, rep);
  }

  lemma {:induction false} UncappedParts(inserted: string, text: string, before: seq<Replacement>, rep: Replacement)
    requires ClashFree(inserted, before + [rep]) && Uncapped(Counts(text, before + [rep]))
    ensures ClashFree(inserted, before) && !Clash(inserted, rep.oldPattern) && Uncapped(Counts(text, before))
    ensures Replaced(Passes(text, before), rep, MAX_MATCHES).count < MAX_MATCHES
  {
    PassesAppend(text, before, [rep]);
    OnePass(Passes(text, before), rep);
    var counts := Counts(text, before + [rep]);
    assert counts[|before|] == Replaced(Passes(text, before), rep, MAX_MATCHES).count;
    assert forall k :: 0 <= k < |before| ==> (before + [rep])[k] == before[k] && counts[k] == Counts(text, before)[k];
    assert (before + [rep])[|before|] == rep;
  }

  /** The next old name cannot touch what the replacement inserts, and those after it, which meet
      gaps that passes have changed, do not clash with it. */
  predicate LeavesAlone(rep: Replacement, later: seq<Replacement>) {
    later == [] || (!CanTouch(rep, later[0].oldPattern) && ClashFree(rep.newPattern, later[1..]))
  }

  lemma {:induction false} EachPassedTwice(gaps: seq<string>, xs: seq<Replacement>, ys: seq<Replacement>)
    ensures EachPassed(EachPassed(gaps, xs), ys) == EachPassed(gaps, xs + ys)
  {
    forall k | 0 <= k < |gaps| ensures EachPassed(EachPassed(gaps, xs), ys)[k] == EachPassed(gaps, xs + ys)[k] {
      PassesAppend(gaps[k], xs, ys);
    }
  }

  /** The next pass works gap by gap. */
  lemma {:induction false} NextPass(text: string, rep: Replacement, next: Replacement)
    requires !CanTouch(rep, next.oldPattern)
    requires Replaced(Replaced(text, rep, MAX_MATCHES).text, next, MAX_MATCHES).count < MAX_MATCHES
    ensures
      Replaced(Replaced(text, rep, MAX_MATCHES).text, next, MAX_MATCHES).text ==
      Join(EachPassed(Gaps(text, rep.oldPattern, MAX_MATCHES), [next]), rep.newPattern)
  {
    var gaps := Gaps(text, rep.oldPattern, MAX_MATCHES);
    ReplaceIsRejoin(text, rep.oldPattern, rep.newPattern, MAX_MATCHES);
    TextOverGaps(text, rep, next, MAX_MATCHES, MAX_MATCHES);
    assert EachPassed(gaps, []) == gaps && [] + [next] == [next];
    EachPassedLast(gaps, [], next);
  }

  lemma {:induction false} FirstCount(content: string, next: Replacement, rest: seq<Replacement>)
    requires Uncapped(Counts(content, [next] + rest))
    ensures Replaced(content, next, MAX_MATCHES).count < MAX_MATCHES
    ensures Passes(content, [next] + rest) == Passes(Replaced(content, next, MAX_MATCHES).text, rest)
    ensures Uncapped(Counts(Replaced(content, next, MAX_MATCHES).text, rest))
  {
    PassesAppend(content, [next], rest);
    OnePass(content, next);
    var counts, more := Counts(content, [next] + rest), Counts(Replaced(content, next, MAX_MATCHES).text, rest);
    assert counts[0] == Replaced(content, next, MAX_MATCHES).count;
    assert forall k :: 0 <= k < |more| ==> more[k] == counts[k + 1];
  }

  /** All later passes work gap by gap. */
  lemma {:induction false} LaterPasses(text: string, rep: Replacement, later: seq<Replacement>)
    requires LeavesAlone(rep, later) && Uncapped(Counts(Replaced(text, rep, MAX_MATCHES).text, later))
    ensures
      Passes(Replaced(text, rep, MAX_MATCHES).text, later) ==
      Join(EachPassed(Gaps(text, rep.oldPattern, MAX_MATCHES), later), rep.newPattern)
  {
    var gaps := Gaps(text, rep.oldPattern, MAX_MATCHES);
    ReplaceIsRejoin(text, rep.oldPattern, rep.newPattern, MAX_MATCHES);
    if later == [] {
      assert EachPassed(gaps, []) == gaps;
    } else {
      var next, rest := later[0], later[1..];
      assert later == [next] + rest;
      FirstCount(Replaced(text, rep, MAX_MATCHES).text, next, rest);
      NextPass(text, rep, next);
      ListOverGaps(EachPassed(gaps, [next]), rep.newPattern, rest);
      EachPassedTwice(gaps, [next], rest);
    }
  }

  /** For every text and list: if the next old name cannot touch what replacement `i` inserts, no old
      name after that clashes with it, and no later pass reaches its limit, then all that it inserted
      is still there at the end, and the later passes have worked on the text around it only. */
  lemma {:induction false} InsertionsSurvive(content: string, reps: seq<Replacement>, i: nat)
    requires i < |reps| && LeavesAlone(reps[i], reps[i + 1..])
    requires Uncapped(Counts(Passes(content, reps[..i + 1]), reps[i + 1..]))
    ensures
      var gaps := Gaps(Passes(content, reps[..i]), reps[i].oldPattern, MAX_MATCHES);
      Passes(content, reps) == Join(EachPassed(gaps, reps[i + 1..]), reps[i].newPattern)
  {
    assert reps == reps[..i + 1] + reps[i + 1..];
    PassesAppend(content, reps[..i + 1], reps[i + 1..]);
    OneMorePass(content, reps, i);
    LaterPasses(Passes(content, reps[..i]), reps[i], reps[i + 1..]);
  }

  /** A text with one match. */
  lemma {:induction false} OneMatch(x: string, rep: Replacement, y: string, n: nat)
    requires n > 1 && Find(x + rep.oldPattern + y, rep.oldPattern) == Some(|x|) && !Contains(y, rep.oldPattern)
    ensures Replaced(x + rep.oldPattern + y, rep, n) == PassResult(x + rep.newPattern + y, 1)
    ensures Gaps(x + rep.oldPattern + y, rep.oldPattern, n) == [x] + [y]
  {
    var s := x + rep.oldPattern + y;
    assert s[..|x|] == x && s[|x| + |rep.oldPattern|..] == y;
    AbsentIff(y, rep.oldPattern);
    ReplacedFirst(s, rep, n, x, y);
    ReplacedNone(y, rep, n - 1);
  }

  lemma {:induction false} SecondPassMatches(s: string, first: Replacement, second: Replacement)
    requires Contains(Replaced(s, first, MAX_MATCHES).text, second.oldPattern)
    ensures Counts(s, [first] + [second])[1] >= 1
  {
    PassesAppend(s, [first], [second]);
    OnePass(s, first);
    OnePass(Passes(s, [first]), second);
    NoMatchIff(Passes(s, [first]), second.oldPattern, MAX_MATCHES);
  }

  /** Conversely, on every text with the old name, a new name that contains a later old name is
      renamed again. */
  lemma {:induction false} RenamedAgain(s: string, first: Replacement, second: Replacement)
    requires Contains(s, first.oldPattern) && Contains(first.newPattern, second.oldPattern)
    ensures Counts(s, [first] + [second])[1] >= 1
  {
    AbsentIff(s, first.oldPattern);
    var i := Find(s, first.oldPattern).value;
    var front, tail := s[..i], s[i + |first.oldPattern|..];
    ReplacedFirst(s, first, MAX_MATCHES, front, tail);
    ContainsAround(front, first.newPattern, Replaced(tail, first, MAX_MATCHES - 1).text, second.oldPattern);
    SecondPassMatches(s, first, second);
  }

  // ── What a pass leaves behind ──────────────────────────────────────────────

  /** The old name can be completed around its own replacement. */
  predicate CanLeave(rep: Replacement) { CanTouch(rep, rep.oldPattern) }

  /** If it cannot, a pass that did not reach its limit leaves no old name. */
  lemma {:induction false} NoneLeft(s: string, rep: Replacement, n: nat)
    requires rep.oldPattern != [] && !CanLeave(rep) && Replaced(s, rep, n).count < n
    ensures !Contains(Replaced(s, rep, n).text, rep.oldPattern)
  {
    var gaps := Gaps(s, rep.oldPattern, n);
    forall k | 0 <= k < |gaps| ensures !Contains(gaps[k], rep.oldPattern) {
      GapsAreClean(s, rep.oldPattern, n, k);
    }
    CleanGaps(gaps, rep, 1);
    TextOverGaps(s, rep, rep, n, 1);
    ReplaceIsRejoin(s, rep.oldPattern, rep.newPattern, n);
    NoMatchIff(Replaced(s, rep, n).text, rep.oldPattern, 1);
  }

  lemma {:induction false} CleanGaps(gaps: seq<string>, rep: Replacement, n: nat)
    requires forall k :: 0 <= k < |gaps| ==> !Contains(gaps[k], rep.oldPattern)
    ensures EachCount(gaps, rep, n) == 0
  {
    if gaps != [] {
      AbsentIff(gaps[0], rep.oldPattern);
      ReplacedNone(gaps[0], rep, n);
      CleanGaps(gaps[1..], rep, n);
    }
  }

  /** A text on which a pass leaves the old name behind. */
  lemma {:induction false} SomeLeft(rep: Replacement) returns (s: string)
    requires rep.oldPattern != [] && CanLeave(rep)
    ensures Replaced(s, rep, 2).count == 1 && Contains(Replaced(s, rep, 2).text, rep.oldPattern)
  {
    var p, q := rep.oldPattern, rep.newPattern;
    var d :| -|p| < d < |q| && Agree(q, p, d) && Reachable(rep, p, d);
    var x, y := LeftPart(p, d), RightPart(q, p, d);
    AgreeingOccurs(q, p, d);
    TooShort(y, p, 1);
    s := x + p + y;
    FindInLeft(x + p, y, p, |x|);
    OneMatch(x, rep, y, 2);
  }

  /** Exactly then is a rename complete: every pass that does not reach its limit leaves no old
      name, so that running it again changes nothing, if and only if the old name cannot be completed
      around the new one. */
  lemma RenameIsCompleteIff(rep: Replacement)
    requires rep.oldPattern != []
    ensures !CanLeave(rep) <==>
      forall s, n: nat :: Replaced(s, rep, n).count < n ==> !Contains(Replaced(s, rep, n).text, rep.oldPattern)
  {
    if CanLeave(rep) {
      var s := SomeLeft(rep);
      assert Replaced(s, rep, 2).count < 2;
    } else {
      forall s, n: nat | Replaced(s, rep, n).count < n ensures !Contains(Replaced(s, rep, n).text, rep.oldPattern) {
        NoneLeft(s, rep, n);
      }
    }
  }

  /** A second run then changes nothing. */
  lemma SecondRunIsIdle(s: string, rep: Replacement, n: nat)
    requires rep.oldPattern != [] && !CanLeave(rep) && Replaced(s, rep, n).count < n
    ensures Replaced(Replaced(s, rep, n).text, rep, n) == PassResult(Replaced(s, rep, n).text, 0)
  {
    NoneLeft(s, rep, n);
    AbsentIff(Replaced(s, rep, n).text, rep.oldPattern);
    ReplacedNone(Replaced(s, rep, n).text, rep, n);
  }
}

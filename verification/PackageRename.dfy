/** Replacing old package names by new ones in a text. */
module PackageRename {
  import opened Common

  /** A pass stops after the match whose number first exceeds 10,000. */
  const MAX_MATCHES: nat := 10_001

  datatype Replacement = Replacement(oldPattern: string, newPattern: string)

  // ── Searching ──────────────────────────────────────────────────────────────

  predicate OccursAt(s: string, pattern: string, i: nat) {
    i + |pattern| <= |s| && s[i..i + |pattern|] == pattern
  }

  ghost predicate Contains(s: string, pattern: string) { exists i: nat :: OccursAt(s, pattern, i) }

  /** The leftmost occurrence at or after `i`. */
  function FindFrom(s: string, pattern: string, i: nat): (r: Option<nat>)
    requires i <= |s|
    ensures r.Some? ==> i <= r.value && r.value + |pattern| <= |s|
    decreases |s| - i
  {
    if OccursAt(s, pattern, i) then Some(i)
    else if i == |s| then None
    else FindFrom(s, pattern, i + 1)
  }

  /** The leftmost occurrence. The empty pattern occurs at the start. */
  function Find(s: string, pattern: string): (r: Option<nat>)
    ensures r.Some? ==> r.value + |pattern| <= |s|
  {
    FindFrom(s, pattern, 0)
  }

  lemma {:induction false} FindFromIsLeftmost(s: string, pattern: string, i: nat, j: nat)
    requires i <= |s|
    ensures FindFrom(s, pattern, i).Some? ==> OccursAt(s, pattern, FindFrom(s, pattern, i).value)
    ensures i <= j && OccursAt(s, pattern, j) ==> FindFrom(s, pattern, i).Some? && FindFrom(s, pattern, i).value <= j
    decreases |s| - i
  {
    if i < |s| {
      FindFromIsLeftmost(s, pattern, i + 1, j);
    }
  }

  lemma {:induction false} FindIsLeftmost(s: string, pattern: string, j: nat)
    ensures Find(s, pattern).Some? ==> OccursAt(s, pattern, Find(s, pattern).value)
    ensures OccursAt(s, pattern, j) ==> Find(s, pattern).Some? && Find(s, pattern).value <= j
  {
    FindFromIsLeftmost(s, pattern, 0, j);
  }

  // ── Splitting and joining ──────────────────────────────────────────────────

  /** The text around the first `n` leftmost, non-overlapping occurrences. */
  function Gaps(s: string, oldName: string, n: nat): (gaps: seq<string>)
    ensures 1 <= |gaps| <= n + 1
  {
    if n == 0 then [s]
    else
      match Find(s, oldName)
      case None => [s]
      case Some(i) => [s[..i]] + Gaps(s[i + |oldName|..], oldName, n - 1)
  }

  function Join(gaps: seq<string>, separator: string): (s: string) {
    if gaps == [] then []
    else if |gaps| == 1 then gaps[0]
    else gaps[0] + separator + Join(gaps[1..], separator)
  }

  /** Leftmost, non-overlapping replacement of at most `n` occurrences. */
  function Replace(s: string, oldName: string, newName: string, n: nat): (r: string) {
    if n == 0 then s
    else
      match Find(s, oldName)
      case None => s
      case Some(i) => s[..i] + newName + Replace(s[i + |oldName|..], oldName, newName, n - 1)
  }

  /** How many occurrences are replaced. */
  function Matches(s: string, oldName: string, n: nat): (count: nat)
    ensures count <= n
  {
    if n == 0 then 0
    else
      match Find(s, oldName)
      case None => 0
      case Some(i) => 1 + Matches(s[i + |oldName|..], oldName, n - 1)
  }

  lemma {:induction false} GapsSurroundMatches(s: string, oldName: string, n: nat)
    ensures |Gaps(s, oldName, n)| == Matches(s, oldName, n) + 1
  {
    if n > 0 && Find(s, oldName).Some? {
      GapsSurroundMatches(s[Find(s, oldName).value + |oldName|..], oldName, n - 1);
    }
  }

  lemma JoinCons(gap: string, rest: seq<string>, separator: string)
    requires rest != []
    ensures Join([gap] + rest, separator) == gap + separator + Join(rest, separator)
  {
    assert ([gap] + rest)[1..] == rest;
  }

  lemma AroundMatch(s: string, oldName: string, i: nat)
    requires OccursAt(s, oldName, i)
    ensures s == s[..i] + oldName + s[i + |oldName|..]
  {
    assert s == s[..i] + s[i..i + |oldName|] + s[i + |oldName|..];
  }

  /** The text is its gaps joined by the old name. */
  lemma {:induction false} GapsRejoin(s: string, oldName: string, n: nat)
    ensures Join(Gaps(s, oldName, n), oldName) == s
  {
    if n > 0 && Find(s, oldName).Some? {
      var i := Find(s, oldName).value;
      GapsRejoin(s[i + |oldName|..], oldName, n - 1);
      RejoinStep(s, oldName, i, Gaps(s[i + |oldName|..], oldName, n - 1));
    }
  }

  lemma RejoinStep(s: string, oldName: string, i: nat, rest: seq<string>)
    requires Find(s, oldName) == Some(i) && rest != [] && Join(rest, oldName) == s[i + |oldName|..]
    ensures Join([s[..i]] + rest, oldName) == s
  {
    JoinCons(s[..i], rest, oldName);
    FindIsLeftmost(s, oldName, 0);
    AroundMatch(s, oldName, i);
  }

  /** The result is the same gaps joined by the new name. */
  lemma {:induction false} ReplaceIsRejoin(s: string, oldName: string, newName: string, n: nat)
    ensures Replace(s, oldName, newName, n) == Join(Gaps(s, oldName, n), newName)
  {
    if n > 0 && Find(s, oldName).Some? {
      var i := Find(s, oldName).value;
      ReplaceIsRejoin(s[i + |oldName|..], oldName, newName, n - 1);
      JoinCons(s[..i], Gaps(s[i + |oldName|..], oldName, n - 1), newName);
    }
  }

  /** The text before the leftmost occurrence does not contain the pattern. */
  lemma CleanBefore(s: string, oldName: string, i: nat)
    requires oldName != [] && Find(s, oldName) == Some(i)
    ensures !Contains(s[..i], oldName)
  {
    forall j: nat ensures !OccursAt(s[..i], oldName, j) {
      FindIsLeftmost(s, oldName, j);
      if j + |oldName| <= i {
        assert s[..i][j..j + |oldName|] == s[j..j + |oldName|];
      }
    }
  }

  lemma ConsAt(gap: string, rest: seq<string>, k: nat)
    requires 0 < k <= |rest|
    ensures ([gap] + rest)[k] == rest[k - 1]
  {
  }

  /** No gap but the last contains the old name, and the last does not either unless the pass
      was cut short. */
  lemma {:induction false} GapsAreClean(s: string, oldName: string, n: nat, k: nat)
    requires oldName != [] && k < |Gaps(s, oldName, n)|
    ensures k < Matches(s, oldName, n) || Matches(s, oldName, n) < n ==> !Contains(Gaps(s, oldName, n)[k], oldName)
  {
    GapsSurroundMatches(s, oldName, n);
    if n > 0 && Find(s, oldName).Some? {
      var i := Find(s, oldName).value;
      if k == 0 {
        CleanBefore(s, oldName, i);
      } else {
        GapsAreClean(s[i + |oldName|..], oldName, n - 1, k - 1);
        ConsAt(s[..i], Gaps(s[i + |oldName|..], oldName, n - 1), k);
      }
    } else if n > 0 {
      AbsentIff(s, oldName);
    }
  }

  lemma AbsentIff(s: string, pattern: string)
    ensures Find(s, pattern).None? <==> !Contains(s, pattern)
  {
    FindIsLeftmost(s, pattern, 0);
    if i: nat :| OccursAt(s, pattern, i) {
      FindIsLeftmost(s, pattern, i);
    }
  }

  /** The length changes by the same amount for every match. */
  lemma {:induction false} ReplaceLength(s: string, oldName: string, newName: string, n: nat)
    ensures |Replace(s, oldName, newName, n)| == |s| + Matches(s, oldName, n) * (|newName| - |oldName|)
  {
    if n > 0 && Find(s, oldName).Some? {
      var tail := s[Find(s, oldName).value + |oldName|..];
      ReplaceLength(tail, oldName, newName, n - 1);
      Distribute(Matches(tail, oldName, n - 1), |newName| - |oldName|);
    }
  }

  lemma Distribute(k: int, d: int)
    ensures (k + 1) * d == k * d + d
  {
  }

  /** Nothing is replaced exactly if the old name is absent. */
  lemma NoMatchIff(s: string, oldName: string, n: nat)
    requires n > 0
    ensures Matches(s, oldName, n) == 0 <==> !Contains(s, oldName)
    ensures Matches(s, oldName, n) == 0 ==> forall newName :: Replace(s, oldName, newName, n) == s
  {
    AbsentIff(s, oldName);
  }

  /** An empty pattern matches at the start until the limit: the new name is put in front that
      many times. */
  lemma {:induction false} EmptyPattern(s: string, newName: string, n: nat)
    ensures Matches(s, [], n) == n && Replace(s, [], newName, n) == Times(newName, n) + s
  {
    if n > 0 {
      assert Find(s, []) == Some(0);
      assert s[0 + 0..] == s;
      EmptyPattern(s, newName, n - 1);
    }
  }

  function Times(s: string, n: nat): (r: string) { if n == 0 then [] else s + Times(s, n - 1) }

  // ── One pass ───────────────────────────────────────────────────────────────

  function Flatten(segments: seq<string>): (s: string) {
    if segments == [] then [] else Flatten(segments[..|segments| - 1]) + segments[|segments| - 1]
  }

  lemma FlattenTwo(segments: seq<string>, a: string, b: string)
    ensures Flatten(segments + [a] + [b]) == Flatten(segments) + a + b
  {
    FlattenOne(segments, a);
    FlattenOne(segments + [a], b);
  }

  lemma FlattenOne(segments: seq<string>, a: string)
    ensures Flatten(segments + [a]) == Flatten(segments) + a
  {
    assert (segments + [a])[..|segments|] == segments;
  }

  datatype PassResult = PassResult(text: string, count: nat)

  /** The specification of a pass: the replaced text, and how many matches were made. */
  function Replaced(s: string, rep: Replacement, limit: nat): (r: PassResult) {
    PassResult(Replace(s, rep.oldPattern, rep.newPattern, limit), Matches(s, rep.oldPattern, limit))
  }

  /** Where a pass ends that has written `segments`, made `count` matches, and goes on from `pos`
      for at most `left` more. */
  function Outlook(s: string, rep: Replacement, segments: seq<string>, pos: nat, count: nat, left: nat): (r: PassResult)
    requires pos <= |s|
    decreases left
  {
    var idx := Find(s[pos..], rep.oldPattern);
    if left == 0 || idx.None? then PassResult(Flatten(segments + [s[pos..]]), count)
    else
      Outlook(
        s, rep, segments + [s[pos..pos + idx.value]] + [rep.newPattern],
        pos + idx.value + |rep.oldPattern|, count + 1, left - 1)
  }

  lemma Regroup(done: string, gap: string, newName: string, rest: string)
    ensures done + (gap + newName + rest) == done + gap + newName + rest
  {
  }

  lemma SliceSlice(s: string, pos: nat, i: nat, k: nat)
    requires pos + i + k <= |s|
    ensures s[pos..][i + k..] == s[pos + i + k..] && s[pos..][..i] == s[pos..pos + i]
  {
  }

  /** Replacing from `pos` on writes the text before the first match, the new name, and goes on. */
  lemma {:induction false} ReplaceFirst(s: string, pos: nat, rep: Replacement, n: nat, i: nat)
    requires pos + i + |rep.oldPattern| <= |s| && n > 0 && Find(s[pos..], rep.oldPattern) == Some(i)
    ensures
      Replace(s[pos..], rep.oldPattern, rep.newPattern, n) ==
      s[pos..pos + i] + rep.newPattern + Replace(s[pos + i + |rep.oldPattern|..], rep.oldPattern, rep.newPattern, n - 1)
    ensures
      Matches(s[pos..], rep.oldPattern, n) == 1 + Matches(s[pos + i + |rep.oldPattern|..], rep.oldPattern, n - 1)
  {
    SliceSlice(s, pos, i, |rep.oldPattern|);
  }

  /** What a pass has written and what it will make of the rest. */
  function Prospect(
    s: string, rep: Replacement, segments: seq<string>, pos: nat, count: nat, left: nat)
    : (r: PassResult)
    requires pos <= |s|
  {
    PassResult(
      Flatten(segments) + Replace(s[pos..], rep.oldPattern, rep.newPattern, left),
      count + Matches(s[pos..], rep.oldPattern, left))
  }

  lemma {:induction false} ProspectStep(
    s: string, rep: Replacement, segments: seq<string>, pos: nat, count: nat, left: nat, i: nat)
    requires pos + i + |rep.oldPattern| <= |s| && left > 0 && Find(s[pos..], rep.oldPattern) == Some(i)
    ensures
      Prospect(
        s, rep, segments + [s[pos..pos + i]] + [rep.newPattern], pos + i + |rep.oldPattern|, count + 1, left - 1) ==
      Prospect(s, rep, segments, pos, count, left)
  {
    var rest := Replace(s[pos + i + |rep.oldPattern|..], rep.oldPattern, rep.newPattern, left - 1);
    ReplaceFirst(s, pos, rep, left, i);
    FlattenTwo(segments, s[pos..pos + i], rep.newPattern);
    Regroup(Flatten(segments), s[pos..pos + i], rep.newPattern, rest);
  }

  /** At the end of a pass both are what has been written. */
  lemma {:induction false} NothingLeft(
    s: string, rep: Replacement, segments: seq<string>, pos: nat, count: nat, left: nat)
    requires pos <= |s| && (left == 0 || Find(s[pos..], rep.oldPattern).None?)
    ensures Outlook(s, rep, segments, pos, count, left) == Prospect(s, rep, segments, pos, count, left)
  {
    FlattenOne(segments, s[pos..]);
  }

  lemma {:induction false} OutlookStep(
    s: string, rep: Replacement, segments: seq<string>, pos: nat, count: nat, left: nat, i: nat)
    requires pos + i + |rep.oldPattern| <= |s| && left > 0 && Find(s[pos..], rep.oldPattern) == Some(i)
    ensures
      Outlook(s, rep, segments, pos, count, left) ==
      Outlook(
        s, rep, segments + [s[pos..pos + i]] + [rep.newPattern], pos + i + |rep.oldPattern|, count + 1, left - 1)
  {
  }

  lemma {:induction false} OutlookIsProspect(
    s: string, rep: Replacement, segments: seq<string>, pos: nat, count: nat, left: nat)
    requires pos <= |s|
    ensures Outlook(s, rep, segments, pos, count, left) == Prospect(s, rep, segments, pos, count, left)
    decreases left
  {
    if left == 0 || Find(s[pos..], rep.oldPattern).None? {
      NothingLeft(s, rep, segments, pos, count, left);
    } else {
      var i := Find(s[pos..], rep.oldPattern).value;
      var written := segments + [s[pos..pos + i]] + [rep.newPattern];
      OutlookIsProspect(s, rep, written, pos + i + |rep.oldPattern|, count + 1, left - 1);
      StepBack(s, rep, segments, pos, count, left, i, written);
    }
  }

  lemma {:induction false} StepBack(
    s: string, rep: Replacement, segments: seq<string>, pos: nat, count: nat, left: nat, i: nat, written: seq<string>)
    requires pos + i + |rep.oldPattern| <= |s| && left > 0 && Find(s[pos..], rep.oldPattern) == Some(i)
    requires written == segments + [s[pos..pos + i]] + [rep.newPattern]
    requires
      Outlook(s, rep, written, pos + i + |rep.oldPattern|, count + 1, left - 1) ==
      Prospect(s, rep, written, pos + i + |rep.oldPattern|, count + 1, left - 1)
    ensures Outlook(s, rep, segments, pos, count, left) == Prospect(s, rep, segments, pos, count, left)
  {
    OutlookStep(s, rep, segments, pos, count, left, i);
    ProspectStep(s, rep, segments, pos, count, left, i);
  }

  lemma {:induction false} WholeProspect(s: string, rep: Replacement, limit: nat)
    ensures Prospect(s, rep, [], 0, 0, limit) == Replaced(s, rep, limit)
  {
    assert s[0..] == s;
    var r := Replace(s, rep.oldPattern, rep.newPattern, limit);
    assert Flatten([]) + r == r;
  }

  /** Find, copy the text before the match, write the new name, go on after the match; stop after
      `limit` matches. */
  method SplitPass(s: string, rep: Replacement, limit: nat) returns (segments: seq<string>, count: nat)
    ensures PassResult(Flatten(segments), count) == Replaced(s, rep, limit)
  {
    segments, count := [], 0;
    var pos: nat := 0;
    ghost var left := limit;
    while count < limit
      invariant pos <= |s| && left == limit - count
      invariant Outlook(s, rep, segments, pos, count, left) == Outlook(s, rep, [], 0, 0, limit)
    {
      var idx := Find(s[pos..], rep.oldPattern);
      if idx.None? {
        break;
      }
      segments := segments + [s[pos..pos + idx.value]] + [rep.newPattern];
      pos := pos + idx.value + |rep.oldPattern|;
      count := count + 1;
      left := left - 1;
    }
    OutlookIsProspect(s, rep, [], 0, 0, limit);
    WholeProspect(s, rep, limit);
    segments := segments + [s[pos..]];
  }

  /** One pass over the text; a text without the old name is left alone. */
  method ReplacePass(s: string, rep: Replacement) returns (result: string, count: nat)
    ensures PassResult(result, count) == Replaced(s, rep, MAX_MATCHES)
  {
    result, count := s, 0;
    if Find(s, rep.oldPattern).Some? {
      var segments;
      segments, count := SplitPass(s, rep, MAX_MATCHES);
      if count > 0 {
        result := Flatten(segments);
      }
    }
  }

  /** A lower limit makes the same matches, as far as it goes. */
  lemma {:induction false} MatchesUpTo(s: string, oldName: string, newName: string, m: nat, n: nat)
    requires m <= n
    ensures Matches(s, oldName, m) == if Matches(s, oldName, n) <= m then Matches(s, oldName, n) else m
    ensures Matches(s, oldName, n) <= m ==> Replace(s, oldName, newName, m) == Replace(s, oldName, newName, n)
  {
    if m > 0 && Find(s, oldName).Some? {
      MatchesUpTo(s[Find(s, oldName).value + |oldName|..], oldName, newName, m - 1, n - 1);
    }
  }

  /** For every text and every higher limit: a pass replaces 10,001 matches if there are more, and
      otherwise all of them, so that no gap it leaves contains the old name. */
  lemma PassLimit(s: string, rep: Replacement, n: nat)
    requires n > 10_001
    ensures
      var found := Matches(s, rep.oldPattern, n);
      && Replaced(s, rep, MAX_MATCHES).count == (if found <= 10_001 then found else 10_001)
      && (found <= 10_001 ==> Replaced(s, rep, MAX_MATCHES) == Replaced(s, rep, n))
      && (found <= 10_001 && rep.oldPattern != [] ==>
            forall k :: 0 <= k < |Gaps(s, rep.oldPattern, n)| ==>
              !Contains(Gaps(s, rep.oldPattern, n)[k], rep.oldPattern))
  {
    MatchesUpTo(s, rep.oldPattern, rep.newPattern, MAX_MATCHES, n);
    if Matches(s, rep.oldPattern, n) <= 10_001 && rep.oldPattern != [] {
      forall k | 0 <= k < |Gaps(s, rep.oldPattern, n)|
        ensures !Contains(Gaps(s, rep.oldPattern, n)[k], rep.oldPattern)
      {
        GapsAreClean(s, rep.oldPattern, n, k);
      }
    }
  }

  // ── All passes ─────────────────────────────────────────────────────────────

  /** The text after the passes for `reps`, one after another. */
  function Passes(content: string, reps: seq<Replacement>): (r: string) {
    if reps == [] then content
    else
      var last := reps[|reps| - 1];
      Replace(Passes(content, reps[..|reps| - 1]), last.oldPattern, last.newPattern, MAX_MATCHES)
  }

  /** How many matches each pass made. */
  function Counts(content: string, reps: seq<Replacement>): (counts: seq<nat>)
    ensures |counts| == |reps|
  {
    if reps == [] then []
    else
      var before := reps[..|reps| - 1];
      Counts(content, before) + [Matches(Passes(content, before), reps[|reps| - 1].oldPattern, MAX_MATCHES)]
  }

  function Total(counts: seq<nat>): (n: nat) {
    if counts == [] then 0 else Total(counts[..|counts| - 1]) + counts[|counts| - 1]
  }

  /** Sum over the passes of count times the difference in length. */
  function LengthChange(counts: seq<nat>, reps: seq<Replacement>): (d: int)
    requires |counts| == |reps|
  {
    if reps == [] then 0
    else
      var last := reps[|reps| - 1];
      LengthChange(counts[..|reps| - 1], reps[..|reps| - 1]) +
      counts[|reps| - 1] * (|last.newPattern| - |last.oldPattern|)
  }

  method ApplyAllReplacements(content: string, reps: seq<Replacement>) returns (result: string, totalCount: nat)
    ensures result == Passes(content, reps)
    ensures totalCount == Total(Counts(content, reps))
    ensures |result| == |content| + LengthChange(Counts(content, reps), reps)
  {
    result, totalCount := content, 0;
    for i := 0 to |reps|
      invariant result == Passes(content, reps[..i]) && totalCount == Total(Counts(content, reps[..i]))
    {
      OneMorePass(content, reps, i);
      var count;
      result, count := ReplacePass(result, reps[i]);
      totalCount := totalCount + count;
    }
    assert reps[..|reps|] == reps;
    LengthsAddUp(content, reps);
  }

  lemma {:induction false} OneMorePass(content: string, reps: seq<Replacement>, i: nat)
    requires i < |reps|
    ensures
      var before := Passes(content, reps[..i]);
      && Passes(content, reps[..i + 1]) == Replace(before, reps[i].oldPattern, reps[i].newPattern, MAX_MATCHES)
      && Total(Counts(content, reps[..i + 1])) ==
        Total(Counts(content, reps[..i])) + Matches(before, reps[i].oldPattern, MAX_MATCHES)
  {
    assert reps[..i + 1][..i] == reps[..i];
    var counts := Counts(content, reps[..i + 1]);
    assert counts[..i] == Counts(content, reps[..i]);
  }

  /** Conservation over the whole list: the length changes by the sum of count times difference. */
  lemma {:induction false} LengthsAddUp(content: string, reps: seq<Replacement>)
    ensures |Passes(content, reps)| == |content| + LengthChange(Counts(content, reps), reps)
  {
    if reps != [] {
      var before, last := reps[..|reps| - 1], reps[|reps| - 1];
      LengthsAddUp(content, before);
      ReplaceLength(Passes(content, before), last.oldPattern, last.newPattern, MAX_MATCHES);
      assert Counts(content, reps)[..|reps| - 1] == Counts(content, before);
    }
  }

  /** Passes see the output of earlier passes: a new name that contains a later old name is
      renamed again. */
  lemma {:induction false} PassesChain(a: string, b: string, c: string)
    requires a != [] && b != []
    ensures
      var reps := [Replacement(a, b), Replacement(b, c)];
      Passes(a, reps) == c && Total(Counts(a, reps)) == 2
  {
    var first, second := Replacement(a, b), Replacement(b, c);
    var reps := [first, second];
    WholeMatch(a, b);
    WholeMatch(b, c);
    assert reps[..0] == [];
    OneMorePass(a, reps, 0);
    OneMorePass(a, reps, 1);
    assert reps[..2] == reps;
  }

  /** A text that is the old name becomes the new one. */
  lemma {:induction false} WholeMatch(a: string, b: string)
    requires a != []
    ensures Replace(a, a, b, MAX_MATCHES) == b && Matches(a, a, MAX_MATCHES) == 1
  {
    assert Find(a, a) == Some(0);
    assert a[0 + |a|..] == [];
    assert Find([], a).None?;
  }
}

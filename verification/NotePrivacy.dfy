// Withholding a maintainer's private words from text (holophyte/note_privacy.py):
// overlapping matches merged, then spliced out from the right.

module NotePrivacy {

  datatype Option<+T> = None | Some(value: T)

  datatype Span = Span(start: nat, end: nat)

  const WITHHELD := "[maintainer note withheld]"

  // Where a pattern matches: the end of its match at each start, if any.
  type Pattern = nat -> Option<nat>

  ghost predicate Fits(p: Pattern, text: string) {
    forall i: nat :: p(i).Some? ==> i < p(i).value <= |text|
  }

  predicate Covers(spans: seq<Span>, i: nat) {
    exists k :: 0 <= k < |spans| && spans[k].start <= i < spans[k].end
  }

  predicate Within(spans: seq<Span>, n: nat) {
    forall k :: 0 <= k < |spans| ==> spans[k].start < spans[k].end <= n
  }

  predicate InOrder(spans: seq<Span>) {
    forall j, k :: 0 <= j < k < |spans| ==> spans[j].start <= spans[k].start
  }

  predicate Separated(spans: seq<Span>) {
    forall j, k :: 0 <= j < k < |spans| ==> spans[j].end < spans[k].start
  }

  // -------------------------------------------------------------- the meaning

  // The text position by position: what is covered goes, one marker stands for
  // each run of covered positions, the rest stays in order.
  ghost function Plain(text: string, spans: seq<Span>, i: nat): string
    requires i <= |text|
    decreases |text| - i
  {
    if i == |text| then "" else Piece(text, spans, i) + Plain(text, spans, i + 1)
  }

  // What stands for position `i`.
  ghost function Piece(text: string, spans: seq<Span>, i: nat): string
    requires i < |text|
  {
    if !Covers(spans, i) then [text[i]] else if i == 0 || !Covers(spans, i - 1) then WITHHELD else ""
  }

  lemma {:induction false} PlainSame(text: string, a: seq<Span>, b: seq<Span>, i: nat)
    requires i <= |text| && SameCover(a, b, |text|)
    ensures Plain(text, a, i) == Plain(text, b, i)
    decreases |text| - i
  {
    hide Covers, SameCover, Piece;
    if i < |text| {
      PlainSame(text, a, b, i + 1);
      PieceSame(text, text, a, b, i, |text|);
    }
  }

  // A position's piece depends on what covers it and the one before.
  lemma PieceSame(text: string, head: string, a: seq<Span>, b: seq<Span>, i: nat, n: nat)
    requires i < n && SameCover(a, b, n) && i < |head| && i < |text| && head[i] == text[i]
    ensures Piece(text, a, i) == Piece(head, b, i)
  {
    hide Covers, SameCover;
    CoverAt(a, b, n, i);
  }

  // Below `n` the same positions are covered.
  ghost predicate SameCover(a: seq<Span>, b: seq<Span>, n: nat) {
    forall k: nat :: k < n ==> (Covers(a, k) <==> Covers(b, k))
  }

  lemma CoverAt(a: seq<Span>, b: seq<Span>, n: nat, i: nat)
    requires SameCover(a, b, n) && i < n
    ensures Covers(a, i) <==> Covers(b, i)
    ensures i > 0 ==> (Covers(a, i - 1) <==> Covers(b, i - 1))
  {
  }

  // ------------------------------------------------------------------ merging

  function MergeOne(merged: seq<Span>, s: Span): (r: seq<Span>) {
    if merged != [] && s.start <= merged[|merged| - 1].end then
      var last := merged[|merged| - 1];
      merged[|merged| - 1 := Span(last.start, if last.end > s.end then last.end else s.end)]
    else merged + [s]
  }

  function Merged(spans: seq<Span>): seq<Span> {
    if spans == [] then [] else MergeOne(Merged(spans[..|spans| - 1]), spans[|spans| - 1])
  }

  lemma MergeOneCovers(merged: seq<Span>, s: Span, i: nat)
    requires forall k :: 0 <= k < |merged| ==> merged[k].start <= s.start
    requires s.start < s.end
    ensures Covers(MergeOne(merged, s), i) <==> Covers(merged, i) || s.start <= i < s.end
  {
    var n := |merged| - 1;
    var r := MergeOne(merged, s);
    if merged != [] && s.start <= merged[n].end {
      if Covers(merged, i) {
        var k :| 0 <= k < |merged| && merged[k].start <= i < merged[k].end;
        assert r[k].start <= i < r[k].end;
      }
      if s.start <= i < s.end { assert r[n].start <= i < r[n].end; }
    } else {
      if Covers(merged, i) {
        var k :| 0 <= k < |merged| && merged[k].start <= i < merged[k].end;
        assert r[k] == merged[k];
      }
      if s.start <= i < s.end { assert r[|merged|] == s; }
    }
  }

  predicate StartBy(merged: seq<Span>, n: nat) {
    forall k :: 0 <= k < |merged| ==> merged[k].start <= n
  }

  lemma MergeOneKeeps(merged: seq<Span>, s: Span, n: nat)
    requires Separated(merged) && Within(merged, n) && StartBy(merged, s.start) && s.start < s.end <= n
    ensures Separated(MergeOne(merged, s)) && Within(MergeOne(merged, s), n) && StartBy(MergeOne(merged, s), s.start)
  {
  }

  // Merging sorted spans leaves separated intervals that cover the same
  // positions.
  lemma {:induction false} MergedIs(spans: seq<Span>, n: nat)
    requires InOrder(spans) && Within(spans, n)
    ensures Separated(Merged(spans)) && Within(Merged(spans), n)
    ensures spans != [] ==> StartBy(Merged(spans), spans[|spans| - 1].start)
  {
    hide MergeOne, Separated;
    if spans == [] {
      assert Separated([]) by { NoneSeparated(); }
    } else {
      var front, s := spans[..|spans| - 1], spans[|spans| - 1];
      MergedIs(front, n);
      MergeOneKeeps(Merged(front), s, n);
    }
  }

  lemma NoneSeparated()
    ensures Separated([])
  {
  }

  lemma {:induction false} MergedCovers(spans: seq<Span>, n: nat, i: nat)
    requires InOrder(spans) && Within(spans, n)
    ensures Covers(Merged(spans), i) <==> Covers(spans, i)
  {
    hide MergeOne, Covers, Separated, InOrder, Within;
    if spans != [] {
      var front, s := spans[..|spans| - 1], spans[|spans| - 1];
      assert spans == front + [s];
      FrontOk(spans, n);
      MergedCovers(front, n, i);
      MergeOneCovers(Merged(front), s, i);
      CoversSnoc(front, s, i);
    }
  }

  lemma FrontOk(spans: seq<Span>, n: nat)
    requires InOrder(spans) && Within(spans, n) && spans != []
    ensures var front, s := spans[..|spans| - 1], spans[|spans| - 1];
            && InOrder(front) && Within(front, n) && s.start < s.end <= n
            && forall k :: 0 <= k < |Merged(front)| ==> Merged(front)[k].start <= s.start
  {
    hide Merged;
    var front := spans[..|spans| - 1];
    MergedIs(front, n);
    if front == [] { NoneMerged(); }
  }

  lemma NoneMerged()
    ensures Merged([]) == []
  {
  }

  lemma CoversSnoc(front: seq<Span>, s: Span, i: nat)
    ensures Covers(front + [s], i) <==> Covers(front, i) || s.start <= i < s.end
  {
    if Covers(front, i) {
      var k :| 0 <= k < |front| && front[k].start <= i < front[k].end;
      assert (front + [s])[k] == front[k];
    }
    if s.start <= i < s.end { assert (front + [s])[|front|] == s; }
  }

  // ------------------------------------------------------------------ splicing

  // Splicing the spans out from the right, the last first.
  function Spliced(text: string, spans: seq<Span>): string
    requires Within(spans, |text|) && Separated(spans)
    decreases |spans|
  {
    if spans == [] then text
    else
      var s := spans[|spans| - 1];
      Spliced(text[..s.start], spans[..|spans| - 1]) + WITHHELD + text[s.end..]
  }

  lemma {:induction false} PlainKeeps(text: string, spans: seq<Span>, i: nat)
    requires i <= |text| && forall k: nat :: i <= k < |text| ==> !Covers(spans, k)
    ensures Plain(text, spans, i) == text[i..]
    decreases |text| - i
  {
    hide Covers;
    if i < |text| {
      PlainKeeps(text, spans, i + 1);
      assert text[i..] == [text[i]] + text[i + 1..];
    }
  }

  lemma {:induction false} PlainSkips(text: string, spans: seq<Span>, i: nat, j: nat)
    requires 0 < i <= j <= |text| && forall k: nat :: i - 1 <= k < j ==> Covers(spans, k)
    ensures Plain(text, spans, i) == Plain(text, spans, j)
    decreases j - i
  {
    hide Covers;
    if i < j { PlainSkips(text, spans, i + 1, j); }
  }

  // Up to position `j` only the text before it and what covers it matter.
  lemma {:induction false} PlainSplits(text: string, spans: seq<Span>, front: seq<Span>, i: nat, j: nat)
    requires i <= j <= |text| && SameCover(spans, front, j)
    ensures Plain(text, spans, i) == Plain(text[..j], front, i) + Plain(text, spans, j)
    decreases j - i
  {
    hide Covers, SameCover, Piece;
    if i < j {
      PlainSplits(text, spans, front, i + 1, j);
      PieceSame(text, text[..j], spans, front, i, j);
    }
  }

  // The last of separated intervals: one marker, then the text after it.
  lemma PlainLast(text: string, spans: seq<Span>, s: Span)
    requires s.start < s.end <= |text| && CoversRun(spans, s)
    ensures Plain(text, spans, s.start) == WITHHELD + text[s.end..]
  {
    hide Plain, Covers;
    PlainStarts(text, spans, s.start);
    PlainSkips(text, spans, s.start + 1, s.end);
    PlainKeeps(text, spans, s.end);
  }

  // From the position before `s` on, the spans cover just `s`.
  ghost predicate CoversRun(spans: seq<Span>, s: Span) {
    && (forall k: nat :: s.start <= k < s.end ==> Covers(spans, k))
    && (forall k: nat :: s.end <= k ==> !Covers(spans, k))
    && (s.start > 0 ==> !Covers(spans, s.start - 1))
  }

  lemma PlainStarts(text: string, spans: seq<Span>, i: nat)
    requires i < |text| && Covers(spans, i) && (i > 0 ==> !Covers(spans, i - 1))
    ensures Plain(text, spans, i) == WITHHELD + Plain(text, spans, i + 1)
  {
    hide Covers;
  }

  lemma LastCovers(spans: seq<Span>)
    requires spans != [] && Separated(spans) && forall k :: 0 <= k < |spans| ==> spans[k].start < spans[k].end
    ensures var s := spans[|spans| - 1];
            CoversRun(spans, s) && SameCover(spans, spans[..|spans| - 1], s.start)
  {
    var front, s := spans[..|spans| - 1], spans[|spans| - 1];
    assert spans == front + [s];
    forall k: nat ensures Covers(spans, k) <==> Covers(front, k) || s.start <= k < s.end {
      CoversSnoc(front, s, k);
    }
    forall k: nat | s.start <= k + 1 ensures !Covers(front, k) {
    }
  }

  // Splicing separated intervals out from the right is one forward pass.
  lemma {:induction false} SplicedIsPlain(text: string, spans: seq<Span>)
    requires Within(spans, |text|) && Separated(spans)
    ensures Spliced(text, spans) == Plain(text, spans, 0)
    decreases |spans|
  {
    hide Plain, Covers, SameCover, CoversRun;
    if spans == [] {
      NoneCovered();
      PlainKeeps(text, spans, 0);
    } else {
      var front, s := spans[..|spans| - 1], spans[|spans| - 1];
      LastCovers(spans);
      SplicedIsPlain(text[..s.start], front);
      PlainSplits(text, spans, front, 0, s.start);
      PlainLast(text, spans, s);
    }
  }

  lemma NoneCovered()
    ensures forall k: nat :: !Covers([], k)
  {
  }

  // ------------------------------------------------------------------ the loops

  // The first match at or after `from`.
  method Search(p: Pattern, n: nat, from: nat) returns (found: Option<Span>)
    ensures found.Some? ==> && from <= found.value.start < n && p(found.value.start) == Some(found.value.end)
                            && forall i :: from <= i < found.value.start ==> p(i).None?
    ensures found.None? ==> forall i :: from <= i < n ==> p(i).None?
  {
    var i := from;
    while i < n
      invariant forall k :: from <= k < i && k < n ==> p(k).None?
    {
      if p(i).Some? { return Some(Span(i, p(i).value)); }
      i := i + 1;
    }
    return None;
  }

  // `_overlapping`: every start at which the pattern matches, once, in order.
  method Overlapping(p: Pattern, text: string) returns (spans: seq<Span>)
    requires Fits(p, text)
    ensures forall k :: 0 <= k < |spans| ==> p(spans[k].start) == Some(spans[k].end)
    ensures forall j, k :: 0 <= j < k < |spans| ==> spans[j].start < spans[k].start
    ensures forall i :: p(i).Some? ==> Span(i, p(i).value) in spans
  {
    spans := [];
    var next := 0;
    var found := Search(p, |text|, next);
    while found.Some?
      invariant next <= |text|
      invariant found.Some? ==> next <= found.value.start < |text| && p(found.value.start) == Some(found.value.end)
      invariant forall i :: next <= i < |text| && p(i).Some? ==> found.Some? && found.value.start <= i
      invariant forall k :: 0 <= k < |spans| ==> spans[k].start < next && p(spans[k].start) == Some(spans[k].end)
      invariant forall j, k :: 0 <= j < k < |spans| ==> spans[j].start < spans[k].start
      invariant forall i :: 0 <= i < next && p(i).Some? ==> Span(i, p(i).value) in spans
      decreases |text| - next
    {
      spans := spans + [found.value];
      next := found.value.start + 1;
      found := Search(p, |text|, next);
    }
  }

  method Insert(r: seq<Span>, s: Span) returns (r': seq<Span>)
    requires InOrder(r)
    ensures InOrder(r') && forall x :: x in r' <==> x in r || x == s
  {
    hide InOrder;
    var k := |r|;
    while k > 0 && r[k - 1].start > s.start
      invariant 0 <= k <= |r|
      invariant forall j :: k <= j < |r| ==> r[j].start > s.start
    {
      k := k - 1;
    }
    Inserted(r, s, k);
    r' := r[..k] + [s] + r[k..];
  }

  lemma Inserted(r: seq<Span>, s: Span, k: nat)
    requires InOrder(r) && k <= |r| && (k > 0 ==> r[k - 1].start <= s.start)
    requires forall j :: k <= j < |r| ==> r[j].start > s.start
    ensures InOrder(r[..k] + [s] + r[k..]) && forall x :: x in r[..k] + [s] + r[k..] <==> x in r || x == s
  {
    hide InOrder;
    var a, b := r[..k], r[k..];
    assert r == a + b;
    OrderOfParts(r, s, k, a, b);
  }

  lemma OrderOfParts(r: seq<Span>, s: Span, k: nat, a: seq<Span>, b: seq<Span>)
    requires InOrder(r) && k <= |r| && a == r[..k] && b == r[k..] && (k > 0 ==> r[k - 1].start <= s.start)
    requires forall j :: k <= j < |r| ==> r[j].start > s.start
    ensures InOrder(a + [s] + b)
  {
    forall i | 0 <= i < |a| ensures a[i].start <= s.start {
      assert a[i] == r[i] && r[i].start <= r[k - 1].start;
    }
    forall i | 0 <= i < |b| ensures s.start <= b[i].start {
      assert b[i] == r[k + i];
    }
    PartsInOrder(r, k, a, b);
    Joined(a, [s]);
    Joined(a + [s], b);
  }

  lemma PartsInOrder(r: seq<Span>, k: nat, a: seq<Span>, b: seq<Span>)
    requires InOrder(r) && k <= |r| && a == r[..k] && b == r[k..]
    ensures InOrder(a) && InOrder(b)
  {
    forall i, j | 0 <= i < j < |b| ensures b[i].start <= b[j].start {
      assert b[i] == r[k + i] && b[j] == r[k + j];
    }
  }

  lemma Joined(a: seq<Span>, b: seq<Span>)
    requires InOrder(a) && InOrder(b)
    requires forall i, j :: 0 <= i < |a| && 0 <= j < |b| ==> a[i].start <= b[j].start
    ensures InOrder(a + b)
  {
  }

  method Sorted(spans: seq<Span>) returns (r: seq<Span>)
    ensures InOrder(r) && forall s :: s in r <==> s in spans
  {
    hide InOrder;
    NoneInOrder();
    r := [];
    for i := 0 to |spans|
      invariant InOrder(r) && forall s :: s in r <==> s in spans[..i]
    {
      assert spans[..i + 1] == spans[..i] + [spans[i]];
      r := Insert(r, spans[i]);
    }
    assert spans[..|spans|] == spans;
  }

  lemma NoneInOrder()
    ensures InOrder([])
  {
  }

  lemma CoversAsSet(a: seq<Span>, b: seq<Span>)
    requires forall s :: s in a <==> s in b
    ensures forall i: nat :: Covers(a, i) <==> Covers(b, i)
  {
    forall i: nat ensures Covers(a, i) <==> Covers(b, i) {
      if k :| 0 <= k < |a| && a[k].start <= i < a[k].end { assert a[k] in b; }
      if k :| 0 <= k < |b| && b[k].start <= i < b[k].end { assert b[k] in a; }
    }
  }

  // A position some pattern's match covers.
  ghost predicate Private(patterns: seq<Pattern>, i: nat) {
    exists n, at: nat :: 0 <= n < |patterns| && patterns[n](at).Some? && at <= i < patterns[n](at).value
  }

  // A span some pattern matches.
  ghost predicate Matched(patterns: seq<Pattern>, n: nat, s: Span)
    requires n <= |patterns|
  {
    exists m :: 0 <= m < n && patterns[m](s.start) == Some(s.end)
  }

  // The spans found are exactly the first `n` patterns' matches.
  ghost predicate Found(patterns: seq<Pattern>, n: nat, found: seq<Span>)
    requires n <= |patterns|
  {
    && (forall k :: 0 <= k < |found| ==> Matched(patterns, n, found[k]))
    && (forall m, at: nat :: 0 <= m < n && patterns[m](at).Some? ==> Span(at, patterns[m](at).value) in found)
  }

  lemma FoundMore(patterns: seq<Pattern>, n: nat, found: seq<Span>, more: seq<Span>)
    requires n < |patterns| && Found(patterns, n, found)
    requires forall k :: 0 <= k < |more| ==> patterns[n](more[k].start) == Some(more[k].end)
    requires forall i: nat :: patterns[n](i).Some? ==> Span(i, patterns[n](i).value) in more
    ensures Found(patterns, n + 1, found + more)
  {
    forall k | 0 <= k < |found + more| ensures Matched(patterns, n + 1, (found + more)[k]) {
      if k < |found| {
        assert Matched(patterns, n, found[k]);
        var m :| 0 <= m < n && patterns[m](found[k].start) == Some(found[k].end);
      } else {
        assert (found + more)[k] == more[k - |found|];
      }
    }
  }

  // `withhold`: exactly the positions some pattern's match covers are withheld.
  method Withhold(text: string, patterns: seq<Pattern>) returns (r: string)
    requires forall n :: 0 <= n < |patterns| ==> Fits(patterns[n], text)
    ensures exists spans :: CoversPrivate(spans, patterns) && r == Plain(text, spans, 0)
  {
    hide Plain, Covers, CoversPrivate, Fits, Found, Private, Merged, MergeOne, Within, InOrder, Separated;
    var found: seq<Span> := [];
    NoneFound(patterns);
    for n := 0 to |patterns|
      invariant Found(patterns, n, found)
    {
      var more := Overlapping(patterns[n], text);
      FoundMore(patterns, n, found, more);
      found := found + more;
    }
    var sorted := Sorted(found);
    FoundIsPrivate(patterns, found);
    AllWithin(patterns, found, sorted, text);
    var merged := MergeAll(sorted);
    MergedIs(sorted, |text|);
    r := SpliceOut(text, merged);
    SplicedIsPlain(text, merged);
    SameAsFound(sorted, found, |text|);
    PlainSame(text, merged, found, 0);
  }

  lemma NoneFound(patterns: seq<Pattern>)
    ensures Found(patterns, 0, [])
  {
  }

  lemma SameAsFound(sorted: seq<Span>, found: seq<Span>, n: nat)
    requires InOrder(sorted) && Within(sorted, n) && forall s :: s in sorted <==> s in found
    ensures SameCover(Merged(sorted), found, n)
  {
    hide Covers, Merged;
    CoversAsSet(sorted, found);
    forall i: nat | i < n ensures Covers(Merged(sorted), i) <==> Covers(found, i) {
      MergedCovers(sorted, n, i);
    }
  }

  // The merging loop, the last interval extended in place.
  method MergeAll(spans: seq<Span>) returns (merged: seq<Span>)
    ensures merged == Merged(spans)
  {
    merged := [];
    for i := 0 to |spans|
      invariant merged == Merged(spans[..i])
    {
      assert spans[..i + 1][..i] == spans[..i];
      var s := spans[i];
      if merged != [] && s.start <= merged[|merged| - 1].end {
        var last := merged[|merged| - 1];
        merged := merged[|merged| - 1 := Span(last.start, if last.end > s.end then last.end else s.end)];
      } else {
        merged := merged + [s];
      }
    }
    assert spans[..|spans|] == spans;
  }

  // The spans cover exactly what some pattern's match covers.
  ghost predicate CoversPrivate(spans: seq<Span>, patterns: seq<Pattern>) {
    forall i: nat :: Covers(spans, i) <==> Private(patterns, i)
  }

  lemma FoundIsPrivate(patterns: seq<Pattern>, found: seq<Span>)
    requires Found(patterns, |patterns|, found)
    ensures CoversPrivate(found, patterns)
  {
    forall i: nat ensures Covers(found, i) <==> Private(patterns, i) {
      if k :| 0 <= k < |found| && found[k].start <= i < found[k].end {
        assert Matched(patterns, |patterns|, found[k]);
        var m :| 0 <= m < |patterns| && patterns[m](found[k].start) == Some(found[k].end);
      }
      if m, at: nat :| 0 <= m < |patterns| && patterns[m](at).Some? && at <= i < patterns[m](at).value {
        assert Span(at, patterns[m](at).value) in found;
      }
    }
  }

  lemma AllWithin(patterns: seq<Pattern>, found: seq<Span>, sorted: seq<Span>, text: string)
    requires forall n :: 0 <= n < |patterns| ==> Fits(patterns[n], text)
    requires Found(patterns, |patterns|, found) && forall s :: s in sorted <==> s in found
    ensures Within(sorted, |text|)
  {
    forall k | 0 <= k < |sorted| ensures sorted[k].start < sorted[k].end <= |text| {
      assert sorted[k] in found;
      var j :| 0 <= j < |found| && found[j] == sorted[k];
      assert Matched(patterns, |patterns|, found[j]);
      var m :| 0 <= m < |patterns| && patterns[m](found[j].start) == Some(found[j].end);
      assert Fits(patterns[m], text);
    }
  }

  // What is left to splice after the last `|spans| - n` intervals.
  function Rest(text: string, spans: seq<Span>, n: nat): string
    requires n <= |spans| && Within(spans, |text|)
  {
    if n < |spans| then text[..spans[n].start] else text
  }

  lemma RestFits(text: string, spans: seq<Span>, n: nat)
    requires n <= |spans| && Within(spans, |text|) && Separated(spans)
    ensures Within(spans[..n], |Rest(text, spans, n)|) && Separated(spans[..n])
  {
  }

  lemma SplicedStep(text: string, spans: seq<Span>, n: nat)
    requires n < |spans| && Within(spans, |text|) && Separated(spans)
    ensures Within(spans[..n + 1], |Rest(text, spans, n + 1)|) && Separated(spans[..n + 1])
    ensures Within(spans[..n], |Rest(text, spans, n)|) && Separated(spans[..n])
    ensures Spliced(Rest(text, spans, n + 1), spans[..n + 1])
            == Spliced(Rest(text, spans, n), spans[..n]) + WITHHELD + Rest(text, spans, n + 1)[spans[n].end..]
  {
    RestFits(text, spans, n + 1);
    RestFits(text, spans, n);
    assert spans[..n + 1][..n] == spans[..n];
    assert Rest(text, spans, n + 1)[..spans[n].start] == Rest(text, spans, n);
  }

  // Splicing in place, from the right.
  method SpliceOut(text: string, spans: seq<Span>) returns (r: string)
    requires Within(spans, |text|) && Separated(spans)
    ensures r == Spliced(text, spans)
  {
    hide Spliced, Separated, Within;
    r := text;
    var n := |spans|;
    ghost var tail := "";
    assert spans[..n] == spans;
    while n > 0
      invariant 0 <= n <= |spans|
      invariant Within(spans[..n], |Rest(text, spans, n)|) && Separated(spans[..n])
      invariant r == Rest(text, spans, n) + tail
      invariant Spliced(text, spans) == Spliced(Rest(text, spans, n), spans[..n]) + tail
    {
      n := n - 1;
      SplicedStep(text, spans, n);
      Cut(text, spans, n, r, tail);
      tail := WITHHELD + Rest(text, spans, n + 1)[spans[n].end..] + tail;
      r := r[..spans[n].start] + WITHHELD + r[spans[n].end..];
    }
    NoneSpliced(Rest(text, spans, 0));
  }

  lemma Cut(text: string, spans: seq<Span>, n: nat, r: string, tail: string)
    requires n < |spans| && Within(spans, |text|) && Separated(spans) && r == Rest(text, spans, n + 1) + tail
    ensures spans[n].start <= spans[n].end <= |Rest(text, spans, n + 1)| <= |r|
    ensures r[..spans[n].start] == Rest(text, spans, n)
    ensures r[spans[n].end..] == Rest(text, spans, n + 1)[spans[n].end..] + tail
  {
  }

  lemma NoneSpliced(text: string)
    ensures Within([], |text|) && Separated([]) && Spliced(text, []) == text
  {
  }
}

// Redacting secrets and putting them back (holophyte/redact.py).

module Redact {
  // As scanning commutes with swapping one complete value for another, restoring
  // a redacted text against the original gives the original.

  import opened TomlScan
  import opened TomlScanOrder
  import opened TomlScanFacts
  import opened TomlSwap

  // ------------------------------------------------- gaps and texts of a cut

  // `t` from `at` on is the gaps and the spans' texts, in turn.
  ghost predicate Cut(t: string, at: nat, xs: seq<Span>, gaps: seq<string>, texts: seq<string>)
    decreases |xs|
  {
    && |gaps| == |xs| + 1 && |texts| == |xs| && at <= |t|
    && if xs == [] then t[at..] == gaps[0]
       else
         && at <= xs[0].start < xs[0].end <= |t|
         && t[at..xs[0].start] == gaps[0]
         && t[xs[0].start..xs[0].end] == texts[0]
         && Cut(t, xs[0].end, xs[1..], gaps[1..], texts[1..])
  }

  function Weave(gaps: seq<string>, texts: seq<string>): string
    requires |gaps| == |texts| + 1
  {
    if texts == [] then gaps[0] else gaps[0] + texts[0] + Weave(gaps[1..], texts[1..])
  }

  function Gaps(t: string, at: nat, xs: seq<Span>): (gaps: seq<string>)
    requires at <= |t| && Ordered(xs, at - 1, |t|)
    ensures |gaps| == |xs| + 1
    decreases |xs|
  {
    if xs == [] then [t[at..]]
    else [t[at..xs[0].start]] + Gaps(t, xs[0].end, xs[1..])
  }

  function Texts(t: string, xs: seq<Span>): (texts: seq<string>)
    requires forall i :: 0 <= i < |xs| ==> xs[i].start <= xs[i].end <= |t|
    ensures |texts| == |xs|
    ensures forall i :: 0 <= i < |xs| ==> texts[i] == t[xs[i].start..xs[i].end]
  {
    seq(|xs|, i requires 0 <= i < |xs| => t[xs[i].start..xs[i].end])
  }

  lemma {:induction false} CutAlong(t: string, at: nat, xs: seq<Span>)
    requires at <= |t| && Ordered(xs, at - 1, |t|)
    ensures Cut(t, at, xs, Gaps(t, at, xs), Texts(t, xs))
    decreases |xs|
  {
    if xs != [] {
      CutAlong(t, xs[0].end, xs[1..]);
      assert Texts(t, xs)[1..] == Texts(t, xs[1..]);
      assert Gaps(t, at, xs)[1..] == Gaps(t, xs[0].end, xs[1..]);
    }
  }

  lemma {:induction false} CutWeave(t: string, at: nat, xs: seq<Span>, gaps: seq<string>, texts: seq<string>)
    requires Cut(t, at, xs, gaps, texts)
    ensures t[at..] == Weave(gaps, texts)
    decreases |xs|
  {
    if xs != [] {
      CutWeave(t, xs[0].end, xs[1..], gaps[1..], texts[1..]);
      assert t[at..] == t[at..xs[0].start] + t[xs[0].start..xs[0].end] + t[xs[0].end..];
    }
  }

  lemma {:induction false} CutShift(
      t: string, u: string, k: nat, dx: int, s: int, at: nat, xs: seq<Span>, ys: seq<Span>,
      gaps: seq<string>, texts: seq<string>)
    requires Tail(t, u, k, dx) && s < k <= at && Cut(t, at, xs, gaps, texts) && Moved(s, dx, xs, ys)
    ensures Cut(u, at + dx, ys, gaps, texts)
    decreases |xs|
  {
    hide Tail;
    TailLength(t, u, k, dx);
    if xs == [] {
      SliceShift(t, u, k, dx, at, |t|);
      assert u[at + dx..] == u[at + dx..|t| + dx];
    } else {
      SliceShift(t, u, k, dx, at, xs[0].start);
      SliceShift(t, u, k, dx, xs[0].start, xs[0].end);
      CutShift(t, u, k, dx, s, xs[0].end, xs[1..], ys[1..], gaps[1..], texts[1..]);
    }
  }

  lemma {:induction false} SliceHead(t: string, u: string, k: nat, p: nat, e: nat)
    requires Head(t, u, k) && p <= e <= k
    ensures u[p..e] == t[p..e]
  {
  }

  lemma {:induction false} MovedTail(s: int, dx: int, xs: seq<Span>, ys: seq<Span>)
    requires Moved(s, dx, xs, ys) && xs != []
    ensures ys != [] && ys[0].start == At(s, dx, xs[0].start) && ys[0].end == At(s, dx, xs[0].end)
    ensures Moved(s, dx, xs[1..], ys[1..])
  {
  }

  lemma {:induction false} OrderedTail(xs: seq<Span>, lo: int, hi: int, k: nat)
    requires Ordered(xs, lo, hi) && 0 < k < |xs|
    ensures Ordered(xs[1..], xs[0].end - 1, hi) && lo < xs[0].start < xs[0].end < xs[k].start
  {
  }

  // A swap at span `k` changes that text of the cut and nothing else.
  lemma {:induction false} CutSwap(
      t: string, u: string, dx: int, at: nat, xs: seq<Span>, ys: seq<Span>,
      gaps: seq<string>, texts: seq<string>, k: nat, w: string)
    requires k < |xs| && Cut(t, at, xs, gaps, texts)
    requires Head(t, u, xs[k].start) && Tail(t, u, xs[k].end, dx) && xs[k].start < xs[k].end + dx
    requires Moved(xs[k].start, dx, xs, ys) && Ordered(xs, at - 1, |t|)
    requires xs[k].end + dx <= |u| && u[xs[k].start..xs[k].end + dx] == w
    ensures Cut(u, at, ys, gaps, texts[k := w])
    decreases |xs|
  {
    hide Head, Tail, Moved, Ordered;
    var s, e := xs[k].start, xs[k].end;
    TailLength(t, u, e, dx);
    MovedTail(s, dx, xs, ys);
    if k == 0 {
      SliceHead(t, u, s, at, s);
      CutShift(t, u, e, dx, s, e, xs[1..], ys[1..], gaps[1..], texts[1..]);
      assert texts[k := w][1..] == texts[1..];
    } else {
      OrderedTail(xs, at - 1, |t|, k);
      SliceHead(t, u, s, at, xs[0].start);
      SliceHead(t, u, s, xs[0].start, xs[0].end);
      CutSwap(t, u, dx, xs[0].end, xs[1..], ys[1..], gaps[1..], texts[1..], k - 1, w);
      assert texts[k := w][1..] == texts[1..][k - 1 := w];
    }
  }

  // -------------------------------------------------------------- rewriting

  datatype Edit = Edit(start: nat, end: nat, text: string)

  predicate TextLeq(a: string, b: string)
    decreases |a|
  {
    a == [] || (b != [] && (a[0] < b[0] || (a[0] == b[0] && TextLeq(a[1..], b[1..]))))
  }

  predicate EditLeq(a: Edit, b: Edit) {
    || a.start < b.start
    || (a.start == b.start && (a.end < b.end || (a.end == b.end && TextLeq(a.text, b.text))))
  }

  function Insert(x: Edit, edits: seq<Edit>): (r: seq<Edit>)
    ensures multiset(r) == multiset{x} + multiset(edits)
  {
    if edits == [] || EditLeq(x, edits[0]) then [x] + edits
    else
      assert edits == [edits[0]] + edits[1..];
      [edits[0]] + Insert(x, edits[1..])
  }

  function Sorted(edits: seq<Edit>): (r: seq<Edit>)
    ensures multiset(r) == multiset(edits)
  {
    if edits == [] then []
    else
      assert edits == [edits[0]] + edits[1..];
      Insert(edits[0], Sorted(edits[1..]))
  }

  // A slice as Python takes it: clamped, and empty when it runs backwards.
  function Slice(t: string, a: nat, b: nat): string {
    var stop := if b <= |t| then b else |t|;
    if a < stop then t[a..stop] else []
  }

  // The pieces of the text between the edits, with the edits' texts.
  function Splice(t: string, at: nat, edits: seq<Edit>): string
    decreases |edits|
  {
    if edits == [] then Slice(t, at, |t|)
    else Slice(t, at, edits[0].start) + edits[0].text + Splice(t, edits[0].end, edits[1..])
  }

  function Rewrite(t: string, edits: seq<Edit>): string {
    Splice(t, 0, Sorted(edits))
  }

  // Each span replaced by its own new text.
  function Edits(xs: seq<Span>, texts: seq<string>): (edits: seq<Edit>)
    requires |texts| == |xs|
    ensures |edits| == |xs|
  {
    seq(|xs|, i requires 0 <= i < |xs| => Edit(xs[i].start, xs[i].end, texts[i]))
  }

  lemma {:induction false} SortedStays(edits: seq<Edit>)
    requires forall i, j :: 0 <= i < j < |edits| ==> edits[i].start < edits[j].start
    ensures Sorted(edits) == edits
  {
    if edits != [] { SortedStays(edits[1..]); }
  }

  lemma {:induction false} SpliceCut(
      t: string, at: nat, xs: seq<Span>, gaps: seq<string>, texts: seq<string>, news: seq<string>)
    requires Cut(t, at, xs, gaps, texts) && |news| == |xs|
    ensures Splice(t, at, Edits(xs, news)) == Weave(gaps, news)
    decreases |xs|
  {
    if xs != [] {
      assert Edits(xs, news)[1..] == Edits(xs[1..], news[1..]);
      SpliceCut(t, xs[0].end, xs[1..], gaps[1..], texts[1..], news[1..]);
    }
  }

  // Rewriting spans keeps every byte outside them, in place between them.
  lemma {:induction false} RewriteCut(t: string, xs: seq<Span>, gaps: seq<string>, texts: seq<string>, news: seq<string>)
    requires Cut(t, 0, xs, gaps, texts) && Ordered(xs, -1, |t|) && |news| == |xs|
    ensures Rewrite(t, Edits(xs, news)) == Weave(gaps, news)
  {
    SortedStays(Edits(xs, news));
    SpliceCut(t, 0, xs, gaps, texts, news);
  }

  // -------------------------------------------------------------- redaction

  const REDACTED: string := "[redacted]"

  function Quoted(): (q: string)
    ensures |q| == 12
  {
    [DOUBLE_QUOTE] + REDACTED + [DOUBLE_QUOTE]
  }

  function Repeat(s: string, n: nat): (r: seq<string>)
    ensures |r| == n
  {
    seq(n, i => s)
  }

  function Hidden(d: Decoder, t: string): string {
    Rewrite(t, Edits(Spans(d, t), Repeat(Quoted(), |Spans(d, t)|)))
  }

  lemma {:induction false} PlainString(t: string, p: nat, e: nat)
    requires p <= e < |t| && t[e] == DOUBLE_QUOTE
    requires forall i :: p <= i < e ==> t[i] != DOUBLE_QUOTE && t[i] != BACKSLASH && In(t[i], InLine)
    ensures ShortString(t, p, DOUBLE_QUOTE) == Some(e + 1)
    decreases e - p
  {
    if p < e { PlainString(t, p + 1, e); }
  }

  // The placeholder is a complete value wherever it stands.
  lemma {:induction false} PlaceholderEnds(d: Decoder, u: string, s: nat, path: Path)
    requires s + 12 <= |u| && u[s..s + 12] == Quoted()
    ensures Value(d, u, s, path).end == Some(s + 12)
    ensures u[s] == DOUBLE_QUOTE
  {
    forall i | 0 <= i < 12 ensures u[s + i] == Quoted()[i] {
      assert u[s..s + 12][i] == u[s + i];
    }
    forall i | s + 1 <= i < s + 11 ensures u[i] != DOUBLE_QUOTE && u[i] != BACKSLASH && In(u[i], InLine) {
      assert u[s + (i - s)] == Quoted()[i - s];
      assert Quoted()[i - s] == REDACTED[i - s - 1];
    }
    assert u[s + 0] == DOUBLE_QUOTE && u[s + 11] == DOUBLE_QUOTE;
    assert u[s + 1] == '[';
    PlainString(u, s + 1, s + 11);
  }

  ghost predicate SamePaths(xs: seq<Span>, ys: seq<Span>) {
    |ys| == |xs| && forall i :: 0 <= i < |xs| ==> ys[i].path == xs[i].path
  }

  // The texts of `t`'s spans with the placeholder from span `k` on.
  function HiddenFrom(texts: seq<string>, k: nat): (r: seq<string>)
    requires k <= |texts|
    ensures |r| == |texts|
  {
    texts[..k] + Repeat(Quoted(), |texts| - k)
  }

  // One more span, counted from the last, swapped for the placeholder.
  lemma {:induction false} HideOne(d: Decoder, v: string, zs: seq<Span>, gaps: seq<string>, texts: seq<string>, k: nat)
    returns (u: string, ys: seq<Span>)
    requires zs == Spans(d, v) && Cut(v, 0, zs, gaps, texts) && k < |zs|
    ensures ys == Spans(d, u) && SamePaths(zs, ys) && ys[..k] == zs[..k]
    ensures Cut(u, 0, ys, gaps, texts[k := Quoted()])
  {
    hide Spans, Cut, Quoted;
    SpansInOrder(d, v);
    var s, e := zs[k].start, zs[k].end;
    var dx: int := 12 - (e - s);
    u := v[..s] + Quoted() + v[e..];
    assert u[s..e + dx] == Quoted();
    forall path ensures Value(d, u, s, path).end == Some(e + dx) {
      PlaceholderEnds(d, u, s, path);
    }
    PlaceholderEnds(d, u, s, []);
    assert Swapped(d, v, u, s, e, dx);
    SpansSwap(d, v, u, s, e, dx);
    ys := Spans(d, u);
    CutSwap(v, u, dx, 0, zs, ys, gaps, texts, k, Quoted());
    forall i | 0 <= i < k ensures ys[i] == zs[i] {
      assert zs[i].end < s;
    }
  }

  // Swapping spans for the placeholder from the last one back to span `k`.
  lemma {:induction false} HideFrom(d: Decoder, t: string, xs: seq<Span>, gaps: seq<string>, texts: seq<string>, k: nat)
    returns (u: string, ys: seq<Span>)
    requires xs == Spans(d, t) && Cut(t, 0, xs, gaps, texts) && k <= |xs|
    ensures ys == Spans(d, u) && SamePaths(xs, ys) && ys[..k] == xs[..k]
    ensures Cut(u, 0, ys, gaps, HiddenFrom(texts, k))
    decreases |xs| - k
  {
    hide Spans, Quoted;
    if k == |xs| {
      u, ys := t, xs;
      assert HiddenFrom(texts, k) == texts;
    } else {
      var v, zs := HideFrom(d, t, xs, gaps, texts, k + 1);
      u, ys := HideOne(d, v, zs, gaps, HiddenFrom(texts, k + 1), k);
      assert HiddenFrom(texts, k + 1)[k := Quoted()] == HiddenFrom(texts, k);
      assert zs[..k] == zs[..k + 1][..k] == xs[..k];
    }
  }

  // Rescanning a redacted text finds the same paths in the same order, each
  // holding the placeholder, between the same gaps.
  lemma {:induction false} HiddenScan(d: Decoder, t: string) returns (gaps: seq<string>)
    ensures Ordered(Spans(d, t), -1, |t|)
    ensures Cut(t, 0, Spans(d, t), gaps, Texts(t, Spans(d, t)))
    ensures SamePaths(Spans(d, t), Spans(d, Hidden(d, t)))
    ensures Cut(Hidden(d, t), 0, Spans(d, Hidden(d, t)), gaps, Repeat(Quoted(), |Spans(d, t)|))
  {
    hide Spans, Quoted, Cut, Weave, Splice, Sorted;
    var xs := Spans(d, t);
    SpansInOrder(d, t);
    gaps := Gaps(t, 0, xs);
    CutAlong(t, 0, xs);
    var u, ys := HideFrom(d, t, xs, gaps, Texts(t, xs), 0);
    var quotes := Repeat(Quoted(), |xs|);
    assert HiddenFrom(Texts(t, xs), 0) == quotes;
    CutWeave(u, 0, ys, gaps, quotes);
    RewriteCut(t, xs, gaps, Texts(t, xs), quotes);
    assert u == u[0..];
  }

  // Redacting twice is redacting once.
  lemma {:induction false} RedactingTwice(d: Decoder, t: string)
    ensures Hidden(d, Hidden(d, t)) == Hidden(d, t)
  {
    var gaps := HiddenScan(d, t);
    var u := Hidden(d, t);
    var quotes := Repeat(Quoted(), |Spans(d, t)|);
    SpansInOrder(d, u);
    RewriteCut(u, Spans(d, u), gaps, quotes, quotes);
    CutWeave(u, 0, Spans(d, u), gaps, quotes);
    assert u == u[0..];
  }

  // ------------------------------------------------------------ restoration

  // What each path holds; a later span of a path replaces an earlier one.
  function Held(t: string, xs: seq<Span>): map<Path, string>
    requires forall i :: 0 <= i < |xs| ==> xs[i].start <= xs[i].end <= |t|
  {
    if xs == [] then map[]
    else
      var last := xs[|xs| - 1];
      Held(t, xs[..|xs| - 1])[last.path := t[last.start..last.end]]
  }

  // The spans that hold the placeholder.
  function Marked(d: Decoder, t: string, xs: seq<Span>): (r: seq<Span>)
    requires forall i :: 0 <= i < |xs| ==> xs[i].start <= xs[i].end <= |t|
    ensures forall x :: x in r ==> x in xs
  {
    if xs == [] then []
    else
      var rest := Marked(d, t, xs[1..]);
      if d(t[xs[0].start..xs[0].end]) == Some(REDACTED) then [xs[0]] + rest else rest
  }

  function NotHeld(xs: seq<Span>, held: map<Path, string>): (r: seq<Path>)
    ensures r == [] ==> forall x :: x in xs ==> x.path in held
  {
    if xs == [] then []
    else (if xs[0].path in held then [] else [xs[0].path]) + NotHeld(xs[1..], held)
  }

  datatype Restored = Whole(text: string) | Missing(paths: seq<Path>)

  function Restore(d: Decoder, text: string, current: string): Restored {
    SpansInOrder(d, text);
    SpansInOrder(d, current);
    var held := Held(current, Spans(d, current));
    var marked := Marked(d, text, Spans(d, text));
    var missing := NotHeld(marked, held);
    if missing != [] then Missing(missing)
    else Whole(Rewrite(text, Edits(marked, HeldTexts(marked, held))))
  }

  function HeldTexts(xs: seq<Span>, held: map<Path, string>): (texts: seq<string>)
    requires forall x :: x in xs ==> x.path in held
    ensures |texts| == |xs|
    ensures forall i :: 0 <= i < |xs| ==> texts[i] == held[xs[i].path]
  {
    seq(|xs|, i requires 0 <= i < |xs| => held[xs[i].path])
  }

  lemma {:induction false} AllMarked(d: Decoder, t: string, at: nat, xs: seq<Span>, gaps: seq<string>)
    requires d(Quoted()) == Some(REDACTED)
    requires forall i :: 0 <= i < |xs| ==> xs[i].start <= xs[i].end <= |t|
    requires Cut(t, at, xs, gaps, Repeat(Quoted(), |xs|))
    ensures Marked(d, t, xs) == xs
    decreases |xs|
  {
    if xs != [] {
      assert Repeat(Quoted(), |xs|)[1..] == Repeat(Quoted(), |xs| - 1);
      AllMarked(d, t, xs[0].end, xs[1..], gaps[1..]);
    }
  }

  lemma {:induction false} HeldLast(t: string, xs: seq<Span>, i: nat)
    requires forall j :: 0 <= j < |xs| ==> xs[j].start <= xs[j].end <= |t|
    requires i < |xs|
    ensures xs[i].path in Held(t, xs)
    ensures exists j :: i <= j < |xs| && xs[j].path == xs[i].path
                        && Held(t, xs)[xs[i].path] == t[xs[j].start..xs[j].end]
  {
    var n := |xs| - 1;
    if xs[n].path == xs[i].path {
      assert Held(t, xs)[xs[i].path] == t[xs[n].start..xs[n].end];
    } else {
      HeldLast(t, xs[..n], i);
      var j :| i <= j < n && xs[..n][j].path == xs[i].path
               && Held(t, xs[..n])[xs[i].path] == t[xs[..n][j].start..xs[..n][j].end];
      assert xs[j].path == xs[i].path && Held(t, xs)[xs[i].path] == t[xs[j].start..xs[j].end];
    }
  }

  // A text whose spans all hold the placeholder gets each path's value back.
  lemma {:induction false} RestoreMarked(d: Decoder, text: string, current: string)
    requires Ordered(Spans(d, text), -1, |text|) && Ordered(Spans(d, current), -1, |current|)
    requires Marked(d, text, Spans(d, text)) == Spans(d, text)
    requires forall x :: x in Spans(d, text) ==> x.path in Held(current, Spans(d, current))
    ensures Restore(d, text, current) == Whole(Rewrite(text,
              Edits(Spans(d, text), HeldTexts(Spans(d, text), Held(current, Spans(d, current))))))
  {
    hide Spans, Rewrite, Held, Marked, Edits, HeldTexts;
    NoneMissing(Spans(d, text), Held(current, Spans(d, current)));
  }

  // For every text: restoring its redaction against it gives the text with
  // each span's value replaced by the last value its path has.
  lemma {:induction false} RestoreOfHidden(d: Decoder, t: string)
    requires d(Quoted()) == Some(REDACTED)
    ensures Ordered(Spans(d, t), -1, |t|)
    ensures forall x :: x in Spans(d, t) ==> x.path in Held(t, Spans(d, t))
    ensures Restore(d, Hidden(d, t), t)
            == Whole(Rewrite(t, Edits(Spans(d, t), HeldTexts(Spans(d, t), Held(t, Spans(d, t))))))
  {
    hide Spans, Cut, Quoted, Rewrite, Hidden, Held, Restore, Marked, Weave;
    var gaps := HiddenScan(d, t);
    var u := Hidden(d, t);
    var xs, ys := Spans(d, t), Spans(d, u);
    SpansInOrder(d, u);
    var held := Held(t, xs);
    forall i | 0 <= i < |xs| ensures xs[i].path in held && ys[i].path in held { HeldLast(t, xs, i); }
    AllMarked(d, u, 0, ys, gaps);
    RestoreMarked(d, u, t);
    assert HeldTexts(ys, held) == HeldTexts(xs, held);
    RewriteCut(u, ys, gaps, Repeat(Quoted(), |xs|), HeldTexts(xs, held));
    RewriteCut(t, xs, gaps, Texts(t, xs), HeldTexts(xs, held));
  }

  lemma {:induction false} NoneMissing(xs: seq<Span>, held: map<Path, string>)
    requires forall x :: x in xs ==> x.path in held
    ensures NotHeld(xs, held) == []
  {
    if xs != [] { NoneMissing(xs[1..], held); }
  }

  // Two spans of one path hold the same bytes.
  ghost predicate PathsAgree(t: string, xs: seq<Span>) {
    forall i, j :: 0 <= i < |xs| && 0 <= j < |xs| && xs[i].path == xs[j].path ==>
      Slice(t, xs[i].start, xs[i].end) == Slice(t, xs[j].start, xs[j].end)
  }

  lemma {:induction false} HeldAgree(t: string, xs: seq<Span>)
    requires PathsAgree(t, xs) && Ordered(xs, -1, |t|)
    ensures forall i :: 0 <= i < |xs| ==>
      xs[i].path in Held(t, xs) && Held(t, xs)[xs[i].path] == t[xs[i].start..xs[i].end]
  {
    forall i | 0 <= i < |xs|
      ensures xs[i].path in Held(t, xs) && Held(t, xs)[xs[i].path] == t[xs[i].start..xs[i].end]
    {
      HeldLast(t, xs, i);
      var j :| i <= j < |xs| && xs[j].path == xs[i].path
               && Held(t, xs)[xs[i].path] == t[xs[j].start..xs[j].end];
      assert Slice(t, xs[i].start, xs[i].end) == Slice(t, xs[j].start, xs[j].end);
    }
  }

  // The round trip: a text whose secret paths agree where they repeat comes
  // back exactly.
  lemma {:induction false} RestoreUndoesHiding(d: Decoder, t: string)
    requires d(Quoted()) == Some(REDACTED)
    requires PathsAgree(t, Spans(d, t))
    ensures Restore(d, Hidden(d, t), t) == Whole(t)
  {
    hide Spans, Quoted, Hidden, Rewrite, Restore, PathsAgree, Cut, Weave, Gaps, Held;
    RestoreOfHidden(d, t);
    var xs := Spans(d, t);
    var held := Held(t, xs);
    HeldAgree(t, xs);
    forall i | 0 <= i < |xs| ensures HeldTexts(xs, held)[i] == Texts(t, xs)[i] {
      assert held[xs[i].path] == t[xs[i].start..xs[i].end];
    }
    assert HeldTexts(xs, held) == Texts(t, xs);
    CutAlong(t, 0, xs);
    RewriteCut(t, xs, Gaps(t, 0, xs), Texts(t, xs), Texts(t, xs));
    CutWeave(t, 0, xs, Gaps(t, 0, xs), Texts(t, xs));
    assert t == t[0..];
  }

  // ------------------------------------------------------ the guarded redact

  // What the TOML library answers: the string a fragment spells, and the
  // secret leaves of the document a text parses to, `None` for a leaf that is
  // not a string.
  datatype Toml = Toml(decode: Decoder, leaves: string -> Option<map<Path, Option<string>>>)

  datatype Redacted = Served(text: string) | Unparsable | Readable

  predicate Gone(path: Path, leaves: map<Path, Option<string>>) {
    exists n :: 0 < n <= |path| && path[..n] in leaves && leaves[path[..n]] == Some(REDACTED)
  }

  function RedactText(toml: Toml, t: string): Redacted {
    var redacted := Hidden(toml.decode, t);
    match toml.leaves(t)
    case None => Served(redacted)
    case Some(before) =>
      match toml.leaves(redacted)
      case None => Unparsable
      case Some(after) =>
        if forall path :: path in before ==> Gone(path, after) then Served(redacted) else Readable
  }

  ghost predicate DistinctPaths(xs: seq<Span>) {
    forall i, j :: 0 <= i < j < |xs| ==> xs[i].path != xs[j].path
  }

  // Whatever `redact` serves, `restore` against the original undoes, when the
  // secret paths are distinct.
  lemma {:induction false} RestoreUndoesRedact(toml: Toml, t: string)
    requires toml.decode(Quoted()) == Some(REDACTED)
    requires DistinctPaths(Spans(toml.decode, t))
    ensures RedactText(toml, t).Served? ==> Restore(toml.decode, RedactText(toml, t).text, t) == Whole(t)
  {
    hide Spans, Hidden, Restore, Gone, Quoted, Slice;
    RestoreUndoesHiding(toml.decode, t);
  }
}

// What `redact` and `restore` answer for any text at all (holophyte/redact.py).

module Restoring {
  import opened TomlScan
  import opened TomlScanOrder
  import opened Redact

  // ------------------------------------------------------------- redaction

  // The redaction is served exactly when the text does not parse, or its redaction
  // does and hides each of its secret leaves, at the leaf or above it.  One that no
  // longer parses, or still shows a secret, is refused.
  lemma RedactedExactly(toml: Toml, t: string)
    ensures var u := Hidden(toml.decode, t);
            var before, after := toml.leaves(t), toml.leaves(u);
            && (RedactText(toml, t) == Served(u) <==>
                  || before.None?
                  || (after.Some?
                      && forall path :: path in before.value ==>
                           exists n :: 0 < n <= |path| && path[..n] in after.value
                                       && after.value[path[..n]] == Some("[redacted]")))
            && (RedactText(toml, t) == Unparsable <==> before.Some? && after.None?)
            && (RedactText(toml, t).Served? ==> RedactText(toml, t).text == u)
  {
    hide Hidden;
    var u := Hidden(toml.decode, t);
    var before, after := toml.leaves(t), toml.leaves(u);
    if before.Some? && after.Some? {
      forall path | path in before.value
        ensures Gone(path, after.value) <==>
                  exists n :: 0 < n <= |path| && path[..n] in after.value && after.value[path[..n]] == Some("[redacted]")
      {
      }
    }
  }

  // ----------------------------------------------------------- restoration

  // The value of a span spells the placeholder.
  predicate Placeholder(d: Decoder, t: string, x: Span) {
    x.start <= x.end <= |t| && d(t[x.start..x.end]) == Some("[redacted]")
  }

  // The value of span j is the last one the current file has under a path.
  predicate LastAt(t: string, xs: seq<Span>, path: Path, value: string, j: nat) {
    && j < |xs| && xs[j].path == path && xs[j].start <= xs[j].end <= |t|
    && value == t[xs[j].start..xs[j].end] && forall k :: j < k < |xs| ==> xs[k].path != path
  }

  ghost predicate LastHeld(t: string, xs: seq<Span>, path: Path, value: string) {
    exists j: nat :: LastAt(t, xs, path, value, j)
  }

  predicate AnyAt(xs: seq<Span>, path: Path) {
    exists j :: 0 <= j < |xs| && xs[j].path == path
  }

  lemma {:induction false} HeldIs(t: string, xs: seq<Span>, path: Path)
    requires forall j :: 0 <= j < |xs| ==> xs[j].start <= xs[j].end <= |t|
    ensures path in Held(t, xs) <==> AnyAt(xs, path)
    ensures path in Held(t, xs) ==> LastHeld(t, xs, path, Held(t, xs)[path])
  {
    hide LastAt, AnyAt;
    if xs == [] {
      NoneAt(xs, path);
    } else {
      var n := |xs| - 1;
      HeldIs(t, xs[..n], path);
      AnyAtLast(xs, path);
      if xs[n].path == path {
        LastAtEnd(t, xs, path);
      } else if path in Held(t, xs) {
        var j: nat :| LastAt(t, xs[..n], path, Held(t, xs)[path], j);
        LastAtNext(t, xs, path, Held(t, xs)[path], j);
      }
    }
  }

  lemma NoneAt(xs: seq<Span>, path: Path)
    ensures xs == [] ==> !AnyAt(xs, path)
  {
  }

  lemma AnyAtLast(xs: seq<Span>, path: Path)
    requires xs != []
    ensures AnyAt(xs, path) <==> xs[|xs| - 1].path == path || AnyAt(xs[..|xs| - 1], path)
  {
    var front := xs[..|xs| - 1];
    assert forall j :: 0 <= j < |front| ==> front[j] == xs[j];
    if AnyAt(front, path) {
      var j :| 0 <= j < |front| && front[j].path == path;
      assert xs[j].path == path;
    }
    if xs[|xs| - 1].path != path && AnyAt(xs, path) {
      var j :| 0 <= j < |xs| && xs[j].path == path;
      assert front[j].path == path;
    }
  }

  lemma LastAtEnd(t: string, xs: seq<Span>, path: Path)
    requires xs != [] && xs[|xs| - 1].path == path && xs[|xs| - 1].start <= xs[|xs| - 1].end <= |t|
    ensures LastAt(t, xs, path, t[xs[|xs| - 1].start..xs[|xs| - 1].end], |xs| - 1)
  {
  }

  lemma LastAtNext(t: string, xs: seq<Span>, path: Path, value: string, j: nat)
    requires xs != [] && xs[|xs| - 1].path != path && LastAt(t, xs[..|xs| - 1], path, value, j)
    ensures LastAt(t, xs, path, value, j)
  {
    assert forall k :: 0 <= k < |xs| - 1 ==> xs[..|xs| - 1][k] == xs[k];
  }

  // The paths of the placeholders the current file has nothing for, in order.
  function Lacking(d: Decoder, t: string, xs: seq<Span>, held: map<Path, string>): seq<Path> {
    if xs == [] then []
    else (if Placeholder(d, t, xs[0]) && xs[0].path !in held then [xs[0].path] else [])
         + Lacking(d, t, xs[1..], held)
  }

  lemma {:induction false} LackingIs(d: Decoder, t: string, xs: seq<Span>, held: map<Path, string>)
    requires forall j :: 0 <= j < |xs| ==> xs[j].start <= xs[j].end <= |t|
    ensures NotHeld(Marked(d, t, xs), held) == Lacking(d, t, xs, held)
  {
    if xs != [] {
      LackingIs(d, t, xs[1..], held);
      var rest := Marked(d, t, xs[1..]);
      if Placeholder(d, t, xs[0]) {
        assert ([xs[0]] + rest)[1..] == rest;
      }
    }
  }

  lemma {:induction false} NoneLacking(d: Decoder, t: string, xs: seq<Span>, held: map<Path, string>)
    ensures Lacking(d, t, xs, held) == [] <==>
              forall i :: 0 <= i < |xs| && Placeholder(d, t, xs[i]) ==> xs[i].path in held
  {
    if xs != [] {
      NoneLacking(d, t, xs[1..], held);
      var mine := if Placeholder(d, t, xs[0]) && xs[0].path !in held then [xs[0].path] else [];
      assert Lacking(d, t, xs, held) == mine + Lacking(d, t, xs[1..], held);
      assert forall i :: 0 <= i < |xs[1..]| ==> xs[1..][i] == xs[i + 1];
      assert forall i :: 0 < i < |xs| ==> xs[i] == xs[1..][i - 1];
    }
  }

  // Each span's text after the restoration.
  function Restorations(d: Decoder, t: string, xs: seq<Span>, texts: seq<string>, held: map<Path, string>): (r: seq<string>)
    requires |texts| == |xs|
    ensures |r| == |xs|
  {
    seq(|xs|, i requires 0 <= i < |xs| =>
      if Placeholder(d, t, xs[i]) && xs[i].path in held then held[xs[i].path] else texts[i])
  }

  // Splicing in some spans' new texts leaves the others their own.
  lemma {:induction false} SpliceMarked(
      d: Decoder, t: string, at: nat, xs: seq<Span>, gaps: seq<string>, texts: seq<string>, held: map<Path, string>, k: nat)
    requires k <= at <= |t| && Cut(t, at, xs, gaps, texts)
    requires forall j :: 0 <= j < |xs| ==> xs[j].start <= xs[j].end <= |t|
    requires forall x :: x in Marked(d, t, xs) ==> x.path in held
    ensures var m := Marked(d, t, xs);
            Splice(t, k, Edits(m, HeldTexts(m, held))) == t[k..at] + Weave(gaps, Restorations(d, t, xs, texts, held))
    decreases |xs|
  {
    hide Weave, Edits, HeldTexts, Restorations, Splice;
    var m, news := Marked(d, t, xs), Restorations(d, t, xs, texts, held);
    if xs == [] {
      WeaveOne(gaps, news);
      SpliceNone(t, k, m, held);
      assert t[k..] == t[k..at] + t[at..];
    } else {
      var x, rest := xs[0], Marked(d, t, xs[1..]);
      WeaveNext(gaps, news);
      RestorationsNext(d, t, xs, texts, held);
      if Placeholder(d, t, x) {
        assert x in m && m[1..] == rest;
        SpliceNext(t, k, m, held);
        SpliceMarked(d, t, x.end, xs[1..], gaps[1..], texts[1..], held, x.end);
        SpliceFirst(t, k, at, x.start, gaps[0], held[x.path], Weave(gaps[1..], news[1..]));
      } else {
        assert m == rest;
        SpliceMarked(d, t, x.end, xs[1..], gaps[1..], texts[1..], held, k);
        PassOver(t, k, at, x, gaps[0], texts[0], Weave(gaps[1..], news[1..]));
      }
    }
  }

  lemma SpliceNone(t: string, k: nat, m: seq<Span>, held: map<Path, string>)
    requires m == [] && k <= |t|
    ensures Splice(t, k, Edits(m, HeldTexts(m, held))) == t[k..]
  {
  }

  lemma SpliceNext(t: string, k: nat, m: seq<Span>, held: map<Path, string>)
    requires m != [] && forall x :: x in m ==> x.path in held
    ensures Splice(t, k, Edits(m, HeldTexts(m, held)))
         == Slice(t, k, m[0].start) + held[m[0].path] + Splice(t, m[0].end, Edits(m[1..], HeldTexts(m[1..], held)))
  {
    assert Edits(m, HeldTexts(m, held))[1..] == Edits(m[1..], HeldTexts(m[1..], held));
  }

  lemma WeaveOne(gaps: seq<string>, news: seq<string>)
    requires |gaps| == 1 && news == []
    ensures Weave(gaps, news) == gaps[0]
  {
  }

  lemma WeaveNext(gaps: seq<string>, news: seq<string>)
    requires |gaps| == |news| + 1
    ensures news != [] ==> Weave(gaps, news) == gaps[0] + news[0] + Weave(gaps[1..], news[1..])
  {
  }

  lemma RestorationsNext(d: Decoder, t: string, xs: seq<Span>, texts: seq<string>, held: map<Path, string>)
    requires |texts| == |xs| && xs != []
    ensures var news := Restorations(d, t, xs, texts, held);
            && news[0] == (if Placeholder(d, t, xs[0]) && xs[0].path in held then held[xs[0].path] else texts[0])
            && news[1..] == Restorations(d, t, xs[1..], texts[1..], held)
  {
  }

  lemma SpliceFirst(t: string, k: nat, at: nat, start: nat, gap: string, text: string, rest: string)
    requires k <= at <= start <= |t| && t[at..start] == gap
    ensures Slice(t, k, start) + text + rest == t[k..at] + (gap + text + rest)
  {
    assert t[k..start] == t[k..at] + t[at..start];
  }

  lemma PassOver(t: string, k: nat, at: nat, x: Span, gap: string, text: string, rest: string)
    requires k <= at <= x.start <= x.end <= |t| && t[at..x.start] == gap && t[x.start..x.end] == text
    ensures t[k..x.end] + rest == t[k..at] + (gap + text + rest)
  {
    assert t[k..x.end] == t[k..at] + t[at..x.start] + t[x.start..x.end];
  }

  // For any two texts: restoring is refused exactly when some placeholder stands
  // under a path the current text has nothing for, naming those paths in order.
  // Otherwise each placeholder becomes the last value its path has there, and the
  // rest of the text stays as it is, byte for byte.
  lemma RestoredExactly(d: Decoder, text: string, current: string)
    returns (gaps: seq<string>, news: seq<string>)
    ensures |gaps| == |news| + 1 == |Spans(d, text)| + 1
    ensures forall i :: 0 <= i < |Spans(d, text)| ==> Spans(d, text)[i].start <= Spans(d, text)[i].end <= |text|
    ensures var xs, r := Spans(d, text), Restore(d, text, current);
            && Cut(text, 0, xs, gaps, Texts(text, xs))
            && (r.Whole? <==> forall i :: 0 <= i < |xs| && Placeholder(d, text, xs[i]) ==> AnyAt(Spans(d, current), xs[i].path))
            && (r.Whole? ==>
                  && r == Whole(Weave(gaps, news))
                  && forall i :: 0 <= i < |xs| ==>
                       if Placeholder(d, text, xs[i]) then LastHeld(current, Spans(d, current), xs[i].path, news[i])
                       else news[i] == text[xs[i].start..xs[i].end])
            && (r.Missing? ==>
                  exists held: map<Path, string> ::
                    (forall path :: path in held <==> AnyAt(Spans(d, current), path)) && r == Missing(Lacking(d, text, xs, held)))
  {
    hide Spans, Held, Marked, Cut, Weave, Lacking, Splice, LastHeld, AnyAt, Placeholder;
    SpansInOrder(d, text);
    SpansInOrder(d, current);
    var xs, ys := Spans(d, text), Spans(d, current);
    var held := Held(current, ys);
    gaps := Gaps(text, 0, xs);
    news := Restorations(d, text, xs, Texts(text, xs), held);
    CutAlong(text, 0, xs);
    AllHeld(current, ys);
    LackingIs(d, text, xs, held);
    NoneLacking(d, text, xs, held);
    var m := Marked(d, text, xs);
    if NotHeld(m, held) == [] {
      MarkedOrdered(d, text, xs);
      SpliceMarked(d, text, 0, xs, gaps, Texts(text, xs), held, 0);
      SortedMarked(m, held);
      assert text[0..0] + Weave(gaps, news) == Weave(gaps, news);
    }
  }

  predicate Ascending(xs: seq<Span>) {
    forall i, j :: 0 <= i < j < |xs| ==> xs[i].start < xs[j].start
  }

  lemma AllHeld(t: string, xs: seq<Span>)
    requires forall j :: 0 <= j < |xs| ==> xs[j].start <= xs[j].end <= |t|
    ensures forall path :: path in Held(t, xs) <==> AnyAt(xs, path)
    ensures forall path :: path in Held(t, xs) ==> LastHeld(t, xs, path, Held(t, xs)[path])
  {
    forall path ensures (path in Held(t, xs) <==> AnyAt(xs, path)) && (path in Held(t, xs) ==> LastHeld(t, xs, path, Held(t, xs)[path])) {
      HeldIs(t, xs, path);
    }
  }

  lemma {:induction false} MarkedOrdered(d: Decoder, t: string, xs: seq<Span>)
    requires forall j :: 0 <= j < |xs| ==> xs[j].start <= xs[j].end <= |t|
    requires Ascending(xs)
    ensures Ascending(Marked(d, t, xs))
  {
    if xs != [] {
      MarkedOrdered(d, t, xs[1..]);
      var m, rest := Marked(d, t, xs), Marked(d, t, xs[1..]);
      forall i | 0 <= i < |rest| ensures xs[0].start < rest[i].start {
        assert rest[i] in xs[1..];
        var j :| 0 <= j < |xs[1..]| && xs[1..][j] == rest[i];
        assert xs[j + 1] == rest[i];
      }
      assert m == rest || m == [xs[0]] + rest;
      assert Ascending(rest);
      forall i, j | 0 <= i < j < |m| ensures m[i].start < m[j].start {
        if m == rest {
          assert rest[i].start < rest[j].start;
        } else if i == 0 {
          assert m[j] == rest[j - 1];
        } else {
          assert rest[i - 1].start < rest[j - 1].start;
        }
      }
    }
  }

  lemma SortedMarked(m: seq<Span>, held: map<Path, string>)
    requires Ascending(m)
    requires forall x :: x in m ==> x.path in held
    ensures Sorted(Edits(m, HeldTexts(m, held))) == Edits(m, HeldTexts(m, held))
  {
    SortedStays(Edits(m, HeldTexts(m, held)));
  }
}

// The scanner and the rewriter of holophyte/redact.py as they run: loops that
// advance a position, and lists that the callers share.  Each method computes
// the function of the same name in TomlScan and Redact.

module TomlScanner {
  import opened TomlScan
  import Redact
  import Order = TomlScanOrder

  // The list `found` that the scan appends to.
  class Found {
    var items: seq<Span>

    constructor ()
      ensures items == []
    {
      items := [];
    }
  }

  ghost function Items(found: Found?): seq<Span>
    reads found
  {
    if found == null then [] else found.items
  }

  method SkipRun(t: string, p: nat, k: CharClass) returns (pos: nat)
    requires p <= |t|
    ensures pos == Skip(t, p, k)
  {
    pos := p;
    while pos < |t| && In(t[pos], k)
      invariant p <= pos <= |t|
      invariant Skip(t, pos, k) == Skip(t, p, k)
    {
      pos := pos + 1;
    }
  }

  method ScanLongString(t: string, p: nat, q: char) returns (r: Option<nat>)
    ensures r == LongString(t, p, q)
  {
    var pos := p;
    while pos < |t|
      invariant LongString(t, pos, q) == LongString(t, p, q)
      decreases |t| - pos
    {
      if Escapes(t, pos, q) {
        pos := pos + 2;
        continue;
      }
      if TripleAt(t, pos, q) {
        pos := pos + 3;
        ghost var closed := pos;
        var extra := 0;
        while extra < 2 && pos < |t| && t[pos] == q
          invariant 0 <= extra <= 2 && pos == closed + extra <= |t|
          invariant forall i :: closed <= i < pos ==> t[i] == q
        {
          pos := pos + 1;
          extra := extra + 1;
        }
        return Some(pos);
      }
      pos := pos + 1;
    }
    return None;
  }

  method ScanShortString(t: string, p: nat, q: char) returns (r: Option<nat>)
    ensures r == ShortString(t, p, q)
  {
    var pos := p;
    while pos < |t|
      invariant ShortString(t, pos, q) == ShortString(t, p, q)
      decreases |t| - pos
    {
      if Escapes(t, pos, q) {
        pos := pos + 2;
        continue;
      }
      if t[pos] == q { return Some(pos + 1); }
      if t[pos] == '\r' || t[pos] == '\n' { return None; }
      pos := pos + 1;
    }
    return None;
  }

  method ScanString(t: string, p: nat) returns (r: Option<nat>)
    requires p < |t|
    ensures r == StringEnd(t, p)
  {
    if TripleAt(t, p, t[p]) { r := ScanLongString(t, p + 3, t[p]); }
    else { r := ScanShortString(t, p + 1, t[p]); }
  }

  // A key read on from segments already read.
  ghost function After(segments: Path, r: Option<(Path, nat)>): Option<(Path, nat)> {
    match r
    case None => None
    case Some((rest, e)) => Some((segments + rest, e))
  }

  lemma AfterNothing(r: Option<(Path, nat)>)
    ensures After([], r) == r
  {
    if r.Some? { assert [] + r.value.0 == r.value.0; }
  }

  lemma AfterStep(segments: Path, segment: Segment, r: Option<(Path, nat)>)
    ensures After(segments + [segment], r)
            == After(segments, match r case None => None case Some((rest, e)) => Some(([segment] + rest, e)))
  {
    if r.Some? { assert segments + [segment] + r.value.0 == segments + ([segment] + r.value.0); }
  }

  lemma KeyStep(d: Decoder, t: string, p: nat)
    requires p <= |t|
    ensures Key(d, t, p) ==
            match KeySegment(d, t, SkipWs(t, p))
            case None => None
            case Some((segment, e)) =>
              var after := SkipWs(t, e);
              if after < |t| && t[after] == '.' then
                match Key(d, t, after + 1)
                case None => None
                case Some((rest, e')) => Some(([segment] + rest, e'))
              else Some(([segment], e))
  {
  }

  method ScanSegment(d: Decoder, t: string, p: nat) returns (r: Option<(Segment, nat)>)
    requires p <= |t|
    ensures r == KeySegment(d, t, p)
  {
    if p >= |t| { return None; }
    if IsQuote(t[p]) {
      var end := ScanString(t, p);
      if end.None? { return None; }
      var spelled := d(t[p..end.value]);
      return Some((match spelled case Some(s) => Name(s) case None => Unreadable, end.value));
    }
    var end := SkipRun(t, p, Bare);
    return if end == p then None else Some((Name(t[p..end]), end));
  }

  method ScanKey(d: Decoder, t: string, p: nat) returns (r: Option<(Path, nat)>)
    requires p <= |t|
    ensures r == Key(d, t, p)
  {
    hide Key, KeySegment, After;
    var segments: Path := [];
    var pos := p;
    AfterNothing(Key(d, t, p));
    while true
      invariant pos <= |t|
      invariant Key(d, t, p) == After(segments, Key(d, t, pos))
      decreases |t| - pos
    {
      KeyStep(d, t, pos);
      pos := SkipRun(t, pos, Ws);
      var segment := ScanSegment(d, t, pos);
      if segment.None? { AfterNone(segments); return None; }
      pos := segment.value.1;
      var after := SkipRun(t, pos, Ws);
      if after < |t| && t[after] == '.' {
        AfterStep(segments, segment.value.0, Key(d, t, after + 1));
        segments := segments + [segment.value.0];
        pos := after + 1;
      } else {
        AfterOne(segments, segment.value.0, pos);
        return Some((segments + [segment.value.0], pos));
      }
    }
  }

  lemma AfterNone(segments: Path)
    ensures After(segments, None) == None
  {
  }

  lemma AfterOne(segments: Path, segment: Segment, e: nat)
    ensures After(segments, Some(([segment], e))) == Some((segments + [segment], e))
  {
  }

  method ScanBareScalar(t: string, p: nat) returns (r: Option<nat>)
    requires p <= |t|
    ensures r == BareScalar(t, p)
  {
    var end := SkipRun(t, p, Scalar);
    ghost var stop := end;
    while end > p && In(t[end - 1], Ws)
      invariant p <= end <= stop
      invariant StripEnd(t, p, end) == StripEnd(t, p, stop)
    {
      end := end - 1;
    }
    return if end == p then None else Some(end);
  }

  // `found` is null under a secret value, where spans are not collected.
  method ScanValue(d: Decoder, t: string, p: nat, path: Path, found: Found?) returns (end: Option<nat>)
    requires p <= |t|
    modifies found
    ensures end == Value(d, t, p, path).end
    ensures found != null ==> found.items == old(Items(found)) + Value(d, t, p, path).found
    decreases |t| - p, 0
  {
    if p >= |t| { return None; }
    if IsQuote(t[p]) { end := ScanString(t, p); }
    else if t[p] == '[' { end := ScanArray(d, t, p + 1, path, found); }
    else if t[p] == OPEN_BRACE { end := ScanInlineTable(d, t, p + 1, path, found); }
    else { end := ScanBareScalar(t, p); }
  }

  // What a scan still finds, after `seen`.
  ghost function Onto(seen: seq<Span>, r: Scanned): Scanned {
    Scanned(seen + r.found, r.end)
  }

  lemma OntoNothing(r: Scanned)
    ensures Onto([], r) == r
  {
  }

  lemma OntoFound(seen: seq<Span>, r: Scanned)
    ensures Onto(seen, r).found == seen + r.found && Onto(seen, r).end == r.end
  {
  }

  lemma OntoStep(seen: seq<Span>, v: Scanned, rest: Scanned)
    ensures Onto(seen, Scanned(v.found + rest.found, rest.end)) == Onto(seen + v.found, rest)
  {
    assert seen + (v.found + rest.found) == seen + v.found + rest.found;
  }

  lemma ArrayStep(d: Decoder, t: string, p: nat, path: Path, i: nat, at: nat)
    requires p <= |t| && at == SkipComments(t, SkipBlank(t, p))
    ensures Array(d, t, p, path, i) ==
            if at == |t| then RAISED
            else if t[at] == ']' then Scanned([], Some(at + 1))
            else if t[at] == ',' then Array(d, t, at + 1, path, i)
            else
              var v := Value(d, t, at, path + [Index(i)]);
              if v.end.None? then v
              else
                var rest := Array(d, t, v.end.value, path, i + 1);
                Scanned(v.found + rest.found, rest.end)
  {
  }

  method PassComments(t: string, p: nat) returns (pos: nat)
    requires p <= |t|
    ensures pos == SkipComments(t, p)
  {
    pos := p;
    while pos < |t| && t[pos] == '#'
      invariant p <= pos <= |t| && SkipComments(t, pos) == SkipComments(t, p)
      decreases |t| - pos
    {
      pos := SkipRun(t, pos, InLine);
      pos := SkipRun(t, pos, Blank);
    }
  }

  method PassBlanks(t: string, p: nat) returns (pos: nat)
    requires p <= |t|
    ensures pos == SkipComments(t, SkipBlank(t, p))
  {
    pos := SkipRun(t, p, Blank);
    pos := PassComments(t, pos);
  }

  method ScanArray(d: Decoder, t: string, p: nat, path: Path, found: Found?) returns (end: Option<nat>)
    requires p <= |t|
    modifies found
    ensures end == Array(d, t, p, path, 0).end
    ensures found != null ==> found.items == old(Items(found)) + Array(d, t, p, path, 0).found
    decreases |t| - p, 1
  {
    hide Array, Value, Skip, SkipComments, SkipBlank, Onto;
    var pos := p;
    var index := 0;
    ghost var whole := Array(d, t, p, path, 0);
    ghost var seen: seq<Span> := [];
    OntoNothing(whole);
    while true
      invariant p <= pos <= |t|
      invariant whole == Onto(seen, Array(d, t, pos, path, index))
      invariant found != null ==> found.items == old(Items(found)) + seen
      decreases |t| - pos
    {
      ghost var at := SkipComments(t, SkipBlank(t, pos));
      ArrayStep(d, t, pos, path, index, at);
      OntoFound(seen, Array(d, t, pos, path, index));
      pos := PassBlanks(t, pos);
      if pos >= |t| { return None; }
      if t[pos] == ']' { return Some(pos + 1); }
      if t[pos] == ',' {
        pos := pos + 1;
        continue;
      }
      ghost var v := Value(d, t, pos, path + [Index(index)]);
      end := ScanValue(d, t, pos, path + [Index(index)], found);
      if end.None? { return None; }
      OntoStep(seen, v, Array(d, t, end.value, path, index + 1));
      seen := seen + v.found;
      pos := end.value;
      index := index + 1;
    }
  }

  lemma InlineTableStep(d: Decoder, t: string, p: nat, path: Path, at: nat)
    requires p <= |t| && at == SkipWs(t, p)
    ensures InlineTable(d, t, p, path) ==
            if at == |t| then RAISED
            else if t[at] == CLOSE_BRACE then Scanned([], Some(at + 1))
            else if t[at] == ',' then InlineTable(d, t, at + 1, path)
            else
              var v := Pair(d, t, at, path);
              if v.end.None? then v
              else
                var rest := InlineTable(d, t, v.end.value, path);
                Scanned(v.found + rest.found, rest.end)
  {
  }

  method ScanInlineTable(d: Decoder, t: string, p: nat, path: Path, found: Found?) returns (end: Option<nat>)
    requires p <= |t|
    modifies found
    ensures end == InlineTable(d, t, p, path).end
    ensures found != null ==> found.items == old(Items(found)) + InlineTable(d, t, p, path).found
    decreases |t| - p, 1
  {
    hide InlineTable, Pair, Skip, Onto;
    var pos := p;
    ghost var whole := InlineTable(d, t, p, path);
    ghost var seen: seq<Span> := [];
    OntoNothing(whole);
    while true
      invariant p <= pos <= |t|
      invariant whole == Onto(seen, InlineTable(d, t, pos, path))
      invariant found != null ==> found.items == old(Items(found)) + seen
      decreases |t| - pos
    {
      InlineTableStep(d, t, pos, path, SkipWs(t, pos));
      OntoFound(seen, InlineTable(d, t, pos, path));
      pos := SkipRun(t, pos, Ws);
      if pos >= |t| { return None; }
      if t[pos] == CLOSE_BRACE { return Some(pos + 1); }
      if t[pos] == ',' {
        pos := pos + 1;
        continue;
      }
      ghost var v := Pair(d, t, pos, path);
      if found != null {
        end := ScanPair(d, t, pos, path, found);
      } else {
        var unread := new Found();
        end := ScanPair(d, t, pos, path, unread);
      }
      if end.None? { return None; }
      OntoStep(seen, v, InlineTable(d, t, end.value, path));
      seen := seen + v.found;
      pos := end.value;
    }
  }

  method ScanPair(d: Decoder, t: string, p: nat, prefix: Path, found: Found) returns (end: Option<nat>)
    requires p <= |t|
    modifies found
    ensures end == Pair(d, t, p, prefix).end
    ensures found.items == old(found.items) + Pair(d, t, p, prefix).found
    decreases |t| - p, 0
  {
    hide Key, Value, UnderSecret, Skip;
    var key := ScanKey(d, t, p);
    if key.None? { return None; }
    var pos := SkipRun(t, key.value.1, Ws);
    if pos >= |t| || t[pos] != '=' { return None; }
    pos := SkipRun(t, pos + 1, Ws);
    var path := prefix + key.value.0;
    var secret := UnderSecret(path);
    end := ScanValue(d, t, pos, path, if secret then null else found);
    if end.None? { return None; }
    if secret { found.items := found.items + [Span(path, pos, end.value)]; }
  }

  method NameTable(segments: Path, double: bool, arrays: map<Path, nat>)
    returns (path: Path, counted: map<Path, nat>)
    ensures (path, counted) == HeaderPath(segments, 0, [], double, arrays)
  {
    path, counted := [], arrays;
    for i := 0 to |segments|
      invariant HeaderPath(segments, i, path, double, counted) == HeaderPath(segments, 0, [], double, arrays)
    {
      path := path + [segments[i]];
      if double && i == |segments| - 1 {
        counted := counted[path := if path in counted then counted[path] + 1 else 0];
      }
      if path in counted {
        path := path + [Index(counted[path])];
      }
    }
  }

  method ScanHeader(d: Decoder, t: string, p: nat, arrays: map<Path, nat>)
    returns (r: Option<(Path, map<Path, nat>, nat)>)
    requires p < |t| && t[p] == '['
    ensures r == Header(d, t, p, arrays)
  {
    hide Key, HeaderPath, Skip;
    var double := DoubleAt(t, p, '[');
    var pos := SkipRun(t, if double then p + 2 else p + 1, Ws);
    var key := ScanKey(d, t, pos);
    if key.None? { return None; }
    var table, counted := NameTable(key.value.0, double, arrays);
    pos := SkipRun(t, key.value.1, Ws);
    if double {
      if !DoubleAt(t, pos, ']') { return None; }
      pos := SkipRun(t, pos + 2, InLine);
    } else {
      if pos >= |t| || t[pos] != ']' { return None; }
      pos := SkipRun(t, pos + 1, InLine);
    }
    return Some((table, counted, pos));
  }

  lemma WalkStep(d: Decoder, t: string, p: nat, table: Path, arrays: map<Path, nat>, at: nat)
    requires p <= |t| && at == SkipBlank(t, p)
    ensures Walk(d, t, p, table, arrays) ==
            if at == |t| then Scanned([], Some(at))
            else if t[at] == '#' then Walk(d, t, EndOfLine(t, at), table, arrays)
            else if t[at] == '[' then
              match Header(d, t, at, arrays)
              case None => RAISED
              case Some((table', arrays', e)) => Walk(d, t, e, table', arrays')
            else
              var v := Pair(d, t, at, table);
              if v.end.None? then v
              else
                var rest := Walk(d, t, EndOfLine(t, v.end.value), table, arrays);
                Scanned(v.found + rest.found, rest.end)
  {
  }

  lemma WalkAtEnd(d: Decoder, t: string, table: Path, arrays: map<Path, nat>)
    ensures Walk(d, t, |t|, table, arrays).found == []
  {
  }

  method ScanDocument(d: Decoder, t: string, found: Found)
    modifies found
    ensures found.items == old(found.items) + Spans(d, t)
  {
    hide Walk, Pair, Header, Skip, Onto;
    var pos := 0;
    var table: Path := [];
    var arrays: map<Path, nat> := map[];
    ghost var whole := Walk(d, t, 0, [], map[]);
    ghost var seen: seq<Span> := [];
    OntoNothing(whole);
    while pos < |t|
      invariant pos <= |t|
      invariant whole == Onto(seen, Walk(d, t, pos, table, arrays))
      invariant found.items == old(found.items) + seen
      decreases |t| - pos
    {
      WalkStep(d, t, pos, table, arrays, SkipBlank(t, pos));
      OntoFound(seen, Walk(d, t, pos, table, arrays));
      pos := SkipRun(t, pos, Blank);
      if pos >= |t| { return; }
      if t[pos] == '#' {
        pos := SkipRun(t, pos, InLine);
      } else if t[pos] == '[' {
        var header := ScanHeader(d, t, pos, arrays);
        if header.None? { return; }
        table, arrays, pos := header.value.0, header.value.1, header.value.2;
      } else {
        ghost var v := Pair(d, t, pos, table);
        var end := ScanPair(d, t, pos, table, found);
        if end.None? { return; }
        pos := SkipRun(t, end.value, InLine);
        OntoStep(seen, v, Walk(d, t, pos, table, arrays));
        seen := seen + v.found;
      }
    }
    WalkAtEnd(d, t, table, arrays);
    OntoFound(seen, Walk(d, t, |t|, table, arrays));
  }

  // A scan that raises keeps what it has found.
  method FindSpans(d: Decoder, t: string) returns (spans: seq<Span>)
    ensures spans == Spans(d, t)
  {
    var found := new Found();
    ScanDocument(d, t, found);
    return found.items;
  }

  method RewriteText(t: string, edits: seq<Redact.Edit>) returns (text: string)
    ensures text == Redact.Rewrite(t, edits)
  {
    hide Redact.Sorted, Redact.Slice;
    var sorted := Redact.Sorted(edits);
    text := [];
    var at: nat := 0;
    for i := 0 to |sorted|
      invariant Redact.Rewrite(t, edits) == text + Redact.Splice(t, at, sorted[i..])
    {
      assert sorted[i..][1..] == sorted[i + 1..];
      text := text + Redact.Slice(t, at, sorted[i].start) + sorted[i].text;
      at := sorted[i].end;
    }
    text := text + Redact.Slice(t, at, |t|);
  }

  // The edits that give each held path's span its value back.
  function HeldEdits(xs: seq<Span>, held: map<Path, string>): seq<Redact.Edit> {
    if xs == [] then []
    else (if xs[0].path in held then [Redact.Edit(xs[0].start, xs[0].end, held[xs[0].path])] else [])
         + HeldEdits(xs[1..], held)
  }

  lemma HeldStep(xs: seq<Span>, x: Span, held: map<Path, string>)
    ensures HeldEdits(xs + [x], held) == HeldEdits(xs, held) + HeldEdits([x], held)
    ensures Redact.NotHeld(xs + [x], held) == Redact.NotHeld(xs, held) + Redact.NotHeld([x], held)
  {
    if xs == [] {
      assert [] + [x] == [x];
    } else {
      assert (xs + [x])[1..] == xs[1..] + [x];
      HeldStep(xs[1..], x, held);
    }
  }

  lemma AllHeld(xs: seq<Span>, held: map<Path, string>)
    requires Redact.NotHeld(xs, held) == []
    ensures HeldEdits(xs, held) == Redact.Edits(xs, Redact.HeldTexts(xs, held))
  {
    if xs != [] {
      assert Redact.NotHeld(xs[1..], held) == [];
      AllHeld(xs[1..], held);
    }
  }

  lemma MarkedStep(d: Decoder, t: string, xs: seq<Span>, i: nat)
    requires forall j :: 0 <= j < |xs| ==> xs[j].start <= xs[j].end <= |t|
    requires i < |xs|
    ensures Redact.Marked(d, t, xs[i..])
            == (if d(t[xs[i].start..xs[i].end]) == Some(Redact.REDACTED) then [xs[i]] else [])
               + Redact.Marked(d, t, xs[i + 1..])
  {
    assert xs[i..][1..] == xs[i + 1..];
  }

  // What each path of the current text holds.
  method HoldValues(d: Decoder, current: string) returns (held: map<Path, string>)
    ensures Order.Ordered(Spans(d, current), -1, |current|)
    ensures held == Redact.Held(current, Spans(d, current))
  {
    hide Spans;
    Order.SpansInOrder(d, current);
    var kept := FindSpans(d, current);
    held := map[];
    for i := 0 to |kept|
      invariant held == Redact.Held(current, kept[..i])
    {
      assert kept[..i + 1][..i] == kept[..i];
      held := held[kept[i].path := current[kept[i].start..kept[i].end]];
    }
    assert kept[..|kept|] == kept;
  }

  method RestoreText(d: Decoder, text: string, current: string) returns (r: Redact.Restored)
    ensures r == Redact.Restore(d, text, current)
  {
    hide Spans, Redact.Rewrite, Redact.Edits, Redact.HeldTexts, Redact.Marked, Redact.Held;
    Order.SpansInOrder(d, text);
    var held := HoldValues(d, current);
    var xs := FindSpans(d, text);
    var missing: seq<Path> := [];
    var edits: seq<Redact.Edit> := [];
    ghost var marked: seq<Span> := [];
    assert xs[0..] == xs;
    for i := 0 to |xs|
      invariant Redact.Marked(d, text, xs) == marked + Redact.Marked(d, text, xs[i..])
      invariant missing == Redact.NotHeld(marked, held)
      invariant edits == HeldEdits(marked, held)
    {
      var x := xs[i];
      MarkedStep(d, text, xs, i);
      var spelled := d(text[x.start..x.end]);
      if spelled == Some(Redact.REDACTED) {
        HeldStep(marked, x, held);
        marked := marked + [x];
        if x.path in held {
          edits := edits + [Redact.Edit(x.start, x.end, held[x.path])];
        } else {
          missing := missing + [x.path];
        }
      }
    }
    NoneMarked(d, text);
    assert marked == Redact.Marked(d, text, xs);
    if missing != [] { return Redact.Missing(missing); }
    AllHeld(marked, held);
    var rewritten := RewriteText(text, edits);
    return Redact.Whole(rewritten);
  }

  lemma NoneMarked(d: Decoder, t: string)
    ensures Redact.Marked(d, t, []) == []
  {
  }
}

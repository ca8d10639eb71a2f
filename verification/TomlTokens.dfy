// The tokens of TOML as they are written, and that the scanner reads each of
// them whole (holophyte/redact.py).

module TomlTokens {
  import opened TomlScan

  // `w` stands in `t` at `p`.
  ghost predicate Written(t: string, p: nat, w: string) {
    p + |w| <= |t| && t[p..p + |w|] == w
  }

  lemma WrittenBoth(t: string, p: nat, a: string, b: string)
    requires Written(t, p, a + b)
    ensures Written(t, p, a) && Written(t, p + |a|, b)
  {
    assert t[p..p + |a|] == t[p..p + |a + b|][..|a|] == a;
    assert t[p + |a|..p + |a| + |b|] == t[p..p + |a + b|][|a|..] == b;
  }

  lemma WrittenThree(t: string, p: nat, a: string, b: string, c: string)
    requires Written(t, p, a + b + c)
    ensures Written(t, p, a) && Written(t, p + |a|, b) && Written(t, p + |a| + |b|, c)
  {
    WrittenBoth(t, p, a + b, c);
    WrittenBoth(t, p, a, b);
  }

  lemma WrittenAt(t: string, p: nat, w: string, i: nat)
    requires Written(t, p, w) && i < |w|
    ensures p + |w| <= |t| && t[p + i] == w[i]
  {
    assert t[p..p + |w|][i] == w[i];
  }

  lemma WrittenOne(t: string, p: nat, c: char)
    requires Written(t, p, [c])
    ensures p < |t| && t[p] == c
  {
    WrittenAt(t, p, [c], 0);
  }

  // ------------------------------------------------------------------ runs

  predicate AllIn(w: string, k: CharClass) {
    forall i :: 0 <= i < |w| ==> In(w[i], k)
  }

  predicate EndsRun(t: string, p: nat, k: CharClass) {
    p <= |t| && (p < |t| ==> !In(t[p], k))
  }

  lemma {:induction false} SkipOver(t: string, p: nat, w: string, k: CharClass)
    requires Written(t, p, w) && AllIn(w, k) && EndsRun(t, p + |w|, k)
    ensures p <= |t| && Skip(t, p, k) == p + |w|
    decreases |w|
  {
    if w != [] {
      WrittenAt(t, p, w, 0);
      assert w == [w[0]] + w[1..];
      WrittenBoth(t, p, [w[0]], w[1..]);
      SkipOver(t, p + 1, w[1..], k);
    }
  }

  // --------------------------------------------------------------- strings

  // A character of a string as it is written.
  datatype Piece = Plain(c: char) | Escaped(c: char)

  // A string in one of its four forms; a long one may hold up to two more quotes
  // before it closes.
  datatype Str = Str(quote: char, long: bool, body: seq<Piece>, extra: nat)

  function PieceText(piece: Piece): (r: string)
    ensures 1 <= |r| <= 2
  {
    match piece case Plain(c) => [c] case Escaped(c) => [BACKSLASH, c]
  }

  function BodyText(body: seq<Piece>): string {
    if body == [] then []
    else PieceText(body[0]) + BodyText(body[1..])
  }

  function Quotes(q: char, n: nat): (r: string)
    ensures |r| == n && forall i :: 0 <= i < n ==> r[i] == q
  {
    if n == 0 then [] else [q] + Quotes(q, n - 1)
  }

  function StrText(s: Str): (r: string)
    ensures r != [] && r[0] == s.quote
  {
    if s.long then Quotes(s.quote, 3) + BodyText(s.body) + Quotes(s.quote, 3 + s.extra)
    else [s.quote] + BodyText(s.body) + [s.quote]
  }

  // No backslash stands alone where it escapes.
  predicate PiecesOk(s: Str) {
    forall i :: 0 <= i < |s.body| ==>
      match s.body[i]
      case Plain(c) => s.quote == SINGLE_QUOTE || c != BACKSLASH
      case Escaped(c) => s.quote == DOUBLE_QUOTE
  }

  // After a quote in a long string one of the next two characters is another.
  predicate QuotesApart(body: seq<Piece>, q: char) {
    forall i :: 0 <= i < |body| && body[i] == Plain(q) ==>
      i + 1 < |body| && (body[i + 1] != Plain(q) || (i + 2 < |body| && body[i + 2] != Plain(q)))
  }

  predicate OnOneLine(body: seq<Piece>, q: char) {
    forall i :: 0 <= i < |body| && body[i].Plain? ==> body[i].c != q && In(body[i].c, InLine)
  }

  predicate StrOk(s: Str) {
    && IsQuote(s.quote) && PiecesOk(s)
    && if s.long then s.extra <= 2 && QuotesApart(s.body, s.quote) else OnOneLine(s.body, s.quote)
  }

  // Three to five quotes close a long string.
  lemma CloseScan(t: string, p: nat, q: char, extra: nat)
    requires IsQuote(q) && extra <= 2 && Written(t, p, Quotes(q, 3 + extra))
    requires p + 3 + extra < |t| ==> t[p + 3 + extra] != q
    ensures LongString(t, p, q) == Some(p + 3 + extra)
  {
    var close := Quotes(q, 3 + extra);
    WrittenAt(t, p, close, 0);
    WrittenAt(t, p, close, 1);
    WrittenAt(t, p, close, 2);
    if extra > 0 { WrittenAt(t, p, close, 3); }
    if extra > 1 { WrittenAt(t, p, close, 4); }
  }

  lemma BodyIs(body: seq<Piece>)
    requires body != []
    ensures BodyText(body) == PieceText(body[0]) + BodyText(body[1..])
  {
  }

  lemma Joined(a: string, b: string, c: string)
    ensures a + b + c == a + (b + c)
  {
  }

  // The first character of a body, and the rest of it.
  lemma BodyStep(t: string, p: nat, body: seq<Piece>, close: string)
    requires body != [] && Written(t, p, BodyText(body) + close)
    ensures |BodyText(body)| == |PieceText(body[0])| + |BodyText(body[1..])|
    ensures Written(t, p + |PieceText(body[0])|, BodyText(body[1..]) + close)
    ensures p < |t| && t[p] == PieceText(body[0])[0]
  {
    hide Written, BodyText, PieceText;
    var w, tail := PieceText(body[0]), BodyText(body[1..]) + close;
    BodyIs(body);
    Joined(w, BodyText(body[1..]), close);
    WrittenBoth(t, p, w, tail);
    WrittenAt(t, p, w, 0);
  }

  lemma StrRest(s: Str)
    requires StrOk(s) && s.body != []
    ensures StrOk(s.(body := s.body[1..]))
    ensures s.body[0].Plain? ==> s.quote == SINGLE_QUOTE || s.body[0].c != BACKSLASH
    ensures s.body[0].Escaped? ==> s.quote == DOUBLE_QUOTE
    ensures !s.long && s.body[0].Plain? ==> s.body[0].c != s.quote && In(s.body[0].c, InLine)
  {
  }

  lemma {:induction false} LongBodyScan(t: string, p: nat, s: Str)
    requires s.long && StrOk(s) && Written(t, p, BodyText(s.body) + Quotes(s.quote, 3 + s.extra))
    requires var e := p + |BodyText(s.body)| + 3 + s.extra; e < |t| ==> t[e] != s.quote
    ensures LongString(t, p, s.quote) == Some(p + |BodyText(s.body)| + 3 + s.extra)
    decreases |s.body|
  {
    hide Written, Quotes, TripleAt, StrOk, BodyText;
    var q, close := s.quote, Quotes(s.quote, 3 + s.extra);
    if s.body == [] {
      NoBody(close);
      OneQuote(s);
      CloseScan(t, p, q, s.extra);
    } else {
      StrRest(s);
      BodyStep(t, p, s.body, close);
      if s.body[0].Plain? { NoTriple(t, p, s); }
      LongBodyScan(t, p + |PieceText(s.body[0])|, s.(body := s.body[1..]));
    }
  }

  lemma NoBody(close: string)
    ensures BodyText([]) + close == close
  {
  }

  lemma OneQuote(s: Str)
    requires StrOk(s)
    ensures IsQuote(s.quote) && (s.long ==> s.extra <= 2)
  {
  }

  lemma {:induction false} PieceAt(body: seq<Piece>, rest: string, q: char)
    requires body != [] && IsQuote(q)
    ensures BodyText(body) + rest != [] && ((BodyText(body) + rest)[0] == q <==> body[0] == Plain(q))
  {
  }

  lemma {:induction false} NoTriple(t: string, p: nat, s: Str)
    requires s.long && StrOk(s) && s.body != [] && s.body[0].Plain?
    requires Written(t, p, BodyText(s.body) + Quotes(s.quote, 3 + s.extra))
    ensures !TripleAt(t, p, s.quote)
  {
    var q, close := s.quote, Quotes(s.quote, 3 + s.extra);
    var w1 := BodyText(s.body[1..]) + close;
    var c := s.body[0].c;
    assert BodyText(s.body) + close == [c] + w1;
    WrittenBoth(t, p, [c], w1);
    WrittenOne(t, p, c);
    if c == q {
      PieceAt(s.body[1..], close, q);
      WrittenAt(t, p + 1, w1, 0);
      if s.body[1] == Plain(q) {
        var w2 := BodyText(s.body[2..]) + close;
        assert s.body[1..][1..] == s.body[2..];
        assert w1 == [q] + w2;
        PieceAt(s.body[2..], close, q);
        WrittenAt(t, p + 1, w1, 1);
      }
    }
  }

  lemma {:induction false} ShortBodyScan(t: string, p: nat, s: Str)
    requires !s.long && StrOk(s) && Written(t, p, BodyText(s.body) + [s.quote])
    ensures ShortString(t, p, s.quote) == Some(p + |BodyText(s.body)| + 1)
    decreases |s.body|
  {
    hide Written, StrOk, BodyText;
    OneQuote(s);
    if s.body == [] {
      NoBody([s.quote]);
      WrittenOne(t, p, s.quote);
    } else {
      StrRest(s);
      BodyStep(t, p, s.body, [s.quote]);
      ShortBodyScan(t, p + |PieceText(s.body[0])|, s.(body := s.body[1..]));
    }
  }

  predicate NoQuoteAt(t: string, p: nat) {
    p <= |t| && (p < |t| ==> !IsQuote(t[p]))
  }

  lemma LongScan(t: string, p: nat, s: Str)
    requires s.long && StrOk(s) && Written(t, p, StrText(s)) && NoQuoteAt(t, p + |StrText(s)|)
    ensures p < |t| && t[p] == s.quote && StringEnd(t, p) == Some(p + |StrText(s)|)
  {
    hide Written, BodyText, LongString, ShortString;
    var q, body, close := s.quote, BodyText(s.body), Quotes(s.quote, 3 + s.extra);
    assert StrText(s) == Quotes(q, 3) + (body + close);
    WrittenBoth(t, p, Quotes(q, 3), body + close);
    WrittenAt(t, p, Quotes(q, 3), 0);
    WrittenAt(t, p, Quotes(q, 3), 1);
    WrittenAt(t, p, Quotes(q, 3), 2);
    LongBodyScan(t, p + 3, s);
  }

  lemma ShortScan(t: string, p: nat, s: Str)
    requires !s.long && StrOk(s) && Written(t, p, StrText(s)) && NoQuoteAt(t, p + |StrText(s)|)
    ensures p < |t| && t[p] == s.quote && StringEnd(t, p) == Some(p + |StrText(s)|)
  {
    hide Written, BodyText, LongString, ShortString;
    var q := s.quote;
    var w := BodyText(s.body) + [q];
    assert StrText(s) == [q] + w;
    WrittenBoth(t, p, [q], w);
    WrittenOne(t, p, q);
    ShortBodyScan(t, p + 1, s);
    if s.body == [] { NoBody([q]); } else { PieceAt(s.body, [q], q); }
    WrittenAt(t, p + 1, w, 0);
  }

  // A string ends where it is written to.
  lemma {:induction false} StringScan(t: string, p: nat, s: Str)
    requires StrOk(s) && Written(t, p, StrText(s)) && NoQuoteAt(t, p + |StrText(s)|)
    ensures p < |t| && t[p] == s.quote && StringEnd(t, p) == Some(p + |StrText(s)|)
  {
    if s.long { LongScan(t, p, s); } else { ShortScan(t, p, s); }
  }

  // ------------------------------------------------------------------ keys

  datatype Part = Word(name: string) | Quoted(s: Str)

  // A dotted key, with the space around its dots.
  datatype Dotted = One(part: Part) | Dot(part: Part, before: string, after: string, rest: Dotted)

  function PartText(part: Part): string {
    match part
    case Word(name) => name
    case Quoted(s) => StrText(s)
  }

  function KeyText(key: Dotted): string {
    match key
    case One(part) => PartText(part)
    case Dot(part, before, after, rest) => PartText(part) + before + "." + after + KeyText(rest)
  }

  predicate PartOk(part: Part) {
    match part
    case Word(name) => name != [] && AllIn(name, Bare)
    case Quoted(s) => StrOk(s)
  }

  predicate KeyOk(key: Dotted) {
    && PartOk(key.part)
    && (key.Dot? ==> AllIn(key.before, Ws) && AllIn(key.after, Ws) && KeyOk(key.rest))
  }

  // A quoted part is the string its text spells.
  function Spelled(d: Decoder, part: Part): Segment {
    match part
    case Word(name) => Name(name)
    case Quoted(s) => match d(StrText(s)) case Some(name) => Name(name) case None => Unreadable
  }

  function KeyPath(d: Decoder, key: Dotted): (r: Path)
    ensures r != []
  {
    match key
    case One(part) => [Spelled(d, part)]
    case Dot(part, _, _, rest) => [Spelled(d, part)] + KeyPath(d, rest)
  }

  // A key can end here.
  predicate EndsKey(t: string, p: nat) {
    p <= |t| && (p < |t| ==> !In(t[p], Bare) && !IsQuote(t[p]))
  }

  lemma {:induction false} PartFirst(part: Part)
    requires PartOk(part)
    ensures PartText(part) != [] && (IsQuote(PartText(part)[0]) || In(PartText(part)[0], Bare))
    ensures IsQuote(PartText(part)[0]) <==> part.Quoted?
  {
  }

  lemma {:induction false} KeyFirst(key: Dotted)
    requires KeyOk(key)
    ensures KeyText(key) != [] && (IsQuote(KeyText(key)[0]) || In(KeyText(key)[0], Bare))
  {
    PartFirst(key.part);
  }

  lemma {:induction false} PartScan(d: Decoder, t: string, p: nat, part: Part)
    requires PartOk(part) && Written(t, p, PartText(part)) && EndsKey(t, p + |PartText(part)|)
    ensures p <= |t| && KeySegment(d, t, p) == Some((Spelled(d, part), p + |PartText(part)|))
  {
    hide StrText, StringEnd;
    PartFirst(part);
    WrittenAt(t, p, PartText(part), 0);
    match part
    case Word(name) => SkipOver(t, p, name, Bare);
    case Quoted(s) => StringScan(t, p, s);
  }

  // The parts of a dotted key as it stands.
  lemma DotParts(t: string, at: nat, key: Dotted)
    requires key.Dot? && KeyOk(key) && Written(t, at, KeyText(key))
    ensures var part, e := PartText(key.part), at + |PartText(key.part)|;
            && Written(t, at, part) && Written(t, e, key.before) && EndsKey(t, e)
            && e + |key.before| < |t| && t[e + |key.before|] == '.'
            && Written(t, e + |key.before| + 1, key.after + KeyText(key.rest))
            && |KeyText(key)| == |part| + |key.before| + 1 + |key.after + KeyText(key.rest)|
  {
    hide Written, PartText, PartOk, AllIn;
    var part, e := PartText(key.part), at + |PartText(key.part)|;
    var w := part + key.before + ".";
    var tail := key.after + KeyText(key.rest);
    assert KeyText(key) == w + tail;
    WrittenBoth(t, at, w, tail);
    WrittenThree(t, at, part, key.before, ".");
    WrittenOne(t, e + |key.before|, '.');
    if key.before != [] {
      WrittenAt(t, e, key.before, 0);
      AllInAt(key.before, 0, Ws);
    }
  }

  // Space, then a key, up to where it is written to.
  lemma {:induction false} KeyScan(d: Decoder, t: string, p: nat, lead: string, key: Dotted)
    requires KeyOk(key) && AllIn(lead, Ws) && Written(t, p, lead + KeyText(key))
    requires var e := p + |lead + KeyText(key)|; EndsKey(t, e) && (SkipWs(t, e) < |t| ==> t[SkipWs(t, e)] != '.')
    ensures p <= |t| && Key(d, t, p) == Some((KeyPath(d, key), p + |lead + KeyText(key)|))
    decreases key
  {
    hide Written, KeySegment, Skip, PartText, PartOk, Spelled, AllIn, In, IsQuote, KeyText, EndsKey;
    WrittenBoth(t, p, lead, KeyText(key));
    var at := p + |lead|;
    KeyStarts(t, at, key);
    SkipOver(t, p, lead, Ws);
    match key
    case One(part) =>
      OnePart(part);
      PartScan(d, t, at, key.part);
    case Dot(part, before, after, rest) =>
      var e := at + |PartText(part)|;
      DotParts(t, at, key);
      PartScan(d, t, at, part);
      DotEndsWs(t, e + |before|);
      SkipOver(t, e, before, Ws);
      assert SkipWs(t, e) == e + |before|;
      KeyScan(d, t, e + |before| + 1, after, rest);
  }

  lemma OnePart(part: Part)
    ensures KeyText(One(part)) == PartText(part)
  {
  }

  lemma DotEndsWs(t: string, p: nat)
    requires p < |t| && t[p] == '.'
    ensures EndsRun(t, p, Ws)
  {
  }

  lemma KeyStarts(t: string, p: nat, key: Dotted)
    requires KeyOk(key) && Written(t, p, KeyText(key))
    ensures p < |t| && EndsRun(t, p, Ws)
  {
    KeyFirst(key);
    WrittenAt(t, p, KeyText(key), 0);
  }

  lemma AllInAt(w: string, i: nat, k: CharClass)
    requires AllIn(w, k) && i < |w|
    ensures In(w[i], k)
  {
  }

  // ------------------------------------------------------------------ gaps

  // Blanks, and comments that each run to the end of a line.
  datatype Gap = Blanks(blanks: string) | Comment(blanks: string, text: string, rest: Gap)

  function GapText(gap: Gap): string {
    match gap
    case Blanks(blanks) => blanks
    case Comment(blanks, text, rest) => blanks + "#" + text + GapText(rest)
  }

  predicate GapOk(gap: Gap) {
    && AllIn(gap.blanks, Blank)
    && (gap.Comment? ==> AllIn(gap.text, InLine) && gap.rest.blanks != [] && !In(gap.rest.blanks[0], InLine) && GapOk(gap.rest))
  }

  // A gap can end here.
  predicate EndsGap(t: string, p: nat) {
    p <= |t| && (p < |t| ==> !In(t[p], Blank) && t[p] != '#')
  }

  // Past the blanks and the comments of an array.
  lemma {:induction false} GapScan(t: string, p: nat, gap: Gap)
    requires GapOk(gap) && Written(t, p, GapText(gap)) && EndsGap(t, p + |GapText(gap)|)
    ensures p <= |t| && SkipComments(t, SkipBlank(t, p)) == p + |GapText(gap)|
    decreases gap
  {
    hide Written, Skip, AllIn;
    match gap
    case Blanks(blanks) => SkipOver(t, p, blanks, Blank);
    case Comment(blanks, text, rest) =>
      var e := CommentScan(t, p, gap);
      GapScan(t, e, rest);
  }

  // Blanks, a comment and the end of its line.
  lemma {:induction false} CommentScan(t: string, p: nat, gap: Gap) returns (e: nat)
    requires GapOk(gap) && gap.Comment? && Written(t, p, GapText(gap))
    ensures e == p + |gap.blanks| + 1 + |gap.text| <= |t| && Written(t, e, GapText(gap.rest))
    ensures SkipBlank(t, p) == p + |gap.blanks| < |t| && t[p + |gap.blanks|] == '#'
    ensures EndOfLine(t, p + |gap.blanks|) == e
  {
    hide Written, Skip, AllIn;
    var at := p + |gap.blanks|;
    e := at + 1 + |gap.text|;
    var line := "#" + gap.text;
    assert GapText(gap) == gap.blanks + line + GapText(gap.rest);
    WrittenThree(t, p, gap.blanks, line, GapText(gap.rest));
    WrittenAt(t, at, line, 0);
    SkipOver(t, p, gap.blanks, Blank);
    WrittenAt(t, e, GapText(gap.rest), 0);
    assert GapText(gap.rest)[0] == gap.rest.blanks[0];
    CommentIn(gap.text);
    SkipOver(t, at, line, InLine);
  }

  lemma CommentIn(text: string)
    requires AllIn(text, InLine)
    ensures AllIn("#" + text, InLine)
  {
  }
}

// What the scanner takes for a string is a string as TOML writes one, and nothing
// else is (holophyte/redact.py).

module TomlStrings {
  import opened TomlScan
  import opened TomlTokens

  // ------------------------------------------------------------------ runs

  const LOWER := "abcdefghijklmnopqrstuvwxyz"
  const UPPER := "ABCDEFGHIJKLMNOPQRSTUVWXYZ"

  lemma LowerIs(c: char)
    ensures c in LOWER <==> 'a' <= c <= 'z'
  {
    if 'a' <= c <= 'z' { assert LOWER[c as int - 'a' as int] == c; }
  }

  lemma UpperIs(c: char)
    ensures c in UPPER <==> 'A' <= c <= 'Z'
  {
    if 'A' <= c <= 'Z' { assert UPPER[c as int - 'A' as int] == c; }
  }

  // The characters of a bare key, of a blank, and of a line.
  lemma BareIs(c: char)
    ensures In(c, Bare) <==> c in LOWER || c in UPPER || c in "0123456789_-"
  {
    LowerIs(c);
    UpperIs(c);
  }

  lemma LineIs(c: char)
    ensures In(c, Ws) <==> c in " \t"
    ensures In(c, Blank) <==> c in " \t\r\n"
    ensures In(c, InLine) <==> c !in "\r\n"
  {
  }

  // --------------------------------------------------------------- strings

  // A body between its quotes.
  predicate ShortBody(body: seq<Piece>, q: char) {
    OnOneLine(body, q) && PiecesOk(Str(q, false, body, 0))
  }

  predicate LongBody(body: seq<Piece>, q: char) {
    QuotesApart(body, q) && PiecesOk(Str(q, true, body, 0))
  }

  // The piece the scanner steps over at `p`.
  function PieceAtP(t: string, p: nat, q: char): (piece: Piece)
    requires p < |t|
  {
    if Escapes(t, p, q) && p + 1 < |t| then Escaped(t[p + 1]) else Plain(t[p])
  }

  lemma TextNext(piece: Piece, rest: seq<Piece>)
    ensures BodyText([piece] + rest) == PieceText(piece) + BodyText(rest)
  {
    assert ([piece] + rest)[1..] == rest;
  }

  lemma WrittenNext(t: string, p: nat, e: nat, piece: Piece, rest: seq<Piece>, close: string)
    requires var m := p + |PieceText(piece)|; m <= e <= |t| && t[p..m] == PieceText(piece) && t[m..e] == BodyText(rest) + close
    ensures t[p..e] == BodyText([piece] + rest) + close
  {
    var m := p + |PieceText(piece)|;
    TextNext(piece, rest);
    assert t[p..e] == t[p..m] + t[m..e];
  }

  lemma ShortNext(piece: Piece, rest: seq<Piece>, q: char)
    requires IsQuote(q) && ShortBody(rest, q)
    requires match piece
             case Plain(c) => c != q && In(c, InLine) && (q == SINGLE_QUOTE || c != BACKSLASH)
             case Escaped(c) => q == DOUBLE_QUOTE
    ensures ShortBody([piece] + rest, q)
  {
  }

  lemma {:induction false} ShortWritten(t: string, p: nat, q: char) returns (body: seq<Piece>)
    requires IsQuote(q) && ShortString(t, p, q).Some?
    ensures ShortBody(body, q)
    ensures p < ShortString(t, p, q).value <= |t| && t[p..ShortString(t, p, q).value] == BodyText(body) + [q]
    decreases |t| - p
  {
    hide ShortBody, BodyText;
    var e := ShortString(t, p, q).value;
    if t[p] == q {
      body := [];
      EmptyBody(q);
    } else {
      var piece := PieceAtP(t, p, q);
      var rest := ShortWritten(t, p + |PieceText(piece)|, q);
      body := [piece] + rest;
      ShortNext(piece, rest, q);
      WrittenNext(t, p, e, piece, rest, [q]);
    }
  }

  lemma EmptyBody(q: char)
    ensures BodyText([]) == [] && ShortBody([], q) && LongBody([], q)
  {
  }

  // Three quotes, and up to two more.
  lemma Closes(t: string, p: nat, q: char) returns (extra: nat)
    requires p <= |t| && TripleAt(t, p, q)
    ensures var e := ExtraQuotes(t, p + 3, q);
            && extra <= 2 && e == p + 3 + extra && t[p..e] == Quotes(q, 3 + extra)
            && (extra < 2 && e < |t| ==> t[e] != q)
  {
    var e := ExtraQuotes(t, p + 3, q);
    extra := e - p - 3;
  }

  lemma LongNext(t: string, p: nat, e: nat, piece: Piece, rest: seq<Piece>, q: char, extra: nat)
    requires IsQuote(q) && LongBody(rest, q) && p < e <= |t| && !TripleAt(t, p, q)
    requires match piece
             case Plain(c) => c == t[p] && (q == SINGLE_QUOTE || c != BACKSLASH)
             case Escaped(c) => q == DOUBLE_QUOTE
    requires piece.Plain? ==> t[p + 1..e] == BodyText(rest) + Quotes(q, 3 + extra)
    ensures LongBody([piece] + rest, q)
  {
    hide BodyText, Quotes;
    if piece == Plain(q) {
      FirstTwo(rest, q, extra);
      var w := BodyText(rest) + Quotes(q, 3 + extra);
      assert t[p + 1] == w[0] && t[p + 2] == w[1] by {
        assert t[p + 1..e][0] == w[0] && t[p + 1..e][1] == w[1];
      }
    }
    BodyNext(piece, rest, q);
  }

  // A closed body starts with two quotes only where two or none stand in it.
  lemma {:induction false} FirstTwo(body: seq<Piece>, q: char, extra: nat)
    requires IsQuote(q)
    ensures var w := BodyText(body) + Quotes(q, 3 + extra);
            && |w| >= 2
            && (body == [] || (body[0] == Plain(q) && (|body| == 1 || body[1] == Plain(q))) ==> w[0] == q && w[1] == q)
  {
    if body != [] && body[0] == Plain(q) {
      TextNext(body[0], body[1..]);
      assert body == [body[0]] + body[1..];
      if |body| > 1 && body[1] == Plain(q) {
        TextNext(body[1], body[2..]);
        assert body[1..] == [body[1]] + body[2..];
      }
    }
  }

  lemma BodyNext(piece: Piece, rest: seq<Piece>, q: char)
    requires LongBody(rest, q) && (if piece.Plain? then q == SINGLE_QUOTE || piece.c != BACKSLASH else q == DOUBLE_QUOTE)
    requires piece == Plain(q) ==>
               rest != [] && (rest[0] != Plain(q) || (|rest| > 1 && rest[1] != Plain(q)))
    ensures LongBody([piece] + rest, q)
  {
    var body := [piece] + rest;
    assert forall i :: 0 < i < |body| ==> body[i] == rest[i - 1];
  }

  lemma {:induction false} LongWritten(t: string, p: nat, q: char) returns (body: seq<Piece>, extra: nat)
    requires IsQuote(q) && LongString(t, p, q).Some?
    ensures LongBody(body, q) && extra <= 2
    ensures var e := LongString(t, p, q).value;
            && p < e <= |t| && t[p..e] == BodyText(body) + Quotes(q, 3 + extra)
            && (extra < 2 && e < |t| ==> t[e] != q)
    decreases |t| - p
  {
    hide LongBody, BodyText, Quotes, TripleAt, ExtraQuotes;
    var e := LongString(t, p, q).value;
    if !Escapes(t, p, q) && TripleAt(t, p, q) {
      body := [];
      EmptyBody(q);
      extra := Closes(t, p, q);
    } else {
      var piece := PieceAtP(t, p, q);
      var rest;
      rest, extra := LongWritten(t, p + |PieceText(piece)|, q);
      body := [piece] + rest;
      if piece.Escaped? { NoTripleHere(t, p, q); }
      LongNext(t, p, e, piece, rest, q, extra);
      WrittenNext(t, p, e, piece, rest, Quotes(q, 3 + extra));
    }
  }

  lemma NoTripleHere(t: string, p: nat, q: char)
    requires p < |t| && Escapes(t, p, q)
    ensures !TripleAt(t, p, q)
  {
  }

  // Whatever the scanner reads as a string is written as one, in one of its four
  // forms; an unclosed one, or a short one with a line break in it, is refused.
  // With StringScan, these are exactly the strings it reads.
  lemma StringWritten(t: string, p: nat)
    requires p < |t| && IsQuote(t[p]) && StringEnd(t, p).Some?
    ensures exists s: Str :: StrOk(s) && s.quote == t[p] && t[p..StringEnd(t, p).value] == StrText(s)
  {
    hide BodyText, Quotes;
    var q, e := t[p], StringEnd(t, p).value;
    if TripleAt(t, p, q) {
      var body, extra := LongWritten(t, p + 3, q);
      var s := Str(q, true, body, extra);
      ThreeQuotes(t, p, q);
      assert t[p..e] == t[p..p + 3] + t[p + 3..e];
      assert StrOk(s) && t[p..e] == StrText(s);
    } else {
      var body := ShortWritten(t, p + 1, q);
      var s := Str(q, false, body, 0);
      assert t[p..e] == [q] + t[p + 1..e];
      assert StrOk(s) && t[p..e] == StrText(s);
    }
  }

  lemma ThreeQuotes(t: string, p: nat, q: char)
    requires TripleAt(t, p, q)
    ensures t[p..p + 3] == Quotes(q, 3)
  {
  }
}

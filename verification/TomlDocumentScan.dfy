// The scan of a written document finds exactly its secrets, each under the path
// the document gives it (holophyte/redact.py).

module TomlDocumentScan {
  import opened TomlScan
  import opened TomlTokens
  import opened TomlTables
  import opened TomlDocument
  import Redact

  ghost predicate Scans(t: string, r: Scanned, e: nat, secrets: seq<Secret>) {
    r.end == Some(e) && Finds(t, r.found, secrets)
  }

  lemma NoneFound(t: string, e: nat)
    ensures Scans(t, Scanned([], Some(e)), e, [])
  {
  }

  lemma NoMore(x: seq<Secret>)
    ensures x + [] == x
  {
  }

  lemma ScansBoth(t: string, v: Scanned, e: nat, x: seq<Secret>, rest: Scanned, f: nat, y: seq<Secret>)
    requires Scans(t, v, e, x) && Scans(t, rest, f, y)
    ensures Scans(t, Scanned(v.found + rest.found, rest.end), f, x + y)
  {
    hide Finds;
    FindsBoth(t, v.found, x, rest.found, y);
  }

  // ---------------------------------------------------------------- values

  lemma {:induction false} ValScan(d: Decoder, t: string, p: nat, v: Val, path: Path)
    requires ValOk(v) && Written(t, p, ValText(v)) && EndsValue(t, p + |ValText(v)|)
    ensures p <= |t| && Scans(t, Value(d, t, p, path), p + |ValText(v)|, ValSecrets(d, v, path, p))
    decreases v, 0
  {
    hide Written, EndsValue, Finds, StringEnd, BareScalar, Array, InlineTable, ItemsOk, PairsOk, StrOk, AtomOk, GapOk;
    ValStarts(t, p, v);
    ValFirst(v);
    EndsValueNoQuote(t, p + |ValText(v)|);
    NoneFound(t, p + |ValText(v)|);
    match v
    case Quote(s) => StringScan(t, p, s);
    case Atom(text) => AtomScan(t, p, text);
    case List(gap, items) =>
      WrittenBoth(t, p, "[", GapText(gap) + ItemsText(items));
      ItemsScan(d, t, p + 1, gap, items, path, 0);
    case Inline(lead, pairs) =>
      WrittenBoth(t, p, [OPEN_BRACE], lead + PairsText(pairs));
      PairsScan(d, t, p + 1, lead, pairs, path);
  }

  // What an array is read as where its next gap ends.
  lemma ArrayAt(d: Decoder, t: string, p: nat, gap: Gap, path: Path, i: nat)
    requires GapOk(gap) && Written(t, p, GapText(gap))
    requires var at := p + |GapText(gap)|; at < |t| && (Starts(t[at]) || t[at] == ']' || t[at] == ',')
    ensures p <= |t|
    ensures var at := p + |GapText(gap)|;
            Array(d, t, p, path, i) ==
            if t[at] == ']' then Scanned([], Some(at + 1))
            else if t[at] == ',' then Array(d, t, at + 1, path, i)
            else
              var v := Value(d, t, at, path + [Index(i)]);
              if v.end.None? then v
              else
                var rest := Array(d, t, v.end.value, path, i + 1);
                Scanned(v.found + rest.found, rest.end)
  {
    hide Written, Value, SkipComments, SkipBlank;
    GapScan(t, p, gap);
  }

  lemma {:induction false} ItemsFirst(items: Items)
    requires ItemsOk(items)
    ensures ItemsText(items) != [] && (Starts(ItemsText(items)[0]) || ItemsText(items) == "]")
    ensures Starts(ItemsText(items)[0]) <==> !items.EndItems?
  {
    hide ValText, ValOk, GapText, GapOk;
    if !items.EndItems? { ValFirst(items.value); }
  }

  lemma {:induction false} ItemsScan(d: Decoder, t: string, p: nat, gap: Gap, items: Items, path: Path, i: nat)
    requires GapOk(gap) && ItemsOk(items) && Written(t, p, GapText(gap) + ItemsText(items))
    ensures p <= |t|
    ensures Scans(t, Array(d, t, p, path, i), p + |GapText(gap) + ItemsText(items)|,
                  ItemSecrets(d, items, path, i, p + |GapText(gap)|))
    decreases items
  {
    hide Written, EndsValue, Finds, GapOk, GapText, ValOk, ValText, In, Value, Array;
    var at := p + |GapText(gap)|;
    WrittenBoth(t, p, GapText(gap), ItemsText(items));
    ItemsFirst(items);
    WrittenAt(t, at, ItemsText(items), 0);
    ArrayAt(d, t, p, gap, path, i);
    match items
    case EndItems =>
      NoneFound(t, at + 1);
    case LastItem(v, after) =>
      LastOf(ValText(v), GapText(after), "]");
      NoMore(ValSecrets(d, v, path + [Index(i)], at));
      ItemScan(d, t, at, v, after, ']', [], path + [Index(i)]);
      var e := at + |ValText(v)|;
      ArrayAt(d, t, e, after, path, i + 1);
      NoneFound(t, e + |GapText(after)| + 1);
      ScansBoth(t, Value(d, t, at, path + [Index(i)]), e, ValSecrets(d, v, path + [Index(i)], at),
                Array(d, t, e, path, i + 1), e + |GapText(after)| + 1, []);
    case Item(v, after, lead, rest) =>
      ItemScan(d, t, at, v, after, ',', GapText(lead) + ItemsText(rest), path + [Index(i)]);
      var e := at + |ValText(v)|;
      var next := e + |GapText(after)| + 1;
      ArrayAt(d, t, e, after, path, i + 1);
      ItemsScan(d, t, next, lead, rest, path, i + 1);
      ScansBoth(t, Value(d, t, at, path + [Index(i)]), e, ValSecrets(d, v, path + [Index(i)], at),
                Array(d, t, e, path, i + 1), next + |GapText(lead) + ItemsText(rest)|,
                ItemSecrets(d, rest, path, i + 1, next + |GapText(lead)|));
  }

  // An element, the gap after it and what separates it from the next.
  lemma {:induction false} ItemScan(
      d: Decoder, t: string, at: nat, v: Val, after: Gap, c: char, rest: string, path: Path)
    requires ValOk(v) && GapOk(after) && (c == ',' || c == ']')
    requires Written(t, at, ValText(v) + (GapText(after) + ([c] + rest)))
    ensures at <= |t| && Scans(t, Value(d, t, at, path), at + |ValText(v)|, ValSecrets(d, v, path, at))
    ensures var f := at + |ValText(v)| + |GapText(after)|;
            && f < |t| && t[f] == c && Starts(t[at]) && Written(t, at + |ValText(v)|, GapText(after))
            && Written(t, f + 1, rest)
    decreases v, 1
  {
    hide Written, EndsValue, Scans, GapOk, GapText, ValOk, ValText, Starts, Value;
    var e := at + |ValText(v)|;
    Split(t, at, ValText(v), GapText(after), c, rest);
    ValStarts(t, at, v);
    GapEndsValue(t, e, after, c);
    ValScan(d, t, at, v, path);
  }

  lemma Split(t: string, p: nat, a: string, b: string, c: char, rest: string)
    requires Written(t, p, a + (b + ([c] + rest)))
    ensures Written(t, p, a) && Written(t, p + |a|, b + [c]) && Written(t, p + |a| + |b| + 1, rest)
  {
    hide Written;
    WrittenBoth(t, p, a, b + ([c] + rest));
    assert b + ([c] + rest) == (b + [c]) + rest;
    WrittenBoth(t, p + |a|, b + [c], rest);
  }

  // ----------------------------------------------------------------- pairs

  // What an inline table is read as after its next space.
  lemma InlineAt(d: Decoder, t: string, p: nat, lead: string, path: Path)
    requires AllIn(lead, Ws) && Written(t, p, lead)
    requires var at := p + |lead|; at < |t| && (Starts(t[at]) || t[at] == CLOSE_BRACE || t[at] == ',')
    ensures p <= |t|
    ensures var at := p + |lead|;
            InlineTable(d, t, p, path) ==
            if t[at] == CLOSE_BRACE then Scanned([], Some(at + 1))
            else if t[at] == ',' then InlineTable(d, t, at + 1, path)
            else
              var v := Pair(d, t, at, path);
              if v.end.None? then v
              else
                var rest := InlineTable(d, t, v.end.value, path);
                Scanned(v.found + rest.found, rest.end)
  {
    hide Written, Pair;
    SkipOver(t, p, lead, Ws);
  }

  lemma {:induction false} PairsFirst(pairs: Pairs)
    requires PairsOk(pairs)
    ensures PairsText(pairs) != [] && (Starts(PairsText(pairs)[0]) || PairsText(pairs)[0] == CLOSE_BRACE)
    ensures Starts(PairsText(pairs)[0]) <==> !pairs.EndPairs?
  {
    hide PairText, PairOk;
    if !pairs.EndPairs? { PairFirst(pairs.pair); }
  }

  lemma {:induction false} PairsScan(d: Decoder, t: string, p: nat, lead: string, pairs: Pairs, path: Path)
    requires AllIn(lead, Ws) && PairsOk(pairs) && Written(t, p, lead + PairsText(pairs))
    ensures p <= |t|
    ensures Scans(t, InlineTable(d, t, p, path), p + |lead + PairsText(pairs)|,
                  PairsSecrets(d, pairs, path, p + |lead|))
    decreases pairs
  {
    hide Written, EndsValue, Finds, PairOk, PairText, In, Pair, InlineTable, AllIn, PairSecrets;
    var at := p + |lead|;
    WrittenBoth(t, p, lead, PairsText(pairs));
    PairsFirst(pairs);
    WrittenAt(t, at, PairsText(pairs), 0);
    InlineAt(d, t, p, lead, path);
    match pairs
    case EndPairs =>
      NoneFound(t, at + 1);
    case LastPair(pair, after) =>
      LastOf(PairText(pair), after, [CLOSE_BRACE]);
      NoMore(PairSecrets(d, pair, path, at));
      PairBefore(d, t, at, pair, after, CLOSE_BRACE, [], path);
      var e := at + |PairText(pair)|;
      InlineAt(d, t, e, after, path);
      NoneFound(t, e + |after| + 1);
      ScansBoth(t, Pair(d, t, at, path), e, PairSecrets(d, pair, path, at),
                InlineTable(d, t, e, path), e + |after| + 1, []);
    case NextPair(pair, after, space, rest) =>
      PairBefore(d, t, at, pair, after, ',', space + PairsText(rest), path);
      var e := at + |PairText(pair)|;
      var next := e + |after| + 1;
      InlineAt(d, t, e, after, path);
      PairsScan(d, t, next, space, rest, path);
      ScansBoth(t, Pair(d, t, at, path), e, PairSecrets(d, pair, path, at),
                InlineTable(d, t, e, path), next + |space + PairsText(rest)|,
                PairsSecrets(d, rest, path, next + |space|));
  }

  lemma LastOf(a: string, b: string, c: string)
    ensures a + (b + (c + [])) == a + (b + c)
  {
  }

  // A pair in an inline table, the space after it and what separates it from the
  // next.
  lemma {:induction false} PairBefore(
      d: Decoder, t: string, at: nat, pair: KeyVal, after: string, c: char, rest: string, path: Path)
    requires PairOk(pair) && AllIn(after, Ws) && (c == ',' || c == CLOSE_BRACE)
    requires Written(t, at, PairText(pair) + (after + ([c] + rest)))
    ensures at <= |t| && Scans(t, Pair(d, t, at, path), at + |PairText(pair)|, PairSecrets(d, pair, path, at))
    ensures var f := at + |PairText(pair)| + |after|;
            && f < |t| && t[f] == c && Starts(t[at]) && Written(t, at + |PairText(pair)|, after)
            && Written(t, f + 1, rest)
    decreases pair, 2
  {
    hide Written, Scans, PairOk, PairText, Starts, Pair, AllIn;
    var e := at + |PairText(pair)|;
    Split(t, at, PairText(pair), after, c, rest);
    WrittenBoth(t, e, after, [c]);
    WrittenOne(t, e + |after|, c);
    PairStarts(t, at, pair);
    SpaceEndsValue(t, e, after);
    PairScan(d, t, at, pair, path);
  }

  lemma KeyEnds(t: string, e: nat, space: string, c: char)
    requires AllIn(space, Ws) && Written(t, e, space + [c]) && (c == '=' || c == ']')
    ensures EndsKey(t, e) && SkipWs(t, e) == e + |space| < |t| && t[e + |space|] == c
  {
    hide Written;
    WrittenBoth(t, e, space, [c]);
    WrittenOne(t, e + |space|, c);
    if space != [] { WrittenAt(t, e, space, 0); }
    SkipOver(t, e, space, Ws);
  }

  // A pair's key, and the place its value is written at.
  lemma {:induction false} PairKeyScan(d: Decoder, t: string, p: nat, pair: KeyVal)
    requires PairOk(pair) && Written(t, p, PairText(pair))
    ensures var at := p + |KeyText(pair.key)| + |pair.before| + 1 + |pair.after|;
            && p <= |t| && PairKey(d, t, p) == Some((KeyPath(d, pair.key), at))
            && Written(t, at, ValText(pair.value))
  {
    hide Written, Key, Skip, KeyOk, KeyText, ValOk, ValText, AllIn, EndsKey, Starts;
    var key, value := KeyText(pair.key), ValText(pair.value);
    var e := p + |key|;
    Split(t, p, key, pair.before, '=', pair.after + value);
    KeyEnds(t, e, pair.before, '=');
    var eq := e + |pair.before|;
    WrittenBoth(t, eq + 1, pair.after, value);
    ValStarts(t, eq + 1 + |pair.after|, pair.value);
    ValueEndsWs(t, eq + 1 + |pair.after|);
    SkipOver(t, eq + 1, pair.after, Ws);
    NoLead(key);
    KeyScan(d, t, p, "", pair.key);
  }

  lemma NoLead(key: string)
    ensures "" + key == key && AllIn("", Ws)
  {
  }

  lemma ValueEndsWs(t: string, p: nat)
    requires p < |t| && Starts(t[p])
    ensures EndsRun(t, p, Ws)
  {
  }

  lemma {:induction false} PairScan(d: Decoder, t: string, p: nat, pair: KeyVal, table: Path)
    requires PairOk(pair) && Written(t, p, PairText(pair)) && EndsValue(t, p + |PairText(pair)|)
    ensures p <= |t| && Scans(t, Pair(d, t, p, table), p + |PairText(pair)|, PairSecrets(d, pair, table, p))
    decreases pair, 1
  {
    hide Written, EndsValue, PairKey, Value, KeyText, ValText, ValOk, KeyOk, UnderSecret, Hides;
    var at := p + |KeyText(pair.key)| + |pair.before| + 1 + |pair.after|;
    var path := table + KeyPath(d, pair.key);
    PairKeyScan(d, t, p, pair);
    HidesIsSecret(path);
    assert at + |ValText(pair.value)| == p + |PairText(pair)|;
    ValScan(d, t, at, pair.value, path);
  }

  // ------------------------------------------------------------- documents

  // A line ends where the next one starts, or the text does.
  lemma AtLineEnd(t: string, f: nat, rest: Doc)
    requires NewLine(rest) && Written(t, f, DocText(rest)) && f + |DocText(rest)| == |t|
    ensures EndsRun(t, f, InLine)
  {
    hide Written, DocText;
    if DocText(rest) != [] { WrittenAt(t, f, DocText(rest), 0); }
  }

  // The rest of a line, up to the next one or the end of the text.
  lemma LineEnds(t: string, e: nat, tail: Tail, rest: Doc)
    requires TailOk(tail) && NewLine(rest) && Written(t, e, TailText(tail) + DocText(rest))
    requires e + |TailText(tail) + DocText(rest)| == |t|
    ensures var f := e + |TailText(tail)|;
            && EndsValue(t, e) && EndOfLine(t, e) == f && Written(t, f, DocText(rest)) && f + |DocText(rest)| == |t|
  {
    hide Written, DocText, EndsValue, In, AllIn, NewLine, Skip;
    var f := e + |TailText(tail)|;
    WrittenBoth(t, e, TailText(tail), DocText(rest));
    AtLineEnd(t, f, rest);
    TailIn(tail);
    SkipOver(t, e, TailText(tail), InLine);
    LineEndIsNoScalar();
    WrittenBoth(t, e, tail.space, tail.comment);
    if tail.comment != [] { WrittenAt(t, e + |tail.space|, tail.comment, 0); }
    SpaceEndsValue(t, e, tail.space);
  }

  lemma TailIn(tail: Tail)
    requires TailOk(tail)
    ensures AllIn(TailText(tail), InLine)
  {
  }

  lemma LineEndIsNoScalar()
    ensures !In('#', Scalar) && forall c: char :: !In(c, InLine) ==> !In(c, Scalar)
  {
  }

  lemma WalkAtBlank(d: Decoder, t: string, p: nat, table: Path, arrays: map<Path, nat>)
    requires p <= |t|
    ensures Walk(d, t, p, table, arrays) == Walk(d, t, SkipBlank(t, p), table, arrays)
  {
    hide Header, Pair, EndOfLine;
    assert SkipBlank(t, SkipBlank(t, p)) == SkipBlank(t, p);
  }

  // Blanks and comments between lines are passed over.
  lemma {:induction false} WalkGap(d: Decoder, t: string, p: nat, gap: Gap, table: Path, arrays: map<Path, nat>)
    requires GapOk(gap) && Written(t, p, GapText(gap)) && EndsRun(t, p + |GapText(gap)|, Blank)
    ensures p <= |t| && p + |GapText(gap)| <= |t|
    ensures Walk(d, t, p, table, arrays) == Walk(d, t, p + |GapText(gap)|, table, arrays)
    decreases gap
  {
    hide Written, Skip, AllIn, Header, Pair, Walk;
    WrittenEnd(t, p, GapText(gap));
    WalkAtBlank(d, t, p, table, arrays);
    match gap
    case Blanks(blanks) =>
      SkipOver(t, p, blanks, Blank);
    case Comment(blanks, text, rest) =>
      var e := CommentScan(t, p, gap);
      WalkComment(d, t, p + |blanks|, table, arrays);
      WalkGap(d, t, e, rest, table, arrays);
  }

  lemma WalkComment(d: Decoder, t: string, p: nat, table: Path, arrays: map<Path, nat>)
    requires p < |t| && t[p] == '#'
    ensures Walk(d, t, p, table, arrays) == Walk(d, t, EndOfLine(t, p), table, arrays)
  {
    hide Header, Pair, EndOfLine;
  }

  lemma WalkEnd(d: Decoder, t: string, p: nat, gap: Gap, comment: string, table: Path, arrays: map<Path, nat>)
    requires GapOk(gap) && CommentOk(comment) && Written(t, p, GapText(gap) + comment)
    requires p + |GapText(gap) + comment| == |t|
    ensures p <= |t| && Scans(t, Walk(d, t, p, table, arrays), |t|, [])
  {
    hide Written, Header, Pair, GapText, GapOk, AllIn;
    var at := p + |GapText(gap)|;
    WrittenBoth(t, p, GapText(gap), comment);
    if comment != [] { WrittenAt(t, at, comment, 0); }
    WalkGap(d, t, p, gap, table, arrays);
    if comment != [] {
      SkipOver(t, at, comment, InLine);
      WalkComment(d, t, at, table, arrays);
    }
  }

  // A pair and the rest of its line.
  lemma WalkPairing(d: Decoder, t: string, at: nat, pair: KeyVal, tail: Tail, rest: Doc, table: Path, arrays: map<Path, nat>)
    requires PairOk(pair) && TailOk(tail) && NewLine(rest)
    requires Written(t, at, PairText(pair) + (TailText(tail) + DocText(rest)))
    requires at + |PairText(pair) + (TailText(tail) + DocText(rest))| == |t|
    ensures var next := at + |PairText(pair)| + |TailText(tail)|;
            var v := Pair(d, t, at, table);
            && at < |t| && EndsRun(t, at, Blank) && Written(t, next, DocText(rest)) && next + |DocText(rest)| == |t|
            && Scans(t, v, at + |PairText(pair)|, PairSecrets(d, pair, table, at))
            && Walk(d, t, at, table, arrays)
               == var w := Walk(d, t, next, table, arrays); Scanned(v.found + w.found, w.end)
  {
    hide Written, Header, Pair, PairOk, TailOk, TailText, DocText, PairText, EndsValue, EndOfLine, Finds, NewLine;
    var e := at + |PairText(pair)|;
    WrittenBoth(t, at, PairText(pair), TailText(tail) + DocText(rest));
    PairStarts(t, at, pair);
    LineEnds(t, e, tail, rest);
    PairScan(d, t, at, pair, table);
  }

  // A header's key between its brackets.
  lemma HeaderParts(t: string, at: nat, double: bool, lead: string, key: Dotted, trail: string)
    requires AllIn(lead, Ws) && KeyOk(key) && AllIn(trail, Ws) && Written(t, at, HeaderText(double, lead, key, trail))
    ensures var n := if double then 2 else 1;
            var k := at + n;
            var e := k + |lead + KeyText(key)|;
            && at < |t| && t[at] == '[' && DoubleAt(t, at, '[') == double
            && Written(t, k, lead + KeyText(key)) && EndsKey(t, e)
            && SkipWs(t, e) == e + |trail| < |t| && t[e + |trail|] == ']' && (double ==> DoubleAt(t, e + |trail|, ']'))
            && at + |HeaderText(double, lead, key, trail)| == e + |trail| + n <= |t|
  {
    hide Written, KeyOk, KeyText, AllIn, EndsKey;
    var open, shut := if double then "[[" else "[", if double then "]]" else "]";
    var w := lead + KeyText(key);
    Joined(lead, KeyText(key), trail + shut);
    WrittenBoth(t, at, open, w + (trail + shut));
    var k := at + |open|;
    WrittenBoth(t, k, w, trail + shut);
    ShutsKey(t, k + |w|, trail, shut);
    WrittenAt(t, at, open, 0);
    if double { WrittenAt(t, at, open, 1); } else { SecondOf(t, k, lead, key); }
  }

  // A header's key and the end of its line.
  lemma HeaderScan(
      d: Decoder, t: string, at: nat, double: bool, lead: string, key: Dotted, trail: string, tail: Tail, rest: Doc)
    requires AllIn(lead, Ws) && KeyOk(key) && AllIn(trail, Ws) && TailOk(tail) && NewLine(rest)
    requires Written(t, at, HeaderText(double, lead, key, trail) + (TailText(tail) + DocText(rest)))
    requires at + |HeaderText(double, lead, key, trail) + (TailText(tail) + DocText(rest))| == |t|
    ensures var next := at + |HeaderText(double, lead, key, trail)| + |TailText(tail)|;
            && at < |t| && t[at] == '[' && DoubleAt(t, at, '[') == double
            && HeaderKey(d, t, at) == Some((KeyPath(d, key), next))
            && Written(t, next, DocText(rest)) && next + |DocText(rest)| == |t|
  {
    hide Written, KeyOk, TailOk, TailText, DocText, KeyText, Key, Skip, NewLine, AllIn, EndsKey, HeaderText, EndsValue;
    var e := at + |HeaderText(double, lead, key, trail)|;
    WrittenBoth(t, at, HeaderText(double, lead, key, trail), TailText(tail) + DocText(rest));
    LineEnds(t, e, tail, rest);
    HeaderParts(t, at, double, lead, key, trail);
    var k := at + if double then 2 else 1;
    KeyScan(d, t, k, lead, key);
    KeyAfterSpace(d, t, k);
  }

  lemma ShutsKey(t: string, e: nat, trail: string, shut: string)
    requires AllIn(trail, Ws) && Written(t, e, trail + shut) && (shut == "]" || shut == "]]")
    ensures EndsKey(t, e) && SkipWs(t, e) == e + |trail| < |t| && t[e + |trail|] == ']'
    ensures e + |trail| + |shut| <= |t| && (shut == "]]" ==> DoubleAt(t, e + |trail|, ']'))
  {
    hide Written, AllIn, EndsKey;
    var f := e + |trail|;
    WrittenBoth(t, e, trail, shut);
    WrittenEnd(t, f, shut);
    WrittenAt(t, f, shut, 0);
    if shut == "]]" { WrittenAt(t, f, shut, 1); }
    assert trail + shut == (trail + "]") + shut[1..];
    WrittenBoth(t, e, trail + "]", shut[1..]);
    KeyEnds(t, e, trail, ']');
  }

  lemma KeyAfterSpace(d: Decoder, t: string, p: nat)
    requires p <= |t|
    ensures Key(d, t, SkipWs(t, p)) == Key(d, t, p)
  {
    hide KeySegment;
    assert SkipWs(t, SkipWs(t, p)) == SkipWs(t, p);
  }

  // After a single bracket comes no other.
  lemma SecondOf(t: string, k: nat, lead: string, key: Dotted)
    requires AllIn(lead, Ws) && KeyOk(key) && Written(t, k, lead + KeyText(key))
    ensures k < |t| && t[k] != '['
  {
    hide Written, KeyText, KeyOk;
    KeyFirst(key);
    WrittenAt(t, k, lead + KeyText(key), 0);
  }

  lemma WalkHeader(d: Decoder, t: string, at: nat, table: Path, arrays: map<Path, nat>)
    requires at < |t| && t[at] == '[' && HeaderKey(d, t, at).Some?
    ensures var (segments, e) := HeaderKey(d, t, at).value;
            var (table', arrays') := HeaderPath(segments, 0, [], DoubleAt(t, at, '['), arrays);
            Walk(d, t, at, table, arrays) == Walk(d, t, e, table', arrays')
  {
    hide HeaderKey, HeaderPath, Pair, EndOfLine;
  }

  // A header, its comments before and the rest of its line.
  lemma WalkTableLine(d: Decoder, t: string, p: nat, doc: Doc, hs: seq<Heading>, arrays: map<Path, nat>)
    returns (arrays': map<Path, nat>)
    requires doc.TableLine? && DocOk(doc) && Written(t, p, DocText(doc)) && p + |DocText(doc)| == |t| && Counts(arrays, hs)
    ensures var next := p + |GapText(doc.gap)| + |HeaderText(doc.double, doc.lead, doc.key, doc.trail)| + |TailText(doc.tail)|;
            var hs' := hs + [Heading(KeyPath(d, doc.key), doc.double)];
            && p <= |t| && Written(t, next, DocText(doc.rest)) && next + |DocText(doc.rest)| == |t| && Counts(arrays', hs')
            && Walk(d, t, p, Open(hs), arrays) == Walk(d, t, next, Open(hs'), arrays')
  {
    hide Written, GapOk, GapText, KeyOk, TailOk, TailText, NewLine, HeaderText, Walk, Counts, Open, HeaderPath, AllIn,
         HeaderKey, DoubleAt, In, Skip;
    var at := p + |GapText(doc.gap)|;
    WrittenBoth(t, p, GapText(doc.gap), HeaderText(doc.double, doc.lead, doc.key, doc.trail)
                                        + (TailText(doc.tail) + DocText(doc.rest)));
    HeaderScan(d, t, at, doc.double, doc.lead, doc.key, doc.trail, doc.tail, doc.rest);
    BracketEndsGap(t, at);
    WalkGap(d, t, p, doc.gap, Open(hs), arrays);
    var h := Heading(KeyPath(d, doc.key), doc.double);
    HeaderOpens(hs, h, arrays);
    arrays' := HeaderPath(h.segments, 0, [], doc.double, arrays).1;
    WalkHeader(d, t, at, Open(hs), arrays);
  }

  lemma BracketEndsGap(t: string, p: nat)
    requires p < |t| && t[p] == '['
    ensures EndsRun(t, p, Blank)
  {
  }

  // A pair, its comments before and the rest of its line.
  lemma WalkPairLine(d: Decoder, t: string, p: nat, doc: Doc, table: Path, arrays: map<Path, nat>)
    requires doc.PairLine? && DocOk(doc) && Written(t, p, DocText(doc)) && p + |DocText(doc)| == |t|
    ensures var at := p + |GapText(doc.gap)|;
            var next := at + |PairText(doc.pair)| + |TailText(doc.tail)|;
            && at <= |t| && Written(t, next, DocText(doc.rest)) && next + |DocText(doc.rest)| == |t|
            && var v, w := Pair(d, t, at, table), Walk(d, t, next, table, arrays);
               && Scans(t, v, at + |PairText(doc.pair)|, PairSecrets(d, doc.pair, table, at))
               && Walk(d, t, p, table, arrays) == Scanned(v.found + w.found, w.end)
  {
    hide Written, GapOk, GapText, PairOk, PairText, TailOk, TailText, NewLine, Walk, Pair, Finds, PairSecrets, AllIn, In, Skip;
    var at := p + |GapText(doc.gap)|;
    WrittenBoth(t, p, GapText(doc.gap), PairText(doc.pair) + (TailText(doc.tail) + DocText(doc.rest)));
    WalkPairing(d, t, at, doc.pair, doc.tail, doc.rest, table, arrays);
    WalkGap(d, t, p, doc.gap, table, arrays);
  }

  lemma {:induction false} WalkScan(
      d: Decoder, t: string, p: nat, doc: Doc, hs: seq<Heading>, arrays: map<Path, nat>)
    requires DocOk(doc) && Written(t, p, DocText(doc)) && p + |DocText(doc)| == |t| && Counts(arrays, hs)
    ensures p <= |t| && Scans(t, Walk(d, t, p, Open(hs), arrays), |t|, DocSecrets(d, doc, hs, p))
    decreases doc
  {
    hide Written, GapOk, GapText, PairOk, PairText, KeyOk, KeyPath, TailOk, TailText, NewLine, HeaderText, Walk, Pair,
         Finds, Counts, Open, PairSecrets, AllIn;
    match doc
    case End(gap, comment) => WalkEnd(d, t, p, gap, comment, Open(hs), arrays);
    case PairLine(gap, pair, tail, rest) =>
      var at := p + |GapText(gap)|;
      var next := at + |PairText(pair)| + |TailText(tail)|;
      WalkPairLine(d, t, p, doc, Open(hs), arrays);
      WalkScan(d, t, next, rest, hs, arrays);
      ScansBoth(t, Pair(d, t, at, Open(hs)), at + |PairText(pair)|, PairSecrets(d, pair, Open(hs), at),
                Walk(d, t, next, Open(hs), arrays), |t|, DocSecrets(d, rest, hs, next));
    case TableLine(gap, double, lead, key, trail, tail, rest) =>
      var arrays' := WalkTableLine(d, t, p, doc, hs, arrays);
      WalkScan(d, t, p + |GapText(gap)| + |HeaderText(double, lead, key, trail)| + |TailText(tail)|, rest,
               hs + [Heading(KeyPath(d, key), double)], arrays');
  }

  lemma NoHeaders()
    ensures Counts(map[], []) && Open([]) == []
  {
  }

  // The secrets of a written document are what its scan finds: every one of them
  // and nothing else, in order, each where it is written and under its own path.
  lemma {:induction false} DocumentScan(d: Decoder, doc: Doc)
    requires DocOk(doc)
    ensures Finds(DocText(doc), Spans(d, DocText(doc)), DocSecrets(d, doc, [], 0))
  {
    hide Walk, DocText, DocSecrets, Counts, DocOk;
    NoHeaders();
    WalkScan(d, DocText(doc), 0, doc, [], map[]);
  }

  // Whatever `redact` serves for a written document whose secrets have paths of
  // their own, `restore` against the document gives it back.
  lemma DocumentComesBack(toml: Redact.Toml, doc: Doc)
    requires DocOk(doc) && toml.decode(Redact.Quoted()) == Some(Redact.REDACTED)
    requires var secrets := DocSecrets(toml.decode, doc, [], 0);
             forall i, j :: 0 <= i < j < |secrets| ==> secrets[i].path != secrets[j].path
    ensures var r := Redact.RedactText(toml, DocText(doc));
            r.Served? ==> Redact.Restore(toml.decode, r.text, DocText(doc)) == Redact.Whole(DocText(doc))
  {
    hide Spans, DocText, DocSecrets, DocOk, Redact.RedactText, Redact.Restore, Redact.Quoted, Written, ValText;
    DocumentScan(toml.decode, doc);
    Redact.RestoreUndoesRedact(toml, DocText(doc));
  }

  // ------------------------------------------------- elements of one array

  const MANY: Heading := Heading([Name("many")], true)

  // `[[many]]` and a token in it, and what follows.
  function Element(gap: Gap, token: Val, rest: Doc): Doc {
    TableLine(gap, true, "", One(Word("many")), "", Tail("", ""),
      PairLine(Blanks("\n"), KeyVal(One(Word("token")), " ", " ", token), Tail("", ""), rest))
  }

  // Two elements of one array, each with its token.
  function Twice(a: Val, b: Val): Doc {
    Element(Blanks(""), a, Element(Blanks("\n"), b, End(Blanks("\n"), "")))
  }

  lemma {:induction false} TokenOf(k: nat)
    ensures Hides([Name("many"), Index(k)] + [Name("token")])
  {
    var path := [Name("many"), Index(k)] + [Name("token")];
    assert path[2] == Name("" + "token") && path[..3] != [Name("board"), Name("key")];
  }

  // The token of the `k`-th element, and the secrets after it.
  lemma ElementSecrets(d: Decoder, gap: Gap, token: Val, rest: Doc, hs: seq<Heading>, k: nat, p: nat)
    returns (at: nat, next: nat)
    requires Open(hs + [MANY]) == [Name("many"), Index(k)]
    ensures DocSecrets(d, Element(gap, token, rest), hs, p)
            == [Secret([Name("many"), Index(k), Name("token")], at, token)] + DocSecrets(d, rest, hs + [MANY], next)
  {
    hide Hides, Open, ValText, Written;
    TokenOf(k);
    var doc := Element(gap, token, rest);
    var q := p + |GapText(gap)| + |HeaderText(true, "", doc.key, "")| + 0;
    var pair := doc.rest.pair;
    assert Heading(KeyPath(d, doc.key), true) == MANY;
    assert KeyPath(d, pair.key) == [Name("token")];
    assert [Name("many"), Index(k)] + [Name("token")] == [Name("many"), Index(k), Name("token")];
    assert |TailText(Tail("", ""))| == 0;
    assert DocSecrets(d, doc, hs, p) == DocSecrets(d, doc.rest, hs + [MANY], q);
    at := q + 1 + |KeyText(pair.key)| + 1 + 1 + 1;
    next := q + 1 + |PairText(pair)| + 0;
  }

  // The tokens of two elements are two secrets, each under its own element.
  lemma TwiceIsTwo(d: Decoder, a: Val, b: Val)
    ensures var secrets := DocSecrets(d, Twice(a, b), [], 0);
            && |secrets| == 2 && secrets[0].value == a && secrets[1].value == b
            && secrets[0].path == [Name("many"), Index(0), Name("token")]
            && secrets[1].path == [Name("many"), Index(1), Name("token")]
  {
    hide Hides, Open, DocSecrets, Element;
    KthElement([], Name("many"));
    KthElement([MANY], Name("many"));
    assert [] + [MANY] == [MANY];
    var last := End(Blanks("\n"), "");
    var at, next := ElementSecrets(d, Blanks(""), a, Element(Blanks("\n"), b, last), [], 0, 0);
    var at', next' := ElementSecrets(d, Blanks("\n"), b, last, [MANY], 1, next);
    NothingLeft(d, last, [MANY] + [MANY], next');
  }

  lemma NothingLeft(d: Decoder, doc: Doc, hs: seq<Heading>, p: nat)
    requires doc.End?
    ensures DocSecrets(d, doc, hs, p) == []
  {
  }
}

// TOML documents, how they are written, and the secrets each of them holds.
//
// A document is its pairs and headers with every space, comment and quote it is
// written with, so the texts of documents are all the layouts TOML v1.0.0 allows.

module TomlDocument {
  import opened TomlScan
  import opened TomlTokens
  import opened TomlTables

  // ---------------------------------------------------------------- values

  // `Atom` is a number, a boolean or a date.
  datatype Val =
    | Quote(s: Str)
    | Atom(text: string)
    | List(gap: Gap, items: Items)
    | Inline(lead: string, pairs: Pairs)

  datatype Items =
    | EndItems
    | LastItem(value: Val, after: Gap)
    | Item(value: Val, after: Gap, gap: Gap, rest: Items)

  datatype Pairs =
    | EndPairs
    | LastPair(pair: KeyVal, after: string)
    | NextPair(pair: KeyVal, after: string, lead: string, rest: Pairs)

  datatype KeyVal = KeyVal(key: Dotted, before: string, after: string, value: Val)

  function ValText(v: Val): string {
    match v
    case Quote(s) => StrText(s)
    case Atom(text) => text
    case List(gap, items) => "[" + (GapText(gap) + ItemsText(items))
    case Inline(lead, pairs) => [OPEN_BRACE] + (lead + PairsText(pairs))
  }

  function ItemsText(items: Items): string {
    match items
    case EndItems => "]"
    case LastItem(v, after) => ValText(v) + (GapText(after) + "]")
    case Item(v, after, gap, rest) => ValText(v) + (GapText(after) + ("," + (GapText(gap) + ItemsText(rest))))
  }

  function PairsText(pairs: Pairs): string {
    match pairs
    case EndPairs => [CLOSE_BRACE]
    case LastPair(pair, after) => PairText(pair) + (after + [CLOSE_BRACE])
    case NextPair(pair, after, lead, rest) => PairText(pair) + (after + ("," + (lead + PairsText(rest))))
  }

  function PairText(pair: KeyVal): string {
    KeyText(pair.key) + (pair.before + ("=" + (pair.after + ValText(pair.value))))
  }

  // Nothing an atom starts with is another value's start, and it ends in no space.
  predicate AtomOk(text: string) {
    && text != [] && AllIn(text, Scalar)
    && !IsQuote(text[0]) && text[0] != '[' && text[0] != OPEN_BRACE
    && !In(text[0], Ws) && !In(text[|text| - 1], Ws)
  }

  predicate ValOk(v: Val) {
    match v
    case Quote(s) => StrOk(s)
    case Atom(text) => AtomOk(text)
    case List(gap, items) => GapOk(gap) && ItemsOk(items)
    case Inline(lead, pairs) => AllIn(lead, Ws) && PairsOk(pairs)
  }

  predicate ItemsOk(items: Items) {
    match items
    case EndItems => true
    case LastItem(v, after) => ValOk(v) && GapOk(after)
    case Item(v, after, gap, rest) => ValOk(v) && GapOk(after) && GapOk(gap) && ItemsOk(rest)
  }

  predicate PairsOk(pairs: Pairs) {
    match pairs
    case EndPairs => true
    case LastPair(pair, after) => PairOk(pair) && AllIn(after, Ws)
    case NextPair(pair, after, lead, rest) => PairOk(pair) && AllIn(after, Ws) && AllIn(lead, Ws) && PairsOk(rest)
  }

  predicate PairOk(pair: KeyVal) {
    KeyOk(pair.key) && AllIn(pair.before, Ws) && AllIn(pair.after, Ws) && ValOk(pair.value)
  }

  // ---------------------------------------------------------------- secrets

  // A value to hide, where it is written.
  datatype Secret = Secret(path: Path, at: nat, value: Val)

  // A name on the path ends in `token` or `key`, and is not the board's own key.
  ghost predicate Hides(path: Path) {
    exists n, stem :: 0 <= n < |path|
      && (path[n] == Name(stem + "token") || path[n] == Name(stem + "key"))
      && path[..n + 1] != [Name("board"), Name("key")]
  }

  // The secrets in a value written at `p`; a hidden pair's own are not among them.
  ghost function ValSecrets(d: Decoder, v: Val, path: Path, p: nat): seq<Secret> {
    match v
    case Quote(_) => []
    case Atom(_) => []
    case List(gap, items) => ItemSecrets(d, items, path, 0, p + 1 + |GapText(gap)|)
    case Inline(lead, pairs) => PairsSecrets(d, pairs, path, p + 1 + |lead|)
  }

  // Element `i` of an array, and those after it.
  ghost function ItemSecrets(d: Decoder, items: Items, path: Path, i: nat, p: nat): seq<Secret> {
    match items
    case EndItems => []
    case LastItem(v, _) => ValSecrets(d, v, path + [Index(i)], p)
    case Item(v, after, gap, rest) =>
      ValSecrets(d, v, path + [Index(i)], p)
      + ItemSecrets(d, rest, path, i + 1, p + |ValText(v)| + |GapText(after)| + 1 + |GapText(gap)|)
  }

  ghost function PairsSecrets(d: Decoder, pairs: Pairs, path: Path, p: nat): seq<Secret> {
    match pairs
    case EndPairs => []
    case LastPair(pair, _) => PairSecrets(d, pair, path, p)
    case NextPair(pair, after, lead, rest) =>
      PairSecrets(d, pair, path, p) + PairsSecrets(d, rest, path, p + |PairText(pair)| + |after| + 1 + |lead|)
  }

  ghost function PairSecrets(d: Decoder, pair: KeyVal, table: Path, p: nat): seq<Secret> {
    var path, at := table + KeyPath(d, pair.key), p + |KeyText(pair.key)| + |pair.before| + 1 + |pair.after|;
    if Hides(path) then [Secret(path, at, pair.value)] else ValSecrets(d, pair.value, path, at)
  }

  // --------------------------------------------------------------- documents

  // The rest of a line: space, and a comment or nothing.
  datatype Tail = Tail(space: string, comment: string)

  datatype Doc =
    | End(gap: Gap, comment: string)
    | PairLine(gap: Gap, pair: KeyVal, tail: Tail, rest: Doc)
    | TableLine(gap: Gap, double: bool, lead: string, key: Dotted, trail: string, tail: Tail, rest: Doc)

  function TailText(tail: Tail): string {
    tail.space + tail.comment
  }

  function HeaderText(double: bool, lead: string, key: Dotted, trail: string): string {
    (if double then "[[" else "[") + (lead + (KeyText(key) + (trail + if double then "]]" else "]")))
  }

  function DocText(doc: Doc): string {
    match doc
    case End(gap, comment) => GapText(gap) + comment
    case PairLine(gap, pair, tail, rest) => GapText(gap) + (PairText(pair) + (TailText(tail) + DocText(rest)))
    case TableLine(gap, double, lead, key, trail, tail, rest) =>
      GapText(gap) + (HeaderText(double, lead, key, trail) + (TailText(tail) + DocText(rest)))
  }

  predicate CommentOk(comment: string) {
    comment == [] || (comment[0] == '#' && AllIn(comment, InLine))
  }

  predicate TailOk(tail: Tail) {
    AllIn(tail.space, Ws) && CommentOk(tail.comment)
  }

  // Each pair and each header has the rest of its line to itself.
  predicate DocOk(doc: Doc) {
    match doc
    case End(gap, comment) => GapOk(gap) && CommentOk(comment)
    case PairLine(gap, pair, tail, rest) =>
      GapOk(gap) && PairOk(pair) && TailOk(tail) && NewLine(rest) && DocOk(rest)
    case TableLine(gap, _, lead, key, trail, tail, rest) =>
      && GapOk(gap) && AllIn(lead, Ws) && KeyOk(key) && AllIn(trail, Ws) && TailOk(tail) && NewLine(rest) && DocOk(rest)
  }

  predicate NewLine(rest: Doc) {
    DocText(rest) == [] || !In(DocText(rest)[0], InLine)
  }

  // The secrets of a document written at `p` after the headers `hs`.
  ghost function DocSecrets(d: Decoder, doc: Doc, hs: seq<Heading>, p: nat): seq<Secret> {
    match doc
    case End(_, _) => []
    case PairLine(gap, pair, tail, rest) =>
      PairSecrets(d, pair, Open(hs), p + |GapText(gap)|)
      + DocSecrets(d, rest, hs, p + |GapText(gap)| + |PairText(pair)| + |TailText(tail)|)
    case TableLine(gap, double, lead, key, trail, tail, rest) =>
      DocSecrets(d, rest, hs + [Heading(KeyPath(d, key), double)],
                 p + |GapText(gap)| + |HeaderText(double, lead, key, trail)| + |TailText(tail)|)
  }

  // ------------------------------------------------------- scanning a value

  // The spans found are the secrets, each over the text of its value.
  ghost predicate Finds(t: string, found: seq<Span>, secrets: seq<Secret>) {
    && |found| == |secrets|
    && forall i :: 0 <= i < |found| ==>
         && found[i].path == secrets[i].path
         && found[i].start == secrets[i].at && found[i].end == secrets[i].at + |ValText(secrets[i].value)|
         && Written(t, secrets[i].at, ValText(secrets[i].value))
  }

  lemma FindsBoth(t: string, a: seq<Span>, x: seq<Secret>, b: seq<Span>, y: seq<Secret>)
    requires Finds(t, a, x) && Finds(t, b, y)
    ensures Finds(t, a + b, x + y)
  {
    hide Written, ValText;
  }

  lemma StemOf(name: string, suffix: string)
    ensures EndsWith(name, suffix) <==> exists stem :: name == stem + suffix
  {
    if EndsWith(name, suffix) {
      assert name == name[..|name| - |suffix|] + suffix;
    }
    if exists stem :: name == stem + suffix {
      var stem :| name == stem + suffix;
      assert name[|name| - |suffix|..] == suffix;
    }
  }

  lemma HidesAt(path: Path, n: nat)
    requires n < |path|
    ensures (exists stem :: path[n] == Name(stem + "token") || path[n] == Name(stem + "key"))
            <==> path[n].Name? && IsSecret(path[n].name)
  {
    if path[n].Name? {
      StemOf(path[n].name, "token");
      StemOf(path[n].name, "key");
    }
  }

  lemma {:induction false} HidesIsSecret(path: Path)
    ensures Hides(path) <==> UnderSecret(path)
  {
    hide IsSecret;
    forall n: nat | n < |path|
      ensures (exists stem :: path[n] == Name(stem + "token") || path[n] == Name(stem + "key"))
              <==> path[n].Name? && IsSecret(path[n].name)
    {
      HidesAt(path, n);
    }
    if UnderSecret(path) {
      var n :| 0 <= n < |path| && path[n].Name? && SecretAt(path[..n + 1]);
      var stem :| path[n] == Name(stem + "token") || path[n] == Name(stem + "key");
    }
  }

  // A value can end at `e`.
  predicate EndsValue(t: string, e: nat) {
    e <= |t| && (SkipWs(t, e) < |t| ==> !In(t[SkipWs(t, e)], Scalar))
  }

  lemma EndsValueNoQuote(t: string, e: nat)
    requires EndsValue(t, e)
    ensures NoQuoteAt(t, e)
  {
  }

  lemma {:induction false} SkippedIn(t: string, p: nat, k: CharClass)
    requires p <= |t|
    ensures forall i :: p <= i < Skip(t, p, k) ==> In(t[i], k)
    decreases |t| - p
  {
    if p < |t| && In(t[p], k) { SkippedIn(t, p + 1, k); }
  }

  lemma {:induction false} StripBack(t: string, p: nat, e: nat, f: nat)
    requires p < e <= f <= |t| && !In(t[e - 1], Ws) && forall i :: e <= i < f ==> In(t[i], Ws)
    ensures StripEnd(t, p, f) == e
    decreases f
  {
    if e < f { StripBack(t, p, e, f - 1); }
  }

  lemma AtomScan(t: string, p: nat, text: string)
    requires AtomOk(text) && Written(t, p, text) && EndsValue(t, p + |text|)
    ensures BareScalar(t, p) == Some(p + |text|)
  {
    hide Skip, StripEnd, Written;
    var e := p + |text|;
    var f := SkipWs(t, e);
    SkippedIn(t, e, Ws);
    WrittenAt(t, p, text, |text| - 1);
    var run := t[p..f];
    forall i | 0 <= i < |run| ensures In(run[i], Scalar) {
      if i < |text| { WrittenAt(t, p, text, i); }
    }
    RunWritten(t, p, f);
    SkipOver(t, p, run, Scalar);
    StripBack(t, p, e, f);
  }

  lemma WrittenEnd(t: string, p: nat, w: string)
    requires Written(t, p, w)
    ensures p + |w| <= |t|
  {
  }

  lemma RunWritten(t: string, p: nat, f: nat)
    requires p <= f <= |t|
    ensures Written(t, p, t[p..f])
  {
  }

  // What a value starts with.
  predicate Starts(c: char) {
    !In(c, Blank) && c != '#' && c != ']' && c != ',' && c != CLOSE_BRACE
  }

  lemma {:induction false} ValFirst(v: Val)
    requires ValOk(v)
    ensures ValText(v) != [] && Starts(ValText(v)[0])
    ensures v.Quote? <==> IsQuote(ValText(v)[0])
    ensures v.List? <==> ValText(v)[0] == '['
    ensures v.Inline? <==> ValText(v)[0] == OPEN_BRACE
  {
    hide BodyText;
  }

  lemma ValStarts(t: string, p: nat, v: Val)
    requires ValOk(v) && Written(t, p, ValText(v))
    ensures p < |t| && t[p] == ValText(v)[0] && Starts(t[p])
  {
    hide Written, ValText, ValOk;
    ValFirst(v);
    WrittenAt(t, p, ValText(v), 0);
  }

  lemma {:induction false} PairFirst(pair: KeyVal)
    requires PairOk(pair)
    ensures PairText(pair) != [] && Starts(PairText(pair)[0]) && PairText(pair)[0] != '['
  {
    hide KeyText, ValText, ValOk, KeyOk;
    KeyFirst(pair.key);
    assert PairText(pair)[0] == KeyText(pair.key)[0];
  }

  lemma PairStarts(t: string, p: nat, pair: KeyVal)
    requires PairOk(pair) && Written(t, p, PairText(pair))
    ensures p < |t| && Starts(t[p]) && t[p] != '['
  {
    hide Written, PairText, PairOk;
    PairFirst(pair);
    WrittenAt(t, p, PairText(pair), 0);
  }

  // A gap before a separator ends the value before it.
  lemma {:induction false} GapEndsValue(t: string, e: nat, gap: Gap, c: char)
    requires GapOk(gap) && Written(t, e, GapText(gap) + [c]) && (c == ',' || c == ']')
    ensures EndsValue(t, e)
    ensures e + |GapText(gap)| < |t| && t[e + |GapText(gap)|] == c && Written(t, e, GapText(gap))
  {
    hide Written;
    WrittenBoth(t, e, GapText(gap), [c]);
    WrittenOne(t, e + |GapText(gap)|, c);
    BlanksEndValue(t, e, gap);
  }

  // Blanks before a comment or such a separator.
  lemma {:induction false} BlanksEndValue(t: string, e: nat, gap: Gap)
    requires GapOk(gap) && Written(t, e, GapText(gap))
    requires var f := e + |GapText(gap)|; f == |t| || !In(t[f], Scalar)
    ensures EndsValue(t, e)
  {
    hide Written, Skip;
    var w := gap.blanks;
    if gap.Comment? {
      var _ := CommentScan(t, e, gap);
      assert GapText(gap) == w + ("#" + gap.text + GapText(gap.rest));
      WrittenBoth(t, e, w, "#" + gap.text + GapText(gap.rest));
    }
    WrittenEnd(t, e, w);
    SkippedIn(t, e, Ws);
    var f := SkipWs(t, e);
    if f < e + |w| { WrittenAt(t, e, w, f - e); AllInAt(w, f - e, Blank); }
    else if f > e + |w| { assert In(t[e + |w|], Ws); }
  }

  lemma SpaceEndsValue(t: string, e: nat, space: string)
    requires AllIn(space, Ws) && Written(t, e, space)
    requires var f := e + |space|; f == |t| || !In(t[f], Scalar)
    ensures EndsValue(t, e) && SkipWs(t, e) == e + |space|
  {
    hide Written;
    WrittenEnd(t, e, space);
    SkipOver(t, e, space, Ws);
  }
}

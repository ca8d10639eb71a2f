// The position-based TOML scanner of holophyte/redact.py, as functions.

module TomlScan {
  // Every function reads the text from a position onwards and answers the
  // position it stopped at.  A raised `Scan` is `None`; the spans collected
  // before it are kept, as the caller's list keeps them.

  datatype Option<+T> = None | Some(value: T)

  // A key segment; `Unreadable` is a quoted key that does not decode, and
  // `Index` is an array element's place.
  datatype Segment = Name(name: string) | Unreadable | Index(index: nat)

  type Path = seq<Segment>

  datatype Span = Span(path: Path, start: nat, end: nat)

  // What a scan collected, and where it ended unless it raised.
  datatype Scanned = Scanned(found: seq<Span>, end: Option<nat>)

  const RAISED: Scanned := Scanned([], None)

  // The string a fragment of TOML spells, if it spells one.
  type Decoder = string -> Option<string>

  // ---------------------------------------------------------------- secrets

  predicate EndsWith(s: string, suffix: string) {
    |suffix| <= |s| && s[|s| - |suffix|..] == suffix
  }

  predicate IsSecret(key: string) {
    EndsWith(key, "token") || EndsWith(key, "key")
  }

  const PUBLIC_PATH: Path := [Name("board"), Name("key")]

  predicate SecretAt(path: Path)
    requires path != [] && path[|path| - 1].Name?
  {
    IsSecret(path[|path| - 1].name) && path != PUBLIC_PATH
  }

  // Some prefix of the path ends in a secret-named segment.
  predicate UnderSecret(path: Path) {
    exists n :: 0 <= n < |path| && path[n].Name? && SecretAt(path[..n + 1])
  }

  // -------------------------------------------------------- character runs

  datatype CharClass = Ws | Blank | InLine | Bare | Scalar

  const OPEN_BRACE := '\U{007b}'
  const CLOSE_BRACE := '\U{007d}'

  predicate In(c: char, k: CharClass) {
    match k
    case Ws => c == ' ' || c == '\t'
    case Blank => c == ' ' || c == '\t' || c == '\r' || c == '\n'
    case InLine => c != '\r' && c != '\n'
    case Bare =>
      || 'a' <= c <= 'z' || 'A' <= c <= 'Z' || '0' <= c <= '9'
      || c == '_' || c == '-'
    case Scalar =>
      && c != ',' && c != ']' && c != CLOSE_BRACE && c != '#'
      && c != '\r' && c != '\n'
  }

  // The first position from `p` whose character is outside the class.
  function Skip(t: string, p: nat, k: CharClass): (e: nat)
    requires p <= |t|
    ensures p <= e <= |t|
    ensures e < |t| ==> !In(t[e], k)
    decreases |t| - p
  {
    if p < |t| && In(t[p], k) then Skip(t, p + 1, k) else p
  }

  function SkipWs(t: string, p: nat): (e: nat)
    requires p <= |t|
    ensures p <= e <= |t|
  {
    Skip(t, p, Ws)
  }

  function SkipBlank(t: string, p: nat): (e: nat)
    requires p <= |t|
    ensures p <= e <= |t|
  {
    Skip(t, p, Blank)
  }

  function EndOfLine(t: string, p: nat): (e: nat)
    requires p <= |t|
    ensures p <= e <= |t|
  {
    Skip(t, p, InLine)
  }

  // Trailing spaces and tabs dropped from `[p, e)`.
  function StripEnd(t: string, p: nat, e: nat): (r: nat)
    requires p <= e <= |t|
    ensures p <= r <= e
  {
    if e > p && In(t[e - 1], Ws) then StripEnd(t, p, e - 1) else e
  }

  // --------------------------------------------------------------- strings

  const DOUBLE_QUOTE := '\U{0022}'
  const SINGLE_QUOTE := '\U{0027}'
  const BACKSLASH := '\U{005c}'

  predicate IsQuote(c: char) {
    c == DOUBLE_QUOTE || c == SINGLE_QUOTE
  }

  predicate TripleAt(t: string, p: nat, q: char) {
    p + 3 <= |t| && t[p] == q && t[p + 1] == q && t[p + 2] == q
  }

  predicate Escapes(t: string, p: nat, q: char)
    requires p < |t|
  {
    q == DOUBLE_QUOTE && t[p] == BACKSLASH
  }

  // Up to two more quotes after the closing three.
  function ExtraQuotes(t: string, p: nat, q: char): (e: nat)
    requires p <= |t|
    ensures p <= e <= |t|
  {
    if p < |t| && t[p] == q then
      if p + 1 < |t| && t[p + 1] == q then p + 2 else p + 1
    else p
  }

  function LongString(t: string, p: nat, q: char): (r: Option<nat>)
    ensures r.Some? ==> p + 3 <= r.value <= |t|
    decreases |t| - p
  {
    if p >= |t| then None
    else if Escapes(t, p, q) then LongString(t, p + 2, q)
    else if TripleAt(t, p, q) then Some(ExtraQuotes(t, p + 3, q))
    else LongString(t, p + 1, q)
  }

  function ShortString(t: string, p: nat, q: char): (r: Option<nat>)
    ensures r.Some? ==> p < r.value <= |t|
    decreases |t| - p
  {
    if p >= |t| then None
    else if Escapes(t, p, q) then ShortString(t, p + 2, q)
    else if t[p] == q then Some(p + 1)
    else if !In(t[p], InLine) then None
    else ShortString(t, p + 1, q)
  }

  function StringEnd(t: string, p: nat): (r: Option<nat>)
    requires p < |t|
    ensures r.Some? ==> p + 1 < r.value <= |t|
  {
    if TripleAt(t, p, t[p]) then LongString(t, p + 3, t[p])
    else ShortString(t, p + 1, t[p])
  }

  // ------------------------------------------------------------------ keys

  function KeySegment(d: Decoder, t: string, p: nat): (r: Option<(Segment, nat)>)
    requires p <= |t|
    ensures r.Some? ==> p < r.value.1 <= |t|
  {
    if p == |t| then None
    else if IsQuote(t[p]) then
      match StringEnd(t, p)
      case None => None
      case Some(e) =>
        Some((match d(t[p..e]) case Some(s) => Name(s) case None => Unreadable, e))
    else
      var e := Skip(t, p, Bare);
      if e == p then None else Some((Name(t[p..e]), e))
  }

  function Key(d: Decoder, t: string, p: nat): (r: Option<(Path, nat)>)
    requires p <= |t|
    ensures r.Some? ==> p < r.value.1 <= |t| && r.value.0 != []
    decreases |t| - p
  {
    match KeySegment(d, t, SkipWs(t, p))
    case None => None
    case Some((segment, e)) =>
      var after := SkipWs(t, e);
      if after < |t| && t[after] == '.' then
        match Key(d, t, after + 1)
        case None => None
        case Some((rest, e')) => Some(([segment] + rest, e'))
      else Some(([segment], e))
  }

  // ---------------------------------------------------------------- values

  function BareScalar(t: string, p: nat): (r: Option<nat>)
    requires p <= |t|
    ensures r.Some? ==> p < r.value <= |t|
  {
    var e := StripEnd(t, p, Skip(t, p, Scalar));
    if e == p then None else Some(e)
  }

  // Past blanks, and past comments each followed by blanks.
  function SkipComments(t: string, p: nat): (e: nat)
    requires p <= |t|
    ensures p <= e <= |t|
    decreases |t| - p
  {
    if p < |t| && t[p] == '#' then SkipComments(t, SkipBlank(t, EndOfLine(t, p)))
    else p
  }

  function Value(d: Decoder, t: string, p: nat, path: Path): (r: Scanned)
    requires p <= |t|
    ensures r.end.Some? ==> p < r.end.value <= |t|
    decreases |t| - p, 0
  {
    if p == |t| then RAISED
    else if IsQuote(t[p]) then Scanned([], StringEnd(t, p))
    else if t[p] == '[' then Array(d, t, p + 1, path, 0)
    else if t[p] == OPEN_BRACE then InlineTable(d, t, p + 1, path)
    else Scanned([], BareScalar(t, p))
  }

  function Array(d: Decoder, t: string, p: nat, path: Path, i: nat): (r: Scanned)
    requires p <= |t|
    ensures r.end.Some? ==> p < r.end.value <= |t|
    decreases |t| - p, 1
  {
    var at := SkipComments(t, SkipBlank(t, p));
    if at == |t| then RAISED
    else if t[at] == ']' then Scanned([], Some(at + 1))
    else if t[at] == ',' then Array(d, t, at + 1, path, i)
    else
      var v := Value(d, t, at, path + [Index(i)]);
      if v.end.None? then v
      else
        var rest := Array(d, t, v.end.value, path, i + 1);
        Scanned(v.found + rest.found, rest.end)
  }

  function InlineTable(d: Decoder, t: string, p: nat, path: Path): (r: Scanned)
    requires p <= |t|
    ensures r.end.Some? ==> p < r.end.value <= |t|
    decreases |t| - p, 1
  {
    var at := SkipWs(t, p);
    if at == |t| then RAISED
    else if t[at] == CLOSE_BRACE then Scanned([], Some(at + 1))
    else if t[at] == ',' then InlineTable(d, t, at + 1, path)
    else
      var v := Pair(d, t, at, path);
      if v.end.None? then v
      else
        var rest := InlineTable(d, t, v.end.value, path);
        Scanned(v.found + rest.found, rest.end)
  }

  // A pair's key and the place its value starts.
  function PairKey(d: Decoder, t: string, p: nat): (r: Option<(Path, nat)>)
    requires p <= |t|
    ensures r.Some? ==> p < r.value.1 <= |t|
  {
    match Key(d, t, p)
    case None => None
    case Some((keys, e)) =>
      var eq := SkipWs(t, e);
      if eq == |t| || t[eq] != '=' then None else Some((keys, SkipWs(t, eq + 1)))
  }

  // A secret pair hides its whole value; any other pair yields the spans in it.
  function Pair(d: Decoder, t: string, p: nat, prefix: Path): (r: Scanned)
    requires p <= |t|
    ensures r.end.Some? ==> p < r.end.value <= |t|
    decreases |t| - p, 0
  {
    match PairKey(d, t, p)
    case None => RAISED
    case Some((keys, start)) =>
      var v := Value(d, t, start, prefix + keys);
      if !UnderSecret(prefix + keys) then v
      else if v.end.None? then RAISED
      else Scanned([Span(prefix + keys, start, v.end.value)], v.end)
  }

  // -------------------------------------------------------------- document

  // The table a header names: an array of tables adds its current element.
  function HeaderPath(segments: Path, i: nat, path: Path, double: bool, arrays: map<Path, nat>)
    : (r: (Path, map<Path, nat>))
    requires i <= |segments|
    decreases |segments| - i
  {
    if i == |segments| then (path, arrays)
    else
      var here := path + [segments[i]];
      var arrays' := if double && i == |segments| - 1
                     then arrays[here := if here in arrays then arrays[here] + 1 else 0]
                     else arrays;
      HeaderPath(segments, i + 1,
                 if here in arrays' then here + [Index(arrays'[here])] else here,
                 double, arrays')
  }

  predicate DoubleAt(t: string, p: nat, c: char) {
    p + 2 <= |t| && t[p] == c && t[p + 1] == c
  }

  // A `[table]` or `[[table]]` line's key, from its bracket to the line's end.
  function HeaderKey(d: Decoder, t: string, p: nat): (r: Option<(Path, nat)>)
    requires p < |t| && t[p] == '['
    ensures r.Some? ==> p < r.value.1 <= |t|
  {
    var double := DoubleAt(t, p, '[');
    match Key(d, t, SkipWs(t, if double then p + 2 else p + 1))
    case None => None
    case Some((segments, e)) =>
      var close := SkipWs(t, e);
      if double then
        if DoubleAt(t, close, ']') then Some((segments, EndOfLine(t, close + 2))) else None
      else
        if close < |t| && t[close] == ']' then Some((segments, EndOfLine(t, close + 1))) else None
  }

  // The header's table, the arrays counted so far and the end of its line.
  function Header(d: Decoder, t: string, p: nat, arrays: map<Path, nat>)
    : (r: Option<(Path, map<Path, nat>, nat)>)
    requires p < |t| && t[p] == '['
    ensures r.Some? ==> p < r.value.2 <= |t|
  {
    match HeaderKey(d, t, p)
    case None => None
    case Some((segments, e)) =>
      var (table, arrays') := HeaderPath(segments, 0, [], DoubleAt(t, p, '['), arrays);
      Some((table, arrays', e))
  }

  function Walk(d: Decoder, t: string, p: nat, table: Path, arrays: map<Path, nat>): (r: Scanned)
    requires p <= |t|
    decreases |t| - p
  {
    var at := SkipBlank(t, p);
    if at == |t| then Scanned([], Some(at))
    else if t[at] == '#' then Walk(d, t, EndOfLine(t, at), table, arrays)
    else if t[at] == '[' then
      match Header(d, t, at, arrays)
      case None => RAISED
      case Some((table', arrays', e)) => Walk(d, t, e, table', arrays')
    else
      var v := Pair(d, t, at, table);
      if v.end.None? then v
      else
        var rest := Walk(d, t, EndOfLine(t, v.end.value), table, arrays);
        Scanned(v.found + rest.found, rest.end)
  }

  // The secret values of a text, up to the first place it stops scanning.
  function Spans(d: Decoder, t: string): seq<Span> {
    Walk(d, t, 0, [], map[]).found
  }
}

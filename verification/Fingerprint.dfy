// The canonical form behind a round's findings fingerprint (store/__init__.py).

module Fingerprint {

  datatype Result<+T> = Ok(value: T) | Err(problem: Problem)

  datatype Problem = NoPathOrSeverity | BadPath | SeparatorInPath | BadSeverity | BadLine

  datatype Option<+T> = None | Some(value: T)

  datatype LineField = Absent | Number(n: int) | NotAnInteger

  // A finding as read: `path` is none when it is no string.
  datatype Finding =
    | Malformed(evidenceOnly: bool)
    | Finding(path: Option<string>, severity: string, line: LineField, evidenceOnly: bool)

  datatype Key = Key(path: string, line: int, severity: string)

  const FIELD := '\U{001f}'
  const RECORD := '\U{001e}'
  const NO_LINE := -1
  const SEVERITIES := {"p0", "p1", "p2", "nit"}

  // The key of one finding, or the first thing wrong with it.
  function KeyOf(f: Finding): Result<Key> {
    if f.Malformed? then Err(NoPathOrSeverity)
    else if f.path.None? || f.path.value == "" then Err(BadPath)
    else if FIELD in f.path.value || RECORD in f.path.value then Err(SeparatorInPath)
    else if f.severity !in SEVERITIES then Err(BadSeverity)
    else
      match f.line
      case Absent => Ok(Key(f.path.value, NO_LINE, f.severity))
      case NotAnInteger => Err(BadLine)
      case Number(n) => if n < 1 then Err(BadLine) else Ok(Key(f.path.value, n, f.severity))
  }

  // `_finding_keys`: the counted findings' keys, or the first finding's problem.
  function KeysOf(findings: seq<Finding>): Result<set<Key>> {
    if findings == [] then Ok({})
    else
      match KeysOf(findings[..|findings| - 1])
      case Err(p) => Err(p)
      case Ok(keys) =>
        var last := findings[|findings| - 1];
        match KeyOf(last)
        case Err(p) => Err(p)
        case Ok(key) => Ok(if last.evidenceOnly then keys else keys + {key})
  }

  predicate Valid(k: Key) {
    k.path != "" && FIELD !in k.path && RECORD !in k.path && k.severity in SEVERITIES && (k.line == NO_LINE || k.line >= 1)
  }

  // A finding that reads: a path that is a non-empty string free of both
  // separators, one of the four severities, and a positive line or none.
  predicate Reads(f: Finding) {
    && f.Finding? && f.path.Some? && f.path.value != ""
    && (forall i :: 0 <= i < |f.path.value| ==> f.path.value[i] != FIELD && f.path.value[i] != RECORD)
    && (f.severity == "p0" || f.severity == "p1" || f.severity == "p2" || f.severity == "nit")
    && (f.line.Absent? || (f.line.Number? && f.line.n >= 1))
  }

  // A finding's own path, line and severity; without a line, no line's number.
  predicate Has(f: Finding, k: Key) {
    && f.Finding? && f.path == Some(k.path) && f.severity == k.severity
    && (if f.line.Absent? then k.line == -1 else f.line == Number(k.line))
  }

  lemma KeyOfIs(f: Finding)
    ensures KeyOf(f).Ok? <==> Reads(f)
    ensures Reads(f) ==> forall k :: Has(f, k) <==> k == KeyOf(f).value
  {
  }

  // The keys are those of the counted findings, whatever their order and
  // however often each occurs; one finding that does not read is an error.
  lemma {:induction false} KeysAre(findings: seq<Finding>)
    ensures var r := KeysOf(findings);
            && (r.Ok? <==> forall i :: 0 <= i < |findings| ==> Reads(findings[i]))
            && (r.Ok? ==> forall k :: k in r.value <==>
                  exists i :: 0 <= i < |findings| && !findings[i].evidenceOnly && Has(findings[i], k))
            && (r.Ok? ==> forall k :: k in r.value ==> Valid(k))
  {
    hide KeyOf, Reads, Has;
    if findings != [] {
      var front, last := findings[..|findings| - 1], findings[|findings| - 1];
      KeysAre(front);
      KeyOfIs(last);
      assert findings == front + [last];
      if KeysOf(findings).Ok? {
        KeyValid(last);
        forall k ensures k in KeysOf(findings).value <==>
          exists i :: 0 <= i < |findings| && !findings[i].evidenceOnly && Has(findings[i], k)
        {
          if k in KeysOf(front).value {
            var i :| 0 <= i < |front| && !front[i].evidenceOnly && Has(front[i], k);
            assert findings[i] == front[i];
          } else if k in KeysOf(findings).value {
            assert findings[|front|] == last;
          } else {
            forall i | 0 <= i < |findings| && !findings[i].evidenceOnly ensures !Has(findings[i], k) {
              if i < |front| { assert front[i] == findings[i]; }
            }
          }
        }
      }
    }
  }

  lemma KeyValid(f: Finding)
    ensures KeyOf(f).Ok? ==> Valid(KeyOf(f).value)
  {
  }

  // ------------------------------------------------------------ the text form

  function Decimal(n: nat): string {
    if n < 10 then [('0' as int + n) as char] else Decimal(n / 10) + [('0' as int + n % 10) as char]
  }

  function Str(n: int): string {
    if n < 0 then ['-'] + Decimal(-n) else Decimal(n)
  }

  function Value(s: string): int {
    if s == [] then 0 else Value(s[..|s| - 1]) * 10 + (s[|s| - 1] as int - '0' as int)
  }

  lemma {:induction false} DecimalReads(n: nat)
    ensures Decimal(n) != [] && Value(Decimal(n)) == n
    ensures forall i :: 0 <= i < |Decimal(n)| ==> '0' <= Decimal(n)[i] <= '9'
  {
    if n < 10 {
      assert Decimal(n)[..0] == [];
    } else {
      DecimalReads(n / 10);
      assert Decimal(n)[..|Decimal(n)| - 1] == Decimal(n / 10);
    }
  }

  lemma {:induction false} StrInjective(a: int, b: int)
    requires Str(a) == Str(b)
    ensures a == b
  {
    StrReads(a);
    StrReads(b);
  }

  lemma {:induction false} StrReads(n: int)
    ensures Str(n) != []
    ensures if Str(n)[0] == '-' then n == -Value(Str(n)[1..]) else n == Value(Str(n))
  {
    DecimalReads(if n < 0 then -n else n);
    if n < 0 { assert Str(n)[1..] == Decimal(-n); }
  }

  lemma {:induction false} StrPlain(n: int)
    ensures FIELD !in Str(n) && RECORD !in Str(n)
  {
    DecimalReads(if n < 0 then -n else n);
  }

  function Record(k: Key): string {
    k.path + [FIELD] + Str(k.line) + [FIELD] + k.severity
  }

  function Canonical(keys: seq<Key>): string {
    if keys == [] then "" else if |keys| == 1 then Record(keys[0])
    else Record(keys[0]) + [RECORD] + Canonical(keys[1..])
  }

  lemma {:induction false} NoShorter(c: char, a: string, x: string, b: string, y: string)
    requires a + [c] + x == b + [c] + y && c !in b
    ensures |b| <= |a|
  {
    CharAt(b, [c] + y, |a|);
    assert (a + [c] + x)[|a|] == c && b + [c] + y == b + ([c] + y);
  }

  lemma {:induction false} CharAt(a: string, b: string, i: nat)
    ensures i < |a| ==> (a + b)[i] in a
  {
  }

  // What comes before a character that is in neither part is read back.
  lemma {:induction false} SplitAt(c: char, a: string, x: string, b: string, y: string)
    requires c !in a && c !in b && a + [c] + x == b + [c] + y
    ensures a == b && x == y
  {
    NoShorter(c, a, x, b, y);
    NoShorter(c, b, y, a, x);
    assert (a + [c] + x)[..|a|] == a && (b + [c] + y)[..|b|] == b;
    assert (a + [c] + x)[|a| + 1..] == x && (b + [c] + y)[|b| + 1..] == y;
  }

  lemma {:induction false} RecordInjective(j: Key, k: Key)
    requires Valid(j) && Valid(k) && Record(j) == Record(k)
    ensures j == k
  {
    assert Record(j) == j.path + [FIELD] + (Str(j.line) + [FIELD] + j.severity);
    assert Record(k) == k.path + [FIELD] + (Str(k.line) + [FIELD] + k.severity);
    SplitAt(FIELD, j.path, Str(j.line) + [FIELD] + j.severity, k.path, Str(k.line) + [FIELD] + k.severity);
    StrPlain(j.line);
    StrPlain(k.line);
    SplitAt(FIELD, Str(j.line), j.severity, Str(k.line), k.severity);
    StrInjective(j.line, k.line);
  }

  lemma {:induction false} RecordPlain(k: Key)
    requires Valid(k)
    ensures RECORD !in Record(k) && Record(k) != ""
  {
    StrPlain(k.line);
  }

  lemma {:induction false} Length(a: seq<Key>)
    requires forall i :: 0 <= i < |a| ==> Valid(a[i])
    ensures Canonical(a) == "" <==> a == []
    ensures RECORD in Canonical(a) <==> |a| > 1
  {
    if a != [] {
      RecordPlain(a[0]);
      assert |a| > 1 ==> Canonical(a)[|Record(a[0])|] == RECORD;
    }
  }

  // The canonical form is read back: equal texts come from equal listings.
  lemma {:induction false} CanonicalInjective(a: seq<Key>, b: seq<Key>)
    requires (forall i :: 0 <= i < |a| ==> Valid(a[i])) && (forall i :: 0 <= i < |b| ==> Valid(b[i]))
    requires Canonical(a) == Canonical(b)
    ensures a == b
  {
    hide Record, Valid;
    Length(a);
    Length(b);
    if a != [] && |a| == 1 {
      RecordInjective(a[0], b[0]);
    } else if a != [] {
      RecordPlain(a[0]);
      RecordPlain(b[0]);
      SplitAt(RECORD, Record(a[0]), Canonical(a[1..]), Record(b[0]), Canonical(b[1..]));
      RecordInjective(a[0], b[0]);
      CanonicalInjective(a[1..], b[1..]);
      assert a == [a[0]] + a[1..] && b == [b[0]] + b[1..];
    }
  }

  // ---------------------------------------------------------------- the order

  predicate TextLess(a: string, b: string) {
    b != [] && (a == [] || a[0] < b[0] || (a[0] == b[0] && TextLess(a[1..], b[1..])))
  }

  lemma {:induction false} TextOrder(a: string, b: string, c: string)
    ensures !TextLess(a, a)
    ensures a == b || TextLess(a, b) || TextLess(b, a)
    ensures TextLess(a, b) && TextLess(b, c) ==> TextLess(a, c)
  {
    if a != [] && b != [] {
      TextOrder(a[1..], b[1..], if c == [] then [] else c[1..]);
      assert a == [a[0]] + a[1..] && b == [b[0]] + b[1..];
    } else if a != [] {
      TextOrder(a[1..], [], []);
    }
  }

  predicate Less(a: Key, b: Key) {
    TextLess(a.path, b.path)
    || (a.path == b.path && (a.line < b.line || (a.line == b.line && TextLess(a.severity, b.severity))))
  }

  lemma {:induction false} KeyOrder(a: Key, b: Key, c: Key)
    ensures !Less(a, a)
    ensures a == b || Less(a, b) || Less(b, a)
    ensures Less(a, b) && Less(b, c) ==> Less(a, c)
  {
    TextOrder(a.path, b.path, c.path);
    TextOrder(a.severity, b.severity, c.severity);
  }

  ghost predicate InOrder(s: seq<Key>) {
    forall i, j :: 0 <= i < j < |s| ==> Less(s[i], s[j])
  }

  // `s` is the sorted listing of the set.
  ghost predicate Lists(s: seq<Key>, keys: set<Key>) {
    InOrder(s) && forall k :: k in s <==> k in keys
  }

  // A set has one sorted listing.
  lemma {:induction false} OneListing(a: seq<Key>, b: seq<Key>, keys: set<Key>)
    requires Lists(a, keys) && Lists(b, keys)
    ensures a == b
  {
    hide Less;
    EmptyListing(a, keys);
    EmptyListing(b, keys);
    if a != [] {
      FirstIsLeast(a, b, keys);
      assert a == [a[0]] + a[1..] && b == [b[0]] + b[1..];
      RestLists(a, keys);
      RestLists(b, keys);
      OneListing(a[1..], b[1..], keys - {a[0]});
    }
  }

  lemma {:induction false} EmptyListing(a: seq<Key>, keys: set<Key>)
    requires Lists(a, keys)
    ensures a == [] <==> keys == {}
  {
    if a != [] { assert a[0] in keys; }
  }

  lemma {:induction false} FirstIsLeast(a: seq<Key>, b: seq<Key>, keys: set<Key>)
    requires Lists(a, keys) && Lists(b, keys) && a != [] && b != []
    ensures a[0] == b[0]
  {
    hide Less;
    assert a[0] in b && b[0] in a;
    var i :| 0 <= i < |b| && b[i] == a[0];
    var j :| 0 <= j < |a| && a[j] == b[0];
    KeyOrder(a[0], b[0], a[0]);
  }

  lemma {:induction false} RestLists(a: seq<Key>, keys: set<Key>)
    requires Lists(a, keys) && a != []
    ensures Lists(a[1..], keys - {a[0]})
  {
    hide Less;
    assert a == [a[0]] + a[1..];
    forall k | k in a[1..] ensures k != a[0] {
      var i :| 0 <= i < |a[1..]| && a[1..][i] == k;
      assert Less(a[0], a[i + 1]);
      KeyOrder(a[0], a[0], a[0]);
    }
  }

  // Equal canonical texts exactly when the key sets are equal, and the empty
  // text exactly for no key.
  lemma {:induction false} CanonicalIsInjective(a: seq<Key>, as': set<Key>, b: seq<Key>, bs: set<Key>)
    requires Lists(a, as') && Lists(b, bs) && (forall k :: k in as' ==> Valid(k)) && (forall k :: k in bs ==> Valid(k))
    ensures Canonical(a) == Canonical(b) <==> as' == bs
    ensures Canonical(a) == "" <==> as' == {}
  {
    hide Canonical, InOrder;
    forall i | 0 <= i < |a| ensures Valid(a[i]) {
      assert a[i] in a;
    }
    forall i | 0 <= i < |b| ensures Valid(b[i]) {
      assert b[i] in b;
    }
    if Canonical(a) == Canonical(b) {
      CanonicalInjective(a, b);
      assert forall k :: k in as' <==> k in bs;
    }
    if as' == bs { OneListing(a, b, as'); }
    Length(a);
    EmptyListing(a, as');
  }

  // ---------------------------------------------------------------- the loops

  method FindingKeys(findings: seq<Finding>) returns (r: Result<set<Key>>)
    ensures r == KeysOf(findings)
  {
    hide KeyOf;
    var keys: set<Key> := {};
    for i := 0 to |findings|
      invariant KeysOf(findings[..i]) == Ok(keys)
    {
      assert findings[..i + 1][..i] == findings[..i];
      var key := KeyOf(findings[i]);
      if key.Err? {
        Stops(findings, i + 1);
        return Err(key.problem);
      }
      if !findings[i].evidenceOnly { keys := keys + {key.value}; }
    }
    assert findings[..|findings|] == findings;
    return Ok(keys);
  }

  lemma {:induction false} Stops(findings: seq<Finding>, n: nat)
    requires n <= |findings| && KeysOf(findings[..n]).Err?
    ensures KeysOf(findings) == KeysOf(findings[..n])
    decreases |findings| - n
  {
    hide KeyOf;
    if n < |findings| {
      assert findings[..n + 1][..n] == findings[..n];
      Stops(findings, n + 1);
    } else {
      assert findings[..n] == findings;
    }
  }

  method Insert(s: seq<Key>, key: Key) returns (r: seq<Key>)
    requires InOrder(s) && key !in s
    ensures InOrder(r) && forall k :: k in r <==> k in s || k == key
  {
    hide Less;
    var i := |s|;
    while i > 0 && !Less(s[i - 1], key)
      invariant 0 <= i <= |s|
      invariant forall j :: i <= j < |s| ==> Less(key, s[j])
    {
      i := i - 1;
      KeyOrder(s[i], key, key);
    }
    if i > 0 {
      forall j | 0 <= j < i ensures Less(s[j], key) {
        KeyOrder(s[j], s[i - 1], key);
      }
    }
    assert s == s[..i] + s[i..];
    r := s[..i] + [key] + s[i..];
  }

  method Sorted(keys: set<Key>) returns (s: seq<Key>)
    ensures Lists(s, keys)
  {
    hide InOrder;
    s := [];
    NoneInOrder();
    var left := keys;
    while left != {}
      invariant InOrder(s) && left <= keys && forall k :: k in s <==> k in keys && k !in left
      decreases |left|
    {
      var k :| k in left;
      s := Insert(s, k);
      left := left - {k};
    }
  }

  lemma {:induction false} NoneInOrder()
    ensures InOrder([])
  {
  }

  // `findings_fingerprint`, with the digest opaque.
  method FindingsFingerprint(findings: seq<Finding>, digest: string -> string) returns (r: Result<string>)
    ensures KeysOf(findings).Err? ==> r == Err(KeysOf(findings).problem)
    ensures KeysOf(findings).Ok? ==> exists s :: Lists(s, KeysOf(findings).value) && r == Ok(digest(Canonical(s)))
  {
    hide Lists, KeysOf, Canonical;
    var keys := FindingKeys(findings);
    if keys.Err? { return Err(keys.problem); }
    var s := Sorted(keys.value);
    var text := CanonicalText(s);
    r := Ok(digest(text));
  }

  method CanonicalText(s: seq<Key>) returns (text: string)
    ensures text == Canonical(s)
  {
    hide Record;
    text := "";
    for i := 0 to |s|
      invariant text == Canonical(s[..i])
    {
      CanonicalSnoc(s[..i], s[i]);
      assert s[..i + 1] == s[..i] + [s[i]];
      text := if i == 0 then Record(s[i]) else text + [RECORD] + Record(s[i]);
    }
    assert s[..|s|] == s;
  }

  lemma {:induction false} CanonicalSnoc(s: seq<Key>, k: Key)
    ensures Canonical(s + [k]) == if s == [] then Record(k) else Canonical(s) + [RECORD] + Record(k)
  {
    hide Record;
    if s != [] {
      assert (s + [k])[1..] == s[1..] + [k];
      CanonicalSnoc(s[1..], k);
    }
  }

  // With a digest no two texts share, two rounds have the same fingerprint
  // exactly when their counted findings have the same keys.
  lemma {:induction false} FingerprintsAgree(a: seq<Finding>, s: seq<Key>, b: seq<Finding>, t: seq<Key>, digest: string -> string)
    requires forall x, y :: digest(x) == digest(y) ==> x == y
    requires KeysOf(a).Ok? && KeysOf(b).Ok? && Lists(s, KeysOf(a).value) && Lists(t, KeysOf(b).value)
    ensures digest(Canonical(s)) == digest(Canonical(t)) <==> KeysOf(a).value == KeysOf(b).value
    ensures digest(Canonical(s)) == digest("") <==> forall i :: 0 <= i < |a| ==> a[i].evidenceOnly
  {
    hide Lists, Canonical, KeysOf;
    KeysAre(a);
    KeysAre(b);
    CanonicalIsInjective(s, KeysOf(a).value, t, KeysOf(b).value);
    if i :| 0 <= i < |a| && !a[i].evidenceOnly { assert KeyOf(a[i]).value in KeysOf(a).value; }
  }
}

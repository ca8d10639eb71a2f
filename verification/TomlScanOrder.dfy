// The spans of any text come in order, inside it, each of a secret.

module TomlScanOrder {
  import opened TomlScan

  // Spans past `lo` and up to `hi`, in increasing order, none overlapping.
  ghost predicate Ordered(xs: seq<Span>, lo: int, hi: int) {
    && (forall i :: 0 <= i < |xs| ==> lo < xs[i].start < xs[i].end <= hi)
    && (forall i, j :: 0 <= i < j < |xs| ==> xs[i].end < xs[j].start)
  }

  // Each span is under a secret-named segment and starts at its value.
  ghost predicate AllSecret(t: string, xs: seq<Span>) {
    forall i :: 0 <= i < |xs| ==>
      UnderSecret(xs[i].path) && xs[i].start < |t| && !In(t[xs[i].start], Ws)
  }

  function Reach(t: string, r: Scanned): int {
    if r.end.Some? then r.end.value else |t|
  }

  ghost predicate Good(t: string, lo: int, r: Scanned) {
    Ordered(r.found, lo, Reach(t, r)) && AllSecret(t, r.found)
  }

  lemma JoinGood(t: string, lo: int, a: Scanned, mid: int, b: Scanned)
    requires Good(t, lo, a) && a.end.Some? && lo <= a.end.value <= mid
    requires Good(t, mid, b) && (b.end.Some? ==> mid <= b.end.value) && mid <= |t|
    ensures Good(t, lo, Scanned(a.found + b.found, b.end))
  {
  }

  lemma WsBeforeBlank(t: string, p: nat)
    requires p <= |t|
    ensures SkipWs(t, p) <= SkipBlank(t, p)
    decreases |t| - p
  {
    if p < |t| && In(t[p], Ws) { WsBeforeBlank(t, p + 1); }
  }

  lemma {:induction false} ValueInOrder(d: Decoder, t: string, p: nat, path: Path)
    requires p <= |t|
    ensures Good(t, p, Value(d, t, p, path))
    decreases |t| - p, 0
  {
    if p < |t| && !IsQuote(t[p]) {
      if t[p] == '[' { ArrayInOrder(d, t, p + 1, path, 0); }
      else if t[p] == OPEN_BRACE { InlineTableInOrder(d, t, p + 1, path); }
    }
  }

  lemma {:induction false} ArrayInOrder(d: Decoder, t: string, p: nat, path: Path, i: nat)
    requires p <= |t|
    ensures Good(t, SkipWs(t, p), Array(d, t, p, path, i))
    decreases |t| - p, 1
  {
    hide SkipComments, Value, Skip, In, IsQuote;
    var at := SkipComments(t, SkipBlank(t, p));
    WsBeforeBlank(t, p);
    if at < |t| && t[at] != ']' {
      if t[at] == ',' {
        ArrayInOrder(d, t, at + 1, path, i);
      } else {
        var v := Value(d, t, at, path + [Index(i)]);
        ValueInOrder(d, t, at, path + [Index(i)]);
        if v.end.Some? {
          var rest := Array(d, t, v.end.value, path, i + 1);
          ArrayInOrder(d, t, v.end.value, path, i + 1);
          JoinGood(t, SkipWs(t, p), v, v.end.value, rest);
        }
      }
    }
  }

  lemma {:induction false} InlineTableInOrder(d: Decoder, t: string, p: nat, path: Path)
    requires p <= |t|
    ensures Good(t, SkipWs(t, p), InlineTable(d, t, p, path))
    decreases |t| - p, 1
  {
    var at := SkipWs(t, p);
    if at < |t| && t[at] != CLOSE_BRACE {
      if t[at] == ',' {
        InlineTableInOrder(d, t, at + 1, path);
      } else {
        var v := Pair(d, t, at, path);
        PairInOrder(d, t, at, path);
        if v.end.Some? {
          var rest := InlineTable(d, t, v.end.value, path);
          InlineTableInOrder(d, t, v.end.value, path);
          JoinGood(t, at, v, v.end.value, rest);
        }
      }
    }
  }

  lemma {:induction false} PairInOrder(d: Decoder, t: string, p: nat, prefix: Path)
    requires p <= |t|
    ensures Good(t, p, Pair(d, t, p, prefix))
    decreases |t| - p, 0
  {
    var key := PairKey(d, t, p);
    if key.Some? { ValueInOrder(d, t, key.value.1, prefix + key.value.0); }
  }

  lemma JoinFound(t: string, lo: int, a: seq<Span>, mid: int, b: seq<Span>, next: int, hi: int)
    requires Ordered(a, lo, mid) && AllSecret(t, a) && Ordered(b, next, hi) && AllSecret(t, b)
    requires lo <= mid <= next <= hi
    ensures Ordered(a + b, lo, hi) && AllSecret(t, a + b)
  {
  }

  lemma NothingFound(t: string, lo: int, hi: int)
    ensures Ordered([], lo, hi) && AllSecret(t, [])
  {
  }

  lemma OrderedFrom(xs: seq<Span>, lo: int, next: int, hi: int)
    requires Ordered(xs, next, hi) && lo <= next
    ensures Ordered(xs, lo, hi)
  {
  }

  lemma {:induction false} WalkInOrder(d: Decoder, t: string, p: nat, table: Path, arrays: map<Path, nat>)
    requires p <= |t|
    ensures Ordered(Walk(d, t, p, table, arrays).found, SkipBlank(t, p), |t|)
    ensures AllSecret(t, Walk(d, t, p, table, arrays).found)
    decreases |t| - p
  {
    hide Ordered, AllSecret, Pair, Header;
    var at := SkipBlank(t, p);
    NothingFound(t, at, |t|);
    if at < |t| {
      if t[at] == '#' {
        var next := EndOfLine(t, at);
        WalkInOrder(d, t, next, table, arrays);
        OrderedFrom(Walk(d, t, next, table, arrays).found, at, SkipBlank(t, next), |t|);
      } else if t[at] == '[' {
        var h := Header(d, t, at, arrays);
        if h.Some? {
          var (table', arrays', next) := h.value;
          WalkInOrder(d, t, next, table', arrays');
          OrderedFrom(Walk(d, t, next, table', arrays').found, at, SkipBlank(t, next), |t|);
        }
      } else {
        var v := Pair(d, t, at, table);
        PairInOrder(d, t, at, table);
        if v.end.Some? {
          var next := EndOfLine(t, v.end.value);
          var rest := Walk(d, t, next, table, arrays).found;
          WalkInOrder(d, t, next, table, arrays);
          JoinFound(t, at, v.found, v.end.value, rest, SkipBlank(t, next), |t|);
        }
      }
    }
  }

  // For every text: its spans are inside it, in increasing order, disjoint
  // and each under a secret-named segment.
  lemma SpansInOrder(d: Decoder, t: string)
    ensures Ordered(Spans(d, t), -1, |t|)
    ensures AllSecret(t, Spans(d, t))
  {
    WalkInOrder(d, t, 0, [], map[]);
  }
}

// How the scanner depends on the text: a scan does not look behind its start,
// and a scan that ends before a place does not depend on what stands from that
// place on.

module TomlScanFacts {
  import opened TomlScan
  import opened TomlScanOrder

  // ----------------------------------------------------------------- moves

  // Where position `i` goes when the text after `s` moves by `dx`.
  function At(s: int, dx: int, i: int): int {
    if i <= s then i else i + dx
  }

  ghost predicate Moved(s: int, dx: int, xs: seq<Span>, ys: seq<Span>) {
    && |ys| == |xs|
    && forall i :: 0 <= i < |xs| ==>
         && ys[i].path == xs[i].path
         && ys[i].start == At(s, dx, xs[i].start)
         && ys[i].end == At(s, dx, xs[i].end)
  }

  ghost predicate EndMoved(s: int, dx: int, x: Option<nat>, y: Option<nat>) {
    x.Some? == y.Some? && (x.Some? ==> y.value == At(s, dx, x.value))
  }

  ghost predicate ScanMoved(s: int, dx: int, x: Scanned, y: Scanned) {
    Moved(s, dx, x.found, y.found) && EndMoved(s, dx, x.end, y.end)
  }

  // From `k` on, `t` stands in `u` moved by `dx`.
  ghost predicate Tail(t: string, u: string, k: nat, dx: int) {
    k <= |t| && |u| == |t| + dx && 0 <= k + dx && u[k + dx..] == t[k..]
  }

  lemma TailLength(t: string, u: string, k: nat, dx: int)
    requires Tail(t, u, k, dx)
    ensures k <= |t| && |u| == |t| + dx && 0 <= k + dx
  {
  }

  lemma TailAt(t: string, u: string, k: nat, dx: int, i: nat)
    requires Tail(t, u, k, dx) && k <= i < |t|
    ensures u[i + dx] == t[i]
  {
    assert u[k + dx..][i - k] == t[k..][i - k];
  }

  // `t` and `u` agree before `k`.
  ghost predicate Head(t: string, u: string, k: nat) {
    k <= |t| && k <= |u| && forall i {:trigger t[i]} :: 0 <= i < k ==> u[i] == t[i]
  }

  // ------------------------------------------- a scan does not look behind

  lemma SkipShift(t: string, u: string, k: nat, dx: int, p: nat, c: CharClass)
    requires Tail(t, u, k, dx) && k <= p <= |t|
    ensures Skip(u, p + dx, c) == Skip(t, p, c) + dx
    decreases |t| - p
  {
    if p < |t| {
      TailAt(t, u, k, dx, p);
      if In(t[p], c) { SkipShift(t, u, k, dx, p + 1, c); }
    }
  }

  lemma BlankShift(t: string, u: string, k: nat, dx: int, p: nat)
    requires Tail(t, u, k, dx) && k <= p <= |t|
    ensures SkipBlank(u, p + dx) == SkipBlank(t, p) + dx
  {
    SkipShift(t, u, k, dx, p, Blank);
  }

  lemma LineShift(t: string, u: string, k: nat, dx: int, p: nat)
    requires Tail(t, u, k, dx) && k <= p <= |t|
    ensures EndOfLine(u, p + dx) == EndOfLine(t, p) + dx
  {
    SkipShift(t, u, k, dx, p, InLine);
  }

  lemma SliceShift(t: string, u: string, k: nat, dx: int, p: nat, e: nat)
    requires Tail(t, u, k, dx) && k <= p <= e <= |t|
    ensures u[p + dx..e + dx] == t[p..e]
  {
    forall i | 0 <= i < e - p ensures u[p + dx..e + dx][i] == t[p..e][i] {
      TailAt(t, u, k, dx, p + i);
    }
  }

  lemma StripShift(t: string, u: string, k: nat, dx: int, p: nat, e: nat)
    requires Tail(t, u, k, dx) && k <= p <= e <= |t|
    ensures StripEnd(u, p + dx, e + dx) == StripEnd(t, p, e) + dx
  {
    if e > p && In(t[e - 1], Ws) {
      TailAt(t, u, k, dx, e - 1);
      StripShift(t, u, k, dx, p, e - 1);
    } else if e > p {
      TailAt(t, u, k, dx, e - 1);
    }
  }

  lemma TripleShift(t: string, u: string, k: nat, dx: int, p: nat, q: char)
    requires Tail(t, u, k, dx) && k <= p <= |t|
    ensures TripleAt(u, p + dx, q) == TripleAt(t, p, q)
  {
    if p + 3 <= |t| {
      TailAt(t, u, k, dx, p);
      TailAt(t, u, k, dx, p + 1);
      TailAt(t, u, k, dx, p + 2);
    }
  }

  ghost predicate NatMoved(dx: int, x: Option<nat>, y: Option<nat>) {
    x.Some? == y.Some? && (x.Some? ==> y.value == x.value + dx)
  }

  lemma LongStringShift(t: string, u: string, k: nat, dx: int, p: nat, q: char)
    requires Tail(t, u, k, dx) && k <= p
    ensures NatMoved(dx, LongString(t, p, q), LongString(u, p + dx, q))
    decreases |t| - p
  {
    if p < |t| {
      TailAt(t, u, k, dx, p);
      TripleShift(t, u, k, dx, p, q);
      if Escapes(t, p, q) {
        LongStringShift(t, u, k, dx, p + 2, q);
      } else if TripleAt(t, p, q) {
        if p + 3 < |t| {
          TailAt(t, u, k, dx, p + 3);
          if p + 4 < |t| { TailAt(t, u, k, dx, p + 4); }
        }
      } else {
        LongStringShift(t, u, k, dx, p + 1, q);
      }
    }
  }

  lemma ShortStringShift(t: string, u: string, k: nat, dx: int, p: nat, q: char)
    requires Tail(t, u, k, dx) && k <= p
    ensures NatMoved(dx, ShortString(t, p, q), ShortString(u, p + dx, q))
    decreases |t| - p
  {
    if p < |t| {
      TailAt(t, u, k, dx, p);
      if Escapes(t, p, q) { ShortStringShift(t, u, k, dx, p + 2, q); }
      else { ShortStringShift(t, u, k, dx, p + 1, q); }
    }
  }

  lemma StringShift(t: string, u: string, k: nat, dx: int, p: nat)
    requires Tail(t, u, k, dx) && k <= p < |t|
    ensures NatMoved(dx, StringEnd(t, p), StringEnd(u, p + dx))
  {
    TailAt(t, u, k, dx, p);
    TripleShift(t, u, k, dx, p, t[p]);
    if TripleAt(t, p, t[p]) { LongStringShift(t, u, k, dx, p + 3, t[p]); }
    else { ShortStringShift(t, u, k, dx, p + 1, t[p]); }
  }

  ghost predicate KeyMoved(dx: int, x: Option<(Path, nat)>, y: Option<(Path, nat)>) {
    && x.Some? == y.Some?
    && (x.Some? ==> y.value.0 == x.value.0 && y.value.1 == x.value.1 + dx)
  }

  lemma KeySegmentShift(d: Decoder, t: string, u: string, k: nat, dx: int, p: nat)
    requires Tail(t, u, k, dx) && k <= p <= |t|
    ensures var x, y := KeySegment(d, t, p), KeySegment(d, u, p + dx);
            && x.Some? == y.Some?
            && (x.Some? ==> y.value.0 == x.value.0 && y.value.1 == x.value.1 + dx)
  {
    if p < |t| {
      TailAt(t, u, k, dx, p);
      if IsQuote(t[p]) {
        StringShift(t, u, k, dx, p);
        var e := StringEnd(t, p);
        if e.Some? { SliceShift(t, u, k, dx, p, e.value); }
      } else {
        SkipShift(t, u, k, dx, p, Bare);
        SliceShift(t, u, k, dx, p, Skip(t, p, Bare));
      }
    }
  }

  lemma {:induction false} KeyShift(d: Decoder, t: string, u: string, k: nat, dx: int, p: nat)
    requires Tail(t, u, k, dx) && k <= p <= |t|
    ensures KeyMoved(dx, Key(d, t, p), Key(d, u, p + dx))
    decreases |t| - p
  {
    hide KeySegment, Tail, Skip;
    TailLength(t, u, k, dx);
    SkipShift(t, u, k, dx, p, Ws);
    KeySegmentShift(d, t, u, k, dx, SkipWs(t, p));
    var s := KeySegment(d, t, SkipWs(t, p));
    if s.Some? {
      SkipShift(t, u, k, dx, s.value.1, Ws);
      var after := SkipWs(t, s.value.1);
      if after < |t| {
        TailAt(t, u, k, dx, after);
        if t[after] == '.' { KeyShift(d, t, u, k, dx, after + 1); }
      }
    }
  }

  lemma BareScalarShift(t: string, u: string, k: nat, dx: int, p: nat)
    requires Tail(t, u, k, dx) && k <= p <= |t|
    ensures NatMoved(dx, BareScalar(t, p), BareScalar(u, p + dx))
  {
    SkipShift(t, u, k, dx, p, Scalar);
    StripShift(t, u, k, dx, p, Skip(t, p, Scalar));
  }

  lemma {:induction false} SkipCommentsShift(t: string, u: string, k: nat, dx: int, p: nat)
    requires Tail(t, u, k, dx) && k <= p <= |t|
    ensures SkipComments(u, p + dx) == SkipComments(t, p) + dx
    decreases |t| - p
  {
    if p < |t| {
      TailAt(t, u, k, dx, p);
      if t[p] == '#' {
        SkipShift(t, u, k, dx, p, InLine);
        SkipShift(t, u, k, dx, EndOfLine(t, p), Blank);
        SkipCommentsShift(t, u, k, dx, SkipBlank(t, EndOfLine(t, p)));
      }
    }
  }

  lemma NoneMoved(s: int, dx: int)
    ensures Moved(s, dx, [], [])
  {
  }

  lemma JoinMoved(s: int, dx: int, a: Scanned, a': Scanned, b: Scanned, b': Scanned)
    requires ScanMoved(s, dx, a, a') && ScanMoved(s, dx, b, b')
    ensures ScanMoved(s, dx, Scanned(a.found + b.found, b.end), Scanned(a'.found + b'.found, b'.end))
  {
  }

  lemma {:induction false} ValueShift(
      d: Decoder, t: string, u: string, s: int, k: nat, dx: int, p: nat, path: Path)
    requires Tail(t, u, k, dx) && s < k <= p <= |t|
    ensures ScanMoved(s, dx, Value(d, t, p, path), Value(d, u, p + dx, path))
    decreases |t| - p, 0
  {
    hide Tail, Moved, StringEnd, BareScalar, Array, InlineTable, IsQuote;
    TailLength(t, u, k, dx);
    NoneMoved(s, dx);
    if p < |t| {
      TailAt(t, u, k, dx, p);
      if IsQuote(t[p]) { StringShift(t, u, k, dx, p); }
      else if t[p] == '[' { ArrayShift(d, t, u, s, k, dx, p + 1, path, 0); }
      else if t[p] == OPEN_BRACE { InlineTableShift(d, t, u, s, k, dx, p + 1, path); }
      else { BareScalarShift(t, u, k, dx, p); }
    }
  }

  lemma {:induction false} ArrayShift(
      d: Decoder, t: string, u: string, s: int, k: nat, dx: int, p: nat, path: Path, i: nat)
    requires Tail(t, u, k, dx) && s < k <= p <= |t|
    ensures ScanMoved(s, dx, Array(d, t, p, path, i), Array(d, u, p + dx, path, i))
    decreases |t| - p, 1
  {
    hide SkipComments, Tail, Moved, Value, Skip, In;
    TailLength(t, u, k, dx);
    NoneMoved(s, dx);
    SkipShift(t, u, k, dx, p, Blank);
    SkipCommentsShift(t, u, k, dx, SkipBlank(t, p));
    var at := SkipComments(t, SkipBlank(t, p));
    if at < |t| {
      TailAt(t, u, k, dx, at);
      if t[at] == ',' {
        ArrayShift(d, t, u, s, k, dx, at + 1, path, i);
      } else if t[at] != ']' {
        ValueShift(d, t, u, s, k, dx, at, path + [Index(i)]);
        var v := Value(d, t, at, path + [Index(i)]);
        if v.end.Some? {
          ArrayShift(d, t, u, s, k, dx, v.end.value, path, i + 1);
          JoinMoved(s, dx, v, Value(d, u, at + dx, path + [Index(i)]),
                    Array(d, t, v.end.value, path, i + 1), Array(d, u, v.end.value + dx, path, i + 1));
        }
      }
    }
  }

  lemma {:induction false} InlineTableShift(
      d: Decoder, t: string, u: string, s: int, k: nat, dx: int, p: nat, path: Path)
    requires Tail(t, u, k, dx) && s < k <= p <= |t|
    ensures ScanMoved(s, dx, InlineTable(d, t, p, path), InlineTable(d, u, p + dx, path))
    decreases |t| - p, 1
  {
    hide Tail, Moved, Pair, Skip;
    TailLength(t, u, k, dx);
    NoneMoved(s, dx);
    SkipShift(t, u, k, dx, p, Ws);
    var at := SkipWs(t, p);
    if at < |t| {
      TailAt(t, u, k, dx, at);
      if t[at] == ',' {
        InlineTableShift(d, t, u, s, k, dx, at + 1, path);
      } else if t[at] != CLOSE_BRACE {
        PairShift(d, t, u, s, k, dx, at, path);
        var v := Pair(d, t, at, path);
        if v.end.Some? {
          InlineTableShift(d, t, u, s, k, dx, v.end.value, path);
          JoinMoved(s, dx, v, Pair(d, u, at + dx, path),
                    InlineTable(d, t, v.end.value, path), InlineTable(d, u, v.end.value + dx, path));
        }
      }
    }
  }

  lemma PairKeyShift(d: Decoder, t: string, u: string, k: nat, dx: int, p: nat)
    requires Tail(t, u, k, dx) && k <= p <= |t|
    ensures KeyMoved(dx, PairKey(d, t, p), PairKey(d, u, p + dx))
  {
    hide Key, In;
    KeyShift(d, t, u, k, dx, p);
    var key := Key(d, t, p);
    if key.Some? {
      SkipShift(t, u, k, dx, key.value.1, Ws);
      var eq := SkipWs(t, key.value.1);
      if eq < |t| {
        TailAt(t, u, k, dx, eq);
        SkipShift(t, u, k, dx, eq + 1, Ws);
      }
    }
  }

  lemma {:induction false} PairShift(
      d: Decoder, t: string, u: string, s: int, k: nat, dx: int, p: nat, prefix: Path)
    requires Tail(t, u, k, dx) && s < k <= p <= |t|
    ensures ScanMoved(s, dx, Pair(d, t, p, prefix), Pair(d, u, p + dx, prefix))
    decreases |t| - p, 0
  {
    hide Tail, Moved, PairKey, Value;
    TailLength(t, u, k, dx);
    NoneMoved(s, dx);
    PairKeyShift(d, t, u, k, dx, p);
    var key := PairKey(d, t, p);
    if key.Some? {
      ValueShift(d, t, u, s, k, dx, key.value.1, prefix + key.value.0);
      OneMoved(s, dx, prefix + key.value.0, key.value.1, Value(d, t, key.value.1, prefix + key.value.0).end);
    }
  }

  // A span after `s` that ends where the scan does moves with it.
  lemma OneMoved(s: int, dx: int, path: Path, start: nat, end: Option<nat>)
    requires s < start && 0 <= start + dx
    requires end.Some? ==> start < end.value && 0 <= end.value + dx
    ensures end.Some? ==> Moved(s, dx, [Span(path, start, end.value)], [Span(path, start + dx, end.value + dx)])
  {
  }

  lemma DoubleShift(t: string, u: string, k: nat, dx: int, p: nat, c: char)
    requires Tail(t, u, k, dx) && k <= p <= |t|
    ensures DoubleAt(u, p + dx, c) == DoubleAt(t, p, c)
  {
    if p + 2 <= |t| {
      TailAt(t, u, k, dx, p);
      TailAt(t, u, k, dx, p + 1);
    }
  }

  lemma HeaderKeyShift(d: Decoder, t: string, u: string, k: nat, dx: int, p: nat)
    requires Tail(t, u, k, dx) && k <= p < |t| && t[p] == '['
    ensures u[p + dx] == '[' && KeyMoved(dx, HeaderKey(d, t, p), HeaderKey(d, u, p + dx))
  {
    hide Key, Tail, Skip, DoubleAt, In;
    TailLength(t, u, k, dx);
    TailAt(t, u, k, dx, p);
    DoubleShift(t, u, k, dx, p, '[');
    var double := DoubleAt(t, p, '[');
    if double { DoubleLength(t, p, '['); }
    var key := if double then p + 2 else p + 1;
    SkipShift(t, u, k, dx, key, Ws);
    KeyShift(d, t, u, k, dx, SkipWs(t, key));
    var x := Key(d, t, SkipWs(t, key));
    if x.Some? {
      SkipShift(t, u, k, dx, x.value.1, Ws);
      var close := SkipWs(t, x.value.1);
      if double {
        DoubleShift(t, u, k, dx, close, ']');
        if DoubleAt(t, close, ']') {
          DoubleLength(t, close, ']');
          SkipShift(t, u, k, dx, close + 2, InLine);
        }
      } else if close < |t| {
        TailAt(t, u, k, dx, close);
        SkipShift(t, u, k, dx, close + 1, InLine);
      }
    }
  }

  lemma DoubleLength(t: string, p: nat, c: char)
    requires DoubleAt(t, p, c)
    ensures p + 2 <= |t|
  {
  }

  lemma HeaderShift(d: Decoder, t: string, u: string, k: nat, dx: int, p: nat, arrays: map<Path, nat>)
    requires Tail(t, u, k, dx) && k <= p < |t| && t[p] == '['
    ensures u[p + dx] == '['
    ensures var x, y := Header(d, t, p, arrays), Header(d, u, p + dx, arrays);
            && x.Some? == y.Some?
            && (x.Some? ==> && y.value.0 == x.value.0 && y.value.1 == x.value.1
                            && y.value.2 == x.value.2 + dx)
  {
    hide HeaderPath, HeaderKey;
    HeaderKeyShift(d, t, u, k, dx, p);
    DoubleShift(t, u, k, dx, p, '[');
  }

  lemma CommentEnds(t: string, p: nat)
    requires p < |t| && t[p] == '#'
    ensures EndOfLine(t, p) > p
  {
  }

  lemma {:induction false} WalkShift(
      d: Decoder, t: string, u: string, s: int, k: nat, dx: int, p: nat, table: Path, arrays: map<Path, nat>)
    requires Tail(t, u, k, dx) && s < k <= p <= |t|
    ensures ScanMoved(s, dx, Walk(d, t, p, table, arrays), Walk(d, u, p + dx, table, arrays))
    decreases |t| - p
  {
    hide Header, Pair, Tail, Moved, Skip, SkipBlank, EndOfLine;
    TailLength(t, u, k, dx);
    NoneMoved(s, dx);
    BlankShift(t, u, k, dx, p);
    var at := SkipBlank(t, p);
    if at < |t| {
      TailAt(t, u, k, dx, at);
      if t[at] == '#' {
        LineShift(t, u, k, dx, at);
        CommentEnds(t, at);
        CommentEnds(u, at + dx);
        WalkShift(d, t, u, s, k, dx, EndOfLine(t, at), table, arrays);
      } else if t[at] == '[' {
        HeaderShift(d, t, u, k, dx, at, arrays);
        var h := Header(d, t, at, arrays);
        if h.Some? { WalkShift(d, t, u, s, k, dx, h.value.2, h.value.0, h.value.1); }
      } else {
        PairShift(d, t, u, s, k, dx, at, table);
        var v := Pair(d, t, at, table);
        if v.end.Some? {
          LineShift(t, u, k, dx, v.end.value);
          var next := EndOfLine(t, v.end.value);
          WalkShift(d, t, u, s, k, dx, next, table, arrays);
          JoinMoved(s, dx, v, Pair(d, u, at + dx, table),
                    Walk(d, t, next, table, arrays), Walk(d, u, next + dx, table, arrays));
        }
      }
    }
  }

  // ----------------------------- a scan does not depend on what follows it

  // A run ends before `k`, or at `k` for a reason `u` shares.
  ghost predicate StopsAt(u: string, k: nat, e: nat, c: CharClass) {
    e < k || (e == k < |u| && !In(u[k], c))
  }

  lemma SkipLocal(t: string, u: string, k: nat, p: nat, c: CharClass)
    requires Head(t, u, k) && p <= |t| && StopsAt(u, k, Skip(t, p, c), c)
    ensures Skip(u, p, c) == Skip(t, p, c)
    decreases |t| - p
  {
    if p < k {
      assert u[p] == t[p];
      if In(t[p], c) { SkipLocal(t, u, k, p + 1, c); }
    }
  }

  lemma StripLocal(t: string, u: string, k: nat, p: nat, e: nat)
    requires Head(t, u, k) && p <= e <= k
    ensures StripEnd(u, p, e) == StripEnd(t, p, e)
  {
    if e > p {
      assert u[e - 1] == t[e - 1];
      if In(t[e - 1], Ws) { StripLocal(t, u, k, p, e - 1); }
    }
  }

  lemma LongStringLocal(t: string, u: string, k: nat, p: nat, q: char)
    requires Head(t, u, k) && LongString(t, p, q).Some? && LongString(t, p, q).value < k
    ensures LongString(u, p, q) == LongString(t, p, q)
    decreases |t| - p
  {
    assert u[p] == t[p] && u[p + 1] == t[p + 1] && u[p + 2] == t[p + 2];
    if Escapes(t, p, q) {
      LongStringLocal(t, u, k, p + 2, q);
    } else if TripleAt(t, p, q) {
      assert u[p + 3] == t[p + 3];
      if ExtraQuotes(t, p + 3, q) > p + 3 { assert u[p + 4] == t[p + 4]; }
    } else {
      LongStringLocal(t, u, k, p + 1, q);
    }
  }

  lemma ShortStringLocal(t: string, u: string, k: nat, p: nat, q: char)
    requires Head(t, u, k) && ShortString(t, p, q).Some? && ShortString(t, p, q).value <= k
    ensures ShortString(u, p, q) == ShortString(t, p, q)
    decreases |t| - p
  {
    assert u[p] == t[p];
    if Escapes(t, p, q) { ShortStringLocal(t, u, k, p + 2, q); }
    else if t[p] != q { ShortStringLocal(t, u, k, p + 1, q); }
  }

  lemma StringLocal(t: string, u: string, k: nat, p: nat)
    requires Head(t, u, k) && p < |t| && StringEnd(t, p).Some? && StringEnd(t, p).value < k
    ensures p < |u| && u[p] == t[p] && StringEnd(u, p) == StringEnd(t, p)
  {
    assert u[p] == t[p] && u[p + 1] == t[p + 1];
    if TripleAt(t, p, t[p]) {
      assert u[p + 2] == t[p + 2];
      LongStringLocal(t, u, k, p + 3, t[p]);
    } else {
      if p + 2 < k { assert u[p + 2] == t[p + 2]; }
      ShortStringLocal(t, u, k, p + 1, t[p]);
    }
  }

  lemma KeySegmentLocal(d: Decoder, t: string, u: string, k: nat, p: nat)
    requires Head(t, u, k) && p <= |t|
    requires KeySegment(d, t, p).Some? && KeySegment(d, t, p).value.1 < k
    ensures KeySegment(d, u, p) == KeySegment(d, t, p)
  {
    var e := KeySegment(d, t, p).value.1;
    assert u[p] == t[p];
    assert u[p..e] == t[p..e];
    if IsQuote(t[p]) { StringLocal(t, u, k, p); }
    else { SkipLocal(t, u, k, p, Bare); }
  }

  lemma {:induction false} KeyLocal(d: Decoder, t: string, u: string, k: nat, p: nat)
    requires Head(t, u, k) && p <= |t|
    requires Key(d, t, p).Some? && SkipWs(t, Key(d, t, p).value.1) < k
    ensures Key(d, u, p) == Key(d, t, p)
    decreases |t| - p
  {
    hide KeySegment, Skip, In;
    var s := KeySegment(d, t, SkipWs(t, p)).value;
    var after := SkipWs(t, s.1);
    if after < |t| && t[after] == '.' {
      KeyLocal(d, t, u, k, after + 1);
    }
    assert after < k;
    SkipLocal(t, u, k, p, Ws);
    KeySegmentLocal(d, t, u, k, SkipWs(t, p));
    SkipLocal(t, u, k, s.1, Ws);
    assert u[after] == t[after];
  }

  lemma StripStop(t: string, p: nat, e: nat)
    requires p <= e <= |t|
    ensures SkipWs(t, StripEnd(t, p, e)) >= e
  {
    if e > p && In(t[e - 1], Ws) {
      StripStop(t, p, e - 1);
      SkipPast(t, StripEnd(t, p, e), e - 1, Ws);
    }
  }

  // A run that reaches `e` goes on past it when `t[e]` is in the class.
  lemma SkipPast(t: string, p: nat, e: nat, c: CharClass)
    requires p <= e < |t| && Skip(t, p, c) >= e && In(t[e], c)
    ensures Skip(t, p, c) > e
  {
  }

  lemma {:induction false} SkipCommentsLocal(t: string, u: string, k: nat, p: nat)
    requires Head(t, u, k) && p <= |t| && SkipComments(t, p) < k
    ensures SkipComments(u, p) == SkipComments(t, p)
    decreases |t| - p
  {
    assert u[p] == t[p];
    if t[p] == '#' {
      SkipLocal(t, u, k, p, InLine);
      SkipLocal(t, u, k, EndOfLine(t, p), Blank);
      SkipCommentsLocal(t, u, k, SkipBlank(t, EndOfLine(t, p)));
    }
  }

  lemma {:induction false} ValueLocal(d: Decoder, t: string, u: string, k: nat, p: nat, path: Path)
    requires Head(t, u, k) && p <= |t|
    requires Value(d, t, p, path).end.Some? && SkipWs(t, Value(d, t, p, path).end.value) < k
    ensures Value(d, u, p, path) == Value(d, t, p, path)
    decreases |t| - p, 0
  {
    assert u[p] == t[p];
    if IsQuote(t[p]) { StringLocal(t, u, k, p); }
    else if t[p] == '[' { ArrayLocal(d, t, u, k, p + 1, path, 0); }
    else if t[p] == OPEN_BRACE { InlineTableLocal(d, t, u, k, p + 1, path); }
    else {
      StripStop(t, p, Skip(t, p, Scalar));
      SkipLocal(t, u, k, p, Scalar);
      StripLocal(t, u, k, p, Skip(t, p, Scalar));
    }
  }

  lemma {:induction false} ArrayLocal(d: Decoder, t: string, u: string, k: nat, p: nat, path: Path, i: nat)
    requires Head(t, u, k) && p <= |t|
    requires Array(d, t, p, path, i).end.Some? && Array(d, t, p, path, i).end.value <= k
    ensures Array(d, u, p, path, i) == Array(d, t, p, path, i)
    decreases |t| - p, 1
  {
    hide Value, SkipComments, Skip, In;
    var at := SkipComments(t, SkipBlank(t, p));
    SkipLocal(t, u, k, p, Blank);
    SkipCommentsLocal(t, u, k, SkipBlank(t, p));
    assert u[at] == t[at];
    if t[at] == ',' {
      ArrayLocal(d, t, u, k, at + 1, path, i);
    } else if t[at] != ']' {
      var v := Value(d, t, at, path + [Index(i)]);
      WsBeforeBlank(t, v.end.value);
      ValueLocal(d, t, u, k, at, path + [Index(i)]);
      ArrayLocal(d, t, u, k, v.end.value, path, i + 1);
    }
  }

  lemma {:induction false} InlineTableLocal(d: Decoder, t: string, u: string, k: nat, p: nat, path: Path)
    requires Head(t, u, k) && p <= |t|
    requires InlineTable(d, t, p, path).end.Some? && InlineTable(d, t, p, path).end.value <= k
    ensures InlineTable(d, u, p, path) == InlineTable(d, t, p, path)
    decreases |t| - p, 1
  {
    var at := SkipWs(t, p);
    SkipLocal(t, u, k, p, Ws);
    assert u[at] == t[at];
    if t[at] == ',' {
      InlineTableLocal(d, t, u, k, at + 1, path);
    } else if t[at] != CLOSE_BRACE {
      var v := Pair(d, t, at, path);
      PairLocal(d, t, u, k, at, path);
      InlineTableLocal(d, t, u, k, v.end.value, path);
    }
  }

  lemma PairKeyLocal(d: Decoder, t: string, u: string, k: nat, p: nat)
    requires Head(t, u, k) && p <= |t|
    requires PairKey(d, t, p).Some? && StopsAt(u, k, PairKey(d, t, p).value.1, Ws)
    ensures PairKey(d, u, p) == PairKey(d, t, p)
  {
    hide Key, Skip;
    var key := Key(d, t, p).value;
    var eq := SkipWs(t, key.1);
    KeyLocal(d, t, u, k, p);
    SkipLocal(t, u, k, key.1, Ws);
    assert u[eq] == t[eq];
    SkipLocal(t, u, k, eq + 1, Ws);
  }

  lemma {:induction false} PairLocal(d: Decoder, t: string, u: string, k: nat, p: nat, prefix: Path)
    requires Head(t, u, k) && p <= |t|
    requires Pair(d, t, p, prefix).end.Some? && SkipWs(t, Pair(d, t, p, prefix).end.value) < k
    ensures Pair(d, u, p, prefix) == Pair(d, t, p, prefix)
    decreases |t| - p, 0
  {
    var key := PairKey(d, t, p).value;
    PairKeyLocal(d, t, u, k, p);
    ValueLocal(d, t, u, k, key.1, prefix + key.0);
  }

  lemma HeaderKeyLocal(d: Decoder, t: string, u: string, k: nat, p: nat)
    requires Head(t, u, k) && p < |t| && t[p] == '['
    requires HeaderKey(d, t, p).Some? && HeaderKey(d, t, p).value.1 < k
    ensures p < |u| && u[p] == '[' && DoubleAt(u, p, '[') == DoubleAt(t, p, '[')
    ensures HeaderKey(d, u, p) == HeaderKey(d, t, p)
  {
    hide Key, Skip;
    assert u[p] == t[p] && u[p + 1] == t[p + 1];
    var key := if DoubleAt(t, p, '[') then p + 2 else p + 1;
    var x := Key(d, t, SkipWs(t, key)).value;
    var close := SkipWs(t, x.1);
    KeyLocal(d, t, u, k, SkipWs(t, key));
    SkipLocal(t, u, k, key, Ws);
    SkipLocal(t, u, k, x.1, Ws);
    assert u[close] == t[close] && u[close + 1] == t[close + 1];
    SkipLocal(t, u, k, if DoubleAt(t, p, '[') then close + 2 else close + 1, InLine);
  }

  lemma HeaderLocal(d: Decoder, t: string, u: string, k: nat, p: nat, arrays: map<Path, nat>)
    requires Head(t, u, k) && p < |t| && t[p] == '['
    requires Header(d, t, p, arrays).Some? && Header(d, t, p, arrays).value.2 < k
    ensures p < |u| && u[p] == '[' && Header(d, u, p, arrays) == Header(d, t, p, arrays)
  {
    hide HeaderPath;
    HeaderKeyLocal(d, t, u, k, p);
  }
}

// Scanning commutes with swapping one complete value for another: the swapped
// text has the same spans, moved (holophyte/redact.py).

module TomlSwap {
  import opened TomlScan
  import opened TomlScanOrder
  import opened TomlScanFacts

  // ------------------------------------------------------------- one swap

  // `u` is `t` with the value at `[s, e)` swapped for a complete value that
  // ends at `e + dx`.
  ghost predicate Swapped(d: Decoder, t: string, u: string, s: nat, e: nat, dx: int) {
    && s < e <= |t| && s < e + dx
    && Head(t, u, s) && Tail(t, u, e, dx)
    && s < |u| && !In(t[s], Ws) && !In(u[s], Ws)
    && forall path :: Value(d, u, s, path).end == Some(e + dx)
  }

  ghost predicate Holds(xs: seq<Span>, s: nat, e: nat) {
    exists i :: 0 <= i < |xs| && xs[i].start == s && xs[i].end == e
  }

  lemma {:induction false} HoldsInJoin(xs: seq<Span>, ys: seq<Span>, s: nat, e: nat)
    requires Holds(xs + ys, s, e)
    ensures Holds(xs, s, e) || Holds(ys, s, e)
  {
    var i :| 0 <= i < |xs + ys| && (xs + ys)[i].start == s && (xs + ys)[i].end == e;
    if i < |xs| { assert xs[i].start == s; } else { assert ys[i - |xs|].start == s; }
  }

  lemma {:induction false} HeldBounds(xs: seq<Span>, lo: int, hi: int, s: nat, e: nat)
    requires Ordered(xs, lo, hi) && Holds(xs, s, e)
    ensures lo < s && e <= hi
  {
  }

  // Spans that end by `s` stay where they are.
  lemma {:induction false} BeforeStays(s: int, dx: int, r: Scanned, lo: int, hi: int)
    requires r.end.Some? && Ordered(r.found, lo, hi) && hi <= s && r.end.value <= s
    ensures ScanMoved(s, dx, r, r)
  {
  }

  lemma {:induction false} ValueSwap(
      d: Decoder, t: string, u: string, s: nat, e: nat, dx: int, p: nat, path: Path)
    requires Swapped(d, t, u, s, e, dx) && p <= |t|
    requires Holds(Value(d, t, p, path).found, s, e)
    ensures p <= |u| && ScanMoved(s, dx, Value(d, t, p, path), Value(d, u, p, path))
    decreases |t| - p, 0
  {
    hide Swapped;
    ValueInOrder(d, t, p, path);
    HeldBounds(Value(d, t, p, path).found, p, Reach(t, Value(d, t, p, path)), s, e);
    SwapHead(d, t, u, s, e, dx, p);
    if t[p] == '[' { ArraySwap(d, t, u, s, e, dx, p + 1, path, 0); }
    else { InlineTableSwap(d, t, u, s, e, dx, p + 1, path); }
  }

  lemma {:induction false} SwapHead(d: Decoder, t: string, u: string, s: nat, e: nat, dx: int, p: nat)
    requires Swapped(d, t, u, s, e, dx) && p < s
    ensures p < |t| && p < |u| && u[p] == t[p] && Head(t, u, s) && Tail(t, u, e, dx) && s < e
  {
    assert u[p] == t[p];
  }

  lemma {:induction false} ArraySwap(
      d: Decoder, t: string, u: string, s: nat, e: nat, dx: int, p: nat, path: Path, i: nat)
    requires Swapped(d, t, u, s, e, dx) && p <= |t|
    requires Holds(Array(d, t, p, path, i).found, s, e)
    ensures p <= |u| && ScanMoved(s, dx, Array(d, t, p, path, i), Array(d, u, p, path, i))
    decreases |t| - p, 1
  {
    hide Swapped, Head, Tail, Moved, Holds, Skip, Value, Ordered, SkipComments;
    var at := SkipComments(t, SkipBlank(t, p));
    ArrayHolds(d, t, p, path, i, s, e);
    SwapHead(d, t, u, s, e, dx, at);
    SkipLocal(t, u, s, p, Blank);
    SkipCommentsLocal(t, u, s, SkipBlank(t, p));
    if t[at] == ',' {
      ArraySwap(d, t, u, s, e, dx, at + 1, path, i);
    } else {
      var v := Value(d, t, at, path + [Index(i)]);
      ValueInOrder(d, t, at, path + [Index(i)]);
      if v.end.None? {
        ValueSwap(d, t, u, s, e, dx, at, path + [Index(i)]);
      } else {
        var next := v.end.value;
        var rest := Array(d, t, next, path, i + 1);
        var v' := Value(d, u, at, path + [Index(i)]);
        HoldsInJoin(v.found, rest.found, s, e);
        if Holds(v.found, s, e) {
          ValueSwap(d, t, u, s, e, dx, at, path + [Index(i)]);
          HeldBounds(v.found, at, next, s, e);
          ArrayShift(d, t, u, s, e, dx, next, path, i + 1);
          JoinMoved(s, dx, v, v', rest, Array(d, u, next + dx, path, i + 1));
        } else {
          ArrayInOrder(d, t, next, path, i + 1);
          HeldBounds(rest.found, SkipWs(t, next), Reach(t, rest), s, e);
          ValueLocal(d, t, u, s, at, path + [Index(i)]);
          BeforeStays(s, dx, v, at, next);
          ArraySwap(d, t, u, s, e, dx, next, path, i + 1);
          JoinMoved(s, dx, v, v', rest, Array(d, u, next, path, i + 1));
        }
      }
    }
  }

  lemma {:induction false} ArrayHolds(d: Decoder, t: string, p: nat, path: Path, i: nat, s: nat, e: nat)
    requires p <= |t| && Holds(Array(d, t, p, path, i).found, s, e)
    ensures SkipComments(t, SkipBlank(t, p)) < s && SkipComments(t, SkipBlank(t, p)) < |t|
    ensures t[SkipComments(t, SkipBlank(t, p))] != ']'
  {
    var at := SkipComments(t, SkipBlank(t, p));
    if t[at] == ',' {
      ArrayInOrder(d, t, at + 1, path, i);
    } else {
      var v := Value(d, t, at, path + [Index(i)]);
      ValueInOrder(d, t, at, path + [Index(i)]);
      if v.end.Some? {
        HoldsInJoin(v.found, Array(d, t, v.end.value, path, i + 1).found, s, e);
        ArrayInOrder(d, t, v.end.value, path, i + 1);
      }
    }
  }

  lemma {:induction false} InlineTableSwap(
      d: Decoder, t: string, u: string, s: nat, e: nat, dx: int, p: nat, path: Path)
    requires Swapped(d, t, u, s, e, dx) && p <= |t|
    requires Holds(InlineTable(d, t, p, path).found, s, e)
    ensures p <= |u| && ScanMoved(s, dx, InlineTable(d, t, p, path), InlineTable(d, u, p, path))
    decreases |t| - p, 1
  {
    hide Swapped, Head, Tail, Moved, Holds, Skip, Pair, Ordered;
    var at := SkipWs(t, p);
    InlineTableInOrder(d, t, p, path);
    HeldBounds(InlineTable(d, t, p, path).found, at, Reach(t, InlineTable(d, t, p, path)), s, e);
    SwapHead(d, t, u, s, e, dx, at);
    SkipLocal(t, u, s, p, Ws);
    if t[at] == CLOSE_BRACE {
      assert Holds([], s, e);
      NothingHeld(s, e);
    } else if t[at] == ',' {
      InlineTableSwap(d, t, u, s, e, dx, at + 1, path);
    } else {
      var v := Pair(d, t, at, path);
      PairInOrder(d, t, at, path);
      if v.end.None? {
        PairSwap(d, t, u, s, e, dx, at, path);
      } else {
        var next := v.end.value;
        var rest := InlineTable(d, t, next, path);
        var v' := Pair(d, u, at, path);
        HoldsInJoin(v.found, rest.found, s, e);
        if Holds(v.found, s, e) {
          PairSwap(d, t, u, s, e, dx, at, path);
          HeldBounds(v.found, at, next, s, e);
          InlineTableShift(d, t, u, s, e, dx, next, path);
          JoinMoved(s, dx, v, v', rest, InlineTable(d, u, next + dx, path));
        } else {
          InlineTableInOrder(d, t, next, path);
          HeldBounds(rest.found, SkipWs(t, next), Reach(t, rest), s, e);
          PairLocal(d, t, u, s, at, path);
          BeforeStays(s, dx, v, at, next);
          InlineTableSwap(d, t, u, s, e, dx, next, path);
          JoinMoved(s, dx, v, v', rest, InlineTable(d, u, next, path));
        }
      }
    }
  }

  lemma {:induction false} NothingHeld(s: nat, e: nat)
    ensures !Holds([], s, e)
  {
  }

  lemma {:induction false} PairSwap(
      d: Decoder, t: string, u: string, s: nat, e: nat, dx: int, p: nat, prefix: Path)
    requires Swapped(d, t, u, s, e, dx) && p <= |t|
    requires Holds(Pair(d, t, p, prefix).found, s, e)
    ensures p <= |u| && ScanMoved(s, dx, Pair(d, t, p, prefix), Pair(d, u, p, prefix))
    decreases |t| - p, 0
  {
    var (keys, start) := PairKey(d, t, p).value;
    var path := prefix + keys;
    if UnderSecret(path) {
      assert start == s;
      PairKeyLocal(d, t, u, s, p);
    } else {
      ValueInOrder(d, t, start, path);
      HeldBounds(Value(d, t, start, path).found, start, Reach(t, Value(d, t, start, path)), s, e);
      PairKeyLocal(d, t, u, s, p);
      ValueSwap(d, t, u, s, e, dx, start, path);
    }
  }

  lemma {:induction false} WsBeforeLine(t: string, p: nat)
    requires p <= |t|
    ensures SkipWs(t, p) <= EndOfLine(t, p)
    decreases |t| - p
  {
    if p < |t| && In(t[p], Ws) { WsBeforeLine(t, p + 1); }
  }

  lemma {:induction false} WalkSwap(
      d: Decoder, t: string, u: string, s: nat, e: nat, dx: int, p: nat, table: Path, arrays: map<Path, nat>)
    requires Swapped(d, t, u, s, e, dx) && p <= |t|
    requires Holds(Walk(d, t, p, table, arrays).found, s, e)
    ensures p <= |u| && Moved(s, dx, Walk(d, t, p, table, arrays).found, Walk(d, u, p, table, arrays).found)
    decreases |t| - p
  {
    hide Swapped, Head, Tail, Moved, Holds, Header, Pair;
    var at := SkipBlank(t, p);
    WalkInOrder(d, t, p, table, arrays);
    HeldBounds(Walk(d, t, p, table, arrays).found, at, |t|, s, e);
    SwapHead(d, t, u, s, e, dx, at);
    SkipLocal(t, u, s, p, Blank);
    NothingHeld(s, e);
    if t[at] == '#' {
      var next := EndOfLine(t, at);
      WalkInOrder(d, t, next, table, arrays);
      HeldBounds(Walk(d, t, next, table, arrays).found, SkipBlank(t, next), |t|, s, e);
      SkipLocal(t, u, s, at, InLine);
      WalkSwap(d, t, u, s, e, dx, next, table, arrays);
    } else if t[at] == '[' {
      var (table', arrays', next) := Header(d, t, at, arrays).value;
      WalkInOrder(d, t, next, table', arrays');
      HeldBounds(Walk(d, t, next, table', arrays').found, SkipBlank(t, next), |t|, s, e);
      HeaderLocal(d, t, u, s, at, arrays);
      WalkSwap(d, t, u, s, e, dx, next, table', arrays');
    } else {
      WalkPairSwap(d, t, u, s, e, dx, at, table, arrays);
    }
  }

  // The pair at `at` and everything after its line.
  function WalkPair(d: Decoder, t: string, at: nat, table: Path, arrays: map<Path, nat>): seq<Span>
    requires at <= |t|
  {
    var v := Pair(d, t, at, table);
    if v.end.None? then v.found
    else v.found + Walk(d, t, EndOfLine(t, v.end.value), table, arrays).found
  }

  lemma {:induction false} WalkPairSwap(
      d: Decoder, t: string, u: string, s: nat, e: nat, dx: int, at: nat, table: Path, arrays: map<Path, nat>)
    requires Swapped(d, t, u, s, e, dx) && at < |t|
    requires Holds(WalkPair(d, t, at, table, arrays), s, e)
    ensures at <= |u| && Moved(s, dx, WalkPair(d, t, at, table, arrays), WalkPair(d, u, at, table, arrays))
    decreases |t| - at, 0
  {
    hide Swapped, Head, Tail, Moved, Holds, Pair, Skip, Walk;
    var v := Pair(d, t, at, table);
    PairInOrder(d, t, at, table);
    if v.end.None? {
      HeldBounds(v.found, at, |t|, s, e);
      SwapHead(d, t, u, s, e, dx, at);
      PairSwap(d, t, u, s, e, dx, at, table);
    } else {
      var next := EndOfLine(t, v.end.value);
      var rest := Walk(d, t, next, table, arrays);
      HoldsInJoin(v.found, rest.found, s, e);
      WalkInOrder(d, t, next, table, arrays);
      if Holds(v.found, s, e) {
        HeldBounds(v.found, at, v.end.value, s, e);
        SwapHead(d, t, u, s, e, dx, at);
        PairSwap(d, t, u, s, e, dx, at, table);
        LineShift(t, u, e, dx, v.end.value);
        WalkShift(d, t, u, s, e, dx, next, table, arrays);
        JoinMoved(s, dx, v, Pair(d, u, at, table), rest, Walk(d, u, next + dx, table, arrays));
      } else {
        HeldBounds(rest.found, SkipBlank(t, next), |t|, s, e);
        SwapHead(d, t, u, s, e, dx, at);
        WsBeforeLine(t, v.end.value);
        PairLocal(d, t, u, s, at, table);
        SkipLocal(t, u, s, v.end.value, InLine);
        BeforeStays(s, dx, v, at, v.end.value);
        WalkSwap(d, t, u, s, e, dx, next, table, arrays);
        JoinFoundMoved(s, dx, v.found, v.found, rest.found, Walk(d, u, next, table, arrays).found);
      }
    }
  }

  lemma {:induction false} JoinFoundMoved(s: int, dx: int, a: seq<Span>, a': seq<Span>, b: seq<Span>, b': seq<Span>)
    requires Moved(s, dx, a, a') && Moved(s, dx, b, b')
    ensures Moved(s, dx, a + b, a' + b')
  {
  }

  // Scanning commutes with swapping one span's value for another complete
  // value: the same paths in the same order, the later ones moved.
  lemma {:induction false} SpansSwap(d: Decoder, t: string, u: string, s: nat, e: nat, dx: int)
    requires Swapped(d, t, u, s, e, dx) && Holds(Spans(d, t), s, e)
    ensures Moved(s, dx, Spans(d, t), Spans(d, u))
  {
    WalkSwap(d, t, u, s, e, dx, 0, [], map[]);
  }
}

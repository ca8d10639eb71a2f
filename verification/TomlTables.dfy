// The table each header of a TOML document opens.

module TomlTables {
  // A dotted name leads through the newest element of every array of tables on
  // its way, so that `[a.b]` after a second `[[a]]` is inside `a[1]`
  // (holophyte/redact.py, section "Array of Tables" of TOML v1.0.0).  Elements
  // are counted among the headers before, not kept in a table of counters.

  import opened TomlScan

  datatype Heading = Heading(segments: Path, double: bool)

  // How many elements the headers gave to the array of tables at `p`.
  function Elements(hs: seq<Heading>, p: Path): nat
    decreases |hs|, 0
  {
    if hs == [] then 0
    else
      var before, last := hs[..|hs| - 1], hs[|hs| - 1];
      Elements(before, p) + if last.double && last.segments != [] && p == Named(before, last.segments) then 1 else 0
  }

  // `p` itself, or its newest element when it is an array of tables.
  function Newest(hs: seq<Heading>, p: Path): Path
    decreases |hs|, 1
  {
    if Elements(hs, p) == 0 then p else p + [Index(Elements(hs, p) - 1)]
  }

  // Where a dotted name leads.
  function Inside(hs: seq<Heading>, segments: Path): Path
    decreases |hs|, 2, |segments|
  {
    if segments == [] then []
    else
      var n := |segments| - 1;
      Newest(hs, Inside(hs, segments[..n]) + [segments[n]])
  }

  // The name a header after `hs` gives, before the element it may add.
  function Named(hs: seq<Heading>, segments: Path): Path
    requires segments != []
    decreases |hs|, 3
  {
    Inside(hs, segments[..|segments| - 1]) + [segments[|segments| - 1]]
  }

  // The table that stands open after the headers.
  function Open(hs: seq<Heading>): Path {
    if hs == [] then [] else Inside(hs, hs[|hs| - 1].segments)
  }

  // ---------------------------------------------------------- the counters

  // The scan's counters hold each array's newest index.
  ghost predicate Counts(arrays: map<Path, nat>, hs: seq<Heading>) {
    forall p :: (p in arrays <==> Elements(hs, p) > 0) && (p in arrays ==> arrays[p] + 1 == Elements(hs, p))
  }

  lemma ElementsNext(hs: seq<Heading>, h: Heading, p: Path)
    requires h.segments != []
    ensures Elements(hs + [h], p) == Elements(hs, p) + if h.double && p == Named(hs, h.segments) then 1 else 0
  {
    assert (hs + [h])[..|hs|] == hs;
  }

  lemma {:induction false} InsideGrows(hs: seq<Heading>, segments: Path, k: nat)
    requires k <= |segments|
    ensures k <= |Inside(hs, segments[..k])| && (k < |segments| ==> |Inside(hs, segments[..k])| < |Inside(hs, segments)|)
    decreases |segments|
  {
    if segments != [] {
      var n := |segments| - 1;
      InsideGrows(hs, segments[..n], if k <= n then k else n);
      if k <= n { assert segments[..n][..k] == segments[..k]; }
      else { assert segments[..k] == segments && segments[..n][..n] == segments[..n]; }
    }
  }

  // A header changes where no proper beginning of its own name leads.
  lemma {:induction false} InsideStays(hs: seq<Heading>, h: Heading, k: nat)
    requires k < |h.segments|
    ensures Inside(hs + [h], h.segments[..k]) == Inside(hs, h.segments[..k])
    decreases k
  {
    if k > 0 {
      var segments, n := h.segments, |h.segments| - 1;
      InsideStays(hs, h, k - 1);
      assert segments[..k][..k - 1] == segments[..k - 1];
      var p := Inside(hs, segments[..k - 1]) + [segments[k - 1]];
      ElementsNext(hs, h, p);
      InsideGrows(hs, segments[..n], k - 1);
      assert segments[..n][..k - 1] == segments[..k - 1];
    }
  }

  lemma CountsNext(hs: seq<Heading>, h: Heading, arrays: map<Path, nat>, p: Path)
    requires Counts(arrays, hs) && h.segments != [] && p == Named(hs, h.segments)
    ensures Counts(if h.double then arrays[p := if p in arrays then arrays[p] + 1 else 0] else arrays, hs + [h])
  {
    hide Elements, Inside;
    forall q ensures Elements(hs + [h], q) == Elements(hs, q) + if h.double && q == p then 1 else 0 {
      ElementsNext(hs, h, q);
    }
  }

  // An array stands in the counters under its newest index.
  lemma NewestCounted(hs: seq<Heading>, arrays: map<Path, nat>, p: Path)
    requires Counts(arrays, hs)
    ensures Newest(hs, p) == if p in arrays then p + [Index(arrays[p])] else p
  {
    hide Elements;
  }

  lemma OpensNamed(hs: seq<Heading>, h: Heading)
    requires h.segments != []
    ensures Open(hs + [h]) == Newest(hs + [h], Named(hs, h.segments))
  {
    hide Elements, Newest;
    InsideStays(hs, h, |h.segments| - 1);
  }

  lemma {:induction false} HeaderPathFrom(hs: seq<Heading>, h: Heading, i: nat, arrays: map<Path, nat>)
    requires Counts(arrays, hs) && i < |h.segments|
    ensures var (table, arrays') := HeaderPath(h.segments, i, Inside(hs, h.segments[..i]), h.double, arrays);
            table == Open(hs + [h]) && Counts(arrays', hs + [h])
    decreases |h.segments| - i
  {
    hide Counts, Newest, Elements, Open;
    var here := Inside(hs, h.segments[..i]) + [h.segments[i]];
    if i < |h.segments| - 1 {
      assert h.segments[..i + 1][..i] == h.segments[..i];
      NewestCounted(hs, arrays, here);
      HeaderPathFrom(hs, h, i + 1, arrays);
    } else {
      CountsNext(hs, h, arrays, here);
      NewestCounted(hs + [h], if h.double then arrays[here := if here in arrays then arrays[here] + 1 else 0] else arrays,
                    here);
      OpensNamed(hs, h);
    }
  }

  // The scan gives every header the table it opens.
  lemma HeaderOpens(hs: seq<Heading>, h: Heading, arrays: map<Path, nat>)
    requires Counts(arrays, hs) && h.segments != []
    ensures var (table, arrays') := HeaderPath(h.segments, 0, [], h.double, arrays);
            table == Open(hs + [h]) && Counts(arrays', hs + [h])
  {
    assert h.segments[..0] == [];
    HeaderPathFrom(hs, h, 0, arrays);
  }

  // -------------------------------------------------- elements are distinct

  lemma {:induction false} ElementsLeq(hs: seq<Heading>, i: nat, p: Path)
    requires i <= |hs|
    ensures Elements(hs[..i], p) <= Elements(hs, p)
    decreases |hs|
  {
    if i < |hs| {
      assert hs[..|hs| - 1][..i] == hs[..i];
      ElementsLeq(hs[..|hs| - 1], i, p);
    } else {
      assert hs[..i] == hs;
    }
  }

  // A `[[..]]` header opens the element it adds.
  lemma OpensNewest(hs: seq<Heading>, h: Heading)
    requires h.double && h.segments != []
    ensures var p := Named(hs, h.segments);
            Open(hs + [h]) == p + [Index(Elements(hs, p))] && Elements(hs + [h], p) == Elements(hs, p) + 1
  {
    OpensNamed(hs, h);
    ElementsNext(hs, h, Named(hs, h.segments));
  }

  lemma LastTwo(p: Path, x: Segment, q: Path, y: Segment)
    ensures p + [x] == q + [y] ==> p == q && x == y
  {
    if p + [x] == q + [y] {
      assert p == (p + [x])[..|p|] && q == (q + [y])[..|q|];
      assert (p + [x])[|p|] == x && (q + [y])[|q|] == y;
    }
  }

  // No two `[[..]]` headers of a document open the same table.
  lemma ElementsDiffer(hs: seq<Heading>, i: nat, j: nat)
    requires i < j < |hs| && hs[i].double && hs[j].double && hs[i].segments != [] && hs[j].segments != []
    ensures Open(hs[..i + 1]) != Open(hs[..j + 1])
  {
    assert hs[..i + 1] == hs[..i] + [hs[i]] && hs[..j + 1] == hs[..j] + [hs[j]];
    OpensNewest(hs[..i], hs[i]);
    OpensNewest(hs[..j], hs[j]);
    var p, q := Named(hs[..i], hs[i].segments), Named(hs[..j], hs[j].segments);
    assert hs[..j][..i + 1] == hs[..i + 1];
    ElementsLeq(hs[..j], i + 1, p);
    LastTwo(p, Index(Elements(hs[..i], p)), q, Index(Elements(hs[..j], q)));
  }

  // The `[[x]]` headers among `hs`.
  function Opening(hs: seq<Heading>, x: Segment): nat {
    if hs == [] then 0
    else Opening(hs[..|hs| - 1], x) + if hs[|hs| - 1] == Heading([x], true) then 1 else 0
  }

  lemma {:induction false} PlainElements(hs: seq<Heading>, x: Segment)
    ensures Elements(hs, [x]) == Opening(hs, x)
    decreases |hs|
  {
    if hs != [] {
      var before, last := hs[..|hs| - 1], hs[|hs| - 1];
      PlainElements(before, x);
      if last.double && last.segments != [] {
        var n := |last.segments| - 1;
        InsideGrows(before, last.segments, n);
        if n == 0 { assert last.segments == [last.segments[0]]; }
        else {
          InsideGrows(before, last.segments[..n], n);
          assert last.segments[..n][..n] == last.segments[..n];
        }
      }
    }
  }

  // The header after `k` of `[[x]]` that names `x` again opens `x[k]`.
  lemma KthElement(hs: seq<Heading>, x: Segment)
    ensures Open(hs + [Heading([x], true)]) == [x, Index(Opening(hs, x))]
  {
    OpensNewest(hs, Heading([x], true));
    assert Inside(hs, []) + [x] == [x];
    PlainElements(hs, x);
  }
}

// What an amendment leaves of a ticket's criteria (store/criteria.py).

module Amendments {
  // Stated on the log's latest rows: the last edit of a number decides what is
  // left of it, and one edit that is not admitted refuses them all.

  import opened Criteria

  function Adds(edits: seq<Edit>, n: nat): nat
    requires n <= |edits|
  {
    if n == 0 then 0 else Adds(edits, n - 1) + if edits[n - 1].Add? then 1 else 0
  }

  // The number an edit is about: the k-th new criterion gets the k-th number
  // above the highest.
  function Of(edits: seq<Edit>, high: nat, i: nat): nat
    requires i < |edits|
  {
    if edits[i].Add? then high + Adds(edits, i) + 1 else edits[i].number
  }

  // Among the first `n` edits, `i` is the last about `c`.
  predicate LastAbout(edits: seq<Edit>, high: nat, n: nat, i: nat, c: nat)
    requires n <= |edits|
  {
    i < n && Of(edits, high, i) == c && forall j :: i < j < n ==> Of(edits, high, j) != c
  }

  predicate NoneAbout(edits: seq<Edit>, high: nat, n: nat, c: nat)
    requires n <= |edits|
  {
    forall j :: 0 <= j < n ==> Of(edits, high, j) != c
  }

  // No row of the log has a higher number, and one has this.
  predicate IsHighest(log: seq<Row>, high: nat) {
    && (forall i :: 0 <= i < |log| ==> log[i].criterion <= high)
    && (high == 0 || exists i :: 0 <= i < |log| && log[i].criterion == high)
  }

  // No current row has a later position, and one has this.
  predicate IsTop(s: seq<Row>, top: nat) {
    && (forall i :: 0 <= i < |s| && s[i].position.Some? ==> s[i].position.value <= top)
    && (top == 0 || exists i :: 0 <= i < |s| && s[i].position == Some(top))
  }

  // The criteria before an amendment: the log, its current rows, its highest
  // number and the last position.
  datatype Before = Before(log: seq<Row>, withdrawn: set<nat>, s: seq<Row>, high: nat, top: nat)

  ghost predicate BeforeOk(b: Before) {
    IsCurrent(b.log, b.withdrawn, b.s) && IsHighest(b.log, b.high) && IsTop(b.s, b.top)
  }

  // A criterion is open when an amendment's edit `n` comes.
  predicate OpenAt(b: Before, edits: seq<Edit>, n: nat, c: nat)
    requires n <= |edits|
  {
    || (exists i :: 0 <= i < n && LastAbout(edits, b.high, n, i, c) && !edits[i].Drop?)
    || (NoneAbout(edits, b.high, n, c)
        && LatestRow(b.log, b.withdrawn, c).Some? && LatestRow(b.log, b.withdrawn, c).value.status == Open)
  }

  // A new or replacing text has a witness someone can read, and only an open
  // criterion is replaced or dropped.
  predicate Admitted(b: Before, edits: seq<Edit>, bad: string -> bool, i: nat)
    requires i < |edits|
  {
    match edits[i]
    case Add(text) => !bad(text)
    case Replace(c, text) => OpenAt(b, edits, i, c) && !bad(text)
    case Drop(c) => OpenAt(b, edits, i, c)
  }

  // A criterion's place: the one it had, or one after all others if it is new.
  function PlaceOf(b: Before, c: nat): Option<nat> {
    if c > b.high then Some(b.top + (c - b.high))
    else if LatestRow(b.log, b.withdrawn, c).Some? then LatestRow(b.log, b.withdrawn, c).value.position
    else None
  }

  // What edit `i` leaves of criterion `c`: a new or replaced one is open with the
  // edit's text and its witness, in its place; a dropped one is retired with the
  // text and witness it had.
  ghost predicate Left(b: Before, edits: seq<Edit>, read: string -> string, note: nat, i: nat, c: nat, row: Row)
    requires i < |edits|
  {
    && row.criterion == c && row.note == Some(note)
    && match edits[i]
       case Drop(_) =>
         && row.status == Retired && row.position == None
         && (forall j :: 0 <= j < i && LastAbout(edits, b.high, i, j, c) && !edits[j].Drop? ==>
               row.text == edits[j].text && row.evidence == read(edits[j].text))
         && (NoneAbout(edits, b.high, i, c) && LatestRow(b.log, b.withdrawn, c).Some? ==>
               row.text == LatestRow(b.log, b.withdrawn, c).value.text
               && row.evidence == LatestRow(b.log, b.withdrawn, c).value.evidence)
       case _ =>
         row == Row(c, PlaceOf(b, c), edits[i].text, read(edits[i].text), Open, Some(note))
  }

  // -------------------------------------------------------------- the view

  lemma {:induction false} FindPut(s: seq<Row>, row: Row, c: nat)
    ensures Find(Put(s, row), c) == if c == row.criterion then Some(row) else Find(s, c)
  {
    if s != [] {
      if s[0].criterion == row.criterion { assert ([row] + s[1..])[1..] == s[1..]; }
      else {
        assert ([s[0]] + Put(s[1..], row))[1..] == Put(s[1..], row);
        FindPut(s[1..], row, c);
      }
    }
  }

  function Rank(row: Row): nat {
    if row.position.Some? then row.position.value else 0
  }

  lemma {:induction false} MaxPut(s: seq<Row>, row: Row)
    ensures Find(s, row.criterion).Some? && Rank(Find(s, row.criterion).value) == Rank(row) ==>
              MaxPosition(Put(s, row)) == MaxPosition(s)
    ensures Find(s, row.criterion).None? ==> MaxPosition(Put(s, row)) == Max(MaxPosition(s), Rank(row))
  {
    if s == [] {
      assert [row][1..] == [];
    } else if s[0].criterion == row.criterion {
      assert ([row] + s[1..])[1..] == s[1..];
    } else {
      assert ([s[0]] + Put(s[1..], row))[1..] == Put(s[1..], row);
      MaxPut(s[1..], row);
    }
  }

  lemma {:induction false} TopIs(s: seq<Row>, top: nat)
    requires IsTop(s, top)
    ensures MaxPosition(s) == top
  {
    MaxBounds(s);
    if MaxPosition(s) > 0 {
      var i :| 0 <= i < |s| && s[i].position == Some(MaxPosition(s));
    }
  }

  lemma {:induction false} MaxBounds(s: seq<Row>)
    ensures forall i :: 0 <= i < |s| && s[i].position.Some? ==> s[i].position.value <= MaxPosition(s)
    ensures MaxPosition(s) == 0 || exists i :: 0 <= i < |s| && s[i].position == Some(MaxPosition(s))
  {
    if s != [] {
      MaxBounds(s[1..]);
      if MaxPosition(s) > 0 && s[0].position != Some(MaxPosition(s)) {
        var i :| 0 <= i < |s[1..]| && s[1..][i].position == Some(MaxPosition(s[1..]));
        assert s[i + 1].position == Some(MaxPosition(s));
      }
    }
  }

  lemma {:induction false} HighIs(log: seq<Row>, high: nat)
    requires IsHighest(log, high)
    ensures HighestOf(log) == high
  {
    HighestOfBounds(log);
    HighestOfIs(log);
  }

  lemma {:induction false} HighestOfIs(rows: seq<Row>)
    ensures HighestOf(rows) == 0 || exists i :: 0 <= i < |rows| && rows[i].criterion == HighestOf(rows)
  {
    if rows != [] {
      var n := |rows| - 1;
      HighestOfIs(rows[..n]);
      if HighestOf(rows) > 0 && rows[n].criterion != HighestOf(rows) {
        var i :| 0 <= i < n && rows[..n][i].criterion == HighestOf(rows[..n]);
        assert rows[i].criterion == HighestOf(rows);
      }
    }
  }

  // What the amendment sees of `c` after `n` edits.
  ghost predicate Sees(b: Before, edits: seq<Edit>, read: string -> string, note: nat, n: nat, c: nat, seen: Option<Row>)
    requires n <= |edits|
  {
    && (NoneAbout(edits, b.high, n, c) ==> seen == LatestRow(b.log, b.withdrawn, c))
    && (forall i :: 0 <= i < n && LastAbout(edits, b.high, n, i, c) ==>
          seen.Some? && seen.value.position == PlaceOf(b, c) && Left(b, edits, read, note, i, c, AsLeft(seen.value)))
  }

  // The row in the log of one the amendment sees: a retired one has no place.
  function AsLeft(row: Row): Row {
    if row.status == Retired then row.(position := None) else row
  }

  ghost predicate SeesAll(b: Before, edits: seq<Edit>, read: string -> string, note: nat, n: nat, latest: seq<Row>)
    requires n <= |edits|
  {
    && (forall c :: Sees(b, edits, read, note, n, c, Find(latest, c)))
    && MaxPosition(latest) == b.top + Adds(edits, n)
  }

  lemma {:induction false} LastExists(edits: seq<Edit>, high: nat, n: nat, c: nat)
    requires n <= |edits|
    ensures NoneAbout(edits, high, n, c) || exists i :: 0 <= i < n && LastAbout(edits, high, n, i, c)
  {
    if n > 0 {
      if Of(edits, high, n - 1) == c {
        assert LastAbout(edits, high, n, n - 1, c);
      } else {
        LastExists(edits, high, n - 1, c);
        if !NoneAbout(edits, high, n - 1, c) {
          var i :| 0 <= i < n - 1 && LastAbout(edits, high, n - 1, i, c);
          assert LastAbout(edits, high, n, i, c);
        }
      }
    }
  }

  // The last edit about `c` is one alone.
  lemma LastIsOne(edits: seq<Edit>, high: nat, n: nat, i: nat, j: nat, c: nat)
    requires n <= |edits| && LastAbout(edits, high, n, i, c) && LastAbout(edits, high, n, j, c)
    ensures i == j
  {
  }

  lemma SeenOpen(b: Before, edits: seq<Edit>, read: string -> string, note: nat, n: nat, c: nat, seen: Option<Row>)
    requires n <= |edits| && Sees(b, edits, read, note, n, c, seen)
    ensures (seen.Some? && seen.value.status == Open) <==> OpenAt(b, edits, n, c)
  {
    hide LatestRow;
    LastExists(edits, b.high, n, c);
    if !NoneAbout(edits, b.high, n, c) {
      var i :| 0 <= i < n && LastAbout(edits, b.high, n, i, c);
      assert Left(b, edits, read, note, i, c, AsLeft(seen.value));
      if OpenAt(b, edits, n, c) {
        var j :| 0 <= j < n && LastAbout(edits, b.high, n, j, c) && !edits[j].Drop?;
        LastIsOne(edits, b.high, n, i, j, c);
      }
    }
  }

  // An open criterion is seen in its place.
  lemma SeenPlace(b: Before, edits: seq<Edit>, read: string -> string, note: nat, n: nat, c: nat, seen: Option<Row>)
    requires n <= |edits| && Sees(b, edits, read, note, n, c, seen) && seen.Some? && IsHighest(b.log, b.high)
    ensures seen.value.position == PlaceOf(b, c)
  {
    LastExists(edits, b.high, n, c);
    if NoneAbout(edits, b.high, n, c) { NoRowAbove(b, c); }
  }

  lemma NoRowAbove(b: Before, c: nat)
    requires IsHighest(b.log, b.high)
    ensures c > b.high ==> LatestRow(b.log, b.withdrawn, c).None?
  {
    if c > b.high { NoRowNoLatest(b.log, b.withdrawn, c); }
  }

  // A row of the number edit `n` is about is left by it, whatever text it has.
  lemma DropLeft(b: Before, edits: seq<Edit>, read: string -> string, note: nat, n: nat, seen: Row)
    requires n < |edits| && edits[n].Drop? && seen.criterion == edits[n].number && seen.status == Open
    requires Sees(b, edits, read, note, n, edits[n].number, Some(seen))
    ensures Left(b, edits, read, note, n, edits[n].number, Row(seen.criterion, None, seen.text, seen.evidence, Retired, Some(note)))
  {
    hide LatestRow;
    var c := edits[n].number;
    forall j: nat | j < n && LastAbout(edits, b.high, n, j, c) && !edits[j].Drop?
      ensures seen.text == edits[j].text && seen.evidence == read(edits[j].text)
    {
      assert Left(b, edits, read, note, j, c, AsLeft(seen));
    }
  }

  lemma {:induction false} AddsBound(edits: seq<Edit>, high: nat, n: nat)
    requires n <= |edits|
    ensures forall i :: 0 <= i < n && edits[i].Add? ==> Of(edits, high, i) <= high + Adds(edits, n)
  {
    if n > 0 { AddsBound(edits, high, n - 1); }
  }

  // One more edit, seen.
  lemma SeesNext(
      b: Before, edits: seq<Edit>, read: string -> string, note: nat, n: nat, c: nat, seen: Option<Row>, row: Row)
    requires n < |edits| && Sees(b, edits, read, note, n, c, seen)
    requires Of(edits, b.high, n) == c ==>
               row.position == PlaceOf(b, c) && Left(b, edits, read, note, n, c, AsLeft(row))
    ensures Sees(b, edits, read, note, n + 1, c, if Of(edits, b.high, n) == c then Some(row) else seen)
  {
    hide LatestRow, Left, Of, LastAbout;
    var m := n + 1;
    forall i: nat | i < m && LastAbout(edits, b.high, m, i, c)
      ensures if Of(edits, b.high, n) == c then i == n else i < n && LastAbout(edits, b.high, n, i, c)
    {
      LastBefore(edits, b.high, n, i, c);
    }
    if NoneAbout(edits, b.high, m, c) { assert NoneAbout(edits, b.high, n, c) && Of(edits, b.high, n) != c; }
  }

  lemma LastBefore(edits: seq<Edit>, high: nat, n: nat, i: nat, c: nat)
    requires n < |edits| && LastAbout(edits, high, n + 1, i, c)
    ensures if Of(edits, high, n) == c then i == n else i < n && LastAbout(edits, high, n, i, c)
  {
    hide Of;
  }

  // No number is above the highest and the new ones.
  lemma NoneYet(b: Before, edits: seq<Edit>, read: string -> string, note: nat, n: nat, latest: seq<Row>)
    requires n < |edits| && edits[n].Add? && SeesAll(b, edits, read, note, n, latest) && IsHighest(b.log, b.high)
    requires NamesKnown(b, edits, n)
    ensures Find(latest, Of(edits, b.high, n)).None?
  {
    hide LatestRow, Left;
    var c := Of(edits, b.high, n);
    AddsBound(edits, b.high, n);
    AddsGrow(edits, n);
    forall j | 0 <= j < n ensures Of(edits, b.high, j) != c {
    }
    NoRowAbove(b, c);
    assert Sees(b, edits, read, note, n, c, Find(latest, c));
  }

  lemma {:induction false} AddsGrow(edits: seq<Edit>, n: nat)
    requires n <= |edits|
    ensures forall i :: 0 <= i <= n ==> Adds(edits, i) <= Adds(edits, n)
  {
    if n > 0 { AddsGrow(edits, n - 1); }
  }

  // The numbers the edits so far name are the log's or new ones.
  ghost predicate NamesKnown(b: Before, edits: seq<Edit>, n: nat)
    requires n <= |edits|
  {
    forall i :: 0 <= i < n && !edits[i].Add? ==> edits[i].number <= b.high + Adds(edits, i)
  }

  lemma {:induction false} SeenKnown(b: Before, edits: seq<Edit>, read: string -> string, note: nat, n: nat, c: nat, seen: Option<Row>)
    requires n <= |edits| && Sees(b, edits, read, note, n, c, seen) && seen.Some? && IsHighest(b.log, b.high)
    requires NamesKnown(b, edits, n)
    ensures c <= b.high + Adds(edits, n)
  {
    hide LatestRow, Left;
    LastExists(edits, b.high, n, c);
    if NoneAbout(edits, b.high, n, c) {
      NoRowAbove(b, c);
    } else {
      var i :| 0 <= i < n && LastAbout(edits, b.high, n, i, c);
      AddsBound(edits, b.high, n);
      AddsGrow(edits, n);
    }
  }

  // What one edit appends when it is admitted, and how the amendment sees it.
  ghost predicate Appends(
      b: Before, edits: seq<Edit>, read: string -> string, note: nat, n: nat, latest: seq<Row>, made: Row, row: Row)
    requires n < |edits|
  {
    && Left(b, edits, read, note, n, Of(edits, b.high, n), made)
    && row.criterion == Of(edits, b.high, n) && row.position == PlaceOf(b, row.criterion) && AsLeft(row) == made
    && MaxPosition(Put(latest, row)) == b.top + Adds(edits, n + 1)
  }

  lemma AddIs(
      b: Before, edits: seq<Edit>, read: string -> string, bad: string -> bool, note: nat, n: nat, latest: seq<Row>)
    requires BeforeOk(b) && n < |edits| && SeesAll(b, edits, read, note, n, latest) && NamesKnown(b, edits, n)
    requires edits[n].Add?
    ensures var r := EditRow(latest, b.high + Adds(edits, n), edits[n], note, read, bad);
            && (r.Some? <==> Admitted(b, edits, bad, n))
            && (r.Some? ==> Appends(b, edits, read, note, n, latest, r.value, Seen(latest, r.value)))
  {
    hide LatestRow, IsCurrent, Put, Find, MaxPosition, LastAbout, NoneAbout, IsHighest, Sees, SeesAll, OpenAt, NamesKnown, IsTop;
    AllSeen(b, edits, read, note, n, latest);
    var r := EditRow(latest, b.high + Adds(edits, n), edits[n], note, read, bad);
    if r.Some? {
      NoneYet(b, edits, read, note, n, latest);
      MaxPut(latest, Seen(latest, r.value));
    }
  }

  // A criterion an edit names, as the amendment sees it.
  lemma NamedSeen(
      b: Before, edits: seq<Edit>, read: string -> string, note: nat, n: nat, latest: seq<Row>)
    requires BeforeOk(b) && n < |edits| && SeesAll(b, edits, read, note, n, latest) && !edits[n].Add?
    ensures var seen := Find(latest, edits[n].number);
            && (seen.Some? && seen.value.status == Open <==> OpenAt(b, edits, n, edits[n].number))
            && (seen.Some? ==> seen.value.position == PlaceOf(b, edits[n].number) && seen.value.criterion == edits[n].number)
            && Sees(b, edits, read, note, n, edits[n].number, seen)
  {
    hide LatestRow, IsCurrent, Put, Find, MaxPosition, LastAbout, NoneAbout, IsHighest, Sees;
    var c := edits[n].number;
    assert Sees(b, edits, read, note, n, c, Find(latest, c));
    SeenOpen(b, edits, read, note, n, c, Find(latest, c));
    if Find(latest, c).Some? { SeenPlace(b, edits, read, note, n, c, Find(latest, c)); }
  }

  lemma ReplaceIs(
      b: Before, edits: seq<Edit>, read: string -> string, bad: string -> bool, note: nat, n: nat, latest: seq<Row>)
    requires BeforeOk(b) && n < |edits| && SeesAll(b, edits, read, note, n, latest) && NamesKnown(b, edits, n)
    requires !edits[n].Add?
    ensures var r := EditRow(latest, b.high + Adds(edits, n), edits[n], note, read, bad);
            && (r.Some? <==> Admitted(b, edits, bad, n))
            && (r.Some? ==> Appends(b, edits, read, note, n, latest, r.value, Seen(latest, r.value)))
  {
    hide LatestRow, IsCurrent, Put, Find, MaxPosition, LastAbout, NoneAbout, IsHighest, Sees, SeesAll, OpenAt, BeforeOk;
    NamedSeen(b, edits, read, note, n, latest);
    var seen := Find(latest, edits[n].number);
    var r := EditRow(latest, b.high + Adds(edits, n), edits[n], note, read, bad);
    if r.Some? {
      if edits[n].Drop? { DropLeft(b, edits, read, note, n, seen.value); }
      MaxPut(latest, Seen(latest, r.value));
      AllSeen(b, edits, read, note, n, latest);
    }
  }

  lemma AllSeen(b: Before, edits: seq<Edit>, read: string -> string, note: nat, n: nat, latest: seq<Row>)
    requires n <= |edits| && SeesAll(b, edits, read, note, n, latest)
    ensures MaxPosition(latest) == b.top + Adds(edits, n)
  {
  }

  // Edit `n` is refused exactly when it is not admitted; otherwise its row is
  // what it leaves, and is seen after it.
  lemma EditIs(
      b: Before, edits: seq<Edit>, read: string -> string, bad: string -> bool, note: nat, n: nat, latest: seq<Row>)
    requires BeforeOk(b) && n < |edits| && SeesAll(b, edits, read, note, n, latest) && NamesKnown(b, edits, n)
    ensures var r := EditRow(latest, b.high + Adds(edits, n), edits[n], note, read, bad);
            && (r.Some? <==> Admitted(b, edits, bad, n))
            && (r.Some? ==>
                  && Left(b, edits, read, note, n, Of(edits, b.high, n), r.value)
                  && SeesAll(b, edits, read, note, n + 1, Put(latest, Seen(latest, r.value)))
                  && NamesKnown(b, edits, n + 1))
  {
    hide LatestRow, IsCurrent, Put, Find, MaxPosition, Admitted, EditRow, Left, Sees, Of, BeforeOk;
    if edits[n].Add? { AddIs(b, edits, read, bad, note, n, latest); } else { ReplaceIs(b, edits, read, bad, note, n, latest); }
    var r := EditRow(latest, b.high + Adds(edits, n), edits[n], note, read, bad);
    if r.Some? {
      var row := Seen(latest, r.value);
      forall x ensures Sees(b, edits, read, note, n + 1, x, Find(Put(latest, row), x)) {
        FindPut(latest, row, x);
        assert Sees(b, edits, read, note, n, x, Find(latest, x));
        SeesNext(b, edits, read, note, n, x, Find(latest, x), row);
      }
      if !edits[n].Add? { NamedKnown(b, edits, read, bad, note, n, latest); }
    }
  }

  lemma NamedKnown(
      b: Before, edits: seq<Edit>, read: string -> string, bad: string -> bool, note: nat, n: nat, latest: seq<Row>)
    requires BeforeOk(b) && n < |edits| && SeesAll(b, edits, read, note, n, latest) && NamesKnown(b, edits, n)
    requires !edits[n].Add? && EditRow(latest, b.high + Adds(edits, n), edits[n], note, read, bad).Some?
    ensures edits[n].number <= b.high + Adds(edits, n)
  {
    hide LatestRow, IsCurrent, Find, MaxPosition, Sees, IsHighest;
    var c := edits[n].number;
    assert Sees(b, edits, read, note, n, c, Find(latest, c));
    SeenKnown(b, edits, read, note, n, c, Find(latest, c));
  }

  // ------------------------------------------------------- whole amendments

  lemma {:induction false} AmendFrom(
      b: Before, edits: seq<Edit>, read: string -> string, bad: string -> bool, note: nat, n: nat, latest: seq<Row>)
    requires BeforeOk(b) && n <= |edits| && SeesAll(b, edits, read, note, n, latest) && NamesKnown(b, edits, n)
    ensures var a := AmendRows(latest, b.high + Adds(edits, n), edits[n..], note, read, bad);
            && (a.Some? <==> forall i :: n <= i < |edits| ==> Admitted(b, edits, bad, i))
            && (a.Some? ==> |a.value| == |edits| - n
                            && forall i :: n <= i < |edits| ==>
                                 Left(b, edits, read, note, i, Of(edits, b.high, i), a.value[i - n]))
    decreases |edits| - n
  {
    hide BeforeOk, SeesAll, NamesKnown, Admitted, Left, EditRow, Put, Seen, Of;
    if n < |edits| {
      EditIs(b, edits, read, bad, note, n, latest);
      assert edits[n..][0] == edits[n] && edits[n..][1..] == edits[n + 1..];
      var row := EditRow(latest, b.high + Adds(edits, n), edits[n], note, read, bad);
      if row.Some? {
        AmendFrom(b, edits, read, bad, note, n + 1, Put(latest, Seen(latest, row.value)));
      }
    }
  }

  lemma {:induction false} LatestAt(rows: seq<Row>, withdrawn: set<nat>, i: nat, c: nat)
    requires i < |rows| && rows[i].criterion == c && Visible(rows[i], withdrawn)
    requires forall j :: i < j < |rows| ==> rows[j].criterion != c
    ensures LatestRow(rows, withdrawn, c) == Some(rows[i])
    decreases |rows|
  {
    if i < |rows| - 1 { LatestAt(rows[..|rows| - 1], withdrawn, i, c); }
  }

  lemma NothingSeen(b: Before, edits: seq<Edit>, read: string -> string, note: nat)
    requires BeforeOk(b)
    ensures SeesAll(b, edits, read, note, 0, b.s) && NamesKnown(b, edits, 0) && HighestOf(b.log) == b.high
  {
    hide LatestRow;
    TopIs(b.s, b.top);
    HighIs(b.log, b.high);
    forall c ensures Find(b.s, c) == LatestRow(b.log, b.withdrawn, c) { FindIsLatest(b.log, b.withdrawn, b.s, c); }
  }

  // An amendment is accepted exactly when each of its edits is admitted in turn,
  // and then the latest row of every number it is about is what the last edit
  // about that number leaves.
  lemma {:induction false} AmendmentIs(
      b: Before, edits: seq<Edit>, read: string -> string, bad: string -> bool, note: nat)
    requires BeforeOk(b) && note !in b.withdrawn
    ensures var a := AmendRows(b.s, HighestOf(b.log), edits, note, read, bad);
            && (a.Some? <==> forall i :: 0 <= i < |edits| ==> Admitted(b, edits, bad, i))
            && (a.Some? ==> forall c, i :: 0 <= i < |edits| && LastAbout(edits, b.high, |edits|, i, c) ==>
                  var row := LatestRow(b.log + a.value, b.withdrawn, c);
                  row.Some? && Left(b, edits, read, note, i, c, row.value))
  {
    hide LatestRow, BeforeOk, SeesAll, NamesKnown, Admitted, AmendRows;
    NothingSeen(b, edits, read, note);
    AmendFrom(b, edits, read, bad, note, 0, b.s);
    assert edits[0..] == edits;
    var a := AmendRows(b.s, HighestOf(b.log), edits, note, read, bad);
    if a.Some? {
      forall c, i | 0 <= i < |edits| && LastAbout(edits, b.high, |edits|, i, c)
        ensures LatestRow(b.log + a.value, b.withdrawn, c) == Some(a.value[i]) && Left(b, edits, read, note, i, c, a.value[i])
      {
        forall j | i < j < |edits| ensures a.value[j].criterion != c {
          assert Left(b, edits, read, note, j, Of(edits, b.high, j), a.value[j]);
        }
        LatestAt(a.value, b.withdrawn, i, c);
        LatestOfBoth(b.log, a.value, b.withdrawn, c);
      }
    }
  }
}

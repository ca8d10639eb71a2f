// The append-only log of a ticket's acceptance criteria and its stable numbers
// (store/criteria.py).

module Criteria {

  datatype Option<+T> = None | Some(value: T)

  datatype Status = Open | Retired

  // `evidence` is what proves the criterion; `note` the steer that amended it.
  datatype Row = Row(
    criterion: nat, position: Option<nat>, text: string, evidence: string, status: Status, note: Option<nat>)

  // A filed criterion: the number its text names, if any, and the rest.
  datatype Filing = Filing(explicit: Option<nat>, text: string)

  // The witnesses read from the texts and the ticket's commands.
  type Witnesses = seq<Filing> -> nat -> string

  // --------------------------------------------------------- current rows

  predicate Visible(row: Row, withdrawn: set<nat>) {
    row.note.Some? ==> row.note.value !in withdrawn
  }

  function LatestRow(rows: seq<Row>, withdrawn: set<nat>, c: nat): (r: Option<Row>)
    ensures r.Some? ==> r.value.criterion == c
  {
    if rows == [] then None
    else
      var n := |rows| - 1;
      if rows[n].criterion == c && Visible(rows[n], withdrawn) then Some(rows[n])
      else LatestRow(rows[..n], withdrawn, c)
  }

  // Open rows first, then by position, then by number.
  predicate Before(a: Row, b: Row) {
    var p, q := if a.position.Some? then a.position.value else 0, if b.position.Some? then b.position.value else 0;
    if a.status != b.status then a.status == Open
    else if a.position.Some? != b.position.Some? then a.position.Some?
    else p < q || (p == q && a.criterion < b.criterion)
  }

  // `current()`: the latest visible row of each criterion, once, in order.
  ghost predicate IsCurrent(rows: seq<Row>, withdrawn: set<nat>, s: seq<Row>) {
    && (forall j :: 0 <= j < |s| ==> LatestRow(rows, withdrawn, s[j].criterion) == Some(s[j]))
    && (forall c :: LatestRow(rows, withdrawn, c).Some? ==> LatestRow(rows, withdrawn, c).value in s)
    && InOrder(s)
  }

  function Find(s: seq<Row>, c: nat): (r: Option<Row>)
    ensures r.Some? ==> r.value in s && r.value.criterion == c
    ensures r.None? ==> forall j :: 0 <= j < |s| ==> s[j].criterion != c
  {
    if s == [] then None else if s[0].criterion == c then Some(s[0]) else Find(s[1..], c)
  }

  lemma FindIsLatest(rows: seq<Row>, withdrawn: set<nat>, s: seq<Row>, c: nat)
    requires IsCurrent(rows, withdrawn, s)
    ensures Find(s, c) == LatestRow(rows, withdrawn, c)
  {
    var found := Find(s, c);
    if found.Some? {
      var j :| 0 <= j < |s| && s[j] == found.value;
    }
  }

  lemma {:induction false} LatestOfBoth(a: seq<Row>, b: seq<Row>, withdrawn: set<nat>, c: nat)
    ensures LatestRow(a + b, withdrawn, c) ==
            if LatestRow(b, withdrawn, c).Some? then LatestRow(b, withdrawn, c) else LatestRow(a, withdrawn, c)
  {
    if b == [] {
      assert a + b == a;
    } else {
      assert (a + b)[..|a + b| - 1] == a + b[..|b| - 1];
      LatestOfBoth(a, b[..|b| - 1], withdrawn, c);
    }
  }

  // --------------------------------------------------------------- numbers

  // The first row with this text whose number is not taken.
  function FirstFree(history: seq<Row>, text: string, taken: set<nat>): Option<nat> {
    if history == [] then None
    else if history[0].text == text && history[0].criterion !in taken then Some(history[0].criterion)
    else FirstFree(history[1..], text, taken)
  }

  function Number(f: Filing, history: seq<Row>, taken: set<nat>, highest: nat): nat {
    if f.explicit.Some? && f.explicit.value !in taken then f.explicit.value
    else
      match FirstFree(history, f.text, taken)
      case Some(c) => c
      case None => highest + 1
  }

  function Max(a: nat, b: nat): nat {
    if a > b then a else b
  }

  function HighestOf(rows: seq<Row>): nat {
    if rows == [] then 0 else Max(HighestOf(rows[..|rows| - 1]), rows[|rows| - 1].criterion)
  }

  function HighestNumber(numbers: seq<nat>, start: nat): nat {
    if numbers == [] then start else Max(HighestNumber(numbers[..|numbers| - 1], start), numbers[|numbers| - 1])
  }

  function Elements(s: seq<nat>): set<nat> {
    set x | x in s
  }

  // The numbers of the first `n` filed criteria.
  function Numbers(history: seq<Row>, filed: seq<Filing>, n: nat): (r: seq<nat>)
    requires n <= |filed|
    ensures |r| == n
  {
    if n == 0 then []
    else
      var before := Numbers(history, filed, n - 1);
      before + [Number(filed[n - 1], history, Elements(before), HighestNumber(before, HighestOf(history)))]
  }

  lemma {:induction false} HighestBounds(numbers: seq<nat>, start: nat)
    ensures start <= HighestNumber(numbers, start)
    ensures forall i :: 0 <= i < |numbers| ==> numbers[i] <= HighestNumber(numbers, start)
  {
    if numbers != [] { HighestBounds(numbers[..|numbers| - 1], start); }
  }

  lemma {:induction false} HighestOfBounds(rows: seq<Row>)
    ensures forall i :: 0 <= i < |rows| ==> rows[i].criterion <= HighestOf(rows)
  {
    if rows != [] { HighestOfBounds(rows[..|rows| - 1]); }
  }

  lemma {:induction false} FirstFreeIs(history: seq<Row>, text: string, taken: set<nat>)
    ensures var r := FirstFree(history, text, taken);
            && (r.Some? ==> r.value !in taken && exists i :: 0 <= i < |history| && history[i].criterion == r.value)
            && (r.None? ==> forall i :: 0 <= i < |history| && history[i].text == text ==> history[i].criterion in taken)
  {
    if history != [] {
      FirstFreeIs(history[1..], text, taken);
      var r := FirstFree(history[1..], text, taken);
      if r.Some? {
        var i :| 0 <= i < |history[1..]| && history[1..][i].criterion == r.value;
        assert history[i + 1].criterion == r.value;
      }
    }
  }

  lemma NumberIsNew(f: Filing, history: seq<Row>, before: seq<nat>)
    ensures Number(f, history, Elements(before), HighestNumber(before, HighestOf(history))) !in before
  {
    HighestBounds(before, HighestOf(history));
    FirstFreeIs(history, f.text, Elements(before));
    forall i | 0 <= i < |before| ensures before[i] in Elements(before) {
    }
  }

  predicate Unique(s: seq<nat>) {
    forall i, j :: 0 <= i < j < |s| ==> s[i] != s[j]
  }

  // A number is never given twice.
  lemma {:induction false} NumbersDistinct(history: seq<Row>, filed: seq<Filing>, n: nat)
    requires n <= |filed|
    ensures Unique(Numbers(history, filed, n))
  {
    hide Number, HighestNumber, Elements;
    if n > 0 {
      NumbersDistinct(history, filed, n - 1);
      NumberIsNew(filed[n - 1], history, Numbers(history, filed, n - 1));
    }
  }

  lemma {:induction false} NumbersPrefix(history: seq<Row>, filed: seq<Filing>, n: nat, i: nat)
    requires i <= n <= |filed|
    ensures Numbers(history, filed, n)[..i] == Numbers(history, filed, i)
  {
    if i < n { NumbersPrefix(history, filed, n - 1, i); }
  }

  // --------------------------------------------------------------- recording

  predicate Stands(previous: Option<Row>, position: nat, text: string) {
    previous.Some? && previous.value.note.None? && previous.value.position == Some(position)
    && previous.value.text == text && previous.value.status == Open
  }

  // The rows filing the first `n` criteria appends.
  function FiledRows(s: seq<Row>, numbers: seq<nat>, filed: seq<Filing>, w: Witnesses, n: nat): seq<Row>
    requires n <= |filed| == |numbers|
  {
    if n == 0 then []
    else
      FiledRows(s, numbers, filed, w, n - 1)
      + FiledRow(s, numbers, filed, w, n - 1)
  }

  // The open rows no filed criterion took, retired.
  function RetiredRows(s: seq<Row>, numbers: seq<nat>): seq<Row> {
    if s == [] then []
    else
      var row := s[|s| - 1];
      RetiredRows(s[..|s| - 1], numbers)
      + if row.criterion !in numbers && row.status == Open
        then [row.(position := None, status := Retired, note := None)] else []
  }

  function Recorded(log: seq<Row>, s: seq<Row>, filed: seq<Filing>, w: Witnesses): seq<Row> {
    if filed == [] then log
    else
      var numbers := Numbers(log, filed, |filed|);
      log + FiledRows(s, numbers, filed, w, |filed|) + RetiredRows(s, numbers)
  }

  // What the recording appends for the criterion in place `n`.
  function FiledRow(s: seq<Row>, numbers: seq<nat>, filed: seq<Filing>, w: Witnesses, n: nat): seq<Row>
    requires n < |filed| == |numbers|
  {
    if Stands(Find(s, numbers[n]), n + 1, filed[n].text) then []
    else [Row(numbers[n], Some(n + 1), filed[n].text, w(filed)(n), Open, None)]
  }

  lemma LatestOfOne(rows: seq<Row>, withdrawn: set<nat>, c: nat)
    requires |rows| <= 1 && forall i :: 0 <= i < |rows| ==> rows[i].note.None?
    ensures LatestRow(rows, withdrawn, c) ==
            if |rows| == 1 && rows[0].criterion == c then Some(rows[0]) else None
  {
    if |rows| == 1 { assert rows[..0] == []; }
  }

  lemma {:induction false} LatestFiled(
      s: seq<Row>, numbers: seq<nat>, filed: seq<Filing>, w: Witnesses, n: nat, withdrawn: set<nat>, c: nat)
    requires n <= |filed| == |numbers| && Unique(numbers)
    ensures var r := LatestRow(FiledRows(s, numbers, filed, w, n), withdrawn, c);
            && (forall i :: 0 <= i < n && numbers[i] == c ==>
                  r == if FiledRow(s, numbers, filed, w, i) == [] then None
                       else Some(FiledRow(s, numbers, filed, w, i)[0]))
            && (c !in numbers[..n] ==> r == None)
  {
    hide Stands, Find, LatestRow;
    if n == 0 {
      LatestOfOne([], withdrawn, c);
    } else {
      LatestFiled(s, numbers, filed, w, n - 1, withdrawn, c);
      var last := FiledRow(s, numbers, filed, w, n - 1);
      LatestOfBoth(FiledRows(s, numbers, filed, w, n - 1), last, withdrawn, c);
      LatestOfOne(last, withdrawn, c);
      assert numbers[..n] == numbers[..n - 1] + [numbers[n - 1]];
      if c == numbers[n - 1] { assert c !in numbers[..n - 1]; }
    }
  }

  lemma {:induction false} LatestRetired(s: seq<Row>, numbers: seq<nat>, withdrawn: set<nat>, c: nat)
    ensures var r := LatestRow(RetiredRows(s, numbers), withdrawn, c);
            && (c in numbers ==> r == None)
            && (r.Some? ==> r.value.status == Retired)
            && (c !in numbers && (exists j :: 0 <= j < |s| && s[j].criterion == c && s[j].status == Open) ==> r.Some?)
  {
    if s != [] {
      var row := s[|s| - 1];
      LatestRetired(s[..|s| - 1], numbers, withdrawn, c);
      var last := if row.criterion !in numbers && row.status == Open
                  then [row.(position := None, status := Retired, note := None)] else [];
      LatestOfBoth(RetiredRows(s[..|s| - 1], numbers), last, withdrawn, c);
      if last != [] { assert last[..0] == []; }
    }
  }

  // After a recording: a filed criterion's latest row is open at its place with
  // its text, and any other's is retired.
  lemma LatestRecorded(log: seq<Row>, withdrawn: set<nat>, s: seq<Row>, filed: seq<Filing>, w: Witnesses, c: nat)
    requires IsCurrent(log, withdrawn, s) && filed != []
    ensures var r := LatestRow(Recorded(log, s, filed, w), withdrawn, c);
            var numbers := Numbers(log, filed, |filed|);
            && (forall i :: 0 <= i < |filed| && numbers[i] == c ==> Stands(r, i + 1, filed[i].text))
            && (c !in numbers ==> r.Some? ==> r.value.status == Retired)
  {
    hide IsCurrent, Numbers, FiledRows, RetiredRows;
    var numbers := Numbers(log, filed, |filed|);
    var a, b := FiledRows(s, numbers, filed, w, |filed|), RetiredRows(s, numbers);
    NumbersDistinct(log, filed, |filed|);
    LatestFiled(s, numbers, filed, w, |filed|, withdrawn, c);
    LatestRetired(s, numbers, withdrawn, c);
    LatestOfBoth(log, a, withdrawn, c);
    LatestOfBoth(log + a, b, withdrawn, c);
    FindIsLatest(log, withdrawn, s, c);
    assert numbers[..|filed|] == numbers;
  }

  // ------------------------------------------------------------- theorems

  predicate Has(s: seq<Row>, c: nat) {
    exists a :: 0 <= a < |s| && s[a].criterion == c
  }

  // An open row's key is its position, then its number.
  lemma BeforeOpen(a: Row, b: Row)
    requires Before(a, b) && b.status == Open && b.position.Some?
    ensures a.status == Open && a.position.Some?
    ensures a.position.value < b.position.value || (a.position == b.position && a.criterion < b.criterion)
  {
  }

  // Row `row` is open at the place of its number.
  predicate Placed(row: Row, numbers: seq<nat>) {
    row.criterion in numbers <==>
      row.status == Open && row.position.Some? && 1 <= row.position.value <= |numbers|
      && numbers[row.position.value - 1] == row.criterion
  }

  ghost predicate InOrder(s: seq<Row>) {
    forall a, b :: 0 <= a < b < |s| ==> Before(s[a], s[b])
  }

  ghost predicate AllPlaced(s: seq<Row>, numbers: seq<nat>) {
    forall a :: 0 <= a < |s| ==> Placed(s[a], numbers) && (s[a].status == Open ==> s[a].criterion in numbers)
  }

  ghost predicate AllThere(s: seq<Row>, numbers: seq<nat>) {
    forall k :: 0 <= k < |numbers| ==> Has(s, numbers[k])
  }

  // The rows after the ones placed first are no row's of a later place.
  lemma Next(s: seq<Row>, numbers: seq<nat>, i: nat, a: nat)
    requires InOrder(s) && Unique(numbers) && AllPlaced(s, numbers) && i < |numbers| && i <= a < |s|
    requires forall b :: 0 <= b < i ==> s[b].criterion == numbers[b]
    requires s[a].criterion == numbers[i]
    ensures a == i
  {
    hide Before;
    assert Placed(s[a], numbers) && s[a].position == Some(i + 1);
    if i < a {
      BeforeOpen(s[i], s[a]);
      assert Placed(s[i], numbers);
      var p := s[i].position.value - 1;
      if p < i {
        assert Placed(s[p], numbers);
        BeforeOpen(s[p], s[i]);
      }
    }
  }

  lemma Unplaced(s: seq<Row>, numbers: seq<nat>, i: nat, a: nat)
    requires Unique(numbers) && i < |numbers| && a < |s| && s[a].criterion == numbers[i]
    requires forall b :: 0 <= b < i && b < |s| ==> s[b].criterion == numbers[b]
    ensures i <= a
  {
  }

  // Open rows with positions 1 to `n` come first, in that order.
  lemma {:induction false} OpenInOrder(s: seq<Row>, numbers: seq<nat>, i: nat)
    requires InOrder(s) && Unique(numbers) && AllPlaced(s, numbers) && AllThere(s, numbers) && i <= |numbers|
    ensures i <= |s| && forall a :: 0 <= a < i ==> s[a].criterion == numbers[a]
  {
    hide Before, InOrder, Unique, AllPlaced, Placed;
    if i > 0 {
      OpenInOrder(s, numbers, i - 1);
      assert Has(s, numbers[i - 1]);
      var a :| 0 <= a < |s| && s[a].criterion == numbers[i - 1];
      Unplaced(s, numbers, i - 1, a);
      Next(s, numbers, i - 1, a);
    }
  }

  // A row past the placed ones is not open.
  lemma PastPlaced(s: seq<Row>, numbers: seq<nat>, i: nat)
    requires InOrder(s) && Unique(numbers) && AllPlaced(s, numbers) && |numbers| <= i < |s|
    requires forall a :: 0 <= a < |numbers| ==> s[a].criterion == numbers[a]
    ensures s[i].status == Retired
  {
    hide Before, Placed, AllPlaced;
    if s[i].status == Open {
      OpenPlace(s, numbers, i);
      var p := s[i].position.value - 1;
      OpenPlace(s, numbers, p);
      BeforeOpen(s[p], s[i]);
    }
  }

  lemma OpenPlace(s: seq<Row>, numbers: seq<nat>, i: nat)
    requires AllPlaced(s, numbers) && i < |s| && (s[i].status == Open || s[i].criterion in numbers)
    ensures s[i].status == Open && s[i].position.Some? && 1 <= s[i].position.value <= |numbers|
    ensures numbers[s[i].position.value - 1] == s[i].criterion
  {
    assert Placed(s[i], numbers);
  }

  // After recording a list that is not empty, the current rows start with
  // exactly its texts in order, open; every other row is retired.
  lemma {:induction false} RecordedIsCurrent(
      log: seq<Row>, withdrawn: set<nat>, s: seq<Row>, filed: seq<Filing>, w: Witnesses, s': seq<Row>)
    requires IsCurrent(log, withdrawn, s) && filed != []
    requires IsCurrent(Recorded(log, s, filed, w), withdrawn, s')
    ensures |filed| <= |s'|
    ensures forall i :: 0 <= i < |filed| ==>
              s'[i].status == Open && s'[i].text == filed[i].text && s'[i].criterion == Numbers(log, filed, |filed|)[i]
    ensures forall i :: |filed| <= i < |s'| ==> s'[i].status == Retired
  {
    hide Recorded, Numbers, Before, Stands, Placed;
    var numbers := Numbers(log, filed, |filed|);
    NumbersDistinct(log, filed, |filed|);
    forall a | 0 <= a < |s'|
      ensures Placed(s'[a], numbers) && (s'[a].status == Open ==> s'[a].criterion in numbers)
    {
      LatestRecorded(log, withdrawn, s, filed, w, s'[a].criterion);
      IsPlaced(s'[a], numbers, filed);
    }
    forall k | 0 <= k < |numbers| ensures Has(s', numbers[k]) {
      LatestRecorded(log, withdrawn, s, filed, w, numbers[k]);
      StandsSome(LatestRow(Recorded(log, s, filed, w), withdrawn, numbers[k]), k + 1, filed[k].text);
    }
    OpenInOrder(s', numbers, |numbers|);
    forall i | 0 <= i < |s'| ensures i < |filed| ==> s'[i].status == Open && s'[i].text == filed[i].text {
      if i < |filed| {
        LatestRecorded(log, withdrawn, s, filed, w, s'[i].criterion);
        StandsSome(Some(s'[i]), i + 1, filed[i].text);
      }
    }
    forall i | |filed| <= i < |s'| ensures s'[i].status == Retired {
      PastPlaced(s', numbers, i);
    }
  }

  lemma StandsSome(r: Option<Row>, position: nat, text: string)
    ensures Stands(r, position, text) ==> r.Some? && r.value.text == text && r.value.status == Open
  {
  }

  lemma IsPlaced(row: Row, numbers: seq<nat>, filed: seq<Filing>)
    requires |numbers| == |filed|
    requires forall k :: 0 <= k < |numbers| && numbers[k] == row.criterion ==> Stands(Some(row), k + 1, filed[k].text)
    requires row.criterion !in numbers ==> row.status == Retired
    ensures Placed(row, numbers) && (row.status == Open ==> row.criterion in numbers)
  {
    if row.criterion in numbers {
      var k :| 0 <= k < |numbers| && numbers[k] == row.criterion;
    }
  }

  // ---------------------------------------------------- recording it again

  lemma {:induction false} FirstFreeInBoth(a: seq<Row>, b: seq<Row>, text: string, taken: set<nat>)
    ensures FirstFree(a + b, text, taken) ==
            if FirstFree(a, text, taken).Some? then FirstFree(a, text, taken) else FirstFree(b, text, taken)
  {
    if a == [] {
      assert a + b == b;
    } else {
      assert (a + b)[1..] == a[1..] + b;
      FirstFreeInBoth(a[1..], b, text, taken);
    }
  }

  // Among the rows a recording appends, the first free one with the text of a
  // criterion newly numbered is its own.
  lemma {:induction false} FirstFreeFiled(
      s: seq<Row>, numbers: seq<nat>, filed: seq<Filing>, w: Witnesses, n: nat, i: nat, rest: seq<Row>)
    requires i < n <= |filed| == |numbers| && Find(s, numbers[i]).None?
    ensures FirstFree(FiledRows(s, numbers, filed, w, n) + rest, filed[i].text, Elements(numbers[..i]))
            == Some(numbers[i])
            || numbers[i] in numbers[..i]
    decreases n
  {
    hide Stands;
    var taken := Elements(numbers[..i]);
    var before := FiledRows(s, numbers, filed, w, n - 1);
    var last := FiledRow(s, numbers, filed, w, n - 1);
    assert FiledRows(s, numbers, filed, w, n) + rest == before + (last + rest);
    if i < n - 1 {
      FirstFreeFiled(s, numbers, filed, w, n - 1, i, last + rest);
    } else if numbers[i] !in numbers[..i] {
      NoneFreeBefore(s, numbers, filed, w, i, i, filed[i].text);
      FirstFreeInBoth(before, last + rest, filed[i].text, taken);
      FindsNothing(s, numbers, filed, i);
      assert (last + rest)[0] == last[0];
    }
  }

  lemma FindsNothing(s: seq<Row>, numbers: seq<nat>, filed: seq<Filing>, i: nat)
    requires i < |numbers| == |filed| && Find(s, numbers[i]).None?
    ensures !Stands(Find(s, numbers[i]), i + 1, filed[i].text)
  {
  }

  lemma {:induction false} NoneFreeBefore(
      s: seq<Row>, numbers: seq<nat>, filed: seq<Filing>, w: Witnesses, n: nat, i: nat, text: string)
    requires n <= i <= |filed| == |numbers|
    ensures FirstFree(FiledRows(s, numbers, filed, w, n), text, Elements(numbers[..i])) == None
  {
    hide Stands, Find;
    if n > 0 {
      NoneFreeBefore(s, numbers, filed, w, n - 1, i, text);
      var last := FiledRow(s, numbers, filed, w, n - 1);
      FirstFreeInBoth(FiledRows(s, numbers, filed, w, n - 1), last, text, Elements(numbers[..i]));
      assert numbers[..i][n - 1] in Elements(numbers[..i]);
      if last != [] { assert last[1..] == []; }
    }
  }

  // A fresh number is no row's.
  lemma FreshNumber(log: seq<Row>, withdrawn: set<nat>, s: seq<Row>, before: seq<nat>)
    requires IsCurrent(log, withdrawn, s)
    ensures Find(s, HighestNumber(before, HighestOf(log)) + 1).None?
  {
    var c := HighestNumber(before, HighestOf(log)) + 1;
    HighestBounds(before, HighestOf(log));
    HighestOfBounds(log);
    FindIsLatest(log, withdrawn, s, c);
    NoRowNoLatest(log, withdrawn, c);
  }

  lemma {:induction false} NoRowNoLatest(rows: seq<Row>, withdrawn: set<nat>, c: nat)
    requires forall i :: 0 <= i < |rows| ==> rows[i].criterion < c
    ensures LatestRow(rows, withdrawn, c).None?
  {
    if rows != [] { NoRowNoLatest(rows[..|rows| - 1], withdrawn, c); }
  }

  // Filed again, each criterion gets the number it got.
  lemma {:induction false} SameNumbers(
      log: seq<Row>, withdrawn: set<nat>, s: seq<Row>, filed: seq<Filing>, w: Witnesses, n: nat)
    requires IsCurrent(log, withdrawn, s) && n <= |filed|
    ensures Numbers(Recorded(log, s, filed, w), filed, n) == Numbers(log, filed, n)
  {
    hide IsCurrent, HighestOf, HighestNumber, Number, Recorded, FiledRows, Elements;
    if n > 0 {
      SameNumbers(log, withdrawn, s, filed, w, n - 1);
      NumberAgain(log, withdrawn, s, filed, w, n - 1);
    }
  }

  lemma NumberAgain(log: seq<Row>, withdrawn: set<nat>, s: seq<Row>, filed: seq<Filing>, w: Witnesses, i: nat)
    requires IsCurrent(log, withdrawn, s) && i < |filed|
    ensures var before := Numbers(log, filed, i);
            forall h: nat ::
              Number(filed[i], Recorded(log, s, filed, w), Elements(before), h)
              == Number(filed[i], log, Elements(before), HighestNumber(before, HighestOf(log)))
  {
    hide IsCurrent, HighestOf, HighestNumber, Find, RetiredRows, FiledRows, Elements, FirstFree, Recorded, Numbers;
    var before, numbers := Numbers(log, filed, i), Numbers(log, filed, |filed|);
    var a, b := FiledRows(s, numbers, filed, w, |filed|), RetiredRows(s, numbers);
    RecordedIs(log, s, filed, w);
    assert log + a + b == log + (a + b);
    FirstFreeInBoth(log, a + b, filed[i].text, Elements(before));
    NumberAt(log, filed, i);
    NumbersPrefix(log, filed, |filed|, i);
    if FirstFree(log, filed[i].text, Elements(before)).None?
       && !(filed[i].explicit.Some? && filed[i].explicit.value !in Elements(before)) {
      FreshNumber(log, withdrawn, s, before);
      NumberIsNew(filed[i], log, before);
      FirstFreeFiled(s, numbers, filed, w, |filed|, i, b);
    }
  }

  lemma NumberAt(log: seq<Row>, filed: seq<Filing>, i: nat)
    requires i < |filed|
    ensures var before := Numbers(log, filed, i);
            Numbers(log, filed, |filed|)[i]
            == Number(filed[i], log, Elements(before), HighestNumber(before, HighestOf(log)))
  {
    hide Number, Elements, HighestNumber, HighestOf;
    NumbersPrefix(log, filed, |filed|, i + 1);
    assert Numbers(log, filed, |filed|)[..i + 1][i] == Numbers(log, filed, |filed|)[i];
  }

  lemma {:induction false} NothingFiled(s: seq<Row>, numbers: seq<nat>, filed: seq<Filing>, w: Witnesses, n: nat)
    requires n <= |filed| == |numbers|
    requires forall i :: 0 <= i < |filed| ==> Stands(Find(s, numbers[i]), i + 1, filed[i].text)
    ensures FiledRows(s, numbers, filed, w, n) == []
  {
    hide Stands, Find;
    if n > 0 { NothingFiled(s, numbers, filed, w, n - 1); }
  }

  lemma {:induction false} NothingRetired(s: seq<Row>, numbers: seq<nat>)
    requires forall j :: 0 <= j < |s| && s[j].criterion !in numbers ==> s[j].status == Retired
    ensures RetiredRows(s, numbers) == []
  {
    if s != [] { NothingRetired(s[..|s| - 1], numbers); }
  }

  // Recording the same list again appends no row, whatever the log held.
  lemma RecordingAgainAppendsNothing(
      log: seq<Row>, withdrawn: set<nat>, s: seq<Row>, filed: seq<Filing>, w: Witnesses, s': seq<Row>)
    requires IsCurrent(log, withdrawn, s) && filed != []
    requires IsCurrent(Recorded(log, s, filed, w), withdrawn, s')
    ensures Recorded(Recorded(log, s, filed, w), s', filed, w) == Recorded(log, s, filed, w)
  {
    var log' := Recorded(log, s, filed, w);
    var numbers := Numbers(log, filed, |filed|);
    SameNumbers(log, withdrawn, s, filed, w, |filed|);
    forall i | 0 <= i < |filed| ensures Stands(Find(s', numbers[i]), i + 1, filed[i].text) {
      LatestRecorded(log, withdrawn, s, filed, w, numbers[i]);
      FindIsLatest(log', withdrawn, s', numbers[i]);
    }
    forall j | 0 <= j < |s'| && s'[j].criterion !in numbers ensures s'[j].status == Retired {
      LatestRecorded(log, withdrawn, s, filed, w, s'[j].criterion);
    }
    NothingFiled(s', numbers, filed, w, |filed|);
    NothingRetired(s', numbers);
  }

  // --------------------------------------------------------------- amending

  datatype Edit = Add(text: string) | Replace(number: nat, text: string) | Drop(number: nat)

  function MaxPosition(s: seq<Row>): nat {
    if s == [] then 0
    else Max(MaxPosition(s[1..]), if s[0].position.Some? then s[0].position.value else 0)
  }

  function Put(s: seq<Row>, row: Row): seq<Row> {
    if s == [] then [row]
    else if s[0].criterion == row.criterion then [row] + s[1..]
    else [s[0]] + Put(s[1..], row)
  }

  // The row one edit appends, or none if it is refused: `bad` is a text whose
  // witness no one could read.
  function EditRow(latest: seq<Row>, highest: nat, edit: Edit, note: nat, read: string -> string, bad: string -> bool)
    : (r: Option<Row>)
  {
    match edit
    case Add(text) =>
      if bad(text) then None
      else Some(Row(highest + 1, Some(MaxPosition(latest) + 1), text, read(text), Open, Some(note)))
    case Replace(number, text) =>
      var row := Find(latest, number);
      if row.None? || row.value.status == Retired || bad(text) then None
      else Some(Row(number, row.value.position, text, read(text), Open, Some(note)))
    case Drop(number) =>
      var row := Find(latest, number);
      if row.None? || row.value.status == Retired then None
      else Some(Row(number, None, row.value.text, row.value.evidence, Retired, Some(note)))
  }

  // What a dropped criterion keeps in the amendment's own view of it.
  function Seen(latest: seq<Row>, row: Row): Row {
    var was := Find(latest, row.criterion);
    if row.status == Retired && was.Some? then row.(position := was.value.position) else row
  }

  // The rows an amendment appends, or none if any of its edits is refused.
  function AmendRows(
      latest: seq<Row>, highest: nat, edits: seq<Edit>, note: nat, read: string -> string, bad: string -> bool)
    : (r: Option<seq<Row>>)
    decreases |edits|
  {
    if edits == [] then Some([])
    else
      match EditRow(latest, highest, edits[0], note, read, bad)
      case None => None
      case Some(row) =>
        match AmendRows(Put(latest, Seen(latest, row)), if edits[0].Add? then highest + 1 else highest, edits[1..],
                        note, read, bad)
        case None => None
        case Some(rows) => Some([row] + rows)
  }

  predicate Names(edits: seq<Edit>, c: nat) {
    exists i :: 0 <= i < |edits| && !edits[i].Add? && edits[i].number == c
  }

  // Every row an amendment appends is its own, and is a criterion an edit named
  // or one with a number above all before it.
  lemma {:induction false} AmendRowsAre(
      latest: seq<Row>, highest: nat, edits: seq<Edit>, note: nat, read: string -> string, bad: string -> bool)
    requires AmendRows(latest, highest, edits, note, read, bad).Some?
    ensures var rows := AmendRows(latest, highest, edits, note, read, bad).value;
            && |rows| == |edits|
            && forall i :: 0 <= i < |rows| ==>
                 rows[i].note == Some(note) && (rows[i].criterion > highest || Names(edits, rows[i].criterion))
    decreases |edits|
  {
    hide Put, Seen, MaxPosition;
    if edits != [] {
      var row := EditRow(latest, highest, edits[0], note, read, bad).value;
      var highest' := if edits[0].Add? then highest + 1 else highest;
      AmendRowsAre(Put(latest, Seen(latest, row)), highest', edits[1..], note, read, bad);
      var rest := AmendRows(Put(latest, Seen(latest, row)), highest', edits[1..], note, read, bad).value;
      forall i | 0 <= i < |rest| && Names(edits[1..], rest[i].criterion) ensures Names(edits, rest[i].criterion) {
        var j :| 0 <= j < |edits[1..]| && !edits[1..][j].Add? && edits[1..][j].number == rest[i].criterion;
        assert edits[j + 1].number == rest[i].criterion;
      }
      if !edits[0].Add? { assert edits[0].number == row.criterion; }
    }
  }

  lemma {:induction false} OthersLatest(rows: seq<Row>, withdrawn: set<nat>, c: nat)
    requires forall i :: 0 <= i < |rows| ==> rows[i].criterion != c || !Visible(rows[i], withdrawn)
    ensures LatestRow(rows, withdrawn, c).None?
  {
    if rows != [] { OthersLatest(rows[..|rows| - 1], withdrawn, c); }
  }

  // An amendment leaves every criterion it does not name as it was.
  lemma AmendKeepsOthers(
      log: seq<Row>, withdrawn: set<nat>, s: seq<Row>, edits: seq<Edit>, note: nat, read: string -> string,
      bad: string -> bool, c: nat)
    requires AmendRows(s, HighestOf(log), edits, note, read, bad).Some?
    requires c <= HighestOf(log) && !Names(edits, c)
    ensures var rows := AmendRows(s, HighestOf(log), edits, note, read, bad).value;
            LatestRow(log + rows, withdrawn, c) == LatestRow(log, withdrawn, c)
  {
    var rows := AmendRows(s, HighestOf(log), edits, note, read, bad).value;
    AmendRowsAre(s, HighestOf(log), edits, note, read, bad);
    OthersLatest(rows, withdrawn, c);
    LatestOfBoth(log, rows, withdrawn, c);
  }

  // Withdrawing an amendment takes back exactly what it changed.
  lemma WithdrawnAmendmentIsUndone(
      log: seq<Row>, withdrawn: set<nat>, s: seq<Row>, edits: seq<Edit>, note: nat, read: string -> string,
      bad: string -> bool, c: nat)
    requires AmendRows(s, HighestOf(log), edits, note, read, bad).Some?
    requires forall i :: 0 <= i < |log| ==> log[i].note != Some(note)
    ensures var rows := AmendRows(s, HighestOf(log), edits, note, read, bad).value;
            LatestRow(log + rows, withdrawn + {note}, c) == LatestRow(log, withdrawn, c)
  {
    var rows := AmendRows(s, HighestOf(log), edits, note, read, bad).value;
    AmendRowsAre(s, HighestOf(log), edits, note, read, bad);
    OthersLatest(rows, withdrawn + {note}, c);
    LatestOfBoth(log, rows, withdrawn + {note}, c);
    StillVisible(log, withdrawn, note, c);
  }

  lemma {:induction false} StillVisible(log: seq<Row>, withdrawn: set<nat>, note: nat, c: nat)
    requires forall i :: 0 <= i < |log| ==> log[i].note != Some(note)
    ensures LatestRow(log, withdrawn + {note}, c) == LatestRow(log, withdrawn, c)
  {
    if log != [] { StillVisible(log[..|log| - 1], withdrawn, note, c); }
  }

  // ------------------------------------------------------------ in place

  lemma BeforeIsOrder(a: Row, b: Row, c: Row)
    ensures a.criterion != b.criterion ==> Before(a, b) || Before(b, a)
    ensures Before(a, b) && Before(b, c) ==> Before(a, c)
  {
  }

  // The place of `row` among the rows in order.
  method Place(s: seq<Row>, row: Row) returns (k: nat)
    requires InOrder(s) && forall j :: 0 <= j < |s| ==> s[j].criterion != row.criterion
    ensures k <= |s| && InOrder(s[..k] + [row] + s[k..])
  {
    hide Before;
    k := 0;
    while k < |s| && Before(s[k], row)
      invariant k <= |s|
      invariant forall j :: 0 <= j < k ==> Before(s[j], row)
    {
      k := k + 1;
    }
    forall j | k <= j < |s| ensures Before(row, s[j]) {
      BeforeIsOrder(s[k], row, row);
      BeforeIsOrder(row, s[k], s[j]);
    }
  }

  lemma RecordedIs(log: seq<Row>, s: seq<Row>, filed: seq<Filing>, w: Witnesses)
    requires filed != []
    ensures var numbers := Numbers(log, filed, |filed|);
            Recorded(log, s, filed, w) == log + FiledRows(s, numbers, filed, w, |filed|) + RetiredRows(s, numbers)
  {
  }

  class Log {
    var rows: seq<Row>
    var withdrawn: set<nat>

    constructor ()
      ensures rows == [] && withdrawn == {}
    {
      rows, withdrawn := [], {};
    }

    // `current()`: the newest visible row of each criterion, then sorted.
    method Current() returns (s: seq<Row>)
      ensures IsCurrent(rows, withdrawn, s)
    {
      var latest: seq<Row> := [];
      var i := |rows|;
      assert rows[..i] == rows;
      while i > 0
        invariant 0 <= i <= |rows|
        invariant forall j :: 0 <= j < |latest| ==> LatestRow(rows, withdrawn, latest[j].criterion) == Some(latest[j])
        invariant forall j, k :: 0 <= j < k < |latest| ==> latest[j].criterion != latest[k].criterion
        invariant forall c :: LatestRow(rows, withdrawn, c) ==
                    if Find(latest, c).Some? then Find(latest, c) else LatestRow(rows[..i], withdrawn, c)
      {
        i := i - 1;
        assert rows[..i + 1][..i] == rows[..i];
        var row := rows[i];
        if Visible(row, withdrawn) && Find(latest, row.criterion).None? {
          forall c ensures Find(latest + [row], c) ==
            if Find(latest, c).Some? then Find(latest, c) else if c == row.criterion then Some(row) else None
          {
            FindSnoc(latest, row, c);
          }
          latest := latest + [row];
        }
      }
      s := Sorted(latest);
      forall j | 0 <= j < |s| ensures LatestRow(rows, withdrawn, s[j].criterion) == Some(s[j]) {
        assert s[j] in s;
      }
      forall c | LatestRow(rows, withdrawn, c).Some? ensures LatestRow(rows, withdrawn, c).value in s {
      }
    }

    // `record_criteria`
    method Record(filed: seq<Filing>, w: Witnesses)
      modifies this`rows
      ensures withdrawn == old(withdrawn)
      ensures filed == [] ==> rows == old(rows)
      ensures filed != [] ==> exists s :: IsCurrent(old(rows), withdrawn, s) && rows == Recorded(old(rows), s, filed, w)
    {
      hide *;
      if filed == [] { return; }
      ghost var was := rows;
      var latest := Current();
      var numbers := Numbered(filed);
      AppendFiled(latest, numbers, filed, w);
      AppendRetired(latest, numbers);
      RecordedIs(was, latest, filed, w);
    }

    method Numbered(filed: seq<Filing>) returns (numbers: seq<nat>)
      ensures numbers == Numbers(rows, filed, |filed|)
    {
      hide Number;
      var highest := Highest();
      numbers := [];
      for i := 0 to |filed|
        invariant numbers == Numbers(rows, filed, i)
        invariant highest == HighestNumber(numbers, HighestOf(rows))
      {
        var number := Number(filed[i], rows, Elements(numbers), highest);
        numbers := numbers + [number];
        highest := if number > highest then number else highest;
      }
    }

    method AppendFiled(latest: seq<Row>, numbers: seq<nat>, filed: seq<Filing>, w: Witnesses)
      requires |filed| == |numbers|
      modifies this`rows
      ensures rows == old(rows) + FiledRows(latest, numbers, filed, w, |filed|)
    {
      hide Stands, Find;
      for i := 0 to |filed|
        invariant rows == old(rows) + FiledRows(latest, numbers, filed, w, i)
      {
        if !Stands(Find(latest, numbers[i]), i + 1, filed[i].text) {
          rows := rows + [Row(numbers[i], Some(i + 1), filed[i].text, w(filed)(i), Open, None)];
        }
      }
    }

    method AppendRetired(latest: seq<Row>, numbers: seq<nat>)
      modifies this`rows
      ensures rows == old(rows) + RetiredRows(latest, numbers)
    {
      for j := 0 to |latest|
        invariant rows == old(rows) + RetiredRows(latest[..j], numbers)
      {
        assert latest[..j + 1][..j] == latest[..j];
        var row := latest[j];
        if row.criterion !in numbers && row.status == Open {
          rows := rows + [row.(position := None, status := Retired, note := None)];
        }
      }
      assert latest[..|latest|] == latest;
    }

    method Highest() returns (n: nat)
      ensures n == HighestOf(rows)
    {
      n := 0;
      for i := 0 to |rows|
        invariant n == HighestOf(rows[..i])
      {
        assert rows[..i + 1][..i] == rows[..i];
        if rows[i].criterion > n { n := rows[i].criterion; }
      }
      assert rows[..|rows|] == rows;
    }

    // `amend`: all of an amendment's edits, or none.
    method Amend(edits: seq<Edit>, note: nat, read: string -> string, bad: string -> bool) returns (ok: bool)
      modifies this`rows
      ensures exists s :: IsCurrent(old(rows), withdrawn, s) &&
                var a := AmendRows(s, HighestOf(old(rows)), edits, note, read, bad);
                ok == a.Some? && rows == if a.Some? then old(rows) + a.value else old(rows)
    {
      hide IsCurrent, EditRow, Seen, Put;
      var was := rows;
      var latest := Current();
      ghost var s := latest;
      var highest := Highest();
      ghost var a := AmendRows(s, highest, edits, note, read, bad);
      assert IsCurrent(was, withdrawn, s);
      ghost var made: seq<Row> := [];
      assert edits[0..] == edits;
      AfterNone(a);
      for i := 0 to |edits|
        invariant rows == was + made
        invariant a == After(made, AmendRows(latest, highest, edits[i..], note, read, bad))
      {
        assert edits[i..][0] == edits[i] && edits[i..][1..] == edits[i + 1..];
        var row := EditRow(latest, highest, edits[i], note, read, bad);
        if row.None? {
          rows := was;
          return false;
        }
        AfterOne(made, row.value, AmendRows(Put(latest, Seen(latest, row.value)),
                                            if edits[i].Add? then highest + 1 else highest, edits[i + 1..],
                                            note, read, bad));
        rows := rows + [row.value];
        made := made + [row.value];
        latest := Put(latest, Seen(latest, row.value));
        if edits[i].Add? { highest := highest + 1; }
      }
      return true;
    }
  }

  function After(made: seq<Row>, rest: Option<seq<Row>>): Option<seq<Row>> {
    if rest.Some? then Some(made + rest.value) else None
  }

  lemma AfterNone(rest: Option<seq<Row>>)
    ensures After([], rest) == rest
  {
    if rest.Some? { assert [] + rest.value == rest.value; }
  }

  lemma AfterOne(made: seq<Row>, row: Row, rest: Option<seq<Row>>)
    ensures After(made + [row], rest) == After(made, After([row], rest))
  {
    if rest.Some? { assert (made + [row]) + rest.value == made + ([row] + rest.value); }
  }

  lemma {:induction false} FindSnoc(s: seq<Row>, row: Row, c: nat)
    ensures Find(s + [row], c) ==
            if Find(s, c).Some? then Find(s, c) else if row.criterion == c then Some(row) else None
  {
    if s != [] {
      assert (s + [row])[1..] == s[1..] + [row];
      FindSnoc(s[1..], row, c);
    }
  }

  method Sorted(rows: seq<Row>) returns (s: seq<Row>)
    requires forall j, k :: 0 <= j < k < |rows| ==> rows[j].criterion != rows[k].criterion
    ensures InOrder(s) && forall row :: row in s <==> row in rows
  {
    s := [];
    for i := 0 to |rows|
      invariant InOrder(s) && forall row :: row in s <==> row in rows[..i]
    {
      assert rows[..i + 1] == rows[..i] + [rows[i]];
      forall j | 0 <= j < |s| ensures s[j].criterion != rows[i].criterion {
        assert s[j] in rows[..i];
      }
      var k := Place(s, rows[i]);
      assert s == s[..k] + s[k..];
      s := s[..k] + [rows[i]] + s[k..];
    }
    assert rows[..|rows|] == rows;
  }
}

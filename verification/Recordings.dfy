// What filing a list of criteria leaves of each of them (store/criteria.py).

module Recordings {
  import opened Criteria

  // The row a recording leaves in place of `was` when criterion `c` is filed with
  // a text at a place: as it was if it stood there unamended, and otherwise anew
  // with the witness read for it.
  function FiledAs(was: Option<Row>, c: nat, position: nat, text: string, proof: string): Row {
    if was.Some? && was.value == Row(c, Some(position), text, was.value.evidence, Open, None) then was.value
    else Row(c, Some(position), text, proof, Open, None)
  }

  // A criterion no longer filed is retired with its text, and stays retired.
  function Unfiled(was: Option<Row>): Option<Row> {
    if was.Some? && was.value.status == Open
    then Some(was.value.(position := None, status := Retired, note := None)) else was
  }

  lemma {:induction false} RetiredAt(s: seq<Row>, numbers: seq<nat>, withdrawn: set<nat>, c: nat)
    requires forall j, k :: 0 <= j < k < |s| ==> s[j].criterion != s[k].criterion
    ensures LatestRow(RetiredRows(s, numbers), withdrawn, c)
            == if c !in numbers && Find(s, c).Some? && Find(s, c).value.status == Open then Unfiled(Find(s, c)) else None
  {
    if s != [] {
      var n := |s| - 1;
      var row := s[n];
      RetiredAt(s[..n], numbers, withdrawn, c);
      var last := if row.criterion !in numbers && row.status == Open
                  then [row.(position := None, status := Retired, note := None)] else [];
      LatestOfBoth(RetiredRows(s[..n], numbers), last, withdrawn, c);
      LatestOfOne(last, withdrawn, c);
      assert s == s[..n] + [row];
      FindSnoc(s[..n], row, c);
    }
  }

  lemma CurrentDistinct(rows: seq<Row>, withdrawn: set<nat>, s: seq<Row>)
    requires IsCurrent(rows, withdrawn, s)
    ensures forall j, k :: 0 <= j < k < |s| ==> s[j].criterion != s[k].criterion
  {
    forall j, k | 0 <= j < k < |s| ensures s[j].criterion != s[k].criterion {
      assert Before(s[j], s[k]);
      assert LatestRow(rows, withdrawn, s[j].criterion) == Some(s[j]);
      assert LatestRow(rows, withdrawn, s[k].criterion) == Some(s[k]);
    }
  }

  // After a recording every criterion filed is open in its place with its text,
  // with the witness it had if it stood there already and the one read for it
  // otherwise; every other one is retired with the text it had.
  lemma RecordedExactly(log: seq<Row>, withdrawn: set<nat>, s: seq<Row>, filed: seq<Filing>, w: Witnesses, c: nat)
    requires IsCurrent(log, withdrawn, s) && filed != []
    ensures var numbers := Numbers(log, filed, |filed|);
            var was, now := LatestRow(log, withdrawn, c), LatestRow(Recorded(log, s, filed, w), withdrawn, c);
            && (forall i :: 0 <= i < |filed| && numbers[i] == c ==>
                  now == Some(FiledAs(was, c, i + 1, filed[i].text, w(filed)(i))))
            && (c !in numbers ==> now == Unfiled(was))
  {
    hide IsCurrent, Numbers, FiledRows, RetiredRows, LatestRow, Find;
    var numbers := Numbers(log, filed, |filed|);
    var a, b := FiledRows(s, numbers, filed, w, |filed|), RetiredRows(s, numbers);
    NumbersDistinct(log, filed, |filed|);
    CurrentDistinct(log, withdrawn, s);
    LatestFiled(s, numbers, filed, w, |filed|, withdrawn, c);
    RetiredAt(s, numbers, withdrawn, c);
    LatestOfBoth(log, a, withdrawn, c);
    LatestOfBoth(log + a, b, withdrawn, c);
    FindIsLatest(log, withdrawn, s, c);
    assert numbers[..|filed|] == numbers;
    forall i | 0 <= i < |filed| && numbers[i] == c
      ensures Stands(Find(s, c), i + 1, filed[i].text) <==>
                Find(s, c).Some? && Find(s, c).value == Row(c, Some(i + 1), filed[i].text, Find(s, c).value.evidence, Open, None)
    {
      FindIsOf(s, c);
    }
  }

  lemma FindIsOf(s: seq<Row>, c: nat)
    ensures Find(s, c).Some? ==> Find(s, c).value.criterion == c
  {
  }

  // --------------------------------------------------------------- numbers

  // An earlier row of the log has this text under a number not yet given.
  predicate Free(log: seq<Row>, text: string, before: seq<nat>, k: nat) {
    k < |log| && log[k].text == text && log[k].criterion !in before
  }

  lemma {:induction false} FirstFreeAt(log: seq<Row>, text: string, before: seq<nat>, k: nat)
    requires Free(log, text, before, k) && forall j :: 0 <= j < k ==> !Free(log, text, before, j)
    ensures FirstFree(log, text, Elements(before)) == Some(log[k].criterion)
  {
    if k > 0 {
      assert !Free(log, text, before, 0);
      forall j | 0 <= j < k - 1 ensures !Free(log[1..], text, before, j) {
        assert !Free(log, text, before, j + 1);
      }
      FirstFreeAt(log[1..], text, before, k - 1);
    }
  }

  lemma {:induction false} NoneFree(log: seq<Row>, text: string, before: seq<nat>)
    requires forall j :: 0 <= j < |log| ==> !Free(log, text, before, j)
    ensures FirstFree(log, text, Elements(before)) == None
  {
    if log != [] {
      assert !Free(log, text, before, 0);
      forall j | 0 <= j < |log| - 1 ensures !Free(log[1..], text, before, j) {
        assert !Free(log, text, before, j + 1);
      }
      NoneFree(log[1..], text, before);
    }
  }

  // The number of a criterion whose text names none that is free.
  lemma NumberIs(log: seq<Row>, f: Filing, before: seq<nat>)
    requires f.explicit.None? || f.explicit.value in before
    ensures var n := Number(f, log, Elements(before), HighestNumber(before, HighestOf(log)));
            && (forall k: nat :: Free(log, f.text, before, k)
                                 && (forall j: nat :: j < k ==> !Free(log, f.text, before, j)) ==>
                  n == log[k].criterion)
            && ((forall k: nat :: k < |log| ==> !Free(log, f.text, before, k)) ==>
                  && (forall k :: 0 <= k < |log| ==> log[k].criterion < n)
                  && (forall k :: 0 <= k < |before| ==> before[k] < n))
  {
    InElements(before);
    forall k: nat | Free(log, f.text, before, k) && forall j: nat :: j < k ==> !Free(log, f.text, before, j)
      ensures FirstFree(log, f.text, Elements(before)) == Some(log[k].criterion)
    {
      FirstFreeAt(log, f.text, before, k);
    }
    if forall k: nat :: k < |log| ==> !Free(log, f.text, before, k) {
      NoneFree(log, f.text, before);
      HighestBounds(before, HighestOf(log));
      HighestOfBounds(log);
    }
  }

  // A criterion keeps the number its text names, unless one before it took that;
  // else the number of the oldest row with its text that none before it took;
  // else it gets a number above every one in the log and before it.
  lemma NumberedAs(log: seq<Row>, filed: seq<Filing>, i: nat)
    requires i < |filed|
    ensures var numbers := Numbers(log, filed, |filed|);
            var before := numbers[..i];
            if filed[i].explicit.Some? && filed[i].explicit.value !in before
            then numbers[i] == filed[i].explicit.value
            else
              && (forall k: nat :: Free(log, filed[i].text, before, k)
                                   && (forall j: nat :: j < k ==> !Free(log, filed[i].text, before, j)) ==>
                    numbers[i] == log[k].criterion)
              && ((forall k: nat :: k < |log| ==> !Free(log, filed[i].text, before, k)) ==>
                    && (forall k :: 0 <= k < |log| ==> log[k].criterion < numbers[i])
                    && (forall k :: 0 <= k < i ==> before[k] < numbers[i]))
  {
    hide Numbers, Elements, FirstFree, HighestNumber, HighestOf;
    NumberAt(log, filed, i);
    NumbersPrefix(log, filed, |filed|, i);
    var before := Numbers(log, filed, i);
    InElements(before);
    if filed[i].explicit.None? || filed[i].explicit.value in before { NumberIs(log, filed[i], before); }
  }

  lemma InElements(s: seq<nat>)
    ensures forall x :: x in Elements(s) <==> x in s
  {
  }
}

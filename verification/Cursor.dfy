// The automation cursor: where each pass over the watched projects starts
// (holophyte/automation/step.py).

module Cursor {

  datatype Option<+T> = None | Some(value: T)

  // What happens at one place of a pass: stopped before it, or its project is
  // reached and perhaps cut or failed.
  datatype Event = Stopped | Fine | CutOrFailed

  predicate Distinct(names: seq<string>) {
    forall i, j :: 0 <= i < j < |names| ==> names[i] != names[j]
  }

  // The place `j` further round from `start`.
  function Nth(start: nat, j: nat, n: nat): (r: nat)
    requires start < n && j <= n
    ensures r < n
  {
    if start + j < n then start + j else start + j - n
  }

  // How many projects a pass reaches: those before its first stop.
  function Reach(events: seq<Event>): (v: nat)
    ensures v <= |events|
  {
    if events == [] || events[0].Stopped? then 0 else 1 + Reach(events[1..])
  }

  // One past the last place cut or failed among the first `n`.
  function AfterCut(events: seq<Event>, n: nat): (r: Option<nat>)
    requires n <= |events|
    ensures r.Some? ==> 0 < r.value <= n
  {
    if n == 0 then None else if events[n - 1].CutOrFailed? then Some(n) else AfterCut(events, n - 1)
  }

  // Where the next pass starts: at the first project not reached, or after a
  // full pass at the one after the last cut or failure, or one further on.
  function NextStart(start: nat, events: seq<Event>): (r: nat)
    requires start < |events|
    ensures r < |events|
  {
    var n, v := |events|, Reach(events);
    if v < n then Nth(start, v, n)
    else
      match AfterCut(events, n)
      case Some(k) => Nth(start, k, n)
      case None => Nth(start, 1, n)
  }

  predicate Reaches(start: nat, events: seq<Event>, k: nat)
    requires start < |events|
  {
    exists j :: 0 <= j < Reach(events) && Nth(start, j, |events|) == k
  }

  function IndexOf(names: seq<string>, name: string): (i: nat)
    requires name in names
    ensures i < |names| && names[i] == name
  {
    if names[0] == name then 0 else 1 + IndexOf(names[1..], name)
  }

  // A cursor the list no longer has starts the pass at its head.
  function StartOf(names: seq<string>, cursor: Option<string>): (i: nat)
    requires names != []
    ensures i < |names|
  {
    if cursor.Some? && cursor.value in names then IndexOf(names, cursor.value) else 0
  }

  lemma ReachBefore(events: seq<Event>, i: nat)
    requires i <= |events| && forall j :: 0 <= j < i ==> !events[j].Stopped?
    ensures i <= Reach(events)
    ensures i < |events| && events[i].Stopped? ==> Reach(events) == i
    decreases i
  {
    if i > 0 { ReachBefore(events[1..], i - 1); }
  }

  // One pass over the rotated list.  `events` says what happens at each place.
  method RunPass(names: seq<string>, cursor: Option<string>, events: seq<Event>)
    returns (cursor': Option<string>, reached: seq<string>)
    requires names != [] && |events| == |names|
    ensures var start := StartOf(names, cursor);
            && cursor' == Some(names[NextStart(start, events)])
            && reached == ReachedNames(names, cursor, events)
  {
    hide StartOf, IndexOf, Reach, AfterCut, Nth;
    var start := StartOf(names, cursor);
    var order := names[start..] + names[..start];
    reached, cursor' := [], cursor;
    var afterCut: Option<string> := None;
    NoCut(events);
    for i := 0 to |order|
      invariant |reached| == i && forall j :: 0 <= j < i ==> reached[j] == names[Nth(start, j, |names|)]
      invariant forall j :: 0 <= j < i ==> !events[j].Stopped?
      invariant afterCut == Named(names, start, AfterCut(events, i))
    {
      ReachBefore(events, i);
      CutNext(events, i);
      OrderAt(names, start, i);
      cursor' := Some(order[i]);
      if events[i].Stopped? { return; }
      reached := reached + [order[i]];
      cursor' := Some(names[Nth(start, i + 1, |names|)]);
      if events[i].CutOrFailed? { afterCut := cursor'; }
    }
    ReachBefore(events, |order|);
    cursor' := if afterCut.Some? then afterCut else Some(names[Nth(start, 1, |names|)]);
  }

  function Named(names: seq<string>, start: nat, cut: Option<nat>): Option<string>
    requires start < |names| && (cut.Some? ==> cut.value <= |names|)
  {
    match cut
    case Some(k) => Some(names[Nth(start, k, |names|)])
    case None => None
  }

  lemma NoCut(events: seq<Event>)
    ensures AfterCut(events, 0) == None
  {
  }

  lemma CutNext(events: seq<Event>, i: nat)
    requires i < |events|
    ensures AfterCut(events, i + 1) == if events[i].CutOrFailed? then Some(i + 1) else AfterCut(events, i)
  {
  }

  lemma OrderAt(names: seq<string>, start: nat, i: nat)
    requires start < |names| && i < |names|
    ensures (names[start..] + names[..start])[i] == names[Nth(start, i, |names|)]
  {
  }

  lemma {:induction false} ReachIs(events: seq<Event>)
    ensures forall j :: 0 <= j < Reach(events) ==> !events[j].Stopped?
    ensures Reach(events) < |events| ==> events[Reach(events)].Stopped?
  {
    if events != [] && !events[0].Stopped? { ReachIs(events[1..]); }
  }

  lemma {:induction false} AfterCutIs(events: seq<Event>, n: nat)
    requires n <= |events|
    ensures var r := AfterCut(events, n);
            && (r.Some? ==> events[r.value - 1].CutOrFailed? && forall j :: r.value <= j < n ==> !events[j].CutOrFailed?)
            && (r.None? ==> forall j :: 0 <= j < n ==> !events[j].CutOrFailed?)
  {
    if n > 0 { AfterCutIs(events, n - 1); }
  }

  lemma NthIsModulo(start: nat, j: nat, n: nat)
    requires start < n && j <= n
    ensures Nth(start, j, n) == (start + j) % n
  {
    if start + j >= n { assert (start + j) == 1 * n + (start + j - n); }
  }

  // A pass that stops goes on next time at the project it stopped before.  One
  // that does not goes on after the last project cut or failed, or one project
  // further when there is none.
  lemma NextPassStarts(start: nat, events: seq<Event>)
    requires start < |events|
    ensures var n := |events|;
            && (forall i :: 0 <= i < n && events[i].Stopped? && (forall j :: 0 <= j < i ==> !events[j].Stopped?) ==>
                  NextStart(start, events) == (start + i) % n)
            && ((forall j :: 0 <= j < n ==> !events[j].Stopped?) ==>
                  && (forall i :: 0 <= i < n && events[i].CutOrFailed?
                                  && (forall j :: i < j < n ==> !events[j].CutOrFailed?) ==>
                        NextStart(start, events) == (start + i + 1) % n)
                  && ((forall j :: 0 <= j < n ==> !events[j].CutOrFailed?) ==>
                        NextStart(start, events) == (start + 1) % n))
  {
    hide Nth, Reach, AfterCut;
    var n, v := |events|, Reach(events);
    ReachIs(events);
    AfterCutIs(events, n);
    NthIsModulo(start, v, n);
    NthIsModulo(start, 1, n);
    var r := AfterCut(events, n);
    if r.Some? { NthIsModulo(start, r.value, n); }
  }

  // ---------------------------------------------------------------- the passes

  predicate PassesOf(n: nat, passes: seq<seq<Event>>) {
    forall i :: 0 <= i < |passes| ==> |passes[i]| == n
  }

  // Where pass `i` starts.
  function StartAt(start: nat, passes: seq<seq<Event>>, i: nat, n: nat): (r: nat)
    requires start < n && PassesOf(n, passes) && i <= |passes|
    ensures r < n
  {
    if i == 0 then start else NextStart(StartAt(start, passes, i - 1, n), passes[i - 1])
  }

  ghost predicate ReachedBy(start: nat, passes: seq<seq<Event>>, n: nat, k: nat)
    requires start < n && PassesOf(n, passes)
  {
    exists i :: 0 <= i < |passes| && Reaches(StartAt(start, passes, i, n), passes[i], k)
  }

  // A project at distance `d` from the start is reached within `d + 1` passes
  // that each reach one.
  lemma {:induction false} Approaches(start: nat, passes: seq<seq<Event>>, n: nat, k: nat, d: nat, i: nat)
    requires start < n && PassesOf(n, passes) && k < n && d < n
    requires forall j :: 0 <= j < |passes| ==> Reach(passes[j]) >= 1
    requires i + d < |passes| && Nth(StartAt(start, passes, i, n), d, n) == k
    ensures ReachedBy(start, passes, n, k)
    decreases d
  {
    var at, events := StartAt(start, passes, i, n), passes[i];
    var v := Reach(events);
    if d < v {
      assert Reaches(at, events, k);
    } else {
      assert StartAt(start, passes, i + 1, n) == Nth(at, v, n);
      Approaches(start, passes, n, k, d - v, i + 1);
    }
  }

  // A cursor names the place it was stored for, as names are distinct.
  lemma {:induction false} CursorKept(names: seq<string>, i: nat)
    requires Distinct(names) && i < |names|
    ensures StartOf(names, Some(names[i])) == i
  {
    if i > 0 { CursorKept(names[1..], i - 1); }
  }

  // The stored cursor before pass `i`, each pass finding its start by name in
  // what the one before it stored.
  function CursorBefore(names: seq<string>, cursor: Option<string>, passes: seq<seq<Event>>, i: nat): Option<string>
    requires names != [] && PassesOf(|names|, passes) && i <= |passes|
  {
    if i == 0 then cursor
    else Some(names[NextStart(StartOf(names, CursorBefore(names, cursor, passes, i - 1)), passes[i - 1])])
  }

  lemma {:induction false} CursorStarts(names: seq<string>, cursor: Option<string>, passes: seq<seq<Event>>, i: nat)
    requires Distinct(names) && names != [] && PassesOf(|names|, passes) && i <= |passes|
    ensures StartOf(names, CursorBefore(names, cursor, passes, i))
            == StartAt(StartOf(names, cursor), passes, i, |names|)
  {
    hide StartOf, NextStart;
    if i > 0 {
      CursorStarts(names, cursor, passes, i - 1);
      CursorKept(names, NextStart(StartAt(StartOf(names, cursor), passes, i - 1, |names|), passes[i - 1]));
    }
  }

  // The projects a pass reaches from a stored cursor, in turn.
  function ReachedNames(names: seq<string>, cursor: Option<string>, events: seq<Event>): (r: seq<string>)
    requires names != [] && |events| == |names|
    ensures |r| == Reach(events)
  {
    seq(Reach(events), j requires 0 <= j < Reach(events) => names[Nth(StartOf(names, cursor), j, |names|)])
  }

  // However passes are cut, fail or stop early: over a fixed list of distinct
  // names, from any stored cursor, one the list no longer has included, with
  // every pass reaching a project, each project is reached in every run of as
  // many passes as there are names.
  lemma {:induction false} EveryProjectReached(
      names: seq<string>, cursor: Option<string>, passes: seq<seq<Event>>, name: string)
    requires Distinct(names) && name in names && PassesOf(|names|, passes) && |passes| == |names|
    requires forall i :: 0 <= i < |passes| ==> Reach(passes[i]) >= 1
    ensures exists i :: 0 <= i < |passes|
                        && name in ReachedNames(names, CursorBefore(names, cursor, passes, i), passes[i])
  {
    hide StartOf, NextStart, Nth;
    var n := |names|;
    var start := StartOf(names, cursor);
    var k :| 0 <= k < n && names[k] == name;
    DistanceTo(start, k, n);
    Approaches(start, passes, n, k, if start <= k then k - start else k + n - start, 0);
    var i :| 0 <= i < |passes| && Reaches(StartAt(start, passes, i, n), passes[i], k);
    CursorStarts(names, cursor, passes, i);
    var at := CursorBefore(names, cursor, passes, i);
    var j :| 0 <= j < Reach(passes[i]) && Nth(StartOf(names, at), j, n) == k;
    assert ReachedNames(names, at, passes[i])[j] == name;
  }

  lemma {:induction false} DistanceTo(start: nat, k: nat, n: nat)
    requires start < n && k < n
    ensures Nth(start, if start <= k then k - start else k + n - start, n) == k
  {
  }
}

// Canceling a ticket (store/board.py, store/stories.py).

module Cancel {
  // Its open dependents inherit its dependencies, and a story's approved edges
  // are rewired with them.

  import opened Lifecycle

  // A ticket row of one project; `story` is the story it is a child of.
  datatype Row = Row(
    issue: string, name: string, status: Status, canceled: bool, specced: bool, depends: seq<string>,
    story: Option<nat>)

  // A story, open while approved or parked, and its approved edges by child
  // name.
  datatype Story = Story(open: bool, edges: map<string, seq<string>>)

  datatype Board = Board(rows: seq<Row>, stories: seq<Story>)

  // --------------------------------------------------------- inherited edges

  function AddNew(rewired: seq<string>, entries: seq<string>): (r: seq<string>)
    decreases |entries|
  {
    if entries == [] then rewired
    else
      var n := |entries| - 1;
      var before := AddNew(rewired, entries[..n]);
      if entries[n] in before then before else before + [entries[n]]
  }

  // `_inherited_edges`: each entry once, the canceled one replaced by what it
  // depended on.
  function Inherited(depends: seq<string>, c: string, inherited: seq<string>): (r: seq<string>)
  {
    if depends == [] then []
    else
      var n := |depends| - 1;
      AddNew(Inherited(depends[..n], c, inherited), if depends[n] == c then inherited else [depends[n]])
  }

  lemma {:induction false} AddNewIs(rewired: seq<string>, entries: seq<string>, x: string)
    ensures x in AddNew(rewired, entries) <==> x in rewired || x in entries
    decreases |entries|
  {
    if entries != [] {
      var n := |entries| - 1;
      assert entries == entries[..n] + [entries[n]];
      AddNewIs(rewired, entries[..n], x);
    }
  }

  // The rewired edges are exactly the other edges and, if the canceled one was
  // there, its own.
  lemma {:induction false} InheritedIs(depends: seq<string>, c: string, inherited: seq<string>, x: string)
    ensures x in Inherited(depends, c, inherited) <==> (x != c && x in depends) || (c in depends && x in inherited)
  {
    if depends != [] {
      var n := |depends| - 1;
      assert depends == depends[..n] + [depends[n]];
      InheritedIs(depends[..n], c, inherited, x);
      AddNewIs(Inherited(depends[..n], c, inherited), if depends[n] == c then inherited else [depends[n]], x);
    }
  }

  predicate Distinct(s: seq<string>) {
    forall i, j :: 0 <= i < j < |s| ==> s[i] != s[j]
  }

  lemma {:induction false} AddNewDistinct(rewired: seq<string>, entries: seq<string>)
    requires Distinct(rewired)
    ensures Distinct(AddNew(rewired, entries))
    decreases |entries|
  {
    if entries != [] { AddNewDistinct(rewired, entries[..|entries| - 1]); }
  }

  lemma {:induction false} InheritedDistinct(depends: seq<string>, c: string, inherited: seq<string>)
    ensures Distinct(Inherited(depends, c, inherited))
  {
    if depends != [] {
      var n := |depends| - 1;
      InheritedDistinct(depends[..n], c, inherited);
      AddNewDistinct(Inherited(depends[..n], c, inherited), if depends[n] == c then inherited else [depends[n]]);
    }
  }

  // The edges in turn, with the canceled one's own in its place.
  function Replaced(depends: seq<string>, c: string, inherited: seq<string>): seq<string> {
    if depends == [] then []
    else (if depends[0] == c then inherited else [depends[0]]) + Replaced(depends[1..], c, inherited)
  }

  // `firsts` is what `all` names, each at its first place and in that order.
  predicate FirstPlaces(all: seq<string>, firsts: seq<string>, at: seq<nat>) {
    && |at| == |firsts|
    && (forall k :: 0 <= k < |at| ==>
          at[k] < |all| && all[at[k]] == firsts[k] && forall i :: 0 <= i < at[k] ==> all[i] != firsts[k])
    && (forall j, k :: 0 <= j < k < |at| ==> at[j] < at[k])
    && (forall i :: 0 <= i < |all| ==> all[i] in firsts)
  }

  lemma FirstOneMore(all: seq<string>, firsts: seq<string>, at: seq<nat>, x: string)
    requires FirstPlaces(all, firsts, at)
    ensures x in firsts ==> FirstPlaces(all + [x], firsts, at)
    ensures x !in firsts ==> FirstPlaces(all + [x], firsts + [x], at + [|all|])
  {
  }

  lemma {:induction false} AddNewFirsts(all: seq<string>, firsts: seq<string>, at: seq<nat>, entries: seq<string>)
    returns (at': seq<nat>)
    requires FirstPlaces(all, firsts, at)
    ensures FirstPlaces(all + entries, AddNew(firsts, entries), at')
    decreases |entries|
  {
    hide FirstPlaces;
    if entries == [] {
      assert all + [] == all;
      at' := at;
    } else {
      var n := |entries| - 1;
      at' := AddNewFirsts(all, firsts, at, entries[..n]);
      FirstOneMore(all + entries[..n], AddNew(firsts, entries[..n]), at', entries[n]);
      assert all + entries == all + entries[..n] + [entries[n]];
      if entries[n] !in AddNew(firsts, entries[..n]) { at' := at' + [|all + entries[..n]|]; }
    }
  }

  lemma {:induction false} ReplacedSnoc(depends: seq<string>, d: string, c: string, inherited: seq<string>)
    ensures Replaced(depends + [d], c, inherited)
            == Replaced(depends, c, inherited) + if d == c then inherited else [d]
  {
    if depends == [] {
      assert ([] + [d])[1..] == [];
    } else {
      assert (depends + [d])[1..] == depends[1..] + [d];
      ReplacedSnoc(depends[1..], d, c, inherited);
    }
  }

  // The rewired edges keep their order: each entry stands where it first comes
  // up, the inherited ones in the canceled one's place.
  lemma {:induction false} InheritedInOrder(depends: seq<string>, c: string, inherited: seq<string>)
    returns (at: seq<nat>)
    ensures FirstPlaces(Replaced(depends, c, inherited), Inherited(depends, c, inherited), at)
  {
    hide AddNew;
    if depends == [] {
      at := [];
    } else {
      var n := |depends| - 1;
      at := InheritedInOrder(depends[..n], c, inherited);
      assert depends == depends[..n] + [depends[n]];
      ReplacedSnoc(depends[..n], depends[n], c, inherited);
      at := AddNewFirsts(Replaced(depends[..n], c, inherited), Inherited(depends[..n], c, inherited), at,
                         if depends[n] == c then inherited else [depends[n]]);
    }
  }

  method InheritedEdges(depends: seq<string>, c: string, inherited: seq<string>) returns (rewired: seq<string>)
    ensures rewired == Inherited(depends, c, inherited)
  {
    rewired := [];
    for i := 0 to |depends|
      invariant rewired == Inherited(depends[..i], c, inherited)
    {
      assert depends[..i + 1][..i] == depends[..i];
      ghost var before := rewired;
      var entries := if depends[i] == c then inherited else [depends[i]];
      for j := 0 to |entries|
        invariant rewired == AddNew(before, entries[..j])
      {
        assert entries[..j + 1][..j] == entries[..j];
        if entries[j] !in rewired { rewired := rewired + [entries[j]]; }
      }
      assert entries[..|entries|] == entries;
    }
    assert depends[..|depends|] == depends;
  }

  // ------------------------------------------------------------ the rewiring

  // A dependent whose edges the cancel rewrites.
  predicate Rewires(row: Row, c: string) {
    c in row.depends && row.status !in {Status.Merged, Status.Abandoned} && !row.canceled
  }

  predicate IsMerged(rows: seq<Row>, issue: string) {
    exists i :: 0 <= i < |rows| && rows[i].issue == issue && rows[i].status == Status.Merged
  }

  predicate AllMerged(rows: seq<Row>, depends: seq<string>) {
    forall d :: 0 <= d < |depends| ==> IsMerged(rows, depends[d])
  }

  function RewiredRow(rows: seq<Row>, row: Row, c: string, inherited: seq<string>): Row {
    if !Rewires(row, c) then row
    else
      var depends := Inherited(row.depends, c, inherited);
      row.(depends := depends,
           status := if row.status == BlockedOnDeps && row.specced && AllMerged(rows, depends) then Ready
                     else row.status)
  }

  function Edges(s: Story, name: string): seq<string> {
    if name in s.edges then s.edges[name] else []
  }

  // `_rewire_approved_edge` for one rewired row.
  function RewiredStories(stories: seq<Story>, row: Row, c: string, inherited: seq<string>): (r: seq<Story>)
    ensures |r| == |stories|
  {
    if row.story.None? || row.story.value >= |stories| then stories
    else
      var s := stories[row.story.value];
      if !s.open || c !in Edges(s, row.name) then stories
      else
        stories[row.story.value := s.(edges := s.edges[row.name := Inherited(Edges(s, row.name), c, inherited)])]
  }

  // The first `n` rows rewired in turn; `was` is the project as first read.
  function Rewire(was: Board, n: nat, c: string, inherited: seq<string>): (b: Board)
    requires n <= |was.rows|
    ensures |b.rows| == |was.rows| && |b.stories| == |was.stories|
  {
    if n == 0 then was
    else
      var b := Rewire(was, n - 1, c, inherited);
      var row := was.rows[n - 1];
      if !Rewires(row, c) then b
      else Board(b.rows[n - 1 := RewiredRow(was.rows, row, c, inherited)],
                 RewiredStories(b.stories, row, c, inherited))
  }

  lemma {:induction false} RewiredAt(was: Board, n: nat, c: string, inherited: seq<string>, i: nat)
    requires n <= |was.rows| && i < |was.rows|
    ensures Rewire(was, n, c, inherited).rows[i] ==
            if i < n then RewiredRow(was.rows, was.rows[i], c, inherited) else was.rows[i]
  {
    hide RewiredStories, AllMerged;
    if n > 0 { RewiredAt(was, n - 1, c, inherited, i); }
  }

  // The project once ticket `k` is canceled: its own row is no longer open.
  function Canceled(was: Board, k: nat): (b: Board)
    requires k < |was.rows|
    ensures |b.rows| == |was.rows| && |b.stories| == |was.stories|
  {
    var marked := was.(rows := was.rows[k := was.rows[k].(canceled := true)]);
    Rewire(marked, |was.rows|, was.rows[k].issue, was.rows[k].depends)
  }

  predicate OneRow(rows: seq<Row>, issue: string) {
    forall i, j :: 0 <= i < j < |rows| ==> !(rows[i].issue == issue && rows[j].issue == issue)
  }

  lemma CanceledAt(was: Board, k: nat, i: nat)
    requires k < |was.rows| && i < |was.rows|
    ensures var b := Canceled(was, k);
            && |b.rows| == |was.rows|
            && b.rows[i].issue == was.rows[i].issue && b.rows[i].name == was.rows[i].name
            && b.rows[i].story == was.rows[i].story
            && b.rows[i].canceled == (was.rows[i].canceled || i == k)
            && b.rows[i].depends ==
               (if i != k && Rewires(was.rows[i], was.rows[k].issue)
                then Inherited(was.rows[i].depends, was.rows[k].issue, was.rows[k].depends)
                else was.rows[i].depends)
  {
    hide Inherited, RewiredStories, AllMerged, Rewire;
    var marked := was.(rows := was.rows[k := was.rows[k].(canceled := true)]);
    RewiredAt(marked, |was.rows|, was.rows[k].issue, was.rows[k].depends, i);
  }

  // ---------------------------------------------------------- reachability

  predicate DependsOn(rows: seq<Row>, x: string, y: string) {
    exists i :: 0 <= i < |rows| && rows[i].issue == x && y in rows[i].depends
  }

  // `p` names the tickets after `x`, each depended on by the one before it.
  predicate Leads(rows: seq<Row>, x: string, p: seq<string>, y: string)
    decreases |p|
  {
    p != [] && DependsOn(rows, x, p[0]) && (if |p| == 1 then p[0] == y else Leads(rows, p[0], p[1..], y))
  }

  ghost predicate Reaches(rows: seq<Row>, x: string, y: string) {
    exists p :: Leads(rows, x, p, y)
  }

  // Each edge of the canceled board was one before, or a short cut past the
  // canceled ticket.
  lemma EdgeAfter(was: Board, k: nat, x: string, y: string)
    requires k < |was.rows| && DependsOn(Canceled(was, k).rows, x, y)
    ensures var c := was.rows[k].issue;
            DependsOn(was.rows, x, y) || (DependsOn(was.rows, x, c) && DependsOn(was.rows, c, y))
  {
    hide Canceled, Inherited, Rewires;
    var rows := Canceled(was, k).rows;
    CanceledAt(was, k, 0);
    var i :| 0 <= i < |rows| && rows[i].issue == x && y in rows[i].depends;
    CanceledAt(was, k, i);
    InheritedIs(was.rows[i].depends, was.rows[k].issue, was.rows[k].depends, y);
  }

  // An edge to another ticket stays; one to the canceled ticket stays, or its
  // dependencies take its place.
  lemma EdgeBefore(was: Board, k: nat, x: string, y: string)
    requires k < |was.rows| && OneRow(was.rows, was.rows[k].issue) && DependsOn(was.rows, x, y)
    ensures var c := was.rows[k].issue;
            var rows := Canceled(was, k).rows;
            && (y != c ==> DependsOn(rows, x, y))
            && (y == c ==> DependsOn(rows, x, c) || forall z :: z in was.rows[k].depends ==> DependsOn(rows, x, z))
            && (x == c ==> DependsOn(rows, x, y) && y in was.rows[k].depends)
  {
    hide Canceled, Inherited, Rewires;
    var c := was.rows[k].issue;
    var rows := Canceled(was, k).rows;
    var i :| 0 <= i < |was.rows| && was.rows[i].issue == x && y in was.rows[i].depends;
    CanceledAt(was, k, i);
    assert rows[i].issue == x;
    InheritedIs(was.rows[i].depends, c, was.rows[k].depends, y);
    forall z | z in was.rows[k].depends ensures y == c ==> DependsOn(rows, x, c) || DependsOn(rows, x, z) {
      InheritedIs(was.rows[i].depends, c, was.rows[k].depends, z);
    }
  }

  lemma {:induction false} PathAfter(was: Board, k: nat, x: string, p: seq<string>, y: string)
    requires k < |was.rows| && Leads(Canceled(was, k).rows, x, p, y)
    ensures Reaches(was.rows, x, y)
    decreases |p|
  {
    hide Canceled, DependsOn;
    var c := was.rows[k].issue;
    EdgeAfter(was, k, x, p[0]);
    var tail := [];
    if |p| > 1 {
      PathAfter(was, k, p[0], p[1..], y);
      tail :| Leads(was.rows, p[0], tail, y);
    }
    if DependsOn(was.rows, x, p[0]) {
      Step(was.rows, x, p[0], tail, y);
    } else {
      Step(was.rows, c, p[0], tail, y);
      Step(was.rows, x, c, [p[0]] + tail, y);
    }
  }

  lemma Step(rows: seq<Row>, x: string, z: string, p: seq<string>, y: string)
    requires DependsOn(rows, x, z) && (if p == [] then z == y else Leads(rows, z, p, y))
    ensures Leads(rows, x, [z] + p, y)
  {
    assert ([z] + p)[1..] == p;
  }

  lemma {:induction false} PathBefore(was: Board, k: nat, x: string, p: seq<string>, y: string)
    requires k < |was.rows| && OneRow(was.rows, was.rows[k].issue) && Leads(was.rows, x, p, y)
    requires y != was.rows[k].issue && was.rows[k].issue !in was.rows[k].depends
    ensures Reaches(Canceled(was, k).rows, x, y)
    decreases |p|
  {
    hide Canceled, DependsOn, OneRow;
    var c := was.rows[k].issue;
    var rows := Canceled(was, k).rows;
    EdgeBefore(was, k, x, p[0]);
    var tail := [];
    if |p| > 1 {
      PathBefore(was, k, p[0], p[1..], y);
      tail :| Leads(rows, p[0], tail, y);
    }
    if DependsOn(rows, x, p[0]) {
      Step(rows, x, p[0], tail, y);
    } else {
      // The canceled ticket's own edges are unchanged, and `x` inherited them.
      EdgeBefore(was, k, c, p[1]);
      var rest := [];
      if |p| > 2 {
        PathBefore(was, k, p[1], p[1..][1..], y);
        rest :| Leads(rows, p[1], rest, y);
      }
      Step(rows, x, p[1], rest, y);
    }
  }

  // Canceling a ticket that does not depend on itself preserves, between all
  // others, which depends on which in the end.
  lemma CancelKeepsReachability(was: Board, k: nat, x: string, y: string)
    requires k < |was.rows| && OneRow(was.rows, was.rows[k].issue)
    requires was.rows[k].issue !in was.rows[k].depends && y != was.rows[k].issue
    ensures Reaches(was.rows, x, y) <==> Reaches(Canceled(was, k).rows, x, y)
  {
    hide Canceled, Leads, OneRow;
    if p :| Leads(was.rows, x, p, y) { PathBefore(was, k, x, p, y); }
    if p :| Leads(Canceled(was, k).rows, x, p, y) { PathAfter(was, k, x, p, y); }
  }

  predicate IsOpen(row: Row) {
    row.status !in {Status.Merged, Status.Abandoned} && !row.canceled
  }

  // No open ticket depends on the canceled one exactly when it did not depend
  // on itself, or nothing open depended on it.
  lemma NoneDependsOnCanceled(was: Board, k: nat)
    requires k < |was.rows|
    ensures var c := was.rows[k].issue;
            var rows := Canceled(was, k).rows;
            (forall i :: 0 <= i < |rows| && IsOpen(rows[i]) ==> c !in rows[i].depends)
            <==> (c !in was.rows[k].depends
                  || forall i :: 0 <= i < |was.rows| && i != k && IsOpen(was.rows[i]) ==> c !in was.rows[i].depends)
  {
    hide Canceled, Inherited;
    var c := was.rows[k].issue;
    var rows := Canceled(was, k).rows;
    CanceledAt(was, k, 0);
    forall i | 0 <= i < |rows|
      ensures i != k && IsOpen(was.rows[i]) ==>
                IsOpen(rows[i]) && (c in rows[i].depends <==> c in was.rows[i].depends && c in was.rows[k].depends)
      ensures IsOpen(rows[i]) ==> i != k && IsOpen(was.rows[i])
    {
      OpenAfter(was, k, i);
      CanceledAt(was, k, i);
      InheritedIs(was.rows[i].depends, c, was.rows[k].depends, c);
    }
  }

  // Canceling one ticket of a cycle leaves the other depending on itself, and
  // canceling that one leaves an open ticket depending on a canceled one.
  lemma CycleLeavesDependent()
    ensures var a := Row("a", "A", Ready, false, true, ["c"], None);
            var c := Row("c", "C", Ready, false, true, ["a"], None);
            var d := Row("d", "D", Ready, false, true, ["a"], None);
            var once := Canceled(Board([a, c, d], []), 1);
            var twice := Canceled(once, 0);
            && once.rows[0].depends == ["a"]
            && IsOpen(twice.rows[2]) && twice.rows[0].canceled && "a" in twice.rows[2].depends
  {
    hide Canceled, Inherited;
    var a := Row("a", "A", Ready, false, true, ["c"], None);
    var c := Row("c", "C", Ready, false, true, ["a"], None);
    var d := Row("d", "D", Ready, false, true, ["a"], None);
    var was := Board([a, c, d], []);
    var once := Canceled(was, 1);
    CanceledAt(was, 1, 0);
    CanceledAt(was, 1, 2);
    OpenAfter(was, 1, 2);
    InheritedOne("c", "a");
    CanceledAt(once, 0, 0);
    CanceledAt(once, 0, 2);
    OpenAfter(once, 0, 2);
    InheritedOne("a", "a");
  }

  lemma InheritedOne(c: string, x: string)
    ensures Inherited([c], c, [x]) == [x]
  {
    assert [c][..0] == [] && [x][..0] == [];
    assert AddNew([], [x]) == [x];
  }

  lemma OpenAfter(was: Board, k: nat, i: nat)
    requires k < |was.rows| && i < |was.rows|
    ensures IsOpen(Canceled(was, k).rows[i]) <==> i != k && IsOpen(was.rows[i])
  {
    hide Inherited, RewiredStories, AllMerged, Rewire;
    var marked := was.(rows := was.rows[k := was.rows[k].(canceled := true)]);
    RewiredAt(marked, |was.rows|, was.rows[k].issue, was.rows[k].depends, i);
  }

  // ---------------------------------------------------------- approved edges

  // A story's children have distinct names.
  predicate NamesDistinct(rows: seq<Row>) {
    forall i, j :: 0 <= i < j < |rows| && rows[i].story.Some? && rows[i].story == rows[j].story ==>
      rows[i].name != rows[j].name
  }

  // A child's approved edges are rewired with its row, and no other way.
  lemma {:induction false} EdgesAt(was: Board, n: nat, c: string, inherited: seq<string>, i: nat)
    requires n <= |was.rows| && i < |was.rows| && NamesDistinct(was.rows)
    requires was.rows[i].story.Some? && was.rows[i].story.value < |was.stories|
    ensures var s, name := was.rows[i].story.value, was.rows[i].name;
            var (before, after) := (was.stories[s], Rewire(was, n, c, inherited).stories[s]);
            && after.open == before.open
            && Edges(after, name) ==
               if i < n && before.open && Rewires(was.rows[i], c) && c in Edges(before, name)
               then Inherited(Edges(before, name), c, inherited) else Edges(before, name)
  {
    hide Inherited, RewiredRow, Rewires;
    if n > 0 { EdgesAt(was, n - 1, c, inherited, i); }
  }

  // Where an open story's child depended on just what was approved, it still
  // does.
  lemma ApprovedEdgesStayEqual(was: Board, k: nat, i: nat)
    requires k < |was.rows| && i < |was.rows| && NamesDistinct(was.rows)
    requires was.rows[i].story.Some? && was.rows[i].story.value < |was.stories|
    requires var s, name := was.stories[was.rows[i].story.value], was.rows[i].name;
             s.open && (if name in s.edges then s.edges[name] else []) == was.rows[i].depends
    ensures var (b, n, name) := (Canceled(was, k), was.rows[i].story.value, was.rows[i].name);
            && b.rows[i].story == Some(n) && b.rows[i].name == name && b.stories[n].open
            && (if name in b.stories[n].edges then b.stories[n].edges[name] else []) == b.rows[i].depends
  {
    hide Inherited, RewiredStories, AllMerged, Rewire;
    var marked := was.(rows := was.rows[k := was.rows[k].(canceled := true)]);
    CanceledAt(was, k, i);
    EdgesAt(marked, |was.rows|, was.rows[k].issue, was.rows[k].depends, i);
  }

  // A blocked dependent is ready after the cancel exactly when it was rewired,
  // is specced and everything it now depends on has merged.
  lemma ReadyWhenMet(was: Board, k: nat, i: nat)
    requires k < |was.rows| && i < |was.rows| && i != k && was.rows[i].status == BlockedOnDeps
    ensures var rows := Canceled(was, k).rows;
            rows[i].status == Ready <==>
              && was.rows[k].issue in was.rows[i].depends && !was.rows[i].canceled && was.rows[i].specced
              && EachMerged(rows, rows[i].depends)
  {
    hide Inherited, RewiredStories, AllMerged, Rewire, Canceled;
    var marked := was.(rows := was.rows[k := was.rows[k].(canceled := true)]);
    CanceledIs(was, k);
    MergedEach(Canceled(was, k).rows, Canceled(was, k).rows[i].depends);
    RewiredAt(marked, |was.rows|, was.rows[k].issue, was.rows[k].depends, i);
    MergedStay(was, k, Canceled(was, k).rows[i].depends);
    MergedMarked(was, k, Canceled(was, k).rows[i].depends);
  }

  predicate EachMerged(rows: seq<Row>, depends: seq<string>) {
    forall issue :: issue in depends ==>
      exists j :: 0 <= j < |rows| && rows[j].issue == issue && rows[j].status == Status.Merged
  }

  lemma MergedEach(rows: seq<Row>, depends: seq<string>)
    ensures AllMerged(rows, depends) <==> EachMerged(rows, depends)
  {
    if EachMerged(rows, depends) {
      forall d | 0 <= d < |depends| ensures IsMerged(rows, depends[d]) {
        assert depends[d] in depends;
      }
    }
    if AllMerged(rows, depends) {
      forall issue | issue in depends ensures IsMerged(rows, issue) {
        var d :| 0 <= d < |depends| && depends[d] == issue;
        assert IsMerged(rows, depends[d]);
      }
    }
  }

  lemma CanceledIs(was: Board, k: nat)
    requires k < |was.rows|
    ensures Canceled(was, k) ==
            Rewire(was.(rows := was.rows[k := was.rows[k].(canceled := true)]), |was.rows|, was.rows[k].issue,
                   was.rows[k].depends)
  {
  }

  lemma MergedMarked(was: Board, k: nat, depends: seq<string>)
    requires k < |was.rows|
    ensures AllMerged(was.rows[k := was.rows[k].(canceled := true)], depends) <==> AllMerged(was.rows, depends)
  {
    var marked := was.rows[k := was.rows[k].(canceled := true)];
    forall d | 0 <= d < |depends| ensures IsMerged(marked, depends[d]) <==> IsMerged(was.rows, depends[d]) {
      if i :| 0 <= i < |marked| && marked[i].issue == depends[d] && marked[i].status == Status.Merged {
        assert was.rows[i].issue == depends[d] && was.rows[i].status == Status.Merged;
      }
      if i :| 0 <= i < |marked| && was.rows[i].issue == depends[d] && was.rows[i].status == Status.Merged {
        assert marked[i].issue == depends[d] && marked[i].status == Status.Merged;
      }
    }
  }

  // The rewiring merges and unmerges nothing.
  lemma MergedStay(was: Board, k: nat, depends: seq<string>)
    requires k < |was.rows|
    ensures AllMerged(Canceled(was, k).rows, depends) <==> AllMerged(was.rows, depends)
  {
    hide Canceled;
    var rows := Canceled(was, k).rows;
    CanceledAt(was, k, 0);
    forall i | 0 <= i < |rows|
      ensures rows[i].issue == was.rows[i].issue
      ensures rows[i].status == Status.Merged <==> was.rows[i].status == Status.Merged
    {
      CanceledAt(was, k, i);
      StatusAfter(was, k, i);
    }
    forall d | 0 <= d < |depends| ensures IsMerged(rows, depends[d]) <==> IsMerged(was.rows, depends[d]) {
      if i :| 0 <= i < |rows| && rows[i].issue == depends[d] && rows[i].status == Status.Merged {
        assert was.rows[i].issue == depends[d] && was.rows[i].status == Status.Merged;
      }
      if i :| 0 <= i < |rows| && was.rows[i].issue == depends[d] && was.rows[i].status == Status.Merged {
        assert rows[i].issue == depends[d] && rows[i].status == Status.Merged;
      }
    }
  }

  lemma StatusAfter(was: Board, k: nat, i: nat)
    requires k < |was.rows| && i < |was.rows|
    ensures var s := Canceled(was, k).rows[i].status;
            s == was.rows[i].status || (was.rows[i].status == BlockedOnDeps && s == Ready)
  {
    hide Inherited, RewiredStories, AllMerged, Rewire;
    var marked := was.(rows := was.rows[k := was.rows[k].(canceled := true)]);
    RewiredAt(marked, |was.rows|, was.rows[k].issue, was.rows[k].depends, i);
  }

  // ------------------------------------------------------------ in place

  class Project {
    var rows: seq<Row>
    var stories: seq<Story>

    constructor (board: Board)
      ensures Now() == board
    {
      rows, stories := board.rows, board.stories;
    }

    function Now(): Board
      reads this
    {
      Board(rows, stories)
    }

    // `_rewire_approved_edge`
    method RewireApprovedEdge(row: Row, c: string, inherited: seq<string>)
      modifies this`stories
      ensures stories == RewiredStories(old(stories), row, c, inherited)
    {
      if row.story.None? || row.story.value >= |stories| { return; }
      var s := stories[row.story.value];
      if !s.open || c !in Edges(s, row.name) { return; }
      var edges := InheritedEdges(Edges(s, row.name), c, inherited);
      stories := stories[row.story.value := s.(edges := s.edges[row.name := edges])];
    }

    // `cancel_ticket`, as far as the planning graph goes: mark the ticket, then
    // rewrite each open dependent read before the loop.
    method Cancel(k: nat)
      requires k < |rows|
      modifies this
      ensures Now() == Canceled(old(Now()), k)
    {
      hide Inherited, RewiredStories, AllMerged;
      rows := rows[k := rows[k].(canceled := true)];
      var c, inherited := rows[k].issue, rows[k].depends;
      var was := Now();
      for i := 0 to |was.rows|
        invariant Now() == Rewire(was, i, c, inherited)
      {
        var row := was.rows[i];
        if c !in row.depends || row.status in {Status.Merged, Status.Abandoned} || row.canceled { continue; }
        var rewired := InheritedEdges(row.depends, c, inherited);
        RewiredAt(was, i, c, inherited, i);
        var status := row.status;
        if status == BlockedOnDeps && row.specced && AllMerged(was.rows, rewired) { status := Ready; }
        rows := rows[i := row.(depends := rewired, status := status)];
        RewireApprovedEdge(row, c, inherited);
      }
    }
  }
}

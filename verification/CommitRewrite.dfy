// Rewriting the messages of unpublished commits, parents first
// (holophyte/commit_hygiene.py).

module CommitRewrite {

  type Id = string

  // A header line of a commit object; `Continued` goes on from the line before.
  datatype Line = Tree(id: Id) | Parent(id: Id) | Signature(text: string) | Continued(text: string) | Header(text: string)

  datatype Commit = Commit(lines: seq<Line>, message: string)

  type Objects = map<Id, Commit>

  type Hash = Commit -> Id

  type Transform = string -> string

  ghost predicate Injective(h: Hash) {
    forall a, b :: h(a) == h(b) ==> a == b
  }

  // Each object is stored under its own hash.
  ghost predicate Hashed(h: Hash, objects: Objects) {
    forall id :: id in objects ==> h(objects[id]) == id
  }

  function Get(m: map<Id, Id>, id: Id): Id {
    if id in m then m[id] else id
  }

  function Parents(lines: seq<Line>): seq<Id> {
    if lines == [] then [] else (if lines[0].Parent? then [lines[0].id] else []) + Parents(lines[1..])
  }

  function Trees(lines: seq<Line>): seq<Id> {
    if lines == [] then [] else (if lines[0].Tree? then [lines[0].id] else []) + Trees(lines[1..])
  }

  function Mapped(ids: seq<Id>, m: map<Id, Id>): (r: seq<Id>)
    ensures |r| == |ids|
  {
    if ids == [] then [] else [Get(m, ids[0])] + Mapped(ids[1..], m)
  }

  function MapLines(lines: seq<Line>, m: map<Id, Id>): (r: seq<Line>)
    ensures |r| == |lines|
  {
    if lines == [] then []
    else MapLines(lines[..|lines| - 1], m)
         + [if lines[|lines| - 1].Parent? then Parent(Get(m, lines[|lines| - 1].id)) else lines[|lines| - 1]]
  }

  // Whether the line at the end belongs to a signature.
  predicate InSignature(lines: seq<Line>) {
    lines != [] && var last := lines[|lines| - 1];
    if last.Continued? then InSignature(lines[..|lines| - 1]) else last.Signature?
  }

  function Unsigned(lines: seq<Line>): seq<Line> {
    if lines == [] then []
    else Unsigned(lines[..|lines| - 1]) + if InSignature(lines) then [] else [lines[|lines| - 1]]
  }

  // `_reword`: the commit's id after it, and the objects.
  function Reword(h: Hash, t: Transform, objects: Objects, m: map<Id, Id>, sha: Id): (r: (Id, Objects))
    requires sha in objects
  {
    var was := objects[sha];
    var updated, cleaned := MapLines(was.lines, m), t(was.message);
    if updated == was.lines && cleaned == was.message then (sha, objects)
    else
      var made := Commit(Unsigned(updated), cleaned);
      (h(made), objects[h(made) := made])
  }

  // ------------------------------------------------------ lines and parents

  lemma {:induction false} ParentsOfAll(a: seq<Line>, b: seq<Line>)
    ensures Parents(a + b) == Parents(a) + Parents(b)
  {
    if a == [] {
      assert a + b == b;
    } else {
      assert (a + b)[1..] == a[1..] + b;
      ParentsOfAll(a[1..], b);
    }
  }

  lemma {:induction false} TreesOfAll(a: seq<Line>, b: seq<Line>)
    ensures Trees(a + b) == Trees(a) + Trees(b)
  {
    if a == [] {
      assert a + b == b;
    } else {
      assert (a + b)[1..] == a[1..] + b;
      TreesOfAll(a[1..], b);
    }
  }

  lemma {:induction false} ParentsOfBoth(a: seq<Line>, b: seq<Line>)
    ensures Parents(a + b) == Parents(a) + Parents(b)
    ensures Trees(a + b) == Trees(a) + Trees(b)
  {
    ParentsOfAll(a, b);
    TreesOfAll(a, b);
  }

  lemma {:induction false} MappedOfBoth(a: seq<Id>, b: seq<Id>, m: map<Id, Id>)
    ensures Mapped(a + b, m) == Mapped(a, m) + Mapped(b, m)
  {
    if a == [] {
      assert a + b == b;
    } else {
      assert (a + b)[1..] == a[1..] + b;
      MappedOfBoth(a[1..], b, m);
    }
  }

  lemma {:induction false} OfOne(line: Line)
    ensures Parents([line]) == if line.Parent? then [line.id] else []
    ensures Trees([line]) == if line.Tree? then [line.id] else []
  {
    assert [line][1..] == [];
  }

  lemma {:induction false} MapLinesIs(lines: seq<Line>, m: map<Id, Id>)
    ensures Parents(MapLines(lines, m)) == Mapped(Parents(lines), m)
    ensures Trees(MapLines(lines, m)) == Trees(lines)
  {
    if lines != [] {
      var front, last := lines[..|lines| - 1], lines[|lines| - 1];
      var made := if last.Parent? then Parent(Get(m, last.id)) else last;
      MapLinesIs(front, m);
      assert lines == front + [last];
      ParentsOfBoth(front, [last]);
      ParentsOfBoth(MapLines(front, m), [made]);
      OfOne(last);
      OfOne(made);
      MappedOfBoth(Parents(front), Parents([last]), m);
    }
  }

  // Dropping a signature drops no parent and no tree.
  lemma {:induction false} UnsignedIs(lines: seq<Line>)
    ensures Parents(Unsigned(lines)) == Parents(lines) && Trees(Unsigned(lines)) == Trees(lines)
  {
    if lines != [] {
      var front, last := lines[..|lines| - 1], lines[|lines| - 1];
      UnsignedIs(front);
      assert lines == front + [last];
      ParentsOfBoth(front, [last]);
      ParentsOfBoth(Unsigned(front), [last]);
      OfOne(last);
      if InSignature(lines) { assert Unsigned(lines) == Unsigned(front); }
    }
  }

  // The lines stay as they are exactly when the parents do.
  lemma {:induction false} MapLinesSame(lines: seq<Line>, m: map<Id, Id>)
    ensures MapLines(lines, m) == lines <==> Mapped(Parents(lines), m) == Parents(lines)
  {
    hide InSignature, Unsigned;
    if lines != [] {
      var front, last := lines[..|lines| - 1], lines[|lines| - 1];
      MapLinesSame(front, m);
      assert lines == front + [last];
      ParentsOfBoth(front, [last]);
      OfOne(last);
      MappedOfBoth(Parents(front), Parents([last]), m);
      var mapped, parents := Mapped(Parents(front), m), Parents(front);
      if last.Parent? {
        assert Mapped([last.id], m) == [Get(m, last.id)];
        assert (mapped + [Get(m, last.id)])[..|parents|] == mapped && (parents + [last.id])[..|parents|] == parents;
        assert (mapped + [Get(m, last.id)])[|parents|] == Get(m, last.id);
      }
      if MapLines(lines, m) == lines { assert MapLines(lines, m)[..|front|] == front; }
    }
  }

  // ------------------------------------------------------- the lines kept

  // Line `i` is a signature, or goes on from one.
  predicate Signed(lines: seq<Line>, i: nat) {
    exists k :: 0 <= k <= i < |lines| && lines[k].Signature? && forall j :: k < j <= i ==> lines[j].Continued?
  }

  // `at` names in order the lines that belong to no signature.
  ghost predicate Selects(lines: seq<Line>, at: seq<nat>) {
    && (forall k :: 0 <= k < |at| ==> at[k] < |lines| && !Signed(lines, at[k]))
    && (forall j, k :: 0 <= j < k < |at| ==> at[j] < at[k])
    && (forall i :: 0 <= i < |lines| && !Signed(lines, i) ==> i in at)
  }

  // Exactly the signatures are gone, and of the other lines only parents changed.
  ghost predicate LinesKept(was: seq<Line>, now: seq<Line>) {
    exists at :: Selects(was, at) && SameBut(was, at, now)
  }

  predicate SameBut(was: seq<Line>, at: seq<nat>, now: seq<Line>) {
    && |now| == |at|
    && forall k :: 0 <= k < |at| ==>
         at[k] < |was| && (now[k].Parent? <==> was[at[k]].Parent?) && (now[k].Parent? || now[k] == was[at[k]])
  }

  lemma {:induction false} SignedIs(lines: seq<Line>, i: nat)
    requires i < |lines|
    ensures InSignature(lines[..i + 1]) <==> Signed(lines, i)
    decreases i
  {
    assert lines[..i + 1][..i] == lines[..i];
    if lines[i].Signature? { assert Signed(lines, i); }
    if lines[i].Continued? && i > 0 {
      SignedIs(lines, i - 1);
      if Signed(lines, i - 1) {
        var k :| 0 <= k <= i - 1 && lines[k].Signature? && forall j :: k < j <= i - 1 ==> lines[j].Continued?;
        assert Signed(lines, i);
      }
      if Signed(lines, i) {
        var k :| 0 <= k <= i && lines[k].Signature? && forall j :: k < j <= i ==> lines[j].Continued?;
        assert Signed(lines, i - 1);
      }
    }
  }

  lemma MapLinesAt(lines: seq<Line>, m: map<Id, Id>, i: nat)
    requires i < |lines|
    ensures MapLines(lines, m)[i] == if lines[i].Parent? then Parent(Get(m, lines[i].id)) else lines[i]
  {
    if i < |lines| - 1 { MapLinesAt(lines[..|lines| - 1], m, i); }
  }

  lemma {:induction false} MappedSigned(lines: seq<Line>, m: map<Id, Id>, i: nat)
    requires i < |lines|
    ensures Signed(MapLines(lines, m), i) <==> Signed(lines, i)
  {
    forall j | 0 <= j < |lines|
      ensures (MapLines(lines, m)[j].Signature? <==> lines[j].Signature?)
           && (MapLines(lines, m)[j].Continued? <==> lines[j].Continued?)
    {
      MapLinesAt(lines, m, j);
    }
  }

  lemma UnsignedNext(lines: seq<Line>, n: nat)
    requires n < |lines|
    ensures Unsigned(lines[..n + 1]) == if Signed(lines, n) then Unsigned(lines[..n]) else Unsigned(lines[..n]) + [lines[n]]
  {
    hide Signed, InSignature;
    assert lines[..n + 1][..n] == lines[..n];
    SignedIs(lines, n);
    assert Unsigned(lines[..n]) + [] == Unsigned(lines[..n]);
  }

  lemma SameButNext(was: seq<Line>, at: seq<nat>, now: seq<Line>, i: nat, line: Line)
    requires SameBut(was, at, now) && i < |was|
    requires (line.Parent? <==> was[i].Parent?) && (line.Parent? || line == was[i])
    ensures SameBut(was, at + [i], now + [line])
  {
  }

  // Dropping the signatures of the mapped lines selects every other line.
  lemma {:induction false} UnsignedSelects(was: seq<Line>, m: map<Id, Id>, n: nat) returns (at: seq<nat>)
    requires n <= |was|
    ensures SameBut(was, at, Unsigned(MapLines(was, m)[..n]))
    ensures forall k :: 0 <= k < |at| ==> at[k] < n && !Signed(was, at[k])
    ensures forall j, k :: 0 <= j < k < |at| ==> at[j] < at[k]
    ensures forall i :: 0 <= i < n && !Signed(was, i) ==> i in at
  {
    hide Signed, MapLines, SameBut, Unsigned;
    if n == 0 {
      at := [];
      assert MapLines(was, m)[..0] == [];
      NothingKept(was);
    } else {
      at := UnsignedSelects(was, m, n - 1);
      UnsignedNext(MapLines(was, m), n - 1);
      MappedSigned(was, m, n - 1);
      MapLinesAt(was, m, n - 1);
      if !Signed(was, n - 1) {
        SameButNext(was, at, Unsigned(MapLines(was, m)[..n - 1]), n - 1, MapLines(was, m)[n - 1]);
        at := at + [n - 1];
      }
    }
  }

  lemma NothingKept(was: seq<Line>)
    ensures SameBut(was, [], Unsigned([]))
  {
  }

  lemma {:induction false} UnsignedKeeps(was: seq<Line>, m: map<Id, Id>)
    ensures LinesKept(was, Unsigned(MapLines(was, m)))
  {
    hide Signed, Unsigned, MapLines;
    var at := UnsignedSelects(was, m, |was|);
    assert MapLines(was, m)[..|was|] == MapLines(was, m);
    assert Selects(was, at);
  }

  ghost predicate Extends(a: Objects, b: Objects) {
    forall o :: o in a ==> o in b && b[o] == a[o]
  }

  // An object stored under its hash overwrites only itself.
  lemma {:induction false} Stored(h: Hash, objects: Objects, made: Commit)
    requires Injective(h) && Hashed(h, objects)
    ensures Hashed(h, objects[h(made) := made]) && Extends(objects, objects[h(made) := made])
  {
    forall o | o in objects ensures objects[h(made) := made][o] == objects[o] {
      if o == h(made) { assert h(objects[o]) == h(made); }
    }
  }

  // What commit `sha` became under the map `m`: its message transformed, its
  // parents mapped in order, and its other lines as they were, less a signature
  // if anything changed.
  ghost predicate Reworded(t: Transform, was: Commit, sha: Id, m: map<Id, Id>, now: Commit, id: Id) {
    && now.message == t(was.message) && Parents(now.lines) == Mapped(Parents(was.lines), m)
    && Trees(now.lines) == Trees(was.lines)
    && (if id == sha then now.lines == was.lines else LinesKept(was.lines, now.lines))
    && (id == sha <==> t(was.message) == was.message && Mapped(Parents(was.lines), m) == Parents(was.lines))
  }

  // What rewording makes of one commit.
  lemma {:induction false} RewordIs(h: Hash, t: Transform, objects: Objects, m: map<Id, Id>, sha: Id)
    requires Injective(h) && Hashed(h, objects) && sha in objects
    ensures var (id, after) := Reword(h, t, objects, m, sha);
            Hashed(h, after) && Extends(objects, after) && id in after
            && Reworded(t, objects[sha], sha, m, after[id], id)
  {
    hide Injective, MapLines, Mapped, Parents, Trees, Unsigned, LinesKept;
    var was := objects[sha];
    UnsignedKeeps(was.lines, m);
    MapLinesIs(was.lines, m);
    MapLinesSame(was.lines, m);
    UnsignedIs(MapLines(was.lines, m));
    var made := Commit(Unsigned(MapLines(was.lines, m)), t(was.message));
    Stored(h, objects, made);
    if h(made) == sha { assert objects[h(made) := made][sha] == made; }
  }

  // ---------------------------------------------------------- the whole list

  // The unpublished commits as listed: each stored and listed once, parents
  // before children.
  ghost predicate ParentsFirst(objects: Objects, list: seq<Id>) {
    && (forall i :: 0 <= i < |list| ==> list[i] in objects)
    && (forall i, j :: 0 <= i < j < |list| ==> list[i] != list[j])
    && (forall i, j :: 0 <= i < |list| && 0 <= j < |list| && list[j] in Parents(objects[list[i]].lines) ==> j < i)
  }

  // The first `n` commits reworded in turn.
  function RewordAll(h: Hash, t: Transform, objects: Objects, list: seq<Id>, n: nat): (r: (map<Id, Id>, Objects))
    requires n <= |list| && forall i :: 0 <= i < |list| ==> list[i] in objects
    ensures forall o :: o in objects ==> o in r.1
  {
    if n == 0 then (map[], objects)
    else
      var (m, before) := RewordAll(h, t, objects, list, n - 1);
      var (id, after) := Reword(h, t, before, m, list[n - 1]);
      (m[list[n - 1] := id], after)
  }

  lemma {:induction false} RewordAllGrows(h: Hash, t: Transform, objects: Objects, list: seq<Id>, n: nat)
    requires Injective(h) && Hashed(h, objects) && ParentsFirst(objects, list) && n <= |list|
    ensures var (m, after) := RewordAll(h, t, objects, list, n);
            Hashed(h, after) && Extends(objects, after) && Keyed(m, list, n)
  {
    hide Injective, Hashed, Reword, Reworded;
    if n > 0 {
      RewordAllGrows(h, t, objects, list, n - 1);
      var (m, before) := RewordAll(h, t, objects, list, n - 1);
      RewordIs(h, t, before, m, list[n - 1]);
      assert list[..n] == list[..n - 1] + [list[n - 1]];
    }
  }

  ghost predicate Keyed(m: map<Id, Id>, list: seq<Id>, n: nat)
    requires n <= |list|
  {
    forall x :: x in m <==> x in list[..n]
  }

  lemma {:induction false} MappedSame(ids: seq<Id>, m: map<Id, Id>, m': map<Id, Id>)
    requires forall i :: 0 <= i < |ids| ==> Get(m, ids[i]) == Get(m', ids[i])
    ensures Mapped(ids, m) == Mapped(ids, m')
  {
    if ids != [] {
      assert Get(m, ids[0]) == Get(m', ids[0]);
      forall i | 0 <= i < |ids[1..]| ensures Get(m, ids[1..][i]) == Get(m', ids[1..][i]) {
        assert ids[1..][i] == ids[i + 1];
      }
      MappedSame(ids[1..], m, m');
    }
  }

  // A parent's id is settled before its children's turn.
  lemma {:induction false} ParentsSettled(objects: Objects, list: seq<Id>, n: nat, i: nat, m0: map<Id, Id>, id: Id)
    requires ParentsFirst(objects, list) && i < n <= |list|
    ensures var parents := Parents(objects[list[i]].lines);
            Mapped(parents, m0[list[n - 1] := id]) == Mapped(parents, m0)
  {
    var parents := Parents(objects[list[i]].lines);
    var m := m0[list[n - 1] := id];
    forall k | 0 <= k < |parents| ensures Get(m, parents[k]) == Get(m0, parents[k]) {
      assert parents[k] in parents;
    }
    MappedSame(parents, m0, m);
  }

  // Each listed commit gets the transformed message, its parents mapped in
  // order and its own tree; it keeps its id exactly when neither its message
  // nor a parent changed.
  lemma {:induction false} RewordAllIs(h: Hash, t: Transform, objects: Objects, list: seq<Id>, n: nat, i: nat)
    requires Injective(h) && Hashed(h, objects) && ParentsFirst(objects, list) && i < n <= |list|
    ensures var (m, after) := RewordAll(h, t, objects, list, n);
            list[i] in m && m[list[i]] in after
            && Reworded(t, objects[list[i]], list[i], m, after[m[list[i]]], m[list[i]])
  {
    hide Injective, Hashed, Reword, Reworded, Mapped, Parents, Trees, RewordAll, Extends, Keyed, LinesKept, MapLines, Unsigned;
    RewordAllLast(h, t, objects, list, n);
    var (m0, before) := RewordAll(h, t, objects, list, n - 1);
    RewordAllGrows(h, t, objects, list, n - 1);
    RewordAllGrows(h, t, objects, list, n);
    Listed(objects, list, before, n - 1, n - 1);
    RewordIs(h, t, before, m0, list[n - 1]);
    var (id, after) := Reword(h, t, before, m0, list[n - 1]);
    ParentsSettled(objects, list, n, i, m0, id);
    if i < n - 1 {
      RewordAllIs(h, t, objects, list, n - 1, i);
      Listed(objects, list, before, i, n - 1);
      StillReworded(t, objects[list[i]], list[i], m0, m0[list[n - 1] := id], before, after, m0[list[i]]);
    } else {
      SameReworded(t, objects[list[i]], list[i], m0, m0[list[n - 1] := id], after[id], id);
    }
  }

  lemma {:induction false} RewordAllLast(h: Hash, t: Transform, objects: Objects, list: seq<Id>, n: nat)
    requires 0 < n <= |list| && forall i :: 0 <= i < |list| ==> list[i] in objects
    ensures var (m, before) := RewordAll(h, t, objects, list, n - 1);
            var (id, after) := Reword(h, t, before, m, list[n - 1]);
            RewordAll(h, t, objects, list, n) == (m[list[n - 1] := id], after)
  {
  }

  lemma {:induction false} Listed(objects: Objects, list: seq<Id>, before: Objects, i: nat, n: nat)
    requires ParentsFirst(objects, list) && Extends(objects, before) && i <= n < |list|
    ensures list[i] in objects && list[n] in before && before[list[n]] == objects[list[n]]
    ensures i < n ==> list[i] != list[n]
  {
  }

  lemma {:induction false} SameReworded(t: Transform, was: Commit, sha: Id, m0: map<Id, Id>, m: map<Id, Id>, now: Commit, id: Id)
    requires Reworded(t, was, sha, m0, now, id) && Mapped(Parents(was.lines), m) == Mapped(Parents(was.lines), m0)
    ensures Reworded(t, was, sha, m, now, id)
  {
  }

  lemma {:induction false} StillReworded(
      t: Transform, was: Commit, sha: Id, m0: map<Id, Id>, m: map<Id, Id>, before: Objects, after: Objects, id: Id)
    requires id in before && Reworded(t, was, sha, m0, before[id], id) && Extends(before, after)
    requires Mapped(Parents(was.lines), m) == Mapped(Parents(was.lines), m0)
    ensures id in after && Reworded(t, was, sha, m, after[id], id)
  {
  }

  // ------------------------------------------------------------- ancestry

  // `p` names the commits after `x`, each a parent of the one before it.
  predicate Leads(objects: Objects, x: Id, p: seq<Id>, y: Id)
    decreases |p|
  {
    if p == [] then x == y
    else x in objects && p[0] in Parents(objects[x].lines) && Leads(objects, p[0], p[1..], y)
  }

  ghost predicate Reaches(objects: Objects, x: Id, y: Id) {
    exists p :: Leads(objects, x, p, y)
  }

  // A path of listed commits.
  predicate Within(list: seq<Id>, p: seq<Id>) {
    forall i :: 0 <= i < |p| ==> p[i] in list
  }

  predicate Changes(t: Transform, objects: Objects, x: Id)
    requires x in objects
  {
    t(objects[x].message) != objects[x].message
  }

  // A listed commit, itself or an ancestor within the list, whose message the
  // transform changes.
  ghost predicate ChangedBelow(t: Transform, objects: Objects, list: seq<Id>, x: Id) {
    exists p, y :: ChangedAt(t, objects, list, x, p, y)
  }

  predicate ChangedAt(t: Transform, objects: Objects, list: seq<Id>, x: Id, p: seq<Id>, y: Id) {
    Leads(objects, x, p, y) && Within(list, p) && y in list && y in objects && Changes(t, objects, y)
  }

  lemma {:induction false} MappedIsSame(ids: seq<Id>, m: map<Id, Id>)
    ensures Mapped(ids, m) == ids <==> forall i :: 0 <= i < |ids| ==> Get(m, ids[i]) == ids[i]
  {
    if ids != [] {
      MappedIsSame(ids[1..], m);
      assert ids == [ids[0]] + ids[1..];
      if forall i :: 0 <= i < |ids| ==> Get(m, ids[i]) == ids[i] {
        forall i | 0 <= i < |ids[1..]| ensures Get(m, ids[1..][i]) == ids[1..][i] {
          assert ids[1..][i] == ids[i + 1];
        }
        assert Get(m, ids[0]) == ids[0];
      }
      if Mapped(ids, m) == ids {
        assert Mapped(ids, m)[1..] == Mapped(ids[1..], m) && Mapped(ids, m)[0] == Get(m, ids[0]);
        forall i | 0 <= i < |ids| ensures Get(m, ids[i]) == ids[i] {
          if i > 0 { assert ids[1..][i - 1] == ids[i]; }
        }
      }
    }
  }

  // A commit keeps its id exactly when no message changes in it or in its
  // unpublished ancestors.
  lemma {:induction false} KeepsIdExactly(h: Hash, t: Transform, objects: Objects, list: seq<Id>, i: nat)
    requires Injective(h) && Hashed(h, objects) && ParentsFirst(objects, list) && i < |list|
    ensures list[i] in RewordAll(h, t, objects, list, |list|).0
    ensures RewordAll(h, t, objects, list, |list|).0[list[i]] == list[i] <==> !ChangedBelow(t, objects, list, list[i])
    decreases i
  {
    hide Injective, Hashed, RewordAll, Mapped, Trees, ChangedBelow;
    var m := RewordAll(h, t, objects, list, |list|).0;
    var x := list[i];
    var parents := Parents(objects[x].lines);
    RewordAllIs(h, t, objects, list, |list|, i);
    RewordAllGrows(h, t, objects, list, |list|);
    MappedIsSame(parents, m);
    forall k | 0 <= k < |parents| && parents[k] in list
      ensures Get(m, parents[k]) == parents[k] <==> !ChangedBelow(t, objects, list, parents[k])
    {
      var j :| 0 <= j < |list| && list[j] == parents[k];
      KeepsIdExactly(h, t, objects, list, j);
    }
    ChangedStep(t, objects, list, x);
    assert ChangedParent(t, objects, list, x) <==>
           exists k :: 0 <= k < |parents| && parents[k] in list && ChangedBelow(t, objects, list, parents[k]);
    assert list[..|list|] == list;
  }

  // Whether a change is below one of a commit's listed parents.
  ghost predicate ChangedParent(t: Transform, objects: Objects, list: seq<Id>, x: Id)
    requires x in objects
  {
    exists q :: q in Parents(objects[x].lines) && q in list && ChangedBelow(t, objects, list, q)
  }

  // A change below a commit is its own or below one of its listed parents.
  lemma {:induction false} ChangedStep(t: Transform, objects: Objects, list: seq<Id>, x: Id)
    requires x in list && x in objects
    ensures ChangedBelow(t, objects, list, x) <==> Changes(t, objects, x) || ChangedParent(t, objects, list, x)
  {
    hide Parents, ChangedAt, ChangedParent, Changes;
    if ChangedBelow(t, objects, list, x) {
      var p, y :| ChangedAt(t, objects, list, x, p, y);
      StepDown(t, objects, list, x, p, y);
    }
    StepUp(t, objects, list, x);
  }

  lemma {:induction false} StepDown(t: Transform, objects: Objects, list: seq<Id>, x: Id, p: seq<Id>, y: Id)
    requires x in list && x in objects && ChangedAt(t, objects, list, x, p, y)
    ensures Changes(t, objects, x) || ChangedParent(t, objects, list, x)
  {
    if p != [] {
      assert ChangedAt(t, objects, list, p[0], p[1..], y);
      assert ChangedBelow(t, objects, list, p[0]);
    }
  }

  lemma {:induction false} StepUp(t: Transform, objects: Objects, list: seq<Id>, x: Id)
    requires x in list && x in objects
    ensures Changes(t, objects, x) || ChangedParent(t, objects, list, x) ==> ChangedBelow(t, objects, list, x)
  {
    if Changes(t, objects, x) {
      assert ChangedAt(t, objects, list, x, [], x);
    } else if ChangedParent(t, objects, list, x) {
      var q :| q in Parents(objects[x].lines) && q in list && ChangedBelow(t, objects, list, q);
      var p, y :| ChangedAt(t, objects, list, q, p, y);
      assert ([q] + p)[1..] == p;
      assert ChangedAt(t, objects, list, x, [q] + p, y);
    }
  }

  // The tip's tree is the same object whatever the rewrite did, so the refusal
  // of a changed tip tree is never reached.
  lemma {:induction false} TipTreeUnchanged(h: Hash, t: Transform, objects: Objects, list: seq<Id>, tip: Id)
    requires Injective(h) && Hashed(h, objects) && ParentsFirst(objects, list) && tip in objects
    ensures var (m, after) := RewordAll(h, t, objects, list, |list|);
            Get(m, tip) in after && Trees(after[Get(m, tip)].lines) == Trees(objects[tip].lines)
  {
    hide Injective, Hashed, RewordAll, Mapped, Trees, Parents;
    RewordAllGrows(h, t, objects, list, |list|);
    assert list[..|list|] == list;
    if tip in list {
      var i :| 0 <= i < |list| && list[i] == tip;
      RewordAllIs(h, t, objects, list, |list|, i);
    }
  }

  // ----------------------------------------------------- rewriting it again

  // `rev-list tip --not published`: what the tip reaches and nothing published
  // does.
  ghost predicate Lists(objects: Objects, list: seq<Id>, tip: Id, published: set<Id>) {
    forall x :: x in list <==> Reaches(objects, tip, x) && !PublishedReaches(objects, published, x)
  }

  ghost predicate PublishedReaches(objects: Objects, published: set<Id>, x: Id) {
    exists r :: r in published && Reaches(objects, r, x)
  }

  lemma {:induction false} LeadsThen(objects: Objects, x: Id, p: seq<Id>, y: Id, q: seq<Id>, z: Id)
    requires Leads(objects, x, p, y) && Leads(objects, y, q, z)
    ensures Leads(objects, x, p + q, z)
    decreases |p|
  {
    if p == [] {
      assert [] + q == q;
    } else {
      assert (p + q)[1..] == p[1..] + q;
      LeadsThen(objects, p[0], p[1..], y, q, z);
    }
  }

  lemma {:induction false} ReachesThen(objects: Objects, x: Id, y: Id, z: Id)
    requires Reaches(objects, x, y) && Reaches(objects, y, z)
    ensures Reaches(objects, x, z)
  {
    var p :| Leads(objects, x, p, y);
    var q :| Leads(objects, y, q, z);
    LeadsThen(objects, x, p, y, q, z);
  }

  lemma {:induction false} ParentReached(objects: Objects, x: Id, q: Id)
    requires x in objects && q in Parents(objects[x].lines)
    ensures Reaches(objects, x, q)
  {
    assert Leads(objects, x, [q], q);
  }

  lemma {:induction false} StillLeads(a: Objects, b: Objects, x: Id, p: seq<Id>, y: Id)
    requires Extends(a, b) && Leads(a, x, p, y)
    ensures Leads(b, x, p, y)
    decreases |p|
  {
    if p != [] { StillLeads(a, b, p[0], p[1..], y); }
  }

  lemma {:induction false} StillPublished(a: Objects, b: Objects, published: set<Id>, x: Id)
    requires Extends(a, b) && PublishedReaches(a, published, x)
    ensures PublishedReaches(b, published, x)
  {
    var r :| r in published && Reaches(a, r, x);
    var p :| Leads(a, r, p, x);
    StillLeads(a, b, r, p, x);
  }

  // The rewritten commits: each listed commit's image.
  predicate IsImage(m: map<Id, Id>, list: seq<Id>, x: Id) {
    exists i :: 0 <= i < |list| && list[i] in m && m[list[i]] == x
  }

  lemma {:induction false} MappedIn(ids: seq<Id>, m: map<Id, Id>, q: Id) returns (k: nat)
    requires q in Mapped(ids, m)
    ensures k < |ids| && Get(m, ids[k]) == q
  {
    if Get(m, ids[0]) == q {
      k := 0;
    } else {
      k := MappedIn(ids[1..], m, q);
      k := k + 1;
    }
  }

  // A parent of a rewritten commit is a rewritten commit or a published one.
  lemma {:induction false} ImageParent(
      h: Hash, t: Transform, objects: Objects, list: seq<Id>, tip: Id, published: set<Id>, i: nat, q: Id)
    requires Injective(h) && Hashed(h, objects) && ParentsFirst(objects, list) && Lists(objects, list, tip, published)
    requires i < |list|
    requires var (m, after) := RewordAll(h, t, objects, list, |list|);
             list[i] in m && m[list[i]] in after && q in Parents(after[m[list[i]]].lines)
    ensures var (m, after) := RewordAll(h, t, objects, list, |list|);
            IsImage(m, list, q) || PublishedReaches(after, published, q)
  {
    hide Injective, Hashed, RewordAll, Mapped, Trees, Parents, Reaches, PublishedReaches;
    var (m, after) := RewordAll(h, t, objects, list, |list|);
    RewordAllIs(h, t, objects, list, |list|, i);
    RewordAllGrows(h, t, objects, list, |list|);
    assert list[..|list|] == list;
    var parents := Parents(objects[list[i]].lines);
    var k := MappedIn(parents, m, q);
    if parents[k] in list {
      var j :| 0 <= j < |list| && list[j] == parents[k];
    } else {
      ParentReached(objects, list[i], parents[k]);
      ReachesThen(objects, tip, list[i], parents[k]);
      StillPublished(objects, after, published, parents[k]);
    }
  }

  // Whatever the new tip reaches is a rewritten commit or published.
  lemma {:induction false} NewTipReaches(
      h: Hash, t: Transform, objects: Objects, list: seq<Id>, tip: Id, published: set<Id>, x: Id, p: seq<Id>, y: Id)
    requires Injective(h) && Hashed(h, objects) && ParentsFirst(objects, list) && Lists(objects, list, tip, published)
    requires var (m, after) := RewordAll(h, t, objects, list, |list|);
             Leads(after, x, p, y) && (IsImage(m, list, x) || PublishedReaches(after, published, x))
    ensures var (m, after) := RewordAll(h, t, objects, list, |list|);
            IsImage(m, list, y) || PublishedReaches(after, published, y)
    decreases |p|
  {
    hide Injective, Hashed, RewordAll, Lists, Parents, Reaches;
    var (m, after) := RewordAll(h, t, objects, list, |list|);
    if p != [] {
      if PublishedReaches(after, published, x) {
        var r :| r in published && Reaches(after, r, x);
        ParentReached(after, x, p[0]);
        ReachesThen(after, r, x, p[0]);
      } else {
        var i :| 0 <= i < |list| && list[i] in m && m[list[i]] == x;
        ImageParent(h, t, objects, list, tip, published, i, p[0]);
      }
      NewTipReaches(h, t, objects, list, tip, published, p[0], p[1..], y);
    }
  }

  // With a transform that changes nothing twice, no commit listed from the new
  // tip has a message to change.
  lemma {:induction false} SecondListingUnchanged(
      h: Hash, t: Transform, objects: Objects, list: seq<Id>, tip: Id, published: set<Id>, list': seq<Id>, x: Id)
    requires Injective(h) && Hashed(h, objects) && ParentsFirst(objects, list) && Lists(objects, list, tip, published)
    requires forall s :: t(t(s)) == t(s)
    requires var (m, after) := RewordAll(h, t, objects, list, |list|);
             Lists(after, list', Get(m, tip), published) && x in list'
    ensures var after := RewordAll(h, t, objects, list, |list|).1;
            x in after && !Changes(t, after, x)
  {
    hide Injective, Hashed, RewordAll, Parents, Mapped, Trees;
    var (m, after) := RewordAll(h, t, objects, list, |list|);
    RewordAllGrows(h, t, objects, list, |list|);
    assert list[..|list|] == list;
    if tip !in list {
      assert Leads(objects, tip, [], tip);
      StillPublished(objects, after, published, tip);
    }
    var p :| Leads(after, Get(m, tip), p, x);
    NewTipReaches(h, t, objects, list, tip, published, Get(m, tip), p, x);
    var i :| 0 <= i < |list| && list[i] in m && m[list[i]] == x;
    RewordAllIs(h, t, objects, list, |list|, i);
  }

  predicate AnyChanges(t: Transform, objects: Objects, list: seq<Id>)
    requires forall i :: 0 <= i < |list| ==> list[i] in objects
  {
    exists i :: 0 <= i < |list| && Changes(t, objects, list[i])
  }

  // `rewrite_unpublished`: the objects and the tip after it.  `first` is listed
  // before the fetch and `list` after it.
  function Rewritten(h: Hash, t: Transform, objects: Objects, tip: Id, first: seq<Id>, list: seq<Id>)
    : (r: (Objects, Id))
    requires forall i :: 0 <= i < |first| ==> first[i] in objects
    requires forall i :: 0 <= i < |list| ==> list[i] in objects
  {
    if !AnyChanges(t, objects, first) then (objects, tip)
    else
      var (m, after) := RewordAll(h, t, objects, list, |list|);
      (after, Get(m, tip))
  }

  // With a transform that changes nothing twice, rewriting again leaves every
  // object and the branch as they were.  `before` and `published` are what is
  // published at the two listings of the first rewrite, and nothing is published
  // after it; `first'` is what the second rewrite lists before its fetch, and
  // `list'` whatever it would list after one.
  lemma {:induction false} SecondRewriteMovesNothing(
      h: Hash, t: Transform, objects: Objects, tip: Id, before: set<Id>, first: seq<Id>, published: set<Id>,
      list: seq<Id>, first': seq<Id>, list': seq<Id>)
    requires Injective(h) && Hashed(h, objects) && ParentsFirst(objects, list)
    requires forall s :: t(t(s)) == t(s)
    requires forall i :: 0 <= i < |first| ==> first[i] in objects
    requires Lists(objects, first, tip, before) && Lists(objects, list, tip, published)
    requires var (after, moved) := Rewritten(h, t, objects, tip, first, list);
             && (forall i :: 0 <= i < |first'| ==> first'[i] in after)
             && (forall i :: 0 <= i < |list'| ==> list'[i] in after)
             && Lists(after, first', moved, if AnyChanges(t, objects, first) then published else before)
    ensures var (after, moved) := Rewritten(h, t, objects, tip, first, list);
            Rewritten(h, t, after, moved, first', list') == (after, moved)
  {
    hide Injective, Hashed, RewordAll, Reaches, PublishedReaches;
    var (after, moved) := Rewritten(h, t, objects, tip, first, list);
    if AnyChanges(t, objects, first) {
      forall i | 0 <= i < |first'| ensures !Changes(t, after, first'[i]) {
        SecondListingUnchanged(h, t, objects, list, tip, published, first', first'[i]);
      }
    } else {
      forall i | 0 <= i < |first'| ensures !Changes(t, after, first'[i]) {
        assert first'[i] in first;
        var j :| 0 <= j < |first| && first[j] == first'[i];
      }
    }
  }

  // ------------------------------------------------------------ in place

  // A worktree's object store and the tip of its branch.
  class Repository {
    const hash: Hash
    var objects: Objects
    var tip: Id

    constructor (hash: Hash, objects: Objects, tip: Id)
      ensures this.hash == hash && this.objects == objects && this.tip == tip
    {
      this.hash, this.objects, this.tip := hash, objects, tip;
    }

    method RewordOne(t: Transform, m: map<Id, Id>, sha: Id) returns (id: Id)
      requires sha in objects
      modifies this`objects
      ensures (id, objects) == Reword(hash, t, old(objects), m, sha)
    {
      var was := objects[sha];
      var updated: seq<Line> := [];
      for i := 0 to |was.lines|
        invariant updated == MapLines(was.lines[..i], m)
      {
        assert was.lines[..i + 1][..i] == was.lines[..i];
        var line := was.lines[i];
        updated := updated + [if line.Parent? then Parent(Get(m, line.id)) else line];
      }
      assert was.lines[..|was.lines|] == was.lines;
      var cleaned := t(was.message);
      if updated == was.lines && cleaned == was.message { return sha; }
      var valid := WithoutSignature(updated);
      var made := Commit(valid, cleaned);
      id := hash(made);
      objects := objects[id := made];
    }

    // A signature covers the object as it was, so it goes.
    method WithoutSignature(lines: seq<Line>) returns (valid: seq<Line>)
      ensures valid == Unsigned(lines)
    {
      valid := [];
      var signature := false;
      for i := 0 to |lines|
        invariant valid == Unsigned(lines[..i]) && signature == InSignature(lines[..i])
      {
        assert lines[..i + 1][..i] == lines[..i];
        var line := lines[i];
        if !line.Continued? { signature := line.Signature?; }
        if !signature { valid := valid + [line]; }
      }
      assert lines[..|lines|] == lines;
    }

    method Changing(t: Transform, list: seq<Id>) returns (changes: bool)
      requires forall i :: 0 <= i < |list| ==> list[i] in objects
      ensures changes == AnyChanges(t, objects, list)
    {
      for i := 0 to |list|
        invariant forall j :: 0 <= j < i ==> !Changes(t, objects, list[j])
      {
        if Changes(t, objects, list[i]) { return true; }
      }
      return false;
    }

    method RewordListed(t: Transform, list: seq<Id>) returns (m: map<Id, Id>)
      requires forall i :: 0 <= i < |list| ==> list[i] in objects
      modifies this`objects
      ensures (m, objects) == RewordAll(hash, t, old(objects), list, |list|)
    {
      hide Reword;
      m := map[];
      for i := 0 to |list|
        invariant (m, objects) == RewordAll(hash, t, old(objects), list, i)
      {
        var id := RewordOne(t, m, list[i]);
        m := m[list[i] := id];
      }
    }

    // `rewrite_unpublished`, whose refusal of a changed tip tree is never reached.
    method RewriteUnpublished(t: Transform, first: seq<Id>, list: seq<Id>) returns (refused: bool)
      requires Injective(hash) && Hashed(hash, objects) && tip in objects && ParentsFirst(objects, list)
      requires forall i :: 0 <= i < |first| ==> first[i] in objects
      modifies this
      ensures !refused
      ensures (objects, tip) == Rewritten(hash, t, old(objects), old(tip), first, list)
    {
      hide RewordAll, Trees, Injective, Hashed, Changes;
      var changes := Changing(t, first);
      if !changes { return false; }
      var m := RewordListed(t, list);
      var moved := Get(m, tip);
      if moved == tip { return false; }
      TipTreeUnchanged(hash, t, old(objects), list, tip);
      RewordAllGrows(hash, t, old(objects), list, |list|);
      if Trees(objects[moved].lines) != Trees(objects[tip].lines) { return true; }
      tip := moved;
      refused := false;
    }
  }
}

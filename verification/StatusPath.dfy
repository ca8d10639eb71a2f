// The breadth-first search that walks a ticket along the shortest path of a
// transition table (store/tickets.py), over any finite table.

module StatusPath {

  datatype Option<+T> = None | Some(value: T)

  // A table maps each status to its successors, in the order they are tried.
  type Table<!S> = map<S, seq<S>>

  predicate Closed<S(!new)>(g: Table<S>) {
    forall x, i :: x in g && 0 <= i < |g[x]| ==> g[x][i] in g
  }

  // `p` names the statuses after `x`, each a successor of the one before it.
  predicate IsPath<S(==)>(g: Table<S>, x: S, p: seq<S>, y: S)
    decreases |p|
  {
    if p == [] then x == y else x in g && p[0] in g[x] && IsPath(g, p[0], p[1..], y)
  }

  lemma {:induction false} PathThenStep<S>(g: Table<S>, x: S, p: seq<S>, y: S, z: S)
    requires IsPath(g, x, p, y) && y in g && z in g[y]
    ensures IsPath(g, x, p + [z], z)
    decreases |p|
  {
    if p != [] {
      PathThenStep(g, p[0], p[1..], y, z);
      assert (p + [z])[1..] == p[1..] + [z];
    }
  }

  // ---------------------------------------------------------------- search

  // The successors not seen yet, each once.
  function Fresh<S(==)>(succ: seq<S>, seen: set<S>): (r: seq<S>)
  {
    if succ == [] then []
    else if succ[0] in seen then Fresh(succ[1..], seen)
    else [succ[0]] + Fresh(succ[1..], seen + {succ[0]})
  }

  function Entries<S>(next: seq<S>, path: seq<S>): (r: seq<(S, seq<S>)>)
    ensures |r| == |next|
  {
    if next == [] then [] else [(next[0], path + [next[0]])] + Entries(next[1..], path)
  }

  lemma {:induction false} EntryAt<S>(next: seq<S>, path: seq<S>, i: nat)
    requires i < |next|
    ensures Entries(next, path)[i] == (next[i], path + [next[i]])
  {
    if i > 0 { EntryAt(next[1..], path, i - 1); }
  }

  lemma {:induction false} EntriesSnoc<S>(next: seq<S>, path: seq<S>, x: S)
    ensures Entries(next + [x], path) == Entries(next, path) + [(x, path + [x])]
  {
    if next != [] {
      assert (next + [x])[1..] == next[1..] + [x];
      EntriesSnoc(next[1..], path, x);
    }
  }

  // A frontier's entry after the first has moved up; the new ones follow.
  lemma NextEntry<S>(frontier: seq<(S, seq<S>)>, next: seq<S>, path: seq<S>, i: nat)
    requires frontier != [] && i < |frontier| - 1 + |next|
    ensures (frontier[1..] + Entries(next, path))[i] ==
            if i + 1 < |frontier| then frontier[i + 1]
            else (next[i + 1 - |frontier|], path + [next[i + 1 - |frontier|]])
  {
    if i + 1 >= |frontier| { EntryAt(next, path, i + 1 - |frontier|); }
  }

  function Elements<S(==)>(s: seq<S>): set<S> {
    set x | x in s
  }

  predicate WellFormed<S(!new)>(g: Table<S>, frontier: seq<(S, seq<S>)>, seen: set<S>) {
    && Closed(g) && seen <= g.Keys
    && (forall i :: 0 <= i < |frontier| ==> frontier[i].0 in seen)
  }

  lemma {:induction false} FreshFacts<S>(succ: seq<S>, seen: set<S>)
    ensures var r := Fresh(succ, seen);
            && (forall i :: 0 <= i < |r| ==> r[i] in succ && r[i] !in seen)
            && (forall i, j :: 0 <= i < j < |r| ==> r[i] != r[j])
            && (forall x :: x in succ && x !in seen ==> x in r)
  {
    if succ != [] {
      FreshFacts(succ[1..], if succ[0] in seen then seen else seen + {succ[0]});
    }
  }

  function Search<S(!new)>(g: Table<S>, frontier: seq<(S, seq<S>)>, seen: set<S>, to: S): (r: Option<seq<S>>)
    requires WellFormed(g, frontier, seen)
    decreases |g.Keys - seen|, |frontier|
  {
    if frontier == [] then None
    else
      var (x, path) := frontier[0];
      if to in g[x] then Some(path + [to])
      else
        var next := Fresh(g[x], seen);
        NextWellFormed(g, frontier, seen);
        Search(g, frontier[1..] + Entries(next, path), seen + Elements(next), to)
  }

  lemma NextWellFormed<S(!new)>(g: Table<S>, frontier: seq<(S, seq<S>)>, seen: set<S>)
    requires WellFormed(g, frontier, seen) && frontier != []
    ensures var (x, path) := frontier[0];
            var next := Fresh(g[x], seen);
            var seen' := seen + Elements(next);
            && WellFormed(g, frontier[1..] + Entries(next, path), seen')
            && (next == [] ==> seen' == seen)
            && (next != [] ==> |g.Keys - seen'| < |g.Keys - seen|)
  {
    hide Fresh, Entries;
    var (x, path) := frontier[0];
    var next := Fresh(g[x], seen);
    FreshFacts(g[x], seen);
    var seen' := seen + Elements(next);
    var frontier' := frontier[1..] + Entries(next, path);
    forall i | 0 <= i < |frontier'| ensures frontier'[i].0 in seen' {
      NextEntry(frontier, next, path, i);
    }
    if next != [] {
      assert next[0] in g.Keys - seen && next[0] !in g.Keys - seen';
      Smaller(g.Keys - seen', g.Keys - seen, next[0]);
    }
  }

  lemma Smaller<S>(a: set<S>, b: set<S>, x: S)
    requires a <= b && x in b && x !in a
    ensures |a| < |b|
  {
    assert b == a + (b - a);
  }

  // -------------------------------------------------------------- the theorem

  // The frontier's paths lead where they say, the shortest first, and their
  // lengths are their ends' distances.
  ghost predicate Paths<S>(g: Table<S>, from: S, frontier: seq<(S, seq<S>)>, dist: map<S, nat>) {
    forall i :: 0 <= i < |frontier| ==>
      && IsPath(g, from, frontier[i].1, frontier[i].0)
      && frontier[i].0 in dist && dist[frontier[i].0] == |frontier[i].1|
  }

  ghost predicate Lengths<S>(frontier: seq<(S, seq<S>)>) {
    forall i, j :: 0 <= i < j < |frontier| ==> |frontier[i].1| <= |frontier[j].1| <= |frontier[i].1| + 1
  }

  ghost predicate Near<S(!new)>(dist: map<S, nat>, n: nat) {
    forall x :: x in dist ==> dist[x] <= n
  }

  ghost predicate Waiting<S>(frontier: seq<(S, seq<S>)>, x: S) {
    exists i :: 0 <= i < |frontier| && frontier[i].0 == x
  }

  ghost predicate Done<S>(g: Table<S>, dist: map<S, nat>, to: S, x: S)
    requires x in dist
  {
    x in g && to !in g[x] && forall i :: 0 <= i < |g[x]| ==> g[x][i] in dist && dist[g[x][i]] <= dist[x] + 1
  }

  ghost predicate AllDone<S(!new)>(g: Table<S>, frontier: seq<(S, seq<S>)>, dist: map<S, nat>, to: S) {
    forall x :: x in dist && !Waiting(frontier, x) ==> Done(g, dist, to, x)
  }

  // Every seen status has its distance; those not in the frontier are done,
  // and a done status's successors are seen and at most one step further.
  ghost predicate Explored<S(!new)>(
      g: Table<S>, from: S, frontier: seq<(S, seq<S>)>, seen: set<S>, dist: map<S, nat>, to: S)
  {
    && WellFormed(g, frontier, seen) && dist.Keys == seen && from in seen && dist[from] == 0
    && Paths(g, from, frontier, dist) && Lengths(frontier)
    && (frontier != [] ==> Near(dist, |frontier[0].1| + 1))
    && AllDone(g, frontier, dist, to)
  }

  // Any path to the target passes a waiting status early enough.
  lemma {:induction false} Crosses<S(!new)>(
      g: Table<S>, from: S, frontier: seq<(S, seq<S>)>, seen: set<S>, dist: map<S, nat>, to: S,
      x: S, q: seq<S>)
    requires Explored(g, from, frontier, seen, dist, to)
    requires x in seen && q != [] && IsPath(g, x, q, to)
    ensures frontier != [] && |frontier[0].1| + 1 <= dist[x] + |q|
    decreases |q|
  {
    if i :| 0 <= i < |frontier| && frontier[i].0 == x {
      assert dist[x] == |frontier[i].1|;
      assert |frontier[0].1| <= |frontier[i].1|;
    } else {
      assert !Waiting(frontier, x);
      assert Done(g, dist, to, x);
      assert q[1..] != [];
      Crosses(g, from, frontier, seen, dist, to, q[0], q[1..]);
    }
  }

  lemma PathsAdvance<S(!new)>(
      g: Table<S>, from: S, frontier: seq<(S, seq<S>)>, dist: map<S, nat>, next: seq<S>, dist': map<S, nat>)
    requires frontier != [] && Paths(g, from, frontier, dist)
    requires frontier[0].0 in g && forall i :: 0 <= i < |next| ==> next[i] in g[frontier[0].0]
    requires forall x :: x in dist ==> x in dist' && dist'[x] == dist[x]
    requires forall i :: 0 <= i < |next| ==> next[i] in dist' && dist'[next[i]] == |frontier[0].1| + 1
    ensures Paths(g, from, frontier[1..] + Entries(next, frontier[0].1), dist')
  {
    hide IsPath, Entries;
    var (x, path) := frontier[0];
    var frontier' := frontier[1..] + Entries(next, path);
    forall i | 0 <= i < |frontier'|
      ensures && IsPath(g, from, frontier'[i].1, frontier'[i].0)
              && frontier'[i].0 in dist' && dist'[frontier'[i].0] == |frontier'[i].1|
    {
      NextEntry(frontier, next, path, i);
      if i + 1 >= |frontier| { PathThenStep(g, from, path, x, next[i + 1 - |frontier|]); }
    }
  }

  lemma LengthsAdvance<S(!new)>(frontier: seq<(S, seq<S>)>, next: seq<S>)
    requires frontier != [] && Lengths(frontier)
    ensures Lengths(frontier[1..] + Entries(next, frontier[0].1))
  {
    hide Entries;
    var frontier' := frontier[1..] + Entries(next, frontier[0].1);
    forall i, j | 0 <= i < j < |frontier'| ensures |frontier'[i].1| <= |frontier'[j].1| <= |frontier'[i].1| + 1 {
      NextEntry(frontier, next, frontier[0].1, i);
      NextEntry(frontier, next, frontier[0].1, j);
    }
  }

  lemma Waits<S>(frontier: seq<(S, seq<S>)>, next: seq<S>, path: seq<S>, i: nat)
    requires frontier != [] && i < |frontier| - 1 + |next|
    ensures Waiting(frontier[1..] + Entries(next, path),
                    if i + 1 < |frontier| then frontier[i + 1].0 else next[i + 1 - |frontier|])
  {
    NextEntry(frontier, next, path, i);
    assert Waiting(frontier[1..] + Entries(next, path), (frontier[1..] + Entries(next, path))[i].0);
  }

  lemma DoneAdvance<S(!new)>(
      g: Table<S>, frontier: seq<(S, seq<S>)>, dist: map<S, nat>, to: S, next: seq<S>, dist': map<S, nat>)
    requires frontier != [] && AllDone(g, frontier, dist, to)
    requires var (x, path) := frontier[0];
             && x in g && to !in g[x] && x in dist && dist[x] == |path|
             && (forall i :: 0 <= i < |g[x]| ==> g[x][i] in dist' && dist'[g[x][i]] <= |path| + 1)
    requires forall x :: x in dist ==> x in dist' && dist'[x] == dist[x]
    requires forall x :: x in dist' ==> x in dist || x in next
    ensures AllDone(g, frontier[1..] + Entries(next, frontier[0].1), dist', to)
  {
    hide Entries;
    var frontier' := frontier[1..] + Entries(next, frontier[0].1);
    forall y | y in dist' && !Waiting(frontier', y) ensures Done(g, dist', to, y) {
      if y !in dist {
        var k :| 0 <= k < |next| && next[k] == y;
        Waits(frontier, next, frontier[0].1, |frontier| - 1 + k);
        assert false;
      } else if y != frontier[0].0 {
        if Waiting(frontier, y) {
          var i :| 0 <= i < |frontier| && frontier[i].0 == y;
          Waits(frontier, next, frontier[0].1, i - 1);
          assert false;
        } else {
          assert Done(g, dist, to, y);
        }
      }
    }
  }

  lemma Advance<S(!new)>(
      g: Table<S>, from: S, frontier: seq<(S, seq<S>)>, seen: set<S>, dist: map<S, nat>, to: S)
    returns (dist': map<S, nat>)
    requires Explored(g, from, frontier, seen, dist, to) && frontier != [] && to !in g[frontier[0].0]
    ensures var (x, path) := frontier[0];
            var next := Fresh(g[x], seen);
            Explored(g, from, frontier[1..] + Entries(next, path), seen + Elements(next), dist', to)
  {
    hide Paths, Lengths, AllDone, Near, Fresh, Entries, IsPath, WellFormed, Elements;
    HeadIn(g, frontier, seen);
    var (x, path) := frontier[0];
    var next := Fresh(g[x], seen);
    FreshFacts(g[x], seen);
    NextWellFormed(g, frontier, seen);
    Head(g, from, frontier, dist);
    dist' := map y | y in seen + Elements(next) :: if y in seen then dist[y] else |path| + 1;
    ElementsAre(next);
    SuccessorsNear(g[x], seen, next, dist, dist', |path| + 1);
    PathsAdvance(g, from, frontier, dist, next, dist');
    LengthsAdvance(frontier, next);
    DoneAdvance(g, frontier, dist, to, next, dist');
    HeadLonger(frontier, next);
    NearAdvance(dist, dist', |path| + 1);
  }

  lemma ElementsAre<S(!new)>(s: seq<S>)
    ensures forall x :: x in Elements(s) <==> x in s
  {
  }

  lemma SuccessorsNear<S(!new)>(succ: seq<S>, seen: set<S>, next: seq<S>, dist: map<S, nat>, dist': map<S, nat>, n: nat)
    requires dist.Keys == seen && Near(dist, n) && dist'.Keys == seen + Elements(next)
    requires forall y :: y in dist' ==> dist'[y] == if y in dist then dist[y] else n
    requires forall y :: y in succ && y !in seen ==> y in next
    ensures forall i :: 0 <= i < |succ| ==> succ[i] in dist' && dist'[succ[i]] <= n
  {
  }

  lemma NearAdvance<S(!new)>(dist: map<S, nat>, dist': map<S, nat>, n: nat)
    requires Near(dist, n) && forall x :: x in dist' ==> dist'[x] == if x in dist then dist[x] else n
    ensures forall k: nat :: k >= n ==> Near(dist', k)
  {
  }

  lemma Head<S(!new)>(g: Table<S>, from: S, frontier: seq<(S, seq<S>)>, dist: map<S, nat>)
    requires Paths(g, from, frontier, dist) && frontier != []
    ensures frontier[0].0 in dist && dist[frontier[0].0] == |frontier[0].1|
    ensures IsPath(g, from, frontier[0].1, frontier[0].0)
  {
  }

  lemma HeadLonger<S(!new)>(frontier: seq<(S, seq<S>)>, next: seq<S>)
    requires frontier != [] && Lengths(frontier)
    ensures var frontier' := frontier[1..] + Entries(next, frontier[0].1);
            frontier' != [] ==> |frontier'[0].1| >= |frontier[0].1|
  {
    if |frontier| > 1 {
      assert (frontier[1..] + Entries(next, frontier[0].1))[0] == frontier[1];
    }
  }

  lemma {:induction false} SearchFinds<S(!new)>(
      g: Table<S>, from: S, frontier: seq<(S, seq<S>)>, seen: set<S>, dist: map<S, nat>, to: S)
    requires Explored(g, from, frontier, seen, dist, to)
    ensures var r := Search(g, frontier, seen, to);
            && (r.Some? ==> r.value != [] && IsPath(g, from, r.value, to))
            && (forall q :: q != [] && IsPath(g, from, q, to) ==> r.Some? && |r.value| <= |q|)
    decreases |g.Keys - seen|, |frontier|
  {
    hide Paths, Lengths, AllDone, Near;
    forall q | q != [] && IsPath(g, from, q, to)
      ensures frontier != [] && |frontier[0].1| + 1 <= |q|
    {
      Crosses(g, from, frontier, seen, dist, to, from, q);
    }
    if frontier != [] {
      var (x, path) := frontier[0];
      Head(g, from, frontier, dist);
      if to in g[x] {
        PathThenStep(g, from, path, x, to);
      } else {
        var dist' := Advance(g, from, frontier, seen, dist, to);
        var next := Fresh(g[x], seen);
        NextWellFormed(g, frontier, seen);
        SearchFinds(g, from, frontier[1..] + Entries(next, path), seen + Elements(next), dist', to);
      }
    }
  }

  function Shortest<S(!new)>(g: Table<S>, from: S, to: S): (r: Option<seq<S>>)
    requires Closed(g) && from in g
  {
    Search(g, [(from, [])], {from}, to)
  }

  // A path of at least one step.
  predicate Leads<S(==)>(g: Table<S>, from: S, q: seq<S>, to: S) {
    q != [] && IsPath(g, from, q, to)
  }

  // The search returns a real path of minimal length, and none exactly when
  // the target is unreachable.
  lemma ShortestPath<S(!new)>(g: Table<S>, from: S, to: S)
    requires Closed(g) && from in g
    ensures var r := Shortest(g, from, to);
            && (r.Some? <==> exists q :: Leads(g, from, q, to))
            && (r.Some? ==> Leads(g, from, r.value, to))
            && (r.Some? ==> forall q :: Leads(g, from, q, to) ==> |r.value| <= |q|)
  {
    hide Search;
    SearchFinds(g, from, [(from, [])], {from}, map[from := 0], to);
    var r := Shortest(g, from, to);
    forall q | Leads(g, from, q, to) ensures r.Some? && |r.value| <= |q| {
    }
    if r.Some? { assert Leads(g, from, r.value, to); }
  }

  // The loops themselves: a frontier popped from the left, a set of seen
  // statuses, and each successor tried in order.
  method TrySuccessors<S(!new)>(succ: seq<S>, path: seq<S>, frontier: seq<(S, seq<S>)>, seen: set<S>, to: S)
    returns (found: bool, frontier': seq<(S, seq<S>)>, seen': set<S>)
    ensures found <==> to in succ
    ensures !found ==> && frontier' == frontier + Entries(Fresh(succ, seen), path)
                       && seen' == seen + Elements(Fresh(succ, seen))
  {
    hide Fresh, Entries, Elements;
    frontier', seen' := frontier, seen;
    FreshOfNone(seen, path);
    for i := 0 to |succ|
      invariant to !in succ[..i]
      invariant seen' == seen + Elements(Fresh(succ[..i], seen))
      invariant frontier' == frontier + Entries(Fresh(succ[..i], seen), path)
    {
      var next := succ[i];
      if next == to { return true, frontier', seen'; }
      FreshGrows(succ, i, seen, path);
      if next !in seen' {
        seen' := seen' + {next};
        frontier' := frontier' + [(next, path + [next])];
      }
    }
    assert succ[..|succ|] == succ;
    found := false;
  }

  method StatusPathOf<S(!new)>(g: Table<S>, from: S, to: S) returns (r: Option<seq<S>>)
    requires Closed(g) && from in g
    ensures r == Shortest(g, from, to)
  {
    hide Search, Fresh, Entries, Elements, WellFormed;
    var frontier, seen := [(from, [])], {from};
    Begins(g, from);
    while frontier != []
      invariant WellFormed(g, frontier, seen)
      invariant Search(g, frontier, seen, to) == Shortest(g, from, to)
      decreases |g.Keys - seen|, |frontier|
    {
      NextWellFormed(g, frontier, seen);
      SearchStep(g, frontier, seen, to);
      HeadIn(g, frontier, seen);
      var (x, path) := frontier[0];
      NoneFresh(Fresh(g[x], seen), path);
      var found;
      found, frontier, seen := TrySuccessors(g[x], path, frontier[1..], seen, to);
      if found { return Some(path + [to]); }
    }
    SearchEnds(g, seen, to);
    return None;
  }

  lemma Begins<S(!new)>(g: Table<S>, from: S)
    requires Closed(g) && from in g
    ensures WellFormed(g, [(from, [])], {from})
  {
  }

  lemma NoneFresh<S>(next: seq<S>, path: seq<S>)
    ensures next == [] ==> Entries(next, path) == []
  {
  }

  lemma SearchStep<S(!new)>(g: Table<S>, frontier: seq<(S, seq<S>)>, seen: set<S>, to: S)
    requires WellFormed(g, frontier, seen) && frontier != []
    ensures var (x, path) := frontier[0];
            var next := Fresh(g[x], seen);
            if to in g[x] then Search(g, frontier, seen, to) == Some(path + [to])
            else && WellFormed(g, frontier[1..] + Entries(next, path), seen + Elements(next))
                 && Search(g, frontier, seen, to)
                    == Search(g, frontier[1..] + Entries(next, path), seen + Elements(next), to)
  {
    hide Fresh, Entries, Elements, WellFormed;
    NextWellFormed(g, frontier, seen);
    HeadIn(g, frontier, seen);
  }

  lemma HeadIn<S(!new)>(g: Table<S>, frontier: seq<(S, seq<S>)>, seen: set<S>)
    requires WellFormed(g, frontier, seen) && frontier != []
    ensures frontier[0].0 in g
  {
  }

  lemma SearchEnds<S(!new)>(g: Table<S>, seen: set<S>, to: S)
    requires WellFormed(g, [], seen)
    ensures Search(g, [], seen, to) == None
  {
  }

  lemma FreshOfNone<S>(seen: set<S>, path: seq<S>)
    ensures Fresh([], seen) == [] && Elements<S>([]) == {} && Entries<S>([], path) == []
  {
  }

  lemma FreshGrows<S>(succ: seq<S>, i: nat, seen: set<S>, path: seq<S>)
    requires i < |succ|
    ensures var (was, now) := (Fresh(succ[..i], seen), Fresh(succ[..i + 1], seen));
            var known := succ[i] in seen + Elements(was);
            && seen + Elements(now) == seen + Elements(was) + {succ[i]}
            && Entries(now, path) == Entries(was, path) + if known then [] else [(succ[i], path + [succ[i]])]
  {
    hide Fresh, Entries;
    FreshSnoc(succ[..i], succ[i], seen);
    assert succ[..i + 1] == succ[..i] + [succ[i]];
    EntriesSnoc(Fresh(succ[..i], seen), path, succ[i]);
  }

  lemma {:induction false} FreshSnoc<S>(s: seq<S>, x: S, seen: set<S>)
    ensures Fresh(s + [x], seen) ==
            if x in seen + Elements(Fresh(s, seen)) then Fresh(s, seen) else Fresh(s, seen) + [x]
  {
    if s != [] {
      assert (s + [x])[1..] == s[1..] + [x];
      FreshSnoc(s[1..], x, if s[0] in seen then seen else seen + {s[0]});
      if s[0] !in seen {
        assert Elements(Fresh(s, seen)) == {s[0]} + Elements(Fresh(s[1..], seen + {s[0]}));
      }
    }
  }
}

// Who depends on whom in the end: the two worklists that close a set of
// tickets under "depends on" (store/stories.py and store/read.py).

module Closure {

  // `(x, y)` when x depends on y.
  type Edges = set<(string, string)>

  predicate Leads(e: Edges, x: string, p: seq<string>, y: string)
    decreases |p|
  {
    if p == [] then x == y else (x, p[0]) in e && Leads(e, p[0], p[1..], y)
  }

  // `x` depends on `y` through any number of steps, none included.
  ghost predicate Reaches(e: Edges, x: string, y: string) {
    exists p :: Leads(e, x, p, y)
  }

  lemma ReachesSelf(e: Edges, x: string)
    ensures Reaches(e, x, x)
  {
    assert Leads(e, x, [], x);
  }

  lemma ReachesStep(e: Edges, x: string, y: string, z: string)
    requires (x, y) in e && Reaches(e, y, z)
    ensures Reaches(e, x, z)
  {
    var p :| Leads(e, y, p, z);
    assert ([y] + p)[1..] == p;
    assert Leads(e, x, [y] + p, z);
  }

  ghost predicate ClosedUnder(e: Edges, s: set<string>) {
    forall x, y :: (x, y) in e && y in s ==> x in s
  }

  // A closed set that holds `y` holds everything that reaches it.
  lemma {:induction false} ClosedHolds(e: Edges, s: set<string>, x: string, p: seq<string>, y: string)
    requires ClosedUnder(e, s) && y in s && Leads(e, x, p, y)
    ensures x in s
    decreases |p|
  {
    if p != [] { ClosedHolds(e, s, p[0], p[1..], y); }
  }

  ghost predicate AllReach(e: Edges, s: set<string>, y: string) {
    forall x :: x in s ==> Reaches(e, x, y)
  }

  lemma ReachesMore(e: Edges, s: set<string>, x: string, z: string, y: string)
    requires AllReach(e, s, y) && (x, z) in e && Reaches(e, z, y)
    ensures AllReach(e, s + {x}, y)
  {
    hide Reaches;
    ReachesStep(e, x, z, y);
  }

  lemma ReachesOf(e: Edges, s: set<string>, x: string, y: string)
    requires AllReach(e, s, y) && x in s
    ensures Reaches(e, x, y)
  {
  }

  lemma ClosedIsAll(e: Edges, s: set<string>, y: string)
    requires ClosedUnder(e, s) && y in s && AllReach(e, s, y)
    ensures forall x :: x in s <==> Reaches(e, x, y)
  {
    forall x | Reaches(e, x, y) ensures x in s {
      var p :| Leads(e, x, p, y);
      ClosedHolds(e, s, x, p, y);
    }
  }

  // ------------------------------------------------------------ downstream

  // A child's approved edges, by name, to issues.
  datatype Approved = Approved(child: string, deps: seq<string>)

  // Its edges to other children; `issues` names the child each issue is.
  function ChildEdges(edges: seq<Approved>, issues: map<string, string>): Edges {
    set i, d | 0 <= i < |edges| && 0 <= d < |edges[i].deps| && edges[i].deps[d] in issues
      :: (edges[i].child, issues[edges[i].deps[d]])
  }

  predicate AnyIn(deps: seq<string>, issues: map<string, string>, reached: set<string>) {
    exists d :: 0 <= d < |deps| && deps[d] in issues && issues[deps[d]] in reached
  }

  function Names(edges: seq<Approved>): set<string> {
    set i | 0 <= i < |edges| :: edges[i].child
  }

  lemma Fewer(all: set<string>, a: set<string>, b: set<string>, x: string)
    requires a <= b && x in all && x in b && x !in a
    ensures |all - b| < |all - a|
  {
    var rest := (all - a) - (all - b);
    assert x in rest;
    assert all - a == (all - b) + rest;
  }

  lemma Joins(edges: seq<Approved>, issues: map<string, string>, reached: set<string>, i: nat, name: string)
    requires i < |edges| && AnyIn(edges[i].deps, issues, reached) && edges[i].child !in reached
    requires AllReach(ChildEdges(edges, issues), reached, name)
    ensures AllReach(ChildEdges(edges, issues), reached + {edges[i].child}, name)
    ensures |Names(edges) - (reached + {edges[i].child})| < |Names(edges) - reached|
  {
    var d :| 0 <= d < |edges[i].deps| && edges[i].deps[d] in issues && issues[edges[i].deps[d]] in reached;
    ReachesMore(ChildEdges(edges, issues), reached, edges[i].child, issues[edges[i].deps[d]], name);
    Fewer(Names(edges), reached, reached + {edges[i].child}, edges[i].child);
  }

  // One round over the approved edges.
  method GrowOnce(edges: seq<Approved>, issues: map<string, string>, name: string, was: set<string>)
    returns (reached: set<string>, grew: bool)
    requires AllReach(ChildEdges(edges, issues), was, name)
    ensures was <= reached && AllReach(ChildEdges(edges, issues), reached, name)
    ensures grew ==> |Names(edges) - reached| < |Names(edges) - was|
    ensures !grew ==> reached == was && ClosedUnder(ChildEdges(edges, issues), reached)
  {
    hide AllReach, Names, ChildEdges, ClosedUnder;
    reached, grew := was, false;
    for i := 0 to |edges|
      invariant was <= reached && AllReach(ChildEdges(edges, issues), reached, name)
      invariant grew ==> |Names(edges) - reached| < |Names(edges) - was|
      invariant !grew ==> reached == was
      invariant !grew ==> forall j :: 0 <= j < i && AnyIn(edges[j].deps, issues, reached) ==> edges[j].child in reached
    {
      if edges[i].child !in reached && AnyIn(edges[i].deps, issues, reached) {
        Joins(edges, issues, reached, i, name);
        reached := reached + {edges[i].child};
        grew := true;
      }
    }
    if !grew { Grown(edges, issues, reached); }
  }

  // The approved dependents of a child, itself included.
  method Downstream(edges: seq<Approved>, issues: map<string, string>, name: string) returns (reached: set<string>)
    ensures forall x :: x in reached <==> Reaches(ChildEdges(edges, issues), x, name)
  {
    hide Reaches, Names, ChildEdges, ClosedUnder;
    ReachesSelf(ChildEdges(edges, issues), name);
    reached := {name};
    var grew := true;
    while grew
      invariant name in reached && AllReach(ChildEdges(edges, issues), reached, name)
      invariant !grew ==> ClosedUnder(ChildEdges(edges, issues), reached)
      decreases |Names(edges) - reached|, grew
    {
      reached, grew := GrowOnce(edges, issues, name, reached);
    }
    ClosedIsAll(ChildEdges(edges, issues), reached, name);
  }

  lemma Grown(edges: seq<Approved>, issues: map<string, string>, reached: set<string>)
    requires forall j :: 0 <= j < |edges| && AnyIn(edges[j].deps, issues, reached) ==> edges[j].child in reached
    ensures ClosedUnder(ChildEdges(edges, issues), reached)
  {
    forall x, y | (x, y) in ChildEdges(edges, issues) && y in reached ensures x in reached {
      var i, d :| 0 <= i < |edges| && 0 <= d < |edges[i].deps| && edges[i].child == x
                  && edges[i].deps[d] in issues && issues[edges[i].deps[d]] == y;
      assert AnyIn(edges[i].deps, issues, reached);
    }
  }

  // --------------------------------------------------------- queued behind

  datatype Wait = Wait(issue: string, depends: seq<string>)

  function WaitEdges(waiting: seq<Wait>): Edges {
    set i, d | 0 <= i < |waiting| && 0 <= d < |waiting[i].depends| :: (waiting[i].issue, waiting[i].depends[d])
  }

  function Issues(waiting: seq<Wait>): set<string> {
    set i | 0 <= i < |waiting| :: waiting[i].issue
  }

  // Everyone who depends on a done issue is seen, or is the ticket itself.
  ghost predicate SeenBehind(waiting: seq<Wait>, n: nat, root: string, seen: set<string>, done: string)
    requires n <= |waiting|
  {
    forall i :: 0 <= i < n && done in waiting[i].depends ==> waiting[i].issue in seen + {root}
  }

  // Everything seen and taken from the frontier is done.
  ghost predicate AllDone(waiting: seq<Wait>, root: string, seen: set<string>, frontier: seq<string>) {
    forall x :: x in seen + {root} && x !in frontier ==> SeenBehind(waiting, |waiting|, root, seen, x)
  }

  predicate Inside(frontier: seq<string>, s: set<string>) {
    forall f :: 0 <= f < |frontier| ==> frontier[f] in s
  }

  // Whoever waits on `issue` directly joins the seen and the frontier.
  method PushDependents(root: string, waiting: seq<Wait>, issue: string, was: set<string>, left: seq<string>)
    returns (seen: set<string>, frontier: seq<string>)
    requires root !in was && issue in was + {root}
    requires AllReach(WaitEdges(waiting), was + {root}, root) && Inside(left, was + {root})
    ensures was <= seen && root !in seen
    ensures AllReach(WaitEdges(waiting), seen + {root}, root) && Inside(frontier, seen + {root})
    ensures SeenBehind(waiting, |waiting|, root, seen, issue)
    ensures forall x :: (x in left || (x in seen && x !in was)) ==> x in frontier
    ensures seen == was ==> frontier == left
    ensures seen != was ==> |Issues(waiting) - seen| < |Issues(waiting) - was|
  {
    hide *;
    seen, frontier := was, left;
    NoneSeen(waiting, root, seen, issue);
    for i := 0 to |waiting|
      invariant was <= seen && root !in seen
      invariant AllReach(WaitEdges(waiting), seen + {root}, root) && Inside(frontier, seen + {root})
      invariant SeenBehind(waiting, i, root, seen, issue)
      invariant forall x :: (x in left || (x in seen && x !in was)) ==> x in frontier
      invariant seen == was ==> frontier == left
      invariant seen != was ==> |Issues(waiting) - seen| < |Issues(waiting) - was|
    {
      var other := waiting[i];
      if issue in other.depends && other.issue !in seen && other.issue != root {
        Queued(root, waiting, issue, seen, i);
        assert seen + {root} + {other.issue} == seen + {other.issue} + {root};
        InsideMore(frontier, seen + {root}, other.issue);
        SeenMore(waiting, i, root, seen, issue, seen + {other.issue});
        seen := seen + {other.issue};
        frontier := frontier + [other.issue];
      } else {
        SeenMore(waiting, i, root, seen, issue, seen);
      }
    }
  }

  lemma NoneSeen(waiting: seq<Wait>, root: string, seen: set<string>, issue: string)
    ensures SeenBehind(waiting, 0, root, seen, issue)
  {
  }

  lemma InsideMore(frontier: seq<string>, s: set<string>, x: string)
    requires Inside(frontier, s)
    ensures Inside(frontier + [x], s + {x})
  {
  }

  lemma SeenMore(waiting: seq<Wait>, i: nat, root: string, was: set<string>, issue: string, seen: set<string>)
    requires i < |waiting| && SeenBehind(waiting, i, root, was, issue) && was <= seen
    requires issue in waiting[i].depends ==> waiting[i].issue in seen + {root}
    ensures SeenBehind(waiting, i + 1, root, seen, issue)
  {
  }

  lemma Queued(root: string, waiting: seq<Wait>, issue: string, seen: set<string>, i: nat)
    requires i < |waiting| && issue in waiting[i].depends && issue in seen + {root} && waiting[i].issue !in seen
    requires AllReach(WaitEdges(waiting), seen + {root}, root)
    ensures AllReach(WaitEdges(waiting), seen + {root} + {waiting[i].issue}, root)
    ensures |Issues(waiting) - (seen + {waiting[i].issue})| < |Issues(waiting) - seen|
  {
    var d :| 0 <= d < |waiting[i].depends| && waiting[i].depends[d] == issue;
    assert (waiting[i].issue, waiting[i].depends[d]) in WaitEdges(waiting);
    ReachesOf(WaitEdges(waiting), seen + {root}, issue, root);
    ReachesMore(WaitEdges(waiting), seen + {root}, waiting[i].issue, issue, root);
    Fewer(Issues(waiting), seen, seen + {waiting[i].issue}, waiting[i].issue);
  }

  // How many waiting tickets depend on this one in the end.
  method QueuedBehind(root: string, waiting: seq<Wait>) returns (n: nat, behind: set<string>)
    ensures n == |behind|
    ensures forall x :: x in behind <==> x != root && Reaches(WaitEdges(waiting), x, root)
  {
    hide Reaches, WaitEdges, Issues, SeenBehind;
    ReachesSelf(WaitEdges(waiting), root);
    var seen, frontier := {}, [root];
    while frontier != []
      invariant root !in seen && AllReach(WaitEdges(waiting), seen + {root}, root)
      invariant Inside(frontier, seen + {root}) && AllDone(waiting, root, seen, frontier)
      decreases |Issues(waiting) - seen|, |frontier|
    {
      var issue := frontier[|frontier| - 1];
      ghost var (was, before) := (seen, frontier);
      var left := frontier[..|frontier| - 1];
      assert before == left + [issue];
      seen, frontier := PushDependents(root, waiting, issue, seen, left);
      StillDone(waiting, root, was, before, issue, seen, frontier);
    }
    AllClosed(waiting, root, seen);
    ClosedIsAll(WaitEdges(waiting), seen + {root}, root);
    n, behind := |seen|, seen;
  }

  lemma StillDone(
      waiting: seq<Wait>, root: string, was: set<string>, before: seq<string>, issue: string, seen: set<string>,
      frontier: seq<string>)
    requires AllDone(waiting, root, was, before) && was <= seen
    requires SeenBehind(waiting, |waiting|, root, seen, issue)
    requires forall x :: x in before ==> x == issue || x in frontier
    requires forall x :: x in seen && x !in was ==> x in frontier
    ensures AllDone(waiting, root, seen, frontier)
  {
    forall x | x in seen + {root} && x !in frontier ensures SeenBehind(waiting, |waiting|, root, seen, x) {
      if x != issue { assert SeenBehind(waiting, |waiting|, root, was, x); }
    }
  }

  lemma AllClosed(waiting: seq<Wait>, root: string, seen: set<string>)
    requires AllDone(waiting, root, seen, [])
    ensures ClosedUnder(WaitEdges(waiting), seen + {root})
  {
    forall x, y | (x, y) in WaitEdges(waiting) && y in seen + {root} ensures x in seen + {root} {
      assert SeenBehind(waiting, |waiting|, root, seen, y);
    }
  }
}

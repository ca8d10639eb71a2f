// When a child of a story may start, and what every history keeps of stories and
// decisions (store/stories.py).

module StoryLaws {
  import opened Closure
  import opened Stories

  // ------------------------------------------------------------- the frontier

  // The dependencies approved for a child: those of its first entry, or none.
  predicate ApprovedAre(edges: seq<Approved>, name: string, deps: seq<string>) {
    || (exists i :: 0 <= i < |edges| && edges[i].child == name && edges[i].deps == deps
                    && forall j :: 0 <= j < i ==> edges[j].child != name)
    || (deps == [] && forall i :: 0 <= i < |edges| ==> edges[i].child != name)
  }

  lemma {:induction false} ApprovedDepsAre(edges: seq<Approved>, name: string, deps: seq<string>)
    requires ApprovedAre(edges, name, deps)
    ensures ApprovedDeps(edges, name) == deps
  {
    if edges != [] && edges[0].child != name {
      if exists i :: 0 <= i < |edges| && edges[i].child == name && edges[i].deps == deps
                     && forall j :: 0 <= j < i ==> edges[j].child != name {
        var i :| 0 <= i < |edges| && edges[i].child == name && edges[i].deps == deps
                 && forall j :: 0 <= j < i ==> edges[j].child != name;
        assert edges[1..][i - 1] == edges[i];
        assert forall j :: 0 <= j < i - 1 ==> edges[1..][j] == edges[j + 1];
      }
      assert ApprovedAre(edges[1..], name, deps);
      ApprovedDepsAre(edges[1..], name, deps);
    }
  }

  // `x` has an approved dependency on the issue of the child named `y`.
  predicate Approves(plan: Plan, x: string, y: string) {
    exists i, d, k ::
      && 0 <= i < |plan.edges| && 0 <= d < |plan.edges[i].deps| && 0 <= k < |plan.children|
      && plan.edges[i].child == x && plan.edges[i].deps[d] == plan.children[k].issue && plan.children[k].name == y
      && forall l :: k < l < |plan.children| ==> plan.children[l].issue != plan.children[k].issue
  }

  lemma {:induction false} IssuesAre(children: seq<Child>, issue: string)
    ensures issue in IssuesOf(children) <==> exists k :: 0 <= k < |children| && children[k].issue == issue
    ensures issue in IssuesOf(children) ==>
              exists k :: 0 <= k < |children| && children[k].issue == issue && children[k].name == IssuesOf(children)[issue]
                          && forall l :: k < l < |children| ==> children[l].issue != issue
  {
    if children != [] {
      var n := |children| - 1;
      IssuesAre(children[..n], issue);
      if children[n].issue != issue && issue in IssuesOf(children) {
        var k :| 0 <= k < n && children[..n][k].issue == issue && children[..n][k].name == IssuesOf(children[..n])[issue]
                 && forall l :: k < l < n ==> children[..n][l].issue != issue;
        assert children[k].issue == issue && forall l :: k < l < |children| ==> children[l].issue != issue;
      }
    }
  }

  lemma ChildEdgesAre(plan: Plan, x: string, y: string)
    ensures (x, y) in ChildEdges(plan.edges, IssuesOf(plan.children)) <==> Approves(plan, x, y)
  {
    hide IssuesOf;
    var issues := IssuesOf(plan.children);
    if (x, y) in ChildEdges(plan.edges, issues) {
      var i, d :| 0 <= i < |plan.edges| && 0 <= d < |plan.edges[i].deps| && plan.edges[i].deps[d] in issues
                  && (x, y) == (plan.edges[i].child, issues[plan.edges[i].deps[d]]);
      IssuesAre(plan.children, plan.edges[i].deps[d]);
    }
    if Approves(plan, x, y) {
      var i, d, k :|
        && 0 <= i < |plan.edges| && 0 <= d < |plan.edges[i].deps| && 0 <= k < |plan.children|
        && plan.edges[i].child == x && plan.edges[i].deps[d] == plan.children[k].issue && plan.children[k].name == y
        && forall l :: k < l < |plan.children| ==> plan.children[l].issue != plan.children[k].issue;
      IssuesAre(plan.children, plan.children[k].issue);
    }
  }

  // The child a decision is about, or the whole story.
  predicate IsAbout(children: seq<Child>, q: Question, name: string) {
    || (exists k :: 0 <= k < |children| && q.ticket == Some(children[k].ticket) && name == children[k].name
                    && forall j :: 0 <= j < k ==> children[j].ticket != children[k].ticket)
    || (name == "the whole story" && forall k :: 0 <= k < |children| ==> q.ticket != Some(children[k].ticket))
  }

  lemma {:induction false} AboutChildIs(children: seq<Child>, ticket: nat)
    ensures var r := AboutChild(children, ticket);
            && (r.Some? ==> exists k :: 0 <= k < |children| && children[k].ticket == ticket && r == Some(children[k].name)
                                        && forall j :: 0 <= j < k ==> children[j].ticket != ticket)
            && (r.None? ==> forall k :: 0 <= k < |children| ==> children[k].ticket != ticket)
  {
    if children != [] && children[0].ticket != ticket {
      AboutChildIs(children[1..], ticket);
      if AboutChild(children, ticket).Some? {
        var k :| 0 <= k < |children[1..]| && children[1..][k].ticket == ticket
                 && AboutChild(children, ticket) == Some(children[1..][k].name)
                 && forall j :: 0 <= j < k ==> children[1..][j].ticket != ticket;
        assert children[k + 1] == children[1..][k];
        forall j | 0 <= j < k + 1 ensures children[j].ticket != ticket {
          if j > 0 { assert children[1..][j - 1] == children[j]; }
        }
      }
      forall k | 0 <= k < |children| && AboutChild(children, ticket).None? ensures children[k].ticket != ticket {
        if k > 0 { assert children[1..][k - 1] == children[k]; }
      }
    } else if children != [] {
      assert children[0].ticket == ticket;
    }
  }

  lemma AboutIs(plan: Plan, q: Question, name: string)
    requires IsAbout(plan.children, q, name)
    ensures About(plan, q) == name
  {
    hide AboutChild;
    if q.ticket.Some? { AboutChildIs(plan.children, q.ticket.value); }
  }

  lemma AboutOne(plan: Plan, q: Question)
    ensures IsAbout(plan.children, q, About(plan, q))
  {
    hide AboutChild;
    if q.ticket.Some? { AboutChildIs(plan.children, q.ticket.value); }
  }

  // The edges of a plan between its children.
  ghost predicate AreEdges(plan: Plan, e: Edges) {
    forall x, y :: (x, y) in e <==> Approves(plan, x, y)
  }

  // The child no longer depends on an approved dependency that has not merged, or
  // depends on one nobody approved.
  predicate OffPlan(approved: seq<string>, depends: seq<string>, merged: set<string>) {
    || (exists d :: 0 <= d < |approved| && approved[d] !in merged && approved[d] !in depends)
    || (exists d :: 0 <= d < |depends| && depends[d] !in approved)
  }

  // A decision is open about the whole story, or about a child that `child`
  // depends on in the end, itself included.
  ghost predicate HeldBack(plan: Plan, e: Edges, child: Child) {
    exists i, about :: 0 <= i < |plan.questions| && HoldsBack(plan, e, child, plan.questions[i], about)
  }

  ghost predicate HoldsBack(plan: Plan, e: Edges, child: Child, q: Question, about: string) {
    IsAbout(plan.children, q, about) && (q.ticket.None? || Reaches(e, child.name, about))
  }

  predicate DriftDecided(plan: Plan, child: Child) {
    exists i :: 0 <= i < |plan.questions| && plan.questions[i].drift && plan.questions[i].ticket == Some(child.ticket)
  }

  lemma HeldIs(plan: Plan, e: Edges, child: Child)
    requires AreEdges(plan, e)
    ensures Held(plan, child) <==> HeldBack(plan, e, child)
  {
    hide Reaches, ChildEdges, IssuesOf, About, IsAbout, Approves;
    var edges := ChildEdges(plan.edges, IssuesOf(plan.children));
    forall z ensures z in e <==> z in edges {
      ChildEdgesAre(plan, z.0, z.1);
      assert z == (z.0, z.1);
    }
    assert e == edges;
    if Held(plan, child) {
      var i :| 0 <= i < |plan.questions| && Holds(plan, plan.questions[i], child);
      AboutOne(plan, plan.questions[i]);
      assert HoldsBack(plan, e, child, plan.questions[i], About(plan, plan.questions[i]));
    }
    if HeldBack(plan, e, child) {
      var i, about :| 0 <= i < |plan.questions| && HoldsBack(plan, e, child, plan.questions[i], about);
      AboutIs(plan, plan.questions[i], about);
      assert Holds(plan, plan.questions[i], child);
    }
  }

  // Each refusal is given exactly when its reason stands and none asked before it
  // does: the story is not open, the child drifted from its approved edges with
  // no decision on that, a decision holds it back, it waits for an approved
  // dependency, or the story is at its cap.
  lemma RefusedExactly(plan: Plan, merged: set<string>, n: nat, atCap: bool, approved: seq<string>, e: Edges)
    requires n < |plan.children| && ApprovedAre(plan.edges, plan.children[n].name, approved) && AreEdges(plan, e)
    ensures var r, child := RefusalOf(plan, merged, n, atCap), plan.children[n];
            var drifted := OffPlan(approved, child.depends, merged) && !DriftDecided(plan, child);
            var held := HeldBack(plan, e, child);
            var waits := exists d :: 0 <= d < |approved| && approved[d] !in merged;
            && (r == Some(NotOpen) <==> !plan.open)
            && (r == Some(Drift) <==> plan.open && drifted)
            && (r == Some(Undecided) <==> plan.open && !drifted && held)
            && (r == Some(Waits) <==> plan.open && !drifted && !held && waits)
            && (r == Some(AtCap) <==> plan.open && !drifted && !held && !waits && atCap)
  {
    hide HeldBack, Held, ApprovedAre, ApprovedDeps, AreEdges;
    ApprovedDepsAre(plan.edges, plan.children[n].name, approved);
    HeldIs(plan, e, plan.children[n]);
    DecidedIs(plan, plan.children[n]);
  }

  lemma DecidedIs(plan: Plan, child: Child)
    ensures Explained(plan, child) <==> DriftDecided(plan, child)
  {
    if Explained(plan, child) {
      var i :| 0 <= i < |plan.questions| && Explains(plan.questions[i], child);
      assert plan.questions[i].drift;
    }
    if DriftDecided(plan, child) {
      var i :| 0 <= i < |plan.questions| && plan.questions[i].drift && plan.questions[i].ticket == Some(child.ticket);
      assert Explains(plan.questions[i], child);
    }
  }

  // Tickets of children are distinct, so a decision about one names it.
  predicate TicketsDistinct(children: seq<Child>) {
    forall i, j :: 0 <= i < j < |children| ==> children[i].ticket != children[j].ticket
  }

  // A child is admitted exactly when its story is open and below its cap, every
  // dependency approved for it has merged, it depends on nothing else, and no
  // decision is open about the whole story or about a child it depends on in
  // the end -- itself included, so no drift is let through by its decision.
  lemma AdmittedChild(plan: Plan, merged: set<string>, n: nat, atCap: bool, approved: seq<string>, e: Edges)
    requires n < |plan.children| && TicketsDistinct(plan.children)
    requires ApprovedAre(plan.edges, plan.children[n].name, approved) && AreEdges(plan, e)
    ensures RefusalOf(plan, merged, n, atCap) == None <==>
              && plan.open && !atCap
              && (forall d :: 0 <= d < |approved| ==> approved[d] in merged)
              && (forall d :: 0 <= d < |plan.children[n].depends| ==>
                    plan.children[n].depends[d] in approved && plan.children[n].depends[d] in merged)
              && !HeldBack(plan, e, plan.children[n])
  {
    hide Reaches, ApprovedAre, AreEdges, RefusalOf;
    var child := plan.children[n];
    RefusedExactly(plan, merged, n, atCap, approved, e);
    if DriftDecided(plan, child) {
      var i :| 0 <= i < |plan.questions| && plan.questions[i].drift && plan.questions[i].ticket == Some(child.ticket);
      ReachesSelf(e, child.name);
      assert IsAbout(plan.children, plan.questions[i], child.name);
      assert HoldsBack(plan, e, child, plan.questions[i], child.name);
    }
    forall d | 0 <= d < |child.depends| && child.depends[d] in approved
      ensures exists k :: 0 <= k < |approved| && approved[k] == child.depends[d]
    {
    }
    var r := RefusalOf(plan, merged, n, atCap);
    match r
    case None => assert !OffPlan(approved, child.depends, merged);
    case Some(refusal) =>
      match refusal
      case NotOpen =>
      case Drift =>
      case Undecided =>
      case Waits =>
      case AtCap =>
  }

  // -------------------------------------------------------------- histories

  lemma {:induction false} RunSnoc(rows: Rows, steps: seq<Step>, step: Step)
    ensures Run(rows, steps + [step]) == Apply(Run(rows, steps), step)
    decreases |steps|
  {
    hide Apply;
    if steps == [] {
      assert [] + [step] == [step];
    } else {
      assert (steps + [step])[1..] == steps[1..] + [step];
      RunSnoc(Apply(rows, steps[0]), steps[1..], step);
    }
  }

  // Stories and decisions are only added; a story keeps its ticket and project,
  // and a decision its story and options.
  predicate Grown(a: Rows, b: Rows) {
    && |a.stories| <= |b.stories| && |a.decisions| <= |b.decisions|
    && (forall n :: 0 <= n < |a.stories| ==>
          b.stories[n].parent == a.stories[n].parent && b.stories[n].project == a.stories[n].project)
    && (forall d :: 0 <= d < |a.decisions| ==>
          b.decisions[d].story == a.decisions[d].story && b.decisions[d].options == a.decisions[d].options)
  }

  // What one story may do in one step: from planned to approved or abandoned,
  // between approved and parked, from either back to planned or to an end.
  predicate MayBecome(a: State, b: State) {
    || a == b
    || (a == Planned && (b == ApprovedState || b == Abandoned))
    || (a == ApprovedState && b != ApprovedState)
    || (a == Parked && b != Parked)
  }

  // An answer stands; a decision is answered by one of its options while its
  // story is not over, or superseded when its story ends.
  predicate MayAnswer(a: Rows, b: Rows, d: nat)
    requires d < |a.decisions| && d < |b.decisions|
  {
    var was, now := a.decisions[d], b.decisions[d];
    || now == was
    || (was.answer.None? && now == was.(answer := now.answer) && now.answer.Some?
        && was.story < |a.stories| && was.story < |b.stories| && !Over(a.stories[was.story].state)
        && (now.answer.value in was.options || (now.answer.value == "superseded" && Over(b.stories[was.story].state))))
  }

  lemma {:induction false} StepMoves(rows: Rows, step: Step)
    requires Known(rows)
    ensures var next := Apply(rows, step);
            && Grown(rows, next)
            && (forall n :: 0 <= n < |rows.stories| ==> MayBecome(rows.stories[n].state, next.stories[n].state))
            && (forall d :: 0 <= d < |rows.decisions| ==> MayAnswer(rows, next, d))
  {
    hide Superseded, Unanswered;
    match step
    case Close(n, _) => forall d | 0 <= d < |rows.decisions| { SupersededAt(rows.decisions, n, d); }
    case Abandon(n, _) => forall d | 0 <= d < |rows.decisions| { SupersededAt(rows.decisions, n, d); }
    case _ =>
  }

  // Over every history a story that is over stays so, and an answer stands.
  lemma {:induction false} OverStays(rows: Rows, steps: seq<Step>)
    requires Waiting(rows) && Known(rows)
    ensures var r := Run(rows, steps);
            && |rows.stories| <= |r.stories| && |rows.decisions| <= |r.decisions|
            && (forall n :: 0 <= n < |rows.stories| && Over(rows.stories[n].state) ==>
                  r.stories[n].state == rows.stories[n].state)
            && (forall d :: 0 <= d < |rows.decisions| && rows.decisions[d].answer.Some? ==>
                  r.decisions[d] == rows.decisions[d])
    decreases |steps|
  {
    hide Apply, Waiting, Known;
    if steps != [] {
      StepMoves(rows, steps[0]);
      StepKeepsWaiting(rows, steps[0]);
      OverStays(Apply(rows, steps[0]), steps[1..]);
      forall n | 0 <= n < |rows.stories| && Over(rows.stories[n].state)
        ensures Apply(rows, steps[0]).stories[n].state == rows.stories[n].state
      {
        assert MayBecome(rows.stories[n].state, Apply(rows, steps[0]).stories[n].state);
      }
      forall d | 0 <= d < |rows.decisions| && rows.decisions[d].answer.Some?
        ensures Apply(rows, steps[0]).decisions[d] == rows.decisions[d]
      {
        assert MayAnswer(rows, Apply(rows, steps[0]), d);
      }
    }
  }

  // Story `n` stands open after the first `k` steps.
  ghost predicate OpenAfter(steps: seq<Step>, k: nat, n: nat)
    requires k <= |steps|
  {
    var rows := Run(EMPTY, steps[..k]);
    n < |rows.stories| && Open(rows.stories[n].state)
  }

  // Step `k` approved story `n` at the revision it had then.
  predicate ApprovedBy(step: Step, n: nat, revision: Option<int>) {
    step.Approve? && step.valid && step.story == n && step.revision == step.current && revision == Some(step.revision)
  }

  ghost predicate OpenSince(steps: seq<Step>, k: nat, n: nat)
    requires k < |steps|
  {
    && !OpenAfter(steps, k, n)
    && forall j :: k < j <= |steps| ==> OpenAfter(steps, j, n)
  }

  // What one step does to whether a story is open and to its revision.
  lemma {:induction false} OpenStep(rows: Rows, step: Step, n: nat)
    requires n < |Apply(rows, step).stories| && Open(Apply(rows, step).stories[n].state)
    ensures n < |rows.stories|
    ensures Open(rows.stories[n].state) ==> Apply(rows, step).stories[n].revision == rows.stories[n].revision
    ensures !Open(rows.stories[n].state) ==>
              rows.stories[n].state == Planned && ApprovedBy(step, n, Apply(rows, step).stories[n].revision)
  {
    hide Superseded, Unanswered;
  }

  // Over every history an open story was approved, at the revision it then had
  // and still names, by the step that last opened it.
  lemma {:induction false} OpenWasApproved(steps: seq<Step>, n: nat)
    requires n < |Run(EMPTY, steps).stories| && Open(Run(EMPTY, steps).stories[n].state)
    ensures exists k :: 0 <= k < |steps| && OpenSince(steps, k, n)
                        && ApprovedBy(steps[k], n, Run(EMPTY, steps).stories[n].revision)
    decreases |steps|
  {
    hide Apply, Run;
    if steps == [] {
      assert Run(EMPTY, steps) == EMPTY by { NothingRun(); }
    } else {
      var m := |steps| - 1;
      var front, last := steps[..m], steps[m];
      assert steps == front + [last];
      RunSnoc(EMPTY, front, last);
      OpenStep(Run(EMPTY, front), last, n);
      assert steps[..|steps|] == steps;
      if Open(Run(EMPTY, front).stories[n].state) {
        OpenWasApproved(front, n);
        var k :| 0 <= k < m && OpenSince(front, k, n) && ApprovedBy(front[k], n, Run(EMPTY, front).stories[n].revision);
        forall j | 0 <= j <= m ensures OpenAfter(steps, j, n) == OpenAfter(front, j, n) {
          assert steps[..j] == front[..j];
        }
        assert OpenSince(steps, k, n);
      } else {
        assert OpenSince(steps, m, n);
      }
    }
  }

  lemma NothingRun()
    ensures Run(EMPTY, []) == EMPTY
  {
  }

  // ---------------------------------------------------------- what completes

  // Each step that is given something that reads succeeds exactly when its rows
  // allow it, and otherwise changes nothing.
  lemma {:induction false} StepCompletes(rows: Rows, step: Step)
    requires step.valid
    ensures var next := Apply(rows, step);
            match step
            case File(parent, project, _) =>
              if exists o :: 0 <= o < |rows.stories| && rows.stories[o].parent == parent then next == rows
              else next == Rows(rows.stories + [Story(parent, project, Planned, None)], rows.decisions)
            case Replan(n, _) =>
              if n < |rows.stories| && rows.stories[n].state in {ApprovedState, Parked}
              then next == Rows(rows.stories[n := rows.stories[n].(state := Planned)], rows.decisions) else next == rows
            case Approve(n, revision, current, _) =>
              if n < |rows.stories| && rows.stories[n].state == Planned && revision == current
                 && forall o :: 0 <= o < |rows.stories| && o != n && rows.stories[o].project == rows.stories[n].project ==>
                      rows.stories[o].state !in {ApprovedState, Parked}
              then next == Rows(rows.stories[n := rows.stories[n].(state := ApprovedState, revision := Some(revision))],
                                rows.decisions)
              else next == rows
            case Park(n, options, default, _) =>
              if n < |rows.stories| && rows.stories[n].state in {ApprovedState, Parked} && default in options
                 && forall i, j :: 0 <= i < j < |options| ==> options[i] != options[j]
              then next == Rows(rows.stories[n := rows.stories[n].(state := Parked)],
                                rows.decisions + [Decision(n, options, None)])
              else next == rows
            case Answer(d, answer, _) =>
              if d < |rows.decisions| && rows.decisions[d].story < |rows.stories|
                 && rows.stories[rows.decisions[d].story].state !in {Closed, Abandoned}
                 && rows.decisions[d].answer.None? && answer in rows.decisions[d].options
              then
                var n := rows.decisions[d].story;
                var last := forall e :: 0 <= e < |rows.decisions| && e != d && rows.decisions[e].story == n ==>
                              rows.decisions[e].answer.Some?;
                next == Rows(if last && rows.stories[n].state == Parked
                             then rows.stories[n := rows.stories[n].(state := ApprovedState)] else rows.stories,
                             rows.decisions[d := Decision(n, rows.decisions[d].options, Some(answer))])
              else next == rows
            case Close(n, _) =>
              if n < |rows.stories| && rows.stories[n].state in {ApprovedState, Parked}
              then Ends(rows, next, n, Closed) else next == rows
            case Abandon(n, _) =>
              if n < |rows.stories| && rows.stories[n].state !in {Closed, Abandoned}
              then Ends(rows, next, n, Abandoned) else next == rows
  {
    match step
    case Close(n, _) => forall d | 0 <= d < |rows.decisions| { SupersededAt(rows.decisions, n, d); }
    case Abandon(n, _) => forall d | 0 <= d < |rows.decisions| { SupersededAt(rows.decisions, n, d); }
    case Answer(d, answer, _) =>
      if d < |rows.decisions| {
        var answered := rows.(decisions := rows.decisions[d := rows.decisions[d].(answer := Some(answer))]);
        AnsweredAll(rows, answered, d);
      }
    case _ =>
  }

  // A story ends, and every question about it is superseded.
  predicate Ends(rows: Rows, next: Rows, n: nat, s: State)
    requires n < |rows.stories|
  {
    && next.stories == rows.stories[n := rows.stories[n].(state := s)] && |next.decisions| == |rows.decisions|
    && forall d :: 0 <= d < |rows.decisions| ==>
         next.decisions[d] == if rows.decisions[d].story == n && rows.decisions[d].answer.None?
                              then Decision(n, rows.decisions[d].options, Some("superseded")) else rows.decisions[d]
  }

  lemma AnsweredAll(rows: Rows, answered: Rows, d: nat)
    requires d < |rows.decisions| && |answered.decisions| == |rows.decisions|
    requires answered.decisions[d].story == rows.decisions[d].story && answered.decisions[d].answer.Some?
    requires forall e :: 0 <= e < |rows.decisions| && e != d ==> answered.decisions[e] == rows.decisions[e]
    ensures !Unanswered(answered, rows.decisions[d].story) <==>
              forall e :: 0 <= e < |rows.decisions| && e != d && rows.decisions[e].story == rows.decisions[d].story ==>
                rows.decisions[e].answer.Some?
  {
    var n := rows.decisions[d].story;
    forall e | 0 <= e < |rows.decisions| && e != d && rows.decisions[e].story == n && rows.decisions[e].answer.None?
      ensures Unanswered(answered, n)
    {
      assert answered.decisions[e].story == n && answered.decisions[e].answer.None?;
    }
  }
}

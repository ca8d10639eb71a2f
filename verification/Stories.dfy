// A story: which child may start, and the states it moves through
// (store/stories.py).

module Stories {
  import opened Closure

  datatype Option<+T> = None | Some(value: T)

  // ------------------------------------------------------------- the frontier

  datatype Child = Child(ticket: nat, name: string, issue: string, depends: seq<string>)

  // An unanswered decision, about one ticket or the whole story.
  datatype Question = Question(drift: bool, ticket: Option<nat>)

  // A story with its approved plan and the decisions nobody has answered.
  datatype Plan = Plan(open: bool, children: seq<Child>, edges: seq<Approved>, questions: seq<Question>)

  datatype Refusal = NotOpen | Drift | Undecided | Waits | AtCap

  function IssuesOf(children: seq<Child>): map<string, string> {
    if children == [] then map[]
    else
      var last := children[|children| - 1];
      IssuesOf(children[..|children| - 1])[last.issue := last.name]
  }

  function ApprovedDeps(edges: seq<Approved>, name: string): seq<string> {
    if edges == [] then [] else if edges[0].child == name then edges[0].deps else ApprovedDeps(edges[1..], name)
  }

  // The name of the child a decision is about, if it is about one.
  function AboutChild(children: seq<Child>, ticket: nat): Option<string> {
    if children == [] then None
    else if children[0].ticket == ticket then Some(children[0].name)
    else AboutChild(children[1..], ticket)
  }

  const WHOLE := "the whole story"

  function About(plan: Plan, q: Question): string {
    if q.ticket.Some? && AboutChild(plan.children, q.ticket.value).Some?
    then AboutChild(plan.children, q.ticket.value).value else WHOLE
  }

  predicate Missing(approved: seq<string>, depends: seq<string>, merged: set<string>) {
    exists d :: 0 <= d < |approved| && approved[d] !in merged && approved[d] !in depends
  }

  predicate Extra(approved: seq<string>, depends: seq<string>) {
    exists d :: 0 <= d < |depends| && depends[d] !in approved
  }

  predicate Drifts(plan: Plan, child: Child, merged: set<string>) {
    var approved := ApprovedDeps(plan.edges, child.name);
    Missing(approved, child.depends, merged) || Extra(approved, child.depends)
  }

  // A decision that explains a child's drift.
  predicate Explains(q: Question, child: Child) {
    q.drift && q.ticket == Some(child.ticket)
  }

  predicate Explained(plan: Plan, child: Child) {
    exists i :: 0 <= i < |plan.questions| && Explains(plan.questions[i], child)
  }

  // A decision that holds a child back: about the whole story, or about a
  // child it depends on in the end by the approved edges.
  ghost predicate Holds(plan: Plan, q: Question, child: Child) {
    q.ticket.None? || Reaches(ChildEdges(plan.edges, IssuesOf(plan.children)), child.name, About(plan, q))
  }

  ghost predicate Held(plan: Plan, child: Child) {
    exists i :: 0 <= i < |plan.questions| && Holds(plan, plan.questions[i], child)
  }

  predicate AllMerged(deps: seq<string>, merged: set<string>) {
    forall d :: 0 <= d < |deps| ==> deps[d] in merged
  }

  // Why a child may not start, the first reason in the order they are asked.
  ghost function RefusalOf(plan: Plan, merged: set<string>, n: nat, atCap: bool): Option<Refusal>
    requires n < |plan.children|
  {
    var child := plan.children[n];
    if !plan.open then Some(NotOpen)
    else if Drifts(plan, child, merged) && !Explained(plan, child) then Some(Drift)
    else if Held(plan, child) then Some(Undecided)
    else if !AllMerged(ApprovedDeps(plan.edges, child.name), merged) then Some(Waits)
    else if atCap then Some(AtCap)
    else None
  }

  // `_frontier_refusal`
  method FrontierRefusal(plan: Plan, merged: set<string>, n: nat, atCap: bool) returns (r: Option<Refusal>)
    requires n < |plan.children|
    ensures r == RefusalOf(plan, merged, n, atCap)
  {
    hide Reaches, ChildEdges, IssuesOf, ApprovedDeps;
    if !plan.open { return Some(NotOpen); }
    var child := plan.children[n];
    var approved := ApprovedDeps(plan.edges, child.name);
    if Drifts(plan, child, merged) && !Explained(plan, child) { return Some(Drift); }
    for i := 0 to |plan.questions|
      invariant forall j :: 0 <= j < i ==> !Holds(plan, plan.questions[j], child)
    {
      var q := plan.questions[i];
      if q.ticket.None? { return Some(Undecided); }
      var reached := Downstream(plan.edges, IssuesOf(plan.children), About(plan, q));
      if child.name in reached { return Some(Undecided); }
    }
    if !AllMerged(approved, merged) { return Some(Waits); }
    return if atCap then Some(AtCap) else None;
  }

  // -------------------------------------------------------------- histories

  datatype State = Planned | ApprovedState | Parked | Closed | Abandoned

  // A story row, keyed by its parent ticket.
  datatype Story = Story(parent: nat, project: nat, state: State, revision: Option<int>)

  datatype Decision = Decision(story: nat, options: seq<string>, answer: Option<string>)

  datatype Rows = Rows(stories: seq<Story>, decisions: seq<Decision>)

  // `valid` is whether what the step was given reads: its texts, its witnesses
  // and children, the child a decision is about, and the walk of the parent's
  // ticket that goes with it.
  datatype Step =
    | File(parent: nat, project: nat, valid: bool)
    | Replan(story: nat, valid: bool)
    | Approve(story: nat, revision: int, current: int, valid: bool)
    | Park(story: nat, options: seq<string>, default: string, valid: bool)
    | Answer(decision: nat, answer: string, valid: bool)
    | Close(story: nat, valid: bool)
    | Abandon(story: nat, valid: bool)

  predicate Open(s: State) {
    s == ApprovedState || s == Parked
  }

  predicate Over(s: State) {
    s == Closed || s == Abandoned
  }

  predicate Unanswered(rows: Rows, n: nat) {
    exists d :: 0 <= d < |rows.decisions| && rows.decisions[d].story == n && rows.decisions[d].answer.None?
  }

  predicate OtherOpen(rows: Rows, n: nat)
    requires n < |rows.stories|
  {
    exists o :: 0 <= o < |rows.stories| && o != n && rows.stories[o].project == rows.stories[n].project
                && Open(rows.stories[o].state)
  }

  function SetState(rows: Rows, n: nat, s: State): Rows
    requires n < |rows.stories|
  {
    rows.(stories := rows.stories[n := rows.stories[n].(state := s)])
  }

  function Superseded(decisions: seq<Decision>, n: nat): (r: seq<Decision>)
    ensures |r| == |decisions|
  {
    if decisions == [] then []
    else
      var d := decisions[|decisions| - 1];
      Superseded(decisions[..|decisions| - 1], n)
      + [if d.story == n && d.answer.None? then d.(answer := Some("superseded")) else d]
  }

  predicate Listed(options: seq<string>) {
    options != [] && forall i, j :: 0 <= i < j < |options| ==> options[i] != options[j]
  }

  // The rows after a step; a refused step changes nothing.
  function Apply(rows: Rows, step: Step): Rows {
    if !step.valid then rows
    else match step
    case File(parent, project, _) =>
      if exists o :: 0 <= o < |rows.stories| && rows.stories[o].parent == parent then rows
      else rows.(stories := rows.stories + [Story(parent, project, Planned, None)])
    case Replan(n, _) =>
      if n >= |rows.stories| || !Open(rows.stories[n].state) then rows else SetState(rows, n, Planned)
    case Approve(n, revision, current, _) =>
      if n >= |rows.stories| || rows.stories[n].state != Planned || current != revision || OtherOpen(rows, n) then rows
      else rows.(stories := rows.stories[n := rows.stories[n].(state := ApprovedState, revision := Some(revision))])
    case Park(n, options, default, _) =>
      if !Listed(options) || default !in options || n >= |rows.stories| || !Open(rows.stories[n].state) then rows
      else SetState(rows, n, Parked).(decisions := rows.decisions + [Decision(n, options, None)])
    case Answer(d, answer, _) =>
      if d >= |rows.decisions| || rows.decisions[d].story >= |rows.stories|
         || Over(rows.stories[rows.decisions[d].story].state) || rows.decisions[d].answer.Some?
         || answer !in rows.decisions[d].options then rows
      else
        var n := rows.decisions[d].story;
        var answered := rows.(decisions := rows.decisions[d := rows.decisions[d].(answer := Some(answer))]);
        if !Unanswered(answered, n) && rows.stories[n].state == Parked then SetState(answered, n, ApprovedState)
        else answered
    case Close(n, _) =>
      if n >= |rows.stories| || !Open(rows.stories[n].state) then rows
      else SetState(rows, n, Closed).(decisions := Superseded(rows.decisions, n))
    case Abandon(n, _) =>
      if n >= |rows.stories| || Over(rows.stories[n].state) then rows
      else SetState(rows, n, Abandoned).(decisions := Superseded(rows.decisions, n))
  }

  function Run(rows: Rows, steps: seq<Step>): Rows
    decreases |steps|
  {
    if steps == [] then rows else Run(Apply(rows, steps[0]), steps[1..])
  }

  const EMPTY := Rows([], [])

  // A parked story waits for an answer; a story that is over waits for none.
  ghost predicate Waiting(rows: Rows) {
    forall n :: 0 <= n < |rows.stories| ==>
      && (rows.stories[n].state == Parked ==> Unanswered(rows, n))
      && (Over(rows.stories[n].state) ==> !Unanswered(rows, n))
  }

  ghost predicate OneOpen(rows: Rows) {
    forall m, n :: 0 <= m < n < |rows.stories| && rows.stories[m].project == rows.stories[n].project ==>
      !(Open(rows.stories[m].state) && Open(rows.stories[n].state))
  }

  ghost predicate Known(rows: Rows) {
    forall d :: 0 <= d < |rows.decisions| ==> rows.decisions[d].story < |rows.stories|
  }

  lemma {:induction false} SupersededAt(decisions: seq<Decision>, n: nat, d: nat)
    requires d < |decisions|
    ensures Superseded(decisions, n)[d] ==
            if decisions[d].story == n && decisions[d].answer.None? then decisions[d].(answer := Some("superseded"))
            else decisions[d]
  {
    if d < |decisions| - 1 { SupersededAt(decisions[..|decisions| - 1], n, d); }
  }

  // Superseding answers this story's decisions and touches no other's.
  lemma SupersededAnswers(rows: Rows, n: nat, stories: seq<Story>, m: nat)
    ensures Unanswered(Rows(stories, Superseded(rows.decisions, n)), m) <==> m != n && Unanswered(rows, m)
  {
    hide Superseded;
    var after := Superseded(rows.decisions, n);
    forall d | 0 <= d < |after|
      ensures after[d].story == rows.decisions[d].story
      ensures after[d].answer.None? <==> rows.decisions[d].story != n && rows.decisions[d].answer.None?
    {
      SupersededAt(rows.decisions, n, d);
    }
    if Unanswered(rows, m) && m != n {
      var d :| 0 <= d < |rows.decisions| && rows.decisions[d].story == m && rows.decisions[d].answer.None?;
      assert after[d].story == m && after[d].answer.None?;
    }
  }

  lemma StepKeepsWaiting(rows: Rows, step: Step)
    requires Waiting(rows) && Known(rows)
    ensures Waiting(Apply(rows, step)) && Known(Apply(rows, step))
  {
    hide Superseded;
    var next := Apply(rows, step);
    match step
    case Close(n, _) => if n < |rows.stories| { OverKeeps(rows, n, Closed); }
    case Abandon(n, _) => if n < |rows.stories| { OverKeeps(rows, n, Abandoned); }
    case Park(n, options, default, _) =>
      if next != rows { ParkKeeps(rows, n, options); }
    case Answer(d, answer, _) =>
      if next != rows { AnswerKeeps(rows, d, answer); }
    case _ =>
      forall m | 0 <= m < |next.stories| ensures Unanswered(next, m) <==> Unanswered(rows, m) {
      }
  }

  lemma OverKeeps(rows: Rows, n: nat, s: State)
    requires Waiting(rows) && Known(rows) && n < |rows.stories| && Over(s)
    ensures var next := SetState(rows, n, s).(decisions := Superseded(rows.decisions, n)); Waiting(next) && Known(next)
  {
    hide Superseded, Unanswered;
    var next := SetState(rows, n, s).(decisions := Superseded(rows.decisions, n));
    forall m | 0 <= m < |next.stories|
      ensures next.stories[m].state == Parked ==> Unanswered(next, m)
      ensures Over(next.stories[m].state) ==> !Unanswered(next, m)
    {
      SupersededAnswers(rows, n, next.stories, m);
    }
    forall d | 0 <= d < |next.decisions| ensures next.decisions[d].story < |next.stories| {
      SupersededAt(rows.decisions, n, d);
    }
  }

  lemma ParkKeeps(rows: Rows, n: nat, options: seq<string>)
    requires Waiting(rows) && Known(rows) && n < |rows.stories| && Open(rows.stories[n].state)
    ensures var next := SetState(rows, n, Parked).(decisions := rows.decisions + [Decision(n, options, None)]);
            Waiting(next) && Known(next)
  {
    var next := SetState(rows, n, Parked).(decisions := rows.decisions + [Decision(n, options, None)]);
    assert next.decisions[|rows.decisions|].story == n;
    forall m | 0 <= m < |rows.stories| && m != n ensures Unanswered(next, m) <==> Unanswered(rows, m) {
      if Unanswered(rows, m) {
        var d :| 0 <= d < |rows.decisions| && rows.decisions[d].story == m && rows.decisions[d].answer.None?;
        assert next.decisions[d] == rows.decisions[d];
      }
    }
  }

  lemma AnswerKeeps(rows: Rows, d: nat, answer: string)
    requires Waiting(rows) && Known(rows) && d < |rows.decisions|
    requires !Over(rows.stories[rows.decisions[d].story].state)
    ensures var n := rows.decisions[d].story;
            var answered := rows.(decisions := rows.decisions[d := rows.decisions[d].(answer := Some(answer))]);
            && (!Unanswered(answered, n) && rows.stories[n].state == Parked ==>
                  Waiting(SetState(answered, n, ApprovedState)) && Known(SetState(answered, n, ApprovedState)))
            && (Unanswered(answered, n) || rows.stories[n].state != Parked ==> Waiting(answered) && Known(answered))
  {
    var n := rows.decisions[d].story;
    var answered := rows.(decisions := rows.decisions[d := rows.decisions[d].(answer := Some(answer))]);
    forall m | 0 <= m < |rows.stories| && m != n ensures Unanswered(answered, m) <==> Unanswered(rows, m) {
      if Unanswered(rows, m) {
        var e :| 0 <= e < |rows.decisions| && rows.decisions[e].story == m && rows.decisions[e].answer.None?;
        assert answered.decisions[e] == rows.decisions[e];
      }
    }
    var approved := SetState(answered, n, ApprovedState);
    forall m | 0 <= m < |rows.stories| ensures Unanswered(approved, m) <==> Unanswered(answered, m) {
    }
  }

  lemma StepKeepsOneOpen(rows: Rows, step: Step)
    requires OneOpen(rows)
    ensures OneOpen(Apply(rows, step))
  {
    hide Superseded, Unanswered;
  }

  lemma {:induction false} RunKeeps(rows: Rows, steps: seq<Step>)
    requires Waiting(rows) && Known(rows) && OneOpen(rows)
    ensures var r := Run(rows, steps); Waiting(r) && Known(r) && OneOpen(r)
    decreases |steps|
  {
    hide Waiting, Known, OneOpen, Apply;
    if steps != [] {
      StepKeepsWaiting(rows, steps[0]);
      StepKeepsOneOpen(rows, steps[0]);
      RunKeeps(Apply(rows, steps[0]), steps[1..]);
    }
  }

  // Over every history: a parked story has an unanswered decision, a closed or
  // abandoned one has none, and a project has one open story at most.
  lemma StoryHistories(steps: seq<Step>)
    ensures var rows := Run(EMPTY, steps); Waiting(rows) && OneOpen(rows)
  {
    RunKeeps(EMPTY, steps);
  }

  // ------------------------------------------------------------ in place

  class Store {
    var stories: seq<Story>
    var decisions: seq<Decision>

    constructor ()
      ensures Now() == EMPTY
    {
      stories, decisions := [], [];
    }

    function Now(): Rows
      reads this
    {
      Rows(stories, decisions)
    }

    method Enter(n: nat, s: State)
      requires n < |stories|
      modifies this`stories
      ensures Now() == SetState(old(Now()), n, s)
    {
      stories := stories[n := stories[n].(state := s)];
    }

    method FileStory(parent: nat, project: nat, valid: bool)
      modifies this
      ensures Now() == Apply(old(Now()), File(parent, project, valid))
    {
      if !valid { return; }
      for i := 0 to |stories|
        invariant forall o :: 0 <= o < i ==> stories[o].parent != parent
      {
        if stories[i].parent == parent { return; }
      }
      stories := stories + [Story(parent, project, Planned, None)];
    }

    method ReplanStory(n: nat, valid: bool)
      modifies this
      ensures Now() == Apply(old(Now()), Replan(n, valid))
    {
      if !valid { return; }
      if n < |stories| && Open(stories[n].state) { Enter(n, Planned); }
    }

    method ApproveStory(n: nat, revision: int, current: int, valid: bool)
      modifies this
      ensures Now() == Apply(old(Now()), Approve(n, revision, current, valid))
    {
      if !valid { return; }
      if n >= |stories| || stories[n].state != Planned || current != revision { return; }
      for i := 0 to |stories|
        invariant forall o :: 0 <= o < i ==>
                    !(o != n && stories[o].project == stories[n].project && Open(stories[o].state))
      {
        if i != n && stories[i].project == stories[n].project && Open(stories[i].state) { return; }
      }
      stories := stories[n := stories[n].(state := ApprovedState, revision := Some(revision))];
    }

    method ParkStory(n: nat, options: seq<string>, default: string, valid: bool)
      modifies this
      ensures Now() == Apply(old(Now()), Step.Park(n, options, default, valid))
    {
      if !valid { return; }
      if !Listed(options) || default !in options { return; }
      if n >= |stories| || !Open(stories[n].state) { return; }
      Enter(n, Parked);
      decisions := decisions + [Decision(n, options, None)];
    }

    method AnswerDecision(d: nat, answer: string, valid: bool)
      modifies this
      ensures Now() == Apply(old(Now()), Answer(d, answer, valid))
    {
      if !valid { return; }
      if d >= |decisions| || decisions[d].story >= |stories| { return; }
      var n := decisions[d].story;
      if Over(stories[n].state) || decisions[d].answer.Some? || answer !in decisions[d].options { return; }
      decisions := decisions[d := decisions[d].(answer := Some(answer))];
      for i := 0 to |decisions|
        invariant forall e :: 0 <= e < i ==> !(decisions[e].story == n && decisions[e].answer.None?)
      {
        if decisions[i].story == n && decisions[i].answer.None? { return; }
      }
      if stories[n].state == Parked { Enter(n, ApprovedState); }
    }

    method CloseStory(n: nat, valid: bool)
      modifies this
      ensures Now() == Apply(old(Now()), Close(n, valid))
    {
      hide Superseded;
      if !valid { return; }
      if n >= |stories| || !Open(stories[n].state) { return; }
      Enter(n, Closed);
      Supersede(n);
    }

    method AbandonStory(n: nat, valid: bool)
      modifies this
      ensures Now() == Apply(old(Now()), Abandon(n, valid))
    {
      hide Superseded;
      if !valid { return; }
      if n >= |stories| || Over(stories[n].state) { return; }
      Enter(n, Abandoned);
      Supersede(n);
    }

    method Supersede(n: nat)
      modifies this`decisions
      ensures decisions == Superseded(old(decisions), n)
    {
      for i := 0 to |decisions|
        invariant |decisions| == |old(decisions)|
        invariant decisions[..i] == Superseded(old(decisions)[..i], n)
        invariant decisions[i..] == old(decisions)[i..]
      {
        assert decisions[i] == decisions[i..][0] == old(decisions)[i];
        assert old(decisions)[..i + 1][..i] == old(decisions)[..i];
        if decisions[i].story == n && decisions[i].answer.None? {
          decisions := decisions[i := decisions[i].(answer := Some("superseded"))];
        }
      }
      assert old(decisions)[..|decisions|] == old(decisions) && decisions[..|decisions|] == decisions;
    }
  }
}

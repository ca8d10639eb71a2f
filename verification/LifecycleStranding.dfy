// When an accepted instruction is stranded, exactly.

module LifecycleStranding {
  import Path = StatusPath
  import opened Lifecycle
  import opened LifecycleMoves
  import opened LifecycleFacts
  import opened LifecycleRuns
  import opened LifecycleTheorems

  // ------------------------------------------------- none accepted meanwhile

  // On a ticket whose leased run is merging every way of leaving an
  // instruction refuses.
  lemma {:induction false} WritersRefuse(
      db: Db, t: nat, r: nat, now: int, amendment: bool, interrupt: bool, blank: bool, bad: bool, human: bool)
    requires Good(db) && t < |db.tickets| && db.tickets[t].active.Some?
    requires db.runs[db.tickets[t].active.value].phase == Merging
    ensures r < |db.runs| && db.runs[r].ticket == t ==>
              SendBack(db, r, blank, now).Refused? && AddNote(db, r, blank).Refused? && NoteLive(db, r, blank).Refused?
    ensures SteerTicket(db, t, amendment, interrupt, blank, bad, human, now).Refused?
  {
    assert LeaseOk(db.tickets[t], t, db.runs);
  }

  // No new event is an instruction on a run of ticket `t`.
  ghost predicate NoneFor(db: Db, events: seq<Event>, t: nat) {
    && |db.events| <= |events|
    && forall e :: |db.events| <= e < |events| && events[e].Note? ==>
         events[e].run < |db.runs| && db.runs[events[e].run].ticket != t
  }

  lemma {:induction false} ReleaseEvents(db: Db, r: nat, outcome: Outcome, asked: Option<Phase>, candidate: Option<string>, now: int)
    ensures Release(db, r, outcome, asked, candidate, now).Ok? ==>
              && Release(db, r, outcome, asked, candidate, now).db.events == db.events
              && |Release(db, r, outcome, asked, candidate, now).db.runs| == |db.runs|
  {
    hide DropLease;
  }

  lemma {:induction false} TransitionAllEvents(db: Db, t: nat, path: seq<Status>)
    ensures TransitionAll(db, t, path).Ok? ==> TransitionAll(db, t, path).db.events == db.events
    decreases |path|
  {
    hide ClearParkKinds;
    if path != [] && Transition(db, t, path[0]).Ok? { TransitionAllEvents(Transition(db, t, path[0]).db, t, path[1..]); }
  }

  lemma {:induction false} WalkEvents(db: Db, t: nat, to: Status)
    ensures Walk(db, t, to).Ok? ==> Walk(db, t, to).db.events == db.events
  {
    hide TransitionAll;
    if t < |db.tickets| && db.tickets[t].status != to {
      var found := Path.Shortest(STATUSES, db.tickets[t].status, to);
      if found.Some? { TransitionAllEvents(db, t, found.value); }
    }
  }

  lemma {:induction false} RequeueEvents(db: Db, t: nat, blank: bool, human: bool, force: bool, now: int)
    ensures RequeueTicket(db, t, blank, human, force, now).Ok? ==>
              RequeueTicket(db, t, blank, human, force, now).db.events == db.events
  {
    hide Release, Walk, Relaunches, Admits, Aborted;
    if RequeueTicket(db, t, blank, human, force, now).Ok? {
      var r := db.tickets[t].last.value;
      var d1 := Record(db, r, Requeue, blank, human, false).db;
      ReleaseEvents(d1, r, Outcome.Abandoned, None, None, now);
      var admitted := Admits(db.tickets[t].status, LastRun(db, t), Aborted(db, r)).value;
      var d2 := if admitted then Release(d1, r, Outcome.Abandoned, None, None, now).db else d1;
      WalkEvents(d2.(runs := d2.runs[r := d2.runs[r].(approvedAt := None)]), t, Ready);
    }
  }

  // Releasing a parked run leaves an instruction on it when it is sent back
  // with one, and none otherwise.
  lemma {:induction false} ReleaseParkedEvents(
      db: Db, t: nat, action: Action, blank: bool, human: bool, requirePr: bool, only: Option<nat>, now: int)
    ensures var q := ReleaseParked(db, t, action, blank, human, requirePr, only, now);
            q.Ok? ==> && t < |db.tickets| && db.tickets[t].last.Some?
                      && q.db.events == db.events + if action == OperatorNote then [Note(db.tickets[t].last.value)] else []
  {
    hide Release, Walk;
    if ReleaseParked(db, t, action, blank, human, requirePr, only, now).Ok? {
      var r := db.tickets[t].last.value;
      var d1 := Record(db, r, action, blank, human, false).db;
      var d2 := if action == OperatorNote then d1.(events := d1.events + [Note(r)]) else d1;
      ReleaseEvents(d2, r, Outcome.Abandoned, None, None, now);
      var d3 := Release(d2, r, Outcome.Abandoned, None, None, now).db;
      var back := d3.runs[r].(resumePhase := Some(MergeGate), approvedAt := if action == Approve then Some(now) else None);
      WalkEvents(d3.(runs := d3.runs[r := back]), t, Ready);
    }
  }

  lemma {:induction false} ConsumeEvents(db: Db, r: nat, notes: seq<nat>)
    ensures var q := ConsumeNotes(db, r, notes);
            q.Ok? ==> && |db.events| <= |q.db.events| && q.db.events[..|db.events|] == db.events
                      && forall e :: |db.events| <= e < |q.db.events| ==> q.db.events[e].Consumed?
    decreases |notes|
  {
    if notes != [] && r < |db.runs| {
      var d := db.(events := db.events + [Consumed(r, notes[0])]);
      ConsumeEvents(d, r, notes[1..]);
      var q := ConsumeNotes(d, r, notes[1..]);
      if q.Ok? {
        assert q.db.events[..|db.events|] == q.db.events[..|d.events|][..|db.events|];
        assert q.db.events[..|d.events|][|db.events|] == Consumed(r, notes[0]);
      }
    }
  }

  lemma {:induction false} ConsumeSteersEvents(db: Db, r: nat, notes: seq<nat>)
    ensures ConsumeSteers(db, r, notes).Ok? ==> ConsumeSteers(db, r, notes).db.events == db.events
    decreases |notes|
  {
    if notes != [] {
      var n := notes[0];
      var d := if n < |db.steers| && db.steers[n].consumedBy.None?
               then db.(steers := db.steers[n := db.steers[n].(consumedBy := Some(r))]) else db;
      ConsumeSteersEvents(d, r, notes[1..]);
    }
  }

  // What a run operation adds to the events: nothing.
  lemma {:induction false} RunEvents(db: Db, step: Step)
    requires OnRuns(step)
    ensures Apply(db, step).events == db.events
  {
    hide Release, DropLease, Attempts, NextPhases;
    if step.DoRelease? {
      ReleaseEvents(db, step.run, step.outcome, step.asked, step.candidate, step.now);
    }
  }

  lemma {:induction false} TicketEvents(db: Db, step: Step)
    requires OnTickets(step)
    ensures Apply(db, step).events == db.events
  {
    hide Walk, ClearParkKinds, NextStatuses;
    if step.DoWalk? { WalkEvents(db, step.ticket, step.status); }
  }

  // While a ticket's leased run is merging, no operation whatever leaves an
  // instruction on any run of the ticket.
  lemma {:induction false} NoneAcceptedWhileMerging(db: Db, step: Step, t: nat)
    requires Good(db) && t < |db.tickets| && db.tickets[t].active.Some?
    requires db.tickets[t].active.value < |db.runs| && db.runs[db.tickets[t].active.value].phase == Merging
    ensures NoneFor(db, Apply(db, step).events, t)
  {
    hide RunsOk, ReleaseParked, RequeueTicket, SteerTicket, ConsumeNotes, ConsumeSteers;
    if OnRuns(step) {
      RunEvents(db, step);
    } else if OnTickets(step) {
      TicketEvents(db, step);
    } else {
      match step
      case DoRequeue(u, blank, human, force, now) => RequeueEvents(db, u, blank, human, force, now);
      case DoApprove(u, blank, only, now) => ReleaseParkedEvents(db, u, Approve, blank, true, false, only, now);
      case DoBabysit(u, blank, human, now) => ReleaseParkedEvents(db, u, Babysit, blank, human, true, None, now);
      case DoSendBack(r, blank, now) => SendBackEvents(db, r, blank, now, t);
      case DoAddNote(r, blank) => WritersRefuse(db, t, r, 0, true, false, blank, false, true);
      case DoNoteLive(r, blank) => WritersRefuse(db, t, r, 0, true, false, blank, false, true);
      case DoConsume(r, notes) => ConsumeEvents(db, r, notes);
      case DoConsumeSteers(r, notes) => ConsumeSteersEvents(db, r, notes);
      case DoSteer(u, amendment, interrupt, blank, bad, human, now) =>
        SteerEvents(db, u, amendment, interrupt, blank, bad, human, now, t);
      case _ =>
    }
  }

  lemma {:induction false} SendBackEvents(db: Db, r: nat, blank: bool, now: int, t: nat)
    requires Good(db) && t < |db.tickets| && db.tickets[t].active.Some?
    requires db.tickets[t].active.value < |db.runs| && db.runs[db.tickets[t].active.value].phase == Merging
    ensures SendBack(db, r, blank, now).Ok? ==> NoneFor(db, SendBack(db, r, blank, now).db.events, t)
  {
    hide RunsOk, ReleaseParked, SteerTicket;
    WritersRefuse(db, t, r, now, true, false, blank, false, true);
    if r < |db.runs| { ReleaseParkedEvents(db, db.runs[r].ticket, OperatorNote, false, true, true, None, now); }
  }

  // A steer on one ticket leaves its instruction, if any, on that ticket.
  lemma {:induction false} SteerEvents(
      db: Db, u: nat, amendment: bool, interrupt: bool, blank: bool, bad: bool, human: bool, now: int, t: nat)
    requires Good(db) && t < |db.tickets| && db.tickets[t].active.Some?
    requires db.tickets[t].active.value < |db.runs| && db.runs[db.tickets[t].active.value].phase == Merging
    ensures var q := SteerTicket(db, u, amendment, interrupt, blank, bad, human, now);
            q.Ok? ==> NoneFor(db, q.db.events, t)
  {
    hide RunsOk, SendBack;
    if u == t {
      WritersRefuse(db, t, |db.runs|, now, amendment, interrupt, blank, bad, human);
    } else if u < |db.tickets| {
      assert LeaseOk(db.tickets[u], u, db.runs);
      if db.tickets[u].last.Some? { SendBackEvents(db, db.tickets[u].last.value, false, now, t); }
    }
  }

  // ----------------------------------------------- writers of a pull request

  // Two operations write a run's pull request and look at no instruction:
  // `set_pull_request`, and a park.  Written on a ticket whose leased run is
  // merging, it can join to that run's pull request an instruction that the run
  // has passed the last point of reading.

  // Writing `url` on run `r` joins event `e`, an unconsumed instruction of
  // another run, to the pull request of the merging run `m`.
  predicate Joins(db: Db, m: nat, r: nat, url: string, e: nat)
    requires m < |db.runs|
  {
    && e < |db.events| && db.events[e].Note? && db.events[e].run < m && !IsConsumed(db.events, e)
    && db.runs[db.events[e].run].ticket == db.runs[m].ticket
    && (if r == m then db.runs[db.events[e].run].prUrl == Some(url)
        else r == db.events[e].run && Lineage(db.runs[m], db.runs[m].merging) == Some(url))
  }

  // Writing `url` on run `r` joins some instruction to a merging run.
  predicate JoinsAny(db: Db, r: nat, url: string)
    requires r < |db.runs|
  {
    MergesNow(db, db.runs[r].ticket)
    && exists e :: 0 <= e < |db.events| && Joins(db, db.tickets[db.runs[r].ticket].active.value, r, url, e)
  }

  // Whether a park of run `r` in `phase` is accepted.
  predicate Parks(db: Db, r: nat, phase: Phase) {
    && phase in PARKED_PHASES && r < |db.runs| && db.runs[r].endedAt.None?
    && (phase == db.runs[r].phase || phase in NextPhases(db.runs[r].phase))
  }

  // A step that strands an instruction: it writes a pull request that joins
  // one.  A run that holds the lease gives it back by parking, and so is not
  // merging any more.
  predicate Strands(db: Db, step: Step) {
    match step
    case DoSetPullRequest(r, url, _) => r < |db.runs| && JoinsAny(db, r, url)
    case DoPark(r, phase, _, prUrl, _) =>
      prUrl.Some? && Parks(db, r, phase) && !Leased(db, r) && JoinsAny(db, r, prUrl.value)
    case _ => false
  }

  // ----------------------------------------------------------- set_pull_request

  // On a ticket whose leased run is merging, what is pending for that run after
  // the write is what the write joined.
  lemma {:induction false} PendingIsJoined(db: Db, r: nat, url: string, candidate: Option<string>, e: nat)
    requires Good(db) && MergingOk(db) && r < |db.runs| && MergesNow(db, db.runs[r].ticket) && e < |db.events|
    ensures var m := db.tickets[db.runs[r].ticket].active.value;
            PendingNote(SetPullRequest(db, r, url, candidate).db, m, db.runs[m].merging, e) <==> Joins(db, m, r, url, e)
  {
    hide RunsOk, Attempts, IsConsumed;
    var t := db.runs[r].ticket;
    var m := db.tickets[t].active.value;
    assert LeaseOk(db.tickets[t], t, db.runs);
    assert NonePending(db, m, db.runs[m].merging);
    assert !PendingNote(db, m, db.runs[m].merging, e);
    assert db.events[e].run < |db.runs|;
  }

  // A merging run of another ticket has what it had pending.
  lemma {:induction false} OtherTicketKeeps(db: Db, r: nat, url: string, candidate: Option<string>, t: nat)
    requires Good(db) && MergingOk(db) && r < |db.runs| && t != db.runs[r].ticket
    requires MergesNow(SetPullRequest(db, r, url, candidate).db, t)
    ensures var d := SetPullRequest(db, r, url, candidate).db;
            NonePending(d, d.tickets[t].active.value, d.runs[d.tickets[t].active.value].merging)
  {
    hide RunsOk, Attempts, IsConsumed;
    var d := SetPullRequest(db, r, url, candidate).db;
    var m := db.tickets[t].active.value;
    assert LeaseOk(db.tickets[t], t, db.runs);
    assert MergesNow(db, t) && NonePending(db, m, db.runs[m].merging);
    forall e | 0 <= e < |d.events| ensures !PendingNote(d, m, d.runs[m].merging, e) {
      assert !PendingNote(db, m, db.runs[m].merging, e);
      assert db.events[e].run < |db.runs|;
    }
  }

  // `set_pull_request` strands an instruction exactly when it joins one.
  lemma {:induction false} PullRequestStrands(db: Db, r: nat, url: string, candidate: Option<string>)
    requires Good(db) && MergingOk(db) && r < |db.runs|
    ensures MergingOk(SetPullRequest(db, r, url, candidate).db) <==> !JoinsAny(db, r, url)
  {
    hide Good, PendingNote, Joins;
    var d := SetPullRequest(db, r, url, candidate).db;
    var t := db.runs[r].ticket;
    SameMerges(db, r, url, candidate);
    if MergesNow(db, t) {
      var m := db.tickets[t].active.value;
      forall e | 0 <= e < |db.events|
        ensures PendingNote(d, m, db.runs[m].merging, e) <==> Joins(db, m, r, url, e)
      {
        PendingIsJoined(db, r, url, candidate, e);
      }
    }
    forall u: nat | u != t && MergesNow(d, u)
      ensures NonePending(d, d.tickets[u].active.value, d.runs[d.tickets[u].active.value].merging)
    {
      OtherTicketKeeps(db, r, url, candidate, u);
    }
  }

  lemma {:induction false} SameMerges(db: Db, r: nat, url: string, candidate: Option<string>)
    requires r < |db.runs|
    ensures var d := SetPullRequest(db, r, url, candidate).db;
            && d.events == db.events && d.tickets == db.tickets && |d.runs| == |db.runs|
            && (forall t: nat :: MergesNow(d, t) <==> MergesNow(db, t))
            && (forall i :: 0 <= i < |db.runs| ==> d.runs[i].merging == db.runs[i].merging)
  {
  }

  // ---------------------------------------------------------------------- park

  lemma {:induction false} ParkIsAccepted(db: Db, r: nat, phase: Phase, kind: ParkKind, prUrl: Option<string>, candidate: Option<string>)
    ensures Park(db, r, phase, kind, prUrl, candidate).Ok? <==> Parks(db, r, phase)
  {
    hide DropLease;
  }

  // A park that writes a pull request is the park without it, then the write.
  lemma {:induction false} ParkThenWrite(db: Db, r: nat, phase: Phase, kind: ParkKind, url: string, candidate: Option<string>)
    requires Parks(db, r, phase)
    ensures var q := Park(db, r, phase, kind, None, candidate);
            && q.Ok? && r < |q.db.runs|
            && Park(db, r, phase, kind, Some(url), candidate).Ok?
            && Park(db, r, phase, kind, Some(url), candidate).db.runs == SetPullRequest(q.db, r, url, None).db.runs
            && Park(db, r, phase, kind, Some(url), candidate) == SetPullRequest(q.db, r, url, None)
  {
    hide DropLease;
    var q := Park(db, r, phase, kind, None, candidate).db;
    var p := Park(db, r, phase, kind, Some(url), candidate).db;
    assert p.runs == q.runs[r := q.runs[r].(prUrl := Some(url))];
  }

  // Parking a run without the lease changes no other run and no pull request.
  lemma {:induction false} ParkJoinsTheSame(db: Db, r: nat, phase: Phase, kind: ParkKind, url: string, candidate: Option<string>)
    requires Good(db) && Parks(db, r, phase) && !Leased(db, r)
    ensures var q := Park(db, r, phase, kind, None, candidate);
            q.Ok? && r < |q.db.runs| && (JoinsAny(q.db, r, url) <==> JoinsAny(db, r, url))
  {
    hide RunsOk, EventsOk, IsConsumed;
    var q := Park(db, r, phase, kind, None, candidate).db;
    var t := db.runs[r].ticket;
    assert t < |db.tickets| by { GoodRun(db, r); }
    assert q.tickets == db.tickets && q.events == db.events;
    if MergesNow(db, t) {
      var m := db.tickets[t].active.value;
      assert m != r && q.runs[m] == db.runs[m];
      forall e | 0 <= e < |db.events| ensures Joins(q, m, r, url, e) <==> Joins(db, m, r, url, e) {
        NoteRun(db, e);
      }
    }
  }

  lemma {:induction false} NoteRun(db: Db, e: nat)
    requires Good(db) && e < |db.events|
    ensures db.events[e].run < |db.runs|
  {
  }

  // A park strands an instruction exactly when it is accepted on a run without
  // the lease and the pull request it writes joins one.
  lemma {:induction false} ParkStrands(
      db: Db, r: nat, phase: Phase, kind: ParkKind, prUrl: Option<string>, candidate: Option<string>)
    requires Good(db) && MergingOk(db)
    ensures var step := DoPark(r, phase, kind, prUrl, candidate);
            MergingOk(Apply(db, step)) <==> !Strands(db, step)
  {
    hide Good, Moves, MergingOk, Park, JoinsAny, Parks;
    ParkIsAccepted(db, r, phase, kind, prUrl, candidate);
    if Parks(db, r, phase) {
      var p := Park(db, r, phase, kind, prUrl, candidate);
      ParkOf(db, r, phase);
      if prUrl.None? || Leased(db, r) {
        ParkMoves(db, r, phase, kind, prUrl, candidate);
        MergingCarries(db, p.db, None);
      } else {
        var q := Park(db, r, phase, kind, None, candidate);
        ParkMoves(db, r, phase, kind, None, candidate);
        ParkThenWrite(db, r, phase, kind, prUrl.value, candidate);
        MergingCarries(db, q.db, None);
        MovesGood(db, q.db, None);
        PullRequestStrands(q.db, r, prUrl.value, None);
        ParkJoinsTheSame(db, r, phase, kind, prUrl.value, candidate);
      }
    }
  }

  lemma {:induction false} ParkOf(db: Db, r: nat, phase: Phase)
    requires Parks(db, r, phase)
    ensures r < |db.runs|
  {
  }

  // ------------------------------------------------------------- any history

  // From a store with none stranded, a step strands an instruction exactly when
  // it writes a pull request that joins one.
  lemma {:induction false} StepStrandsExactly(db: Db, step: Step)
    requires Good(db) && MergingOk(db)
    ensures MergingOk(Apply(db, step)) <==> !Strands(db, step)
  {
    hide Good, MergingOk, Apply, JoinsAny, Parks, SetPullRequest;
    match step
    case DoPark(r, phase, kind, prUrl, candidate) => ParkStrands(db, r, phase, kind, prUrl, candidate);
    case DoSetPullRequest(r, url, candidate) =>
      PullRequestIs(db, r, url, candidate);
      if r < |db.runs| { PullRequestStrands(db, r, url, candidate); }
    case _ => StepKeeps(db, step);
  }

  lemma {:induction false} PullRequestIs(db: Db, r: nat, url: string, candidate: Option<string>)
    ensures SetPullRequest(db, r, url, candidate).Ok?
    ensures Apply(db, DoSetPullRequest(r, url, candidate)) == SetPullRequest(db, r, url, candidate).db
    ensures r >= |db.runs| ==> SetPullRequest(db, r, url, candidate).db == db
  {
  }

  ghost predicate NeverStrands(db: Db, steps: seq<Step>)
    decreases |steps|
  {
    steps != [] ==> !Strands(db, steps[0]) && NeverStrands(Apply(db, steps[0]), steps[1..])
  }

  // No instruction is stranded in the store or in any the history goes through.
  ghost predicate NeverStranded(db: Db, steps: seq<Step>)
    decreases |steps|
  {
    MergingOk(db) && (steps != [] ==> NeverStranded(Apply(db, steps[0]), steps[1..]))
  }

  // Along a whole history no instruction is ever stranded exactly when no step
  // of it writes a pull request that joins one.
  lemma {:induction false} HistoryStrandsExactly(db: Db, steps: seq<Step>)
    requires Good(db) && MergingOk(db)
    ensures NeverStranded(db, steps) <==> NeverStrands(db, steps)
    decreases |steps|
  {
    hide Good, MergingOk, Apply, Strands;
    if steps != [] {
      var next := Apply(db, steps[0]);
      StepStrandsExactly(db, steps[0]);
      StepKeeps(db, steps[0]);
      LastsGood(db, next, Resumed(steps[0]));
      if MergingOk(next) { HistoryStrandsExactly(next, steps[1..]); } else { NotOk(next, steps[1..]); }
    }
  }

  lemma {:induction false} NotOk(db: Db, steps: seq<Step>)
    requires !MergingOk(db)
    ensures !NeverStranded(db, steps)
  {
  }

  lemma {:induction false} EndsOk(db: Db, steps: seq<Step>)
    requires NeverStranded(db, steps)
    ensures MergingOk(RunSteps(db, steps))
    decreases |steps|
  {
    hide MergingOk, Apply;
    if steps != [] { EndsOk(Apply(db, steps[0]), steps[1..]); }
  }

  // No accepted instruction is stranded: in every store reached without such a
  // write, a leased run that begin_merge let into merging has none pending in
  // its pull-request lineage.
  lemma {:induction false} NoInstructionStranded(steps: seq<Step>, t: nat)
    requires NeverStrands(EMPTY, steps)
    ensures var db := RunSteps(EMPTY, steps);
            MergesNow(db, t) ==>
              NonePending(db, db.tickets[t].active.value, db.runs[db.tickets[t].active.value].merging)
  {
    hide Apply, RunSteps;
    assert Good(EMPTY) && MergingOk(EMPTY);
    HistoryStrandsExactly(EMPTY, steps);
    EndsOk(EMPTY, steps);
  }
}

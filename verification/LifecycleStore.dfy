// The store as its operations change it, row by row.  Each is one transaction:
// what it refuses it rolls back.

module LifecycleStore {
  import Path = StatusPath
  import opened Lifecycle

  // An operation that ended as `r` says of the store before it.
  predicate Did(was: Db, now: Db, why: Option<Why>, r: Result) {
    match r
    case Ok(d) => why == None && now == d
    case Refused(w) => why == Some(w) && now == was
  }

  lemma ParkAfterPhase(db: Db, r: nat, phase: Phase, kind: ParkKind, prUrl: Option<string>, candidate: Option<string>)
    ensures var p := Park(db, r, phase, kind, prUrl, candidate);
            if phase !in PARKED_PHASES then p == Refused(NotParkedPhase)
            else
              match SetPhase(db, r, phase)
              case Refused(why) => p == Refused(why)
              case Ok(d) =>
                && r < |d.runs|
                && var run := d.runs[r].(parkKind := Some(kind));
                   var run1 := if candidate.Some? then run.(candidate := candidate) else run;
                   var run2 := if prUrl.Some? then run1.(prUrl := prUrl) else run1;
                   p == Ok(d.(runs := d.runs[r := run2], tickets := DropLease(d.tickets, run2.ticket, r)))
  {
    hide DropLease;
  }

  // What a release of a parked ticket's run does once admitted.
  lemma ReleaseAfterRecord(db: Db, t: nat, action: Action, human: bool, requirePr: bool, only: Option<nat>, now: int)
    requires t < |db.tickets| && db.tickets[t].active.None? && db.tickets[t].status == Status.BlockedOnOperator
    requires only.Some? ==> db.tickets[t].last == only
    requires LastRun(db, t).Some? && LastRun(db, t).value.phase == AwaitingMergeApproval
    requires requirePr ==> LastRun(db, t).value.prUrl.Some?
    ensures var r := db.tickets[t].last.value;
            var q := ReleaseParked(db, t, action, false, human, requirePr, only, now);
            var d1 := db.(interventions := db.interventions + [Intervention(Some(r), action, human, false)]);
            var d2 := if action == OperatorNote then d1.(events := d1.events + [Note(r)]) else d1;
            match Release(d2, r, Outcome.Abandoned, None, None, now)
            case Refused(why) => q == Refused(why)
            case Ok(d3) =>
              && r < |d3.runs|
              && q == Walk(d3.(runs := d3.runs[r := d3.runs[r].(resumePhase := Some(MergeGate),
                                 approvedAt := if action == Approve then Some(now) else None)]), t, Ready)
  {
    hide Walk;
  }

  lemma RefusesUnparked(
      db: Db, t: nat, action: Action, blank: bool, human: bool, requirePr: bool, only: Option<nat>, now: int)
    ensures var q := ReleaseParked(db, t, action, blank, human, requirePr, only, now);
            if t >= |db.tickets| then q == Refused(NoTicket)
            else if db.tickets[t].active.Some? || db.tickets[t].status != Status.BlockedOnOperator
                    || (only.Some? && db.tickets[t].last != only) || LastRun(db, t).None?
                    || LastRun(db, t).value.phase != AwaitingMergeApproval
                    || (requirePr && LastRun(db, t).value.prUrl.None?)
            then q == Refused(ApproveRefused)
            else blank ==> q == Refused(BlankNote)
  {
    hide Walk, Release;
  }

  class Store {
    var held: set<nat>
    var tickets: seq<Ticket>
    var runs: seq<Run>
    var interventions: seq<Intervention>
    var events: seq<Event>
    var steers: seq<SteerNote>

    constructor ()
      ensures Rows() == EMPTY
    {
      held, tickets, runs, interventions, events, steers := {}, [], [], [], [], [];
    }

    function Rows(): Db
      reads this
    {
      Db(held, tickets, runs, interventions, events, steers)
    }

    method Rollback(was: Db)
      modifies this
      ensures Rows() == was
    {
      held, tickets, runs := was.held, was.tickets, was.runs;
      interventions, events, steers := was.interventions, was.events, was.steers;
    }

    // ------------------------------------------------------------------ runs

    method Prior(t: nat) returns (n: nat)
      ensures n == Attempts(runs, t)
    {
      n := 0;
      for i := 0 to |runs|
        invariant n == Attempts(runs[..i], t)
      {
        assert runs[..i + 1][..i] == runs[..i];
        if runs[i].ticket == t { n := n + 1; }
      }
      assert runs[..|runs|] == runs;
    }

    method ClaimTicket(p: nat, t: nat, expected: Option<nat>, atCap: bool) returns (why: Option<Why>)
      modifies this
      ensures Did(old(Rows()), Rows(), why, Claim(old(Rows()), p, t, expected, atCap))
    {
      if p in held { return None; }
      if t >= |tickets| { return Some(NoTicket); }
      var k := tickets[t];
      if k.active.Some? { return Some(LeaseHeld); }
      if expected.Some? {
        if k.revision != expected.value { return Some(RevisionMoved); }
        if k.column != "ready" || k.status != Ready || k.gone { return Some(NotReady); }
      }
      if atCap { return Some(AtCap); }
      if k.project != p { return Some(NotOfProject); }
      var prior := Prior(t);
      var run := Run(t, p, prior + 1, Claimed, None, None, None, None, None, None, None, None, None);
      tickets := tickets[t := k.(active := Some(|runs|))];
      runs := runs + [run];
      return None;
    }

    method SetRunPhase(r: nat, phase: Phase) returns (why: Option<Why>)
      modifies this
      ensures Did(old(Rows()), Rows(), why, SetPhase(old(Rows()), r, phase))
      ensures |runs| == |old(runs)| && (why.None? ==> r < |runs|)
    {
      if r >= |runs| { return Some(NoRun); }
      var run := runs[r];
      if run.endedAt.Some? { return Some(RunEnded); }
      if phase != run.phase {
        if phase !in NextPhases(run.phase) { return Some(IllegalPhase); }
        run := run.(merging := None);
      }
      runs := runs[r := run.(phase := phase)];
      return None;
    }

    method GiveLeaseBack(t: nat, r: nat)
      modifies this`tickets
      ensures tickets == DropLease(old(tickets), t, r)
    {
      if t < |tickets| && tickets[t].active == Some(r) {
        tickets := tickets[t := tickets[t].(active := None, last := Some(r))];
      }
    }

    method ParkRun(r: nat, phase: Phase, kind: ParkKind, prUrl: Option<string>, candidate: Option<string>)
      returns (why: Option<Why>)
      modifies this
      ensures Did(old(Rows()), Rows(), why, Park(old(Rows()), r, phase, kind, prUrl, candidate))
    {
      hide SetPhase, DropLease, Park;
      ParkAfterPhase(Rows(), r, phase, kind, prUrl, candidate);
      if phase !in PARKED_PHASES { return Some(NotParkedPhase); }
      why := SetRunPhase(r, phase);
      if why.Some? { return; }
      var run := runs[r].(parkKind := Some(kind));
      if candidate.Some? { run := run.(candidate := candidate); }
      if prUrl.Some? { run := run.(prUrl := prUrl); }
      runs := runs[r := run];
      GiveLeaseBack(run.ticket, r);
    }

    method ReleaseRun(r: nat, outcome: Outcome, asked: Option<Phase>, candidate: Option<string>, now: int)
      returns (why: Option<Why>)
      modifies this
      ensures Did(old(Rows()), Rows(), why, Release(old(Rows()), r, outcome, asked, candidate, now))
      ensures |runs| == |old(runs)|
    {
      hide SetPhase, DropLease;
      if r >= |runs| { return Some(NoRun); }
      var stopped := runs[r].phase;
      if runs[r].endedAt.Some? && Terminal(stopped) { return None; }
      why := SetRunPhase(r, TerminalPhase(outcome));
      if why.Some? { return; }
      var resume := None;
      if outcome == Outcome.Paused {
        resume := asked;
      } else if TerminalPhase(outcome) == Phase.Failed && stopped in WORK_PHASES {
        resume := Some(stopped);
      }
      var run := runs[r].(endedAt := Some(now), outcome := Some(outcome), resumePhase := resume);
      if candidate.Some? { run := run.(candidate := candidate); }
      runs := runs[r := run];
      GiveLeaseBack(run.ticket, r);
    }

    method Resume(r: nat, guided: bool, blank: bool, human: bool) returns (why: Option<Why>)
      modifies this
      ensures Did(old(Rows()), Rows(), why, ResumeRun(old(Rows()), r, guided, blank, human))
    {
      if guided && blank { return Some(BlankNote); }
      if r >= |runs| { return Some(NoRun); }
      var run := runs[r];
      var phase := run.phase;
      if guided && phase != Phase.BlockedOnOperator { return Some(GuidanceNotAccepted); }
      if phase !in RESUMABLE_PHASES { return Some(ResumeRefused); }
      var target := phase;
      if phase in {Phase.Failed, Phase.Paused} && run.resumePhase.Some? {
        target := run.resumePhase.value;
      } else if phase in {Phase.Failed, Phase.BlockedOnOperator} {
        target := Working;
      }
      run := run.(phase := target, resumePhase := None, parkKind := None, stop := None);
      if target != phase { run := run.(merging := None); }
      if Terminal(phase) { run := run.(endedAt := None, outcome := None); }
      runs := runs[r := run];
      interventions := interventions + [Intervention(Some(r), Action.Resume, human, false)];
      return None;
    }

    method RecordIntervention(r: nat, action: Action, blank: bool, human: bool, cancels: bool) returns (why: Option<Why>)
      modifies this
      ensures Did(old(Rows()), Rows(), why, Record(old(Rows()), r, action, blank, human, cancels))
      ensures runs == old(runs) && (why.None? ==> r < |runs|)
    {
      if blank { return Some(BlankNote); }
      if r >= |runs| { return Some(NoRun); }
      interventions := interventions + [Intervention(Some(r), action, human, cancels)];
      return None;
    }

    method PauseAt(r: nat, blank: bool, human: bool) returns (why: Option<Why>)
      modifies this
      ensures Did(old(Rows()), Rows(), why, PauseRun(old(Rows()), r, blank, human))
    {
      if r >= |runs| { return Some(NoRun); }
      if runs[r].endedAt.Some? { return Some(RunEnded); }
      if runs[r].stop.Some? { return None; }
      var request := |interventions|;
      why := RecordIntervention(r, Pause, blank, human, false);
      if why.None? { runs := runs[r := runs[r].(stop := Some(request))]; }
    }

    method AbortAt(r: nat, close: bool, cancels: bool, blank: bool, human: bool) returns (why: Option<Why>)
      modifies this
      ensures Did(old(Rows()), Rows(), why, AbortRun(old(Rows()), r, close, cancels, blank, human))
    {
      if r >= |runs| { return Some(NoRun); }
      if runs[r].endedAt.Some? { return Some(RunEnded); }
      if Phase.Failed !in NextPhases(runs[r].phase) { return Some(IllegalPhase); }
      var wanted, canceling, anew := if close then AbortClose else Abort, cancels, cancels;
      if runs[r].stop.Some? && runs[r].stop.value < |interventions| {
        var pending := interventions[runs[r].stop.value];
        if pending.action == AbortClose { wanted := AbortClose; }
        if pending.cancels { canceling, anew := true, false; }
        if (pending.action == wanted || pending.action == AbortClose) && !anew { return None; }
      }
      var request := |interventions|;
      why := RecordIntervention(r, wanted, blank, human, canceling);
      if why.None? { runs := runs[r := runs[r].(stop := Some(request))]; }
    }

    method RepointAt(t: nat, fullSha: bool, sha: string, blank: bool) returns (why: Option<Why>)
      modifies this
      ensures Did(old(Rows()), Rows(), why, RepointRun(old(Rows()), t, fullSha, sha, blank))
    {
      if !fullSha { return Some(RepointRefused); }
      if t >= |tickets| { return Some(NoTicket); }
      var k := tickets[t];
      if k.active.Some? || k.last.None? || k.last.value >= |runs| { return Some(RepointRefused); }
      var r := k.last.value;
      if runs[r].resumePhase.Some? || runs[r].phase != AwaitingMergeApproval { return Some(RepointRefused); }
      why := RecordIntervention(r, Repoint, blank, true, false);
      if why.None? { runs := runs[r := runs[r].(candidate := Some(sha))]; }
    }

    // --------------------------------------------------------------- tickets

    method TransitionTo(t: nat, to: Status) returns (why: Option<Why>)
      modifies this
      ensures Did(old(Rows()), Rows(), why, Transition(old(Rows()), t, to))
    {
      if t >= |tickets| { return Some(NoTicket); }
      var from := tickets[t].status;
      if to !in NextStatuses(from) { return Some(IllegalTransition); }
      tickets := tickets[t := tickets[t].(status := to)];
      if from == Status.BlockedOnOperator { ForgetParkKinds(t); }
      return None;
    }

    method ForgetParkKinds(t: nat)
      modifies this`runs
      ensures runs == ClearParkKinds(old(runs), t)
    {
      for i := 0 to |runs|
        invariant |runs| == |old(runs)|
        invariant runs[..i] == ClearParkKinds(old(runs)[..i], t)
        invariant runs[i..] == old(runs)[i..]
      {
        assert runs[i] == runs[i..][0] == old(runs)[i];
        assert old(runs)[..i + 1][..i] == old(runs)[..i];
        if runs[i].ticket == t { runs := runs[i := runs[i].(parkKind := None)]; }
      }
      assert old(runs)[..|runs|] == old(runs) && runs[..|runs|] == runs;
    }

    method WalkTo(t: nat, to: Status) returns (why: Option<Why>)
      modifies this
      ensures Did(old(Rows()), Rows(), why, Walk(old(Rows()), t, to))
    {
      if t >= |tickets| { return Some(NoTicket); }
      if tickets[t].status == to { return None; }
      var was := Rows();
      var found := Path.StatusPathOf(STATUSES, tickets[t].status, to);
      if found.None? { return Some(IllegalTransition); }
      var path := found.value;
      for i := 0 to |path|
        invariant TransitionAll(was, t, path) == TransitionAll(Rows(), t, path[i..])
      {
        assert path[i..][0] == path[i] && path[i..][1..] == path[i + 1..];
        why := TransitionTo(t, path[i]);
        if why.Some? {
          Rollback(was);
          return;
        }
      }
      return None;
    }

    // ---------------------------------------------------- requeue and release

    method CountRelaunches(t: nat) returns (n: nat)
      ensures n == Relaunches(Rows(), t, |interventions|)
    {
      n := 0;
      var i := |interventions|;
      while i > 0
        invariant 0 <= i <= |interventions|
        invariant n + Relaunches(Rows(), t, i) == Relaunches(Rows(), t, |interventions|)
      {
        i := i - 1;
        var act := interventions[i];
        if act.run.Some? && act.run.value < |runs| && runs[act.run.value].ticket == t {
          if act.human && act.action != Requeue { return; }
          if act.action == Requeue
             && runs[act.run.value].outcome in {Some(Outcome.Failed), Some(Outcome.Rejected)} { n := n + 1; }
        }
      }
    }

    method RequeueTo(t: nat, blank: bool, human: bool, force: bool, now: int) returns (why: Option<Why>)
      modifies this
      ensures Did(old(Rows()), Rows(), why, RequeueTicket(old(Rows()), t, blank, human, force, now))
    {
      hide Release, Walk, Relaunches, Admits, Aborted;
      if t >= |tickets| { return Some(NoTicket); }
      var k := tickets[t];
      if k.board in {"Backlog", "Canceled", "Done"} { return Some(BoardClosed); }
      if k.active.Some? { return Some(LeaseHeld); }
      if k.last.None? || k.last.value >= |runs| { return Some(RequeueRefused); }
      var r := k.last.value;
      var admitted := Admits(k.status, Some(runs[r]), Aborted(Rows(), r));
      if admitted.None? { return Some(RequeueRefused); }
      var relaunches := CountRelaunches(t);
      if relaunches >= RELAUNCH_LIMIT && !force { return Some(TooManyRelaunches); }
      var was := Rows();
      why := RecordIntervention(r, Requeue, blank, human, false);
      if why.Some? { return; }
      if admitted.value {
        why := ReleaseRun(r, Outcome.Abandoned, None, None, now);
        if why.Some? {
          Rollback(was);
          return;
        }
      }
      runs := runs[r := runs[r].(approvedAt := None)];
      why := WalkTo(t, Ready);
      if why.Some? { Rollback(was); }
    }

    method ReleaseParkedRun(
      t: nat, action: Action, blank: bool, human: bool, requirePr: bool, only: Option<nat>, now: int)
      returns (why: Option<Why>)
      modifies this
      ensures Did(old(Rows()), Rows(), why,
                  ReleaseParked(old(Rows()), t, action, blank, human, requirePr, only, now))
    {
      hide Release, Walk, Record, ReleaseParked;
      if t >= |tickets| || tickets[t].active.Some? || tickets[t].status != Status.BlockedOnOperator {
        RefusesUnparked(Rows(), t, action, blank, human, requirePr, only, now);
        return Some(if t >= |tickets| then NoTicket else ApproveRefused);
      }
      var last := tickets[t].last;
      if (only.Some? && last != only) || last.None? || last.value >= |runs|
         || runs[last.value].phase != AwaitingMergeApproval || (requirePr && runs[last.value].prUrl.None?) {
        RefusesUnparked(Rows(), t, action, blank, human, requirePr, only, now);
        return Some(ApproveRefused);
      }
      var r := last.value;
      if blank {
        RefusesUnparked(Rows(), t, action, blank, human, requirePr, only, now);
        return Some(BlankNote);
      }
      ReleaseAfterRecord(Rows(), t, action, human, requirePr, only, now);
      var was := Rows();
      interventions := interventions + [Intervention(Some(r), action, human, false)];
      if action == OperatorNote { events := events + [Note(r)]; }
      why := ReleaseRun(r, Outcome.Abandoned, None, None, now);
      if why.Some? {
        Rollback(was);
        return;
      }
      runs := runs[r := runs[r].(resumePhase := Some(MergeGate),
                                 approvedAt := if action == Approve then Some(now) else None)];
      why := WalkTo(t, Ready);
      if why.Some? { Rollback(was); }
    }

    // ---------------------------------------------------------- instructions

    method SendBackTo(r: nat, blank: bool, now: int) returns (why: Option<Why>)
      modifies this
      ensures Did(old(Rows()), Rows(), why, SendBack(old(Rows()), r, blank, now))
    {
      hide ReleaseParked;
      if blank { return Some(BlankNote); }
      if !Latest(Rows(), r) { return Some(NotNotable); }
      why := ReleaseParkedRun(runs[r].ticket, OperatorNote, false, true, true, None, now);
    }

    method AddNoteTo(r: nat, blank: bool) returns (why: Option<Why>)
      modifies this
      ensures Did(old(Rows()), Rows(), why, AddNote(old(Rows()), r, blank))
    {
      if blank { return Some(BlankNote); }
      if !Latest(Rows(), r) || tickets[runs[r].ticket].active.Some? { return Some(NotNotable); }
      if runs[r].prUrl.None? || runs[r].resumePhase != Some(MergeGate) { return Some(NotNotable); }
      interventions := interventions + [Intervention(Some(r), OperatorNote, true, false)];
      events := events + [Note(r)];
      return None;
    }

    method NoteLiveTo(r: nat, blank: bool) returns (why: Option<Why>)
      modifies this
      ensures Did(old(Rows()), Rows(), why, NoteLive(old(Rows()), r, blank))
    {
      if blank { return Some(BlankNote); }
      if !Leased(Rows(), r) || runs[r].endedAt.Some? { return Some(NotNotable); }
      if runs[r].phase !in BABYSIT_PHASES || runs[r].prUrl.None? { return Some(NotNotable); }
      events := events + [Note(r)];
      return None;
    }

    // The instructions pending for a run, in the order they were given.
    method PendingNotes(r: nat, url: string) returns (pending: seq<nat>)
      requires r < |runs|
      ensures forall e :: 0 <= e < |events| ==> (e in pending <==> PendingNote(Rows(), r, Some(url), e))
      ensures forall i :: 0 <= i < |pending| ==> pending[i] < |events|
      ensures forall i, j :: 0 <= i < j < |pending| ==> pending[i] < pending[j]
    {
      pending := [];
      for e := 0 to |events|
        invariant forall i :: 0 <= i < |pending| ==> pending[i] < e
        invariant forall d :: 0 <= d < e ==> (d in pending <==> PendingNote(Rows(), r, Some(url), d))
        invariant forall i, j :: 0 <= i < j < |pending| ==> pending[i] < pending[j]
      {
        var consumed := false;
        for c := 0 to |events|
          invariant consumed <==> exists d :: 0 <= d < c && events[d].Consumed? && events[d].note == e
        {
          if events[c].Consumed? && events[c].note == e { consumed := true; }
        }
        assert consumed == IsConsumed(events, e);
        if events[e].Note? && events[e].run <= r && !consumed {
          var run := runs[events[e].run];
          var lineage := if runs[r].prUrl.Some? then runs[r].prUrl else Some(url);
          if run.ticket == runs[r].ticket
             && (events[e].run == r || (run.prUrl.Some? && run.prUrl == lineage)) {
            pending := pending + [e];
          }
        }
      }
    }

    method BeginMergeOf(r: nat, url: string) returns (why: Option<Why>, entered: bool)
      modifies this
      ensures Did(old(Rows()), Rows(), why, BeginMerge(old(Rows()), r, url))
      ensures entered <==> why.None? && NonePending(old(Rows()), r, Some(url))
    {
      if r >= |runs| { return Some(NoRun), false; }
      var pending := PendingNotes(r, url);
      if pending != [] {
        assert pending[0] in pending && PendingNote(Rows(), r, Some(url), pending[0]);
        return None, false;
      }
      why := SetRunPhase(r, Merging);
      if why.None? { runs := runs[r := runs[r].(merging := Some(url))]; }
      entered := why.None?;
    }

    method Consume(r: nat, notes: seq<nat>) returns (why: Option<Why>)
      modifies this
      ensures Did(old(Rows()), Rows(), why, ConsumeNotes(old(Rows()), r, notes))
    {
      var was := Rows();
      for i := 0 to |notes|
        invariant ConsumeNotes(was, r, notes) == ConsumeNotes(Rows(), r, notes[i..])
        invariant Rows() == was.(events := events)
      {
        assert notes[i..][0] == notes[i] && notes[i..][1..] == notes[i + 1..];
        if r >= |runs| {
          Rollback(was);
          return Some(NoRun);
        }
        events := events + [Consumed(r, notes[i])];
      }
      return None;
    }

    // ----------------------------------------------------------------- steers

    method AnyWaits(t: nat) returns (waits: bool)
      ensures waits <==> !NoneWaits(Rows(), t)
    {
      for i := 0 to |steers|
        invariant forall j :: 0 <= j < i ==> !Waits(steers[j], t)
      {
        if Waits(steers[i], t) { return true; }
      }
      return false;
    }

    method CloseSteering(r: nat) returns (why: Option<Why>, closed: bool)
      modifies this
      ensures Did(old(Rows()), Rows(), why, CloseSteers(old(Rows()), r))
      ensures closed <==> r < |old(runs)| && NoneWaits(old(Rows()), old(runs)[r].ticket)
    {
      if r >= |runs| { return Some(NoRun), false; }
      var waits := AnyWaits(runs[r].ticket);
      if waits { return None, false; }
      events := events + [SteerClosed(r)];
      return None, true;
    }

    method TakeSteers(r: nat, notes: seq<nat>)
      modifies this
      ensures Did(old(Rows()), Rows(), None, ConsumeSteers(old(Rows()), r, notes))
    {
      var was := Rows();
      for i := 0 to |notes|
        invariant ConsumeSteers(was, r, notes) == ConsumeSteers(Rows(), r, notes[i..])
      {
        assert notes[i..][0] == notes[i] && notes[i..][1..] == notes[i + 1..];
        var n := notes[i];
        if n < |steers| && steers[n].consumedBy.None? {
          steers := steers[n := steers[n].(consumedBy := Some(r))];
        }
      }
    }

    method WithdrawOn(t: nat, blank: bool) returns (why: Option<Why>)
      modifies this
      ensures Did(old(Rows()), Rows(), why, WithdrawSteers(old(Rows()), t, blank))
    {
      if blank { return Some(BlankNote); }
      if t >= |tickets| { return Some(NoTicket); }
      var k := tickets[t];
      if k.status in {Status.Merged, Status.Abandoned} || k.active.Some? { return Some(SteerRefused); }
      var was := steers;
      var count := MarkWithdrawn(t);
      if count == 0 {
        steers := was;
        return Some(SteerRefused);
      }
      interventions := interventions + [Intervention(k.last, Steer, true, false)];
      return None;
    }

    method MarkWithdrawn(t: nat) returns (count: nat)
      modifies this`steers
      ensures steers == WithdrawAll(old(steers), t)
      ensures count == 0 <==> !exists j :: 0 <= j < |old(steers)| && old(steers)[j].ticket == t
                                           && old(steers)[j].amendment && !old(steers)[j].withdrawn
    {
      var was := steers;
      count := 0;
      for i := 0 to |steers|
        invariant |steers| == |was|
        invariant steers[..i] == WithdrawAll(was[..i], t)
        invariant steers[i..] == was[i..]
        invariant count == 0 <==> forall j :: 0 <= j < i ==> !(was[j].ticket == t && was[j].amendment && !was[j].withdrawn)
      {
        assert steers[i] == steers[i..][0] == was[i];
        assert was[..i + 1][..i] == was[..i];
        if steers[i].ticket == t && steers[i].amendment && !steers[i].withdrawn {
          steers := steers[i := steers[i].(withdrawn := true)];
          count := count + 1;
        }
      }
      assert was[..|was|] == was && steers[..|was|] == steers;
    }

    method Insert(t: nat, r: Option<nat>, amendment: bool, event: Option<nat>)
      modifies this`steers
      ensures steers == old(steers) + [SteerNote(t, r, amendment, event, None, false)]
    {
      steers := steers + [SteerNote(t, r, amendment, event, None, false)];
    }

    method SteerOn(t: nat, amendment: bool, interrupt: bool, blank: bool, bad: bool, human: bool, now: int)
      returns (why: Option<Why>)
      modifies this
      ensures Did(old(Rows()), Rows(), why, SteerTicket(old(Rows()), t, amendment, interrupt, blank, bad, human, now))
    {
      hide SendBack, AddNote, SteerLive;
      if blank { return Some(BlankNote); }
      if t >= |tickets| { return Some(NoTicket); }
      var k := tickets[t];
      var last := if k.last.Some? && k.last.value < |runs| then Some(runs[k.last.value]) else None;
      var resume := if last.Some? then last.value.resumePhase else None;
      if k.active.Some? {
        why := SteerLiveOn(t, k.active.value, resume, amendment, bad);
        return;
      }
      if interrupt || k.status in {Status.Merged, Status.Abandoned} { return Some(SteerRefused); }
      var was := Rows();
      var written := false;
      if k.status == Status.BlockedOnOperator {
        if last.None? || last.value.phase != AwaitingMergeApproval || last.value.prUrl.None? {
          return Some(SteerRefused);
        }
        why := SendBackTo(k.last.value, false, now);
        written := true;
      } else if last.Some? && resume == Some(MergeGate) && last.value.prUrl.Some?
                && last.value.outcome != Some(Outcome.Paused) {
        why := AddNoteTo(k.last.value, false);
        written := true;
      }
      if written {
        if why.Some? { return; }
        if bad {
          Rollback(was);
          return Some(SteerRefused);
        }
        Insert(t, k.last, amendment, Some(|was.events|));
        return;
      }
      if resume.Some? && resume.value in GATE_PHASES { return Some(SteerRefused); }
      if last.Some? && last.value.outcome == Some(Outcome.Paused) && resume !in {None, Some(Working)} {
        return Some(SteerRefused);
      }
      if bad { return Some(SteerRefused); }
      interventions := interventions + [Intervention(k.last, Steer, human, false)];
      Insert(t, k.last, amendment, None);
      return None;
    }

    method SteerLiveOn(t: nat, r: nat, resume: Option<Phase>, amendment: bool, bad: bool) returns (why: Option<Why>)
      modifies this
      ensures Did(old(Rows()), Rows(), why, SteerLive(old(Rows()), t, r, resume, amendment, bad))
    {
      hide NoteLive;
      if r >= |runs| { return Some(NoRun); }
      var run := runs[r];
      var was := Rows();
      if run.phase in BABYSIT_PHASES && run.prUrl.Some? {
        interventions := interventions + [Intervention(Some(r), Steer, true, false)];
        why := NoteLiveTo(r, false);
        if why.Some? || bad {
          why := if why.Some? then why else Some(SteerRefused);
          Rollback(was);
          return;
        }
        Insert(t, Some(r), amendment, Some(|was.events|));
        return;
      }
      if run.phase !in LIVE_PHASES || run.prUrl.Some? || SteerClosed(r) in events { return Some(SteerRefused); }
      if run.phase == Claimed && resume.Some? && resume.value in GATE_PHASES { return Some(SteerRefused); }
      if bad { return Some(SteerRefused); }
      interventions := interventions + [Intervention(Some(r), Steer, true, false)];
      Insert(t, Some(r), amendment, None);
      return None;
    }
  }
}

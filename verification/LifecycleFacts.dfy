// Every operation of the store is a chain of the primitive edits of
// LifecycleMoves, so what those keep it keeps.  There is one lemma per operation,
// named after it: from a good store, whatever the operation answers is a move
// from there.  An operation that calls another chains the other's move with its
// own edits, and one that loops chains its steps.  Two operations are left to
// LifecycleRuns, as each is an exception to what a move keeps: entering merging,
// and closing a run's steering.

module LifecycleFacts {
  import Path = StatusPath
  import opened Lifecycle
  import opened LifecycleMoves

  ghost predicate Moved(a: Db, r: Result, x: Option<nat>) {
    r.Ok? ==> Moves(a, r.db, x)
  }

  // -------------------------------------------------------------------- runs

  lemma {:induction false} ClaimMoves(db: Db, p: nat, t: nat, expected: Option<nat>, atCap: bool)
    requires Good(db)
    ensures Moved(db, Claim(db, p, t, expected, atCap), None)
  {
    hide Good, Moves;
    Same(db, None);
    if t < |db.tickets| && db.tickets[t].active.None? { NewLease(db, p, t, None); }
  }

  lemma {:induction false} SetPhaseMoves(db: Db, r: nat, phase: Phase)
    requires Good(db)
    ensures Moved(db, SetPhase(db, r, phase), None)
  {
    hide Moves, LeasesOk, EventsOk;
    if r < |db.runs| && SetPhase(db, r, phase).Ok? {
      PutRun(db, r, SetPhase(db, r, phase).db.runs[r], None);
    }
  }

  // The end of a park or a release: the lease goes back, then the run's row.
  lemma {:induction false} DropAndPut(db: Db, r: nat, run: Run)
    requires Good(db) && r < |db.runs| && RunKept(db.runs[r], run) && RunOk(run) && Frozen(db.runs[r], run)
    requires run.merging == db.runs[r].merging
    requires run.prUrl == db.runs[r].prUrl || Leased(db, r) || !MergesNow(db, db.runs[r].ticket)
    ensures Moves(db, db.(runs := db.runs[r := run], tickets := DropLease(db.tickets, db.runs[r].ticket, r)), None)
  {
    hide Moves, Good, RunOk, RunKept, Frozen;
    var d := db.(tickets := DropLease(db.tickets, db.runs[r].ticket, r));
    Drop(db, r, None);
    MovesGood(db, d, None);
    PutRun(d, r, run, None);
    Chain(db, d, d.(runs := d.runs[r := run]), None);
  }

  lemma {:induction false} MovesGood(a: Db, b: Db, x: Option<nat>)
    requires Moves(a, b, x)
    ensures Good(b)
  {
  }

  lemma {:induction false} GoodRun(db: Db, r: nat)
    requires Good(db) && r < |db.runs|
    ensures RunOk(db.runs[r]) && db.runs[r].ticket < |db.tickets|
  {
  }

  predicate ParkCareful(db: Db, r: nat, prUrl: Option<string>) {
    r < |db.runs| && prUrl.Some? ==> Leased(db, r) || !MergesNow(db, db.runs[r].ticket)
  }

  lemma {:induction false} ParkMoves(db: Db, r: nat, phase: Phase, kind: ParkKind, prUrl: Option<string>, candidate: Option<string>)
    requires Good(db) && ParkCareful(db, r, prUrl)
    ensures Moved(db, Park(db, r, phase, kind, prUrl, candidate), None)
  {
    hide Good, Moves, SetPhase, DropLease;
    SetPhaseMoves(db, r, phase);
    if phase in PARKED_PHASES && SetPhase(db, r, phase).Ok? {
      var d := SetPhase(db, r, phase).db;
      MovesGood(db, d, None);
      SetPhaseIs(db, r, phase);
      GoodRun(db, r);
      GoodRun(d, r);
      var next := Park(db, r, phase, kind, prUrl, candidate).db;
      DropAndPut(d, r, next.runs[r]);
      Chain(db, d, next, None);
    }
  }

  lemma {:induction false} SetPhaseIs(db: Db, r: nat, phase: Phase)
    requires SetPhase(db, r, phase).Ok?
    ensures var d := SetPhase(db, r, phase).db;
            && r < |db.runs| && db.runs[r].endedAt.None?
            && d == db.(runs := db.runs[r := db.runs[r].(phase := phase, merging := d.runs[r].merging)])
            && (d.runs[r].merging.Some? ==> phase == db.runs[r].phase && d.runs[r].merging == db.runs[r].merging)
  {
  }

  lemma {:induction false} ReleaseMoves(db: Db, r: nat, outcome: Outcome, asked: Option<Phase>, candidate: Option<string>, now: int)
    requires Good(db)
    ensures Moved(db, Release(db, r, outcome, asked, candidate, now), None)
  {
    hide Good, Moves, SetPhase, DropLease;
    Same(db, None);
    var phase := TerminalPhase(outcome);
    SetPhaseMoves(db, r, phase);
    if r < |db.runs| && SetPhase(db, r, phase).Ok? {
      var d := SetPhase(db, r, phase).db;
      MovesGood(db, d, None);
      SetPhaseIs(db, r, phase);
      GoodRun(db, r);
      GoodRun(d, r);
      var next := d.runs[r].(endedAt := Some(now), outcome := Some(outcome),
                             resumePhase := ResumePoint(outcome, db.runs[r].phase, asked),
                             candidate := if candidate.Some? then candidate else d.runs[r].candidate);
      DropAndPut(d, r, next);
      Chain(db, d, d.(runs := d.runs[r := next], tickets := DropLease(d.tickets, d.runs[r].ticket, r)), None);
    }
  }

  lemma {:induction false} ResumeMoves(db: Db, r: nat, guided: bool, blank: bool, human: bool)
    requires Good(db)
    ensures Moved(db, ResumeRun(db, r, guided, blank, human), Some(r))
  {
    hide Moves, LeasesOk, EventsOk;
    if ResumeRun(db, r, guided, blank, human).Ok? {
      var next := ResumeRun(db, r, guided, blank, human).db;
      PutRun(db, r, next.runs[r], Some(r));
      var d := db.(runs := next.runs);
      MovesGood(db, d, Some(r));
      Intervene(d, Intervention(Some(r), Resume, human, false), Some(r));
      Chain(db, d, next, Some(r));
    }
  }

  lemma {:induction false} RecordMoves(db: Db, r: nat, action: Action, blank: bool, human: bool, cancels: bool)
    requires Good(db)
    ensures Moved(db, Record(db, r, action, blank, human, cancels), None)
  {
    hide Moves, Good;
    Intervene(db, Intervention(Some(r), action, human, cancels), None);
  }

  // An edit of a run's stop request, candidate, approval or park kind.
  predicate Marked(a: Run, b: Run) {
    b == a.(stop := b.stop, candidate := b.candidate, approvedAt := b.approvedAt, parkKind := b.parkKind)
  }

  lemma {:induction false} MarkMoves(a: Db, db: Db, r: nat, run: Run)
    requires Good(a) && Moves(a, db, None) && r < |db.runs| && Marked(db.runs[r], run)
    ensures Moves(a, db.(runs := db.runs[r := run]), None)
  {
    MovesGood(a, db, None);
    GoodRun(db, r);
    hide Moves, Good;
    PutRun(db, r, run, None);
    Chain(a, db, db.(runs := db.runs[r := run]), None);
  }

  lemma {:induction false} PauseMoves(db: Db, r: nat, blank: bool, human: bool)
    requires Good(db)
    ensures Moved(db, PauseRun(db, r, blank, human), None)
  {
    hide Moves, Good;
    Same(db, None);
    RecordMoves(db, r, Pause, blank, human, false);
    if r < |db.runs| && !blank {
      var d := Record(db, r, Pause, blank, human, false).db;
      MarkMoves(db, d, r, d.runs[r].(stop := Some(|db.interventions|)));
    }
  }

  lemma {:induction false} AbortMoves(db: Db, r: nat, close: bool, cancels: bool, blank: bool, human: bool)
    requires Good(db)
    ensures Moved(db, AbortRun(db, r, close, cancels, blank, human), None)
  {
    hide Moves, Good;
    Same(db, None);
    if r < |db.runs| && !blank {
      var pending := Pending(db, r);
      var closing := pending.Some? && pending.value.action == AbortClose;
      var wanted := if close || closing then AbortClose else Abort;
      var was := pending.Some? && pending.value.cancels;
      RecordMoves(db, r, wanted, blank, human, cancels || was);
      var d := Record(db, r, wanted, blank, human, cancels || was).db;
      MarkMoves(db, d, r, d.runs[r].(stop := Some(|db.interventions|)));
    }
  }

  lemma {:induction false} RepointMoves(db: Db, t: nat, fullSha: bool, sha: string, blank: bool)
    requires Good(db)
    ensures Moved(db, RepointRun(db, t, fullSha, sha, blank), None)
  {
    hide Moves, Good;
    if RepointRun(db, t, fullSha, sha, blank).Ok? {
      var r := db.tickets[t].last.value;
      RecordMoves(db, r, Repoint, blank, true, false);
      var d := Record(db, r, Repoint, blank, true, false).db;
      MarkMoves(db, d, r, d.runs[r].(candidate := Some(sha)));
    }
  }

  lemma {:induction false} QuestionMoves(db: Db, t: nat, kind: ParkKind)
    requires Good(db)
    ensures Moved(db, SetQuestion(db, t, kind), None)
  {
    hide Moves, Good;
    Same(db, None);
    if t < |db.tickets| {
      var r := if db.tickets[t].active.Some? then db.tickets[t].active else db.tickets[t].last;
      if r.Some? && r.value < |db.runs| { MarkMoves(db, db, r.value, db.runs[r.value].(parkKind := Some(kind))); }
    }
  }

  lemma {:induction false} PullRequestMoves(db: Db, r: nat, url: string, candidate: Option<string>)
    requires Good(db)
    requires r < |db.runs| ==> db.runs[r].prUrl == Some(url) || !MergesNow(db, db.runs[r].ticket)
    ensures Moved(db, SetPullRequest(db, r, url, candidate), None)
  {
    Same(db, None);
    if r < |db.runs| {
      GoodRun(db, r);
      hide Moves, Good;
      PutRun(db, r, SetPullRequest(db, r, url, candidate).db.runs[r], None);
    }
  }

  // ----------------------------------------------------------------- tickets

  lemma {:induction false} TransitionMoves(db: Db, t: nat, to: Status)
    requires Good(db)
    ensures Moved(db, Transition(db, t, to), None)
  {
    hide Moves, Good;
    if Transition(db, t, to).Ok? {
      var k := db.tickets[t].(status := to);
      PutTicket(db, t, k, None);
      var d := db.(tickets := db.tickets[t := k]);
      MovesGood(db, d, None);
      ClearKinds(d, t, None);
      if db.tickets[t].status == Status.BlockedOnOperator {
        Chain(db, d, d.(runs := ClearParkKinds(d.runs, t)), None);
      }
    }
  }

  lemma {:induction false} TransitionAllMoves(db: Db, t: nat, path: seq<Status>)
    requires Good(db)
    ensures Moved(db, TransitionAll(db, t, path), None)
    decreases |path|
  {
    hide Moves, Good, Transition;
    if path == [] {
      Same(db, None);
    } else if Transition(db, t, path[0]).Ok? {
      var d := Transition(db, t, path[0]).db;
      TransitionMoves(db, t, path[0]);
      MovesGood(db, d, None);
      TransitionAllMoves(d, t, path[1..]);
      if TransitionAll(db, t, path).Ok? { Chain(db, d, TransitionAll(db, t, path).db, None); }
    }
  }

  lemma {:induction false} WalkMoves(a: Db, db: Db, t: nat, to: Status)
    requires Good(a) && Moves(a, db, None)
    ensures Moved(a, Walk(db, t, to), None)
  {
    hide Moves, Good, TransitionAll;
    MovesGood(a, db, None);
    if t < |db.tickets| && db.tickets[t].status != to {
      var found := Path.Shortest(STATUSES, db.tickets[t].status, to);
      if found.Some? {
        TransitionAllMoves(db, t, found.value);
        if TransitionAll(db, t, found.value).Ok? { Chain(a, db, TransitionAll(db, t, found.value).db, None); }
      }
    }
  }

  lemma {:induction false} MirrorMoves(
      db: Db, t: nat, expected: Option<nat>, specced: bool, story: bool, column: Option<string>, board: string,
      revision: nat)
    requires Good(db)
    ensures Moved(db, Mirror(db, t, expected, specced, story, column, board, revision), None)
  {
    hide Moves, Good;
    Same(db, None);
    if t < |db.tickets| {
      var next := Mirror(db, t, expected, specced, story, column, board, revision).db;
      if next != db { PutTicket(db, t, next.tickets[t], None); }
    }
  }

  // ------------------------------------------------------ requeue and release

  lemma {:induction false} RequeueMoves(db: Db, t: nat, blank: bool, human: bool, force: bool, now: int)
    requires Good(db)
    ensures Moved(db, RequeueTicket(db, t, blank, human, force, now), None)
  {
    hide Moves, Good, Record, Release, Walk, Relaunches, Admits, Aborted;
    if RequeueTicket(db, t, blank, human, force, now).Ok? {
      var r := db.tickets[t].last.value;
      RecordMoves(db, r, Requeue, blank, human, false);
      var d1 := Record(db, r, Requeue, blank, human, false).db;
      MovesGood(db, d1, None);
      ReleaseMoves(d1, r, Outcome.Abandoned, None, None, now);
      var admitted := Admits(db.tickets[t].status, LastRun(db, t), Aborted(db, r)).value;
      var d2 := if admitted then Release(d1, r, Outcome.Abandoned, None, None, now).db else d1;
      Same(d1, None);
      Chain(db, d1, d2, None);
      Longer(db, d2, None);
      MarkMoves(db, d2, r, d2.runs[r].(approvedAt := None));
      WalkMoves(db, d2.(runs := d2.runs[r := d2.runs[r].(approvedAt := None)]), t, Ready);
    }
  }

  lemma {:induction false} Longer(a: Db, b: Db, x: Option<nat>)
    requires Moves(a, b, x)
    ensures |a.runs| <= |b.runs| && |a.tickets| <= |b.tickets|
  {
  }

  lemma {:induction false} Weaken(a: Db, b: Db, x: Option<nat>)
    requires Moves(a, b, None)
    ensures Moves(a, b, x)
  {
    hide Good, NotesKept, SteersKept, Frozen, RunKept;
  }

  // An exemption for a run that had not ended is none.
  lemma {:induction false} Strengthen(a: Db, b: Db, r: nat)
    requires Moves(a, b, Some(r)) && r < |a.runs| && a.runs[r].endedAt.None?
    ensures Moves(a, b, None)
  {
    hide Good, NotesKept, SteersKept, RunKept;
  }

  lemma {:induction false} IdleTicket(db: Db, r: nat)
    requires r < |db.runs| && db.runs[r].ticket < |db.tickets| && db.tickets[db.runs[r].ticket].active.None?
    ensures !MergesNow(db, db.runs[r].ticket) && !ClosedNow(db, db.runs[r].ticket)
  {
  }

  lemma {:induction false} LastIsOwn(db: Db, t: nat)
    requires Good(db) && t < |db.tickets| && db.tickets[t].last.Some?
    ensures LastRun(db, t).Some? && db.runs[db.tickets[t].last.value].ticket == t
    ensures LastRun(db, t) == Some(db.runs[db.tickets[t].last.value])
  {
    assert LeaseOk(db.tickets[t], t, db.runs);
  }

  lemma {:induction false} NotEnded(db: Db, r: nat)
    requires Good(db) && r < |db.runs| && !Terminal(db.runs[r].phase)
    ensures db.runs[r].endedAt.None?
  {
    assert RunOk(db.runs[r]);
  }

  lemma {:induction false} RecordIs(db: Db, r: nat, action: Action, blank: bool, human: bool, cancels: bool)
    requires Record(db, r, action, blank, human, cancels).Ok?
    ensures var d := Record(db, r, action, blank, human, cancels).db;
            r < |db.runs| && d == db.(interventions := d.interventions)
  {
  }

  // The store once the last run of a parked ticket is released.
  lemma {:induction false} ReleaseParkedMoves(
      db: Db, t: nat, action: Action, blank: bool, human: bool, requirePr: bool, only: Option<nat>, now: int)
    requires Good(db)
    ensures Moved(db, ReleaseParked(db, t, action, blank, human, requirePr, only, now), None)
  {
    hide Moves, Good, Record, Release, Walk, MergesNow, ClosedNow;
    if ReleaseParked(db, t, action, blank, human, requirePr, only, now).Ok? {
      var r := db.tickets[t].last.value;
      LastIsOwn(db, t);
      NotEnded(db, r);
      RecordMoves(db, r, action, blank, human, false);
      RecordIs(db, r, action, blank, human, false);
      var d1 := Record(db, r, action, blank, human, false).db;
      MovesGood(db, d1, None);
      var d2 := if action == OperatorNote then d1.(events := d1.events + [Note(r)]) else d1;
      IdleTicket(d1, r);
      AddEvent(d1, Note(r), None);
      Same(d1, None);
      Chain(db, d1, d2, None);
      MovesGood(db, d2, None);
      ReleaseMoves(d2, r, Outcome.Abandoned, None, None, now);
      var d3 := Release(d2, r, Outcome.Abandoned, None, None, now).db;
      Chain(db, d2, d3, None);
      ApproveMoves(db, d3, r, if action == Approve then Some(now) else None);
      var back := d3.runs[r].(resumePhase := Some(MergeGate), approvedAt := if action == Approve then Some(now) else None);
      WalkMoves(db, d3.(runs := d3.runs[r := back]), t, Ready);
    }
  }

  lemma {:induction false} ApproveMoves(a: Db, db: Db, r: nat, at: Option<int>)
    requires Good(a) && Moves(a, db, None) && r < |a.runs| && a.runs[r].endedAt.None?
    ensures r < |db.runs|
    ensures Moves(a, db.(runs := db.runs[r := db.runs[r].(resumePhase := Some(MergeGate), approvedAt := at)]), None)
  {
    MovesGood(a, db, None);
    Longer(a, db, None);
    GoodRun(db, r);
    hide Moves, Good;
    var run := db.runs[r].(resumePhase := Some(MergeGate), approvedAt := at);
    Weaken(a, db, Some(r));
    PutRun(db, r, run, Some(r));
    Chain(a, db, db.(runs := db.runs[r := run]), Some(r));
    Strengthen(a, db.(runs := db.runs[r := run]), r);
  }

  lemma {:induction false} SendBackMoves(db: Db, r: nat, blank: bool, now: int)
    requires Good(db)
    ensures Moved(db, SendBack(db, r, blank, now), None)
  {
    hide Moves, Good, ReleaseParked;
    if r < |db.runs| { ReleaseParkedMoves(db, db.runs[r].ticket, OperatorNote, false, true, true, None, now); }
  }

  // ------------------------------------------------------------ instructions

  lemma {:induction false} NoteMoves(a: Db, db: Db, r: nat)
    requires Good(a) && Moves(a, db, None) && r < |db.runs| && !MergesNow(db, db.runs[r].ticket)
    ensures Moves(a, db.(events := db.events + [Note(r)]), None)
  {
    hide Moves, Good, MergesNow;
    MovesGood(a, db, None);
    AddEvent(db, Note(r), None);
    Chain(a, db, db.(events := db.events + [Note(r)]), None);
  }

  lemma {:induction false} AddNoteMoves(db: Db, r: nat, blank: bool)
    requires Good(db)
    ensures Moved(db, AddNote(db, r, blank), None)
  {
    hide Moves, Good, MergesNow, ClosedNow;
    if AddNote(db, r, blank).Ok? {
      var i := Intervention(Some(r), OperatorNote, true, false);
      Intervene(db, i, None);
      var d := db.(interventions := db.interventions + [i]);
      IdleTicket(d, r);
      NoteMoves(db, d, r);
    }
  }

  lemma {:induction false} NoteLiveMoves(a: Db, db: Db, r: nat, blank: bool)
    requires Good(a) && Moves(a, db, None)
    ensures Moved(a, NoteLive(db, r, blank), None)
  {
    MovesGood(a, db, None);
    if NoteLive(db, r, blank).Ok? {
      GoodRun(db, r);
      hide Moves, Good;
      NoteMoves(a, db, r);
    }
  }

  lemma {:induction false} ConsumeMoves(db: Db, r: nat, notes: seq<nat>)
    requires Good(db)
    ensures Moved(db, ConsumeNotes(db, r, notes), None)
    decreases |notes|
  {
    hide Moves, Good;
    if notes == [] {
      Same(db, None);
    } else if r < |db.runs| {
      var d := db.(events := db.events + [Consumed(r, notes[0])]);
      AddEvent(db, Consumed(r, notes[0]), None);
      MovesGood(db, d, None);
      ConsumeMoves(d, r, notes[1..]);
      if ConsumeNotes(db, r, notes).Ok? { Chain(db, d, ConsumeNotes(db, r, notes).db, None); }
    }
  }

  // ------------------------------------------------------------------ steers

  lemma {:induction false} SteersMove(a: Db, db: Db, steers: seq<SteerNote>)
    requires Good(a) && Moves(a, db, None)
    requires forall i :: 0 <= i < |steers| && Waits(steers[i], steers[i].ticket) ==>
               !ClosedNow(db, steers[i].ticket) || (i < |db.steers| && Waits(db.steers[i], steers[i].ticket))
    ensures Moves(a, db.(steers := steers), None)
  {
    hide Moves, Good, ClosedNow;
    MovesGood(a, db, None);
    PutSteers(db, steers, None);
    Chain(a, db, db.(steers := steers), None);
  }

  lemma {:induction false} AddSteerMoves(a: Db, written: Result, t: nat, r: Option<nat>, amendment: bool, e: nat, bad: bool)
    requires Good(a) && Moved(a, written, None)
    ensures Moved(a, AddSteer(written, t, r, amendment, e, bad), None)
  {
    hide Moves, Good, ClosedNow;
    if written.Ok? && !bad {
      SteersMove(a, written.db, written.db.steers + [SteerNote(t, r, amendment, Some(e), None, false)]);
    }
  }

  lemma {:induction false} SteerLiveMoves(db: Db, t: nat, r: nat, resume: Option<Phase>, amendment: bool, bad: bool)
    requires Good(db) && t < |db.tickets| && db.tickets[t].active == Some(r)
    ensures Moved(db, SteerLive(db, t, r, resume, amendment, bad), None)
  {
    hide Moves, Good, NoteLive, Closed;
    var i := Intervention(Some(r), Steer, true, false);
    Intervene(db, i, None);
    var noted := db.(interventions := db.interventions + [i]);
    NoteLiveMoves(db, noted, r, false);
    AddSteerMoves(db, NoteLive(noted, r, false), t, Some(r), amendment, |db.events|, bad);
    if r < |db.runs| && !Closed(db, r) {
      StillOpen(db, noted, t, r);
      SteersMove(db, noted, noted.steers + [SteerNote(t, Some(r), amendment, None, None, false)]);
    }
  }

  lemma {:induction false} StillOpen(db: Db, d: Db, t: nat, r: nat)
    requires t < |db.tickets| && db.tickets[t].active == Some(r) && !Closed(db, r)
    requires d.tickets == db.tickets && d.events == db.events
    ensures !ClosedNow(d, t)
  {
  }

  lemma {:induction false} SteerMoves(db: Db, t: nat, amendment: bool, interrupt: bool, blank: bool, bad: bool, human: bool, now: int)
    requires Good(db)
    ensures Moved(db, SteerTicket(db, t, amendment, interrupt, blank, bad, human, now), None)
  {
    hide Moves, Good, SteerLive, SendBack, AddNote, AddSteer, ClosedNow;
    if t < |db.tickets| {
      var k := db.tickets[t];
      var resume := if LastRun(db, t).Some? then LastRun(db, t).value.resumePhase else None;
      if k.active.Some? {
        SteerLiveMoves(db, t, k.active.value, resume, amendment, bad);
      } else {
        if k.last.Some? {
          SendBackMoves(db, k.last.value, false, now);
          AddSteerMoves(db, SendBack(db, k.last.value, false, now), t, k.last, amendment, |db.events|, bad);
          AddNoteMoves(db, k.last.value, false);
          AddSteerMoves(db, AddNote(db, k.last.value, false), t, k.last, amendment, |db.events|, bad);
        }
        var i := Intervention(k.last, Steer, human, false);
        Intervene(db, i, None);
        var d := db.(interventions := db.interventions + [i]);
        NotClosed(d, t);
        SteersMove(db, d, d.steers + [SteerNote(t, k.last, amendment, None, None, false)]);
      }
    }
  }

  lemma {:induction false} NotClosed(db: Db, t: nat)
    requires t < |db.tickets| && db.tickets[t].active.None?
    ensures !ClosedNow(db, t)
  {
  }

  lemma {:induction false} WithdrawnAt(steers: seq<SteerNote>, t: nat, i: nat)
    requires i < |steers|
    ensures WithdrawAll(steers, t)[i] ==
            if steers[i].ticket == t && steers[i].amendment then steers[i].(withdrawn := true) else steers[i]
  {
    if i < |steers| - 1 { WithdrawnAt(steers[..|steers| - 1], t, i); }
  }

  lemma {:induction false} WithdrawMoves(db: Db, t: nat, blank: bool)
    requires Good(db)
    ensures Moved(db, WithdrawSteers(db, t, blank), None)
  {
    hide Moves, Good, ClosedNow, WithdrawAll;
    if t < |db.tickets| {
      var i := Intervention(db.tickets[t].last, Steer, true, false);
      Intervene(db, i, None);
      var d := db.(interventions := db.interventions + [i]);
      forall n | 0 <= n < |db.steers| && Waits(WithdrawAll(db.steers, t)[n], WithdrawAll(db.steers, t)[n].ticket)
        ensures Waits(db.steers[n], WithdrawAll(db.steers, t)[n].ticket)
      {
        WithdrawnAt(db.steers, t, n);
      }
      SteersMove(db, d, WithdrawAll(db.steers, t));
    }
  }

  lemma {:induction false} ConsumeSteersMoves(db: Db, r: nat, notes: seq<nat>)
    requires Good(db)
    ensures Moved(db, ConsumeSteers(db, r, notes), None)
    decreases |notes|
  {
    hide Moves, Good, ClosedNow;
    Same(db, None);
    if notes != [] {
      var n := notes[0];
      var steers := if n < |db.steers| && db.steers[n].consumedBy.None?
                    then db.steers[n := db.steers[n].(consumedBy := Some(r))] else db.steers;
      SteersMove(db, db, steers);
      var d := db.(steers := steers);
      MovesGood(db, d, None);
      ConsumeSteersMoves(d, r, notes[1..]);
      if ConsumeSteers(d, r, notes[1..]).Ok? { Chain(db, d, ConsumeSteers(d, r, notes[1..]).db, None); }
    }
  }
}

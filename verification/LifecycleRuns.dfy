// One step of the lifecycle, whatever it is: what it keeps of runs, tickets and
// leases, and that it strands no instruction and no steer.  Entering merging and
// closing a run's steering are the two steps that rely on what they find; a pull
// request may be written on any run, and then only instructions can be left
// behind.

module LifecycleRuns {
  import Path = StatusPath
  import opened Lifecycle
  import opened LifecycleMoves
  import opened LifecycleFacts

  // A leased run that begin_merge let into merging has no instruction pending.
  ghost predicate MergingOk(db: Db) {
    forall t: nat :: MergesNow(db, t) ==>
      NonePending(db, db.tickets[t].active.value, db.runs[db.tickets[t].active.value].merging)
  }

  // A leased run that closed its steering has no steer waiting on its ticket.
  ghost predicate SteersOk(db: Db) {
    forall t: nat :: ClosedNow(db, t) ==> NoneWaits(db, t)
  }

  // What any step at all leaves standing; `resumed` is the run it resumed.
  ghost predicate Lasts(a: Db, b: Db, resumed: Option<nat>) {
    Good(b) && RunsKept(a.runs, b.runs, resumed) && TicketsKept(a.tickets, b.tickets)
  }

  function Resumed(step: Step): Option<nat> {
    if step.DoResume? then Some(step.run) else None
  }

  // A step that writes no new pull request on a ticket whose leased run is
  // merging, unless it parks that run.  LifecycleStranding looks at the others.
  predicate Careful(db: Db, step: Step) {
    match step
    case DoPark(r, _, _, prUrl, _) => ParkCareful(db, r, prUrl)
    case DoSetPullRequest(r, url, _) =>
      r < |db.runs| ==> db.runs[r].prUrl == Some(url) || !MergesNow(db, db.runs[r].ticket)
    case _ => true
  }

  // --------------------------------------------------------------- one step

  // A step on runs, on tickets, or on both and their instructions.
  predicate OnRuns(step: Step) {
    step.SetAdmission? || step.DoClaim? || step.DoSetPhase? || step.DoPark? || step.DoRelease? || step.DoResume?
    || step.DoRecord? || step.DoPause? || step.DoAbort? || step.DoRepoint?
  }

  predicate OnTickets(step: Step) {
    step.DoTransition? || step.DoWalk? || step.DoMirrorNew? || step.DoMirror? || step.DoBoard?
  }

  lemma {:induction false} StepMoves(db: Db, step: Step)
    requires Good(db) && Careful(db, step) && !step.DoBeginMerge? && !step.DoClose?
    ensures Moved(db, Try(db, step), Resumed(step))
  {
    hide *;
    if OnRuns(step) { RunStepMoves(db, step); } else if OnTickets(step) { TicketStepMoves(db, step); } else { OtherStepMoves(db, step); }
  }

  lemma {:induction false} RunStepMoves(db: Db, step: Step)
    requires Good(db) && Careful(db, step) && OnRuns(step)
    ensures Moved(db, Try(db, step), Resumed(step))
  {
    hide Moves, Good, Claim, SetPhase, Park, Release, ResumeRun, Record, PauseRun, AbortRun, RepointRun, MergesNow,
         ClosedNow, ParkCareful;
    match step
    case SetAdmission(_, _) => HeldMoves(db, Try(db, step).db.held);
    case DoClaim(p, t, expected, atCap) => ClaimMoves(db, p, t, expected, atCap);
    case DoSetPhase(r, phase) => SetPhaseMoves(db, r, phase);
    case DoPark(r, phase, kind, prUrl, candidate) => ParkMoves(db, r, phase, kind, prUrl, candidate);
    case DoRelease(r, outcome, asked, candidate, now) => ReleaseMoves(db, r, outcome, asked, candidate, now);
    case DoResume(r, guided, blank, human) => ResumeMoves(db, r, guided, blank, human);
    case DoRecord(r, action, blank, human) => RecordMoves(db, r, action, blank, human, false);
    case DoPause(r, blank, human) => PauseMoves(db, r, blank, human);
    case DoAbort(r, close, cancels, blank, human) => AbortMoves(db, r, close, cancels, blank, human);
    case DoRepoint(t, fullSha, sha, blank) => RepointMoves(db, t, fullSha, sha, blank);
  }

  lemma {:induction false} TicketStepMoves(db: Db, step: Step)
    requires Good(db) && OnTickets(step)
    ensures Moved(db, Try(db, step), Resumed(step))
  {
    hide Moves, Good, Transition, Walk, Mirror;
    Same(db, None);
    match step
    case DoTransition(t, status) => TransitionMoves(db, t, status);
    case DoWalk(t, status) => WalkMoves(db, db, t, status);
    case DoMirrorNew(p, specced, column, board, revision) =>
      AddTicket(db, Ticket(p, if specced then Ready else NeedsSpec, None, None, revision, column, board, false), None);
    case DoMirror(t, expected, specced, story, column, board, revision) =>
      MirrorMoves(db, t, expected, specced, story, column, board, revision);
    case DoBoard(t, column, board, gone) =>
      if t < |db.tickets| {
        PutTicket(db, t, db.tickets[t].(column := column, board := board, gone := gone), None);
      }
  }

  lemma {:induction false} OtherStepMoves(db: Db, step: Step)
    requires Good(db) && Careful(db, step) && !OnRuns(step) && !OnTickets(step) && !step.DoBeginMerge? && !step.DoClose?
    ensures Moved(db, Try(db, step), Resumed(step))
  {
    hide Moves, Good, RequeueTicket, ReleaseParked, SendBack, AddNote, NoteLive, ConsumeNotes, SetPullRequest,
         SetQuestion, SteerTicket, WithdrawSteers, ConsumeSteers, MergesNow, ClosedNow;
    Same(db, None);
    match step
    case DoRequeue(t, blank, human, force, now) => RequeueMoves(db, t, blank, human, force, now);
    case DoApprove(t, blank, only, now) => ReleaseParkedMoves(db, t, Approve, blank, true, false, only, now);
    case DoBabysit(t, blank, human, now) => ReleaseParkedMoves(db, t, Babysit, blank, human, true, None, now);
    case DoSendBack(r, blank, now) => SendBackMoves(db, r, blank, now);
    case DoAddNote(r, blank) => AddNoteMoves(db, r, blank);
    case DoNoteLive(r, blank) => NoteLiveMoves(db, db, r, blank);
    case DoConsume(r, notes) => ConsumeMoves(db, r, notes);
    case DoSetPullRequest(r, url, candidate) => PullRequestMoves(db, r, url, candidate);
    case DoSetQuestion(t, kind) => QuestionMoves(db, t, kind);
    case DoSteer(t, amendment, interrupt, blank, bad, human, now) =>
      SteerMoves(db, t, amendment, interrupt, blank, bad, human, now);
    case DoWithdraw(t, blank) => WithdrawMoves(db, t, blank);
    case DoConsumeSteers(r, notes) => ConsumeSteersMoves(db, r, notes);
  }

  lemma {:induction false} HeldMoves(db: Db, held: set<nat>)
    requires Good(db)
    ensures Moves(db, db.(held := held), None)
  {
    Same(db, None);
  }

  // Instructions pending for a merging run would have been so before.
  lemma {:induction false} MergingCarries(a: Db, b: Db, x: Option<nat>)
    requires Good(a) && Moves(a, b, x) && MergingOk(a)
    ensures MergingOk(b)
  {
    hide RunsOk, Attempts, RunOk, SteersKept, IsConsumed;
    forall t: nat, e | MergesNow(b, t) && 0 <= e < |b.events|
      ensures !PendingNote(b, b.tickets[t].active.value, b.runs[b.tickets[t].active.value].merging, e)
    {
      var r := b.tickets[t].active.value;
      assert LeaseOk(a.tickets[t], t, a.runs) && LeaseOk(b.tickets[t], t, b.runs);
      if IsConsumed(a.events, e) { StillConsumed(a, b, e); }
      var url := b.runs[r].merging;
      if e < |a.events| {
        var n := b.events[e].run;
        assert b.events[e] == a.events[e];
        assert RunKept(a.runs[n], b.runs[n]) && RunKept(a.runs[r], b.runs[r]);
        assert !PendingNote(a, r, url, e);
      }
    }
  }

  lemma {:induction false} StillConsumed(a: Db, b: Db, e: nat)
    requires NotesKept(a, b) && IsConsumed(a.events, e)
    ensures IsConsumed(b.events, e)
  {
    var c :| 0 <= c < |a.events| && a.events[c].Consumed? && a.events[c].note == e;
    assert b.events[c] == a.events[c];
  }

  lemma {:induction false} SteersCarry(a: Db, b: Db)
    requires SteersKept(a, b) && SteersOk(a)
    ensures SteersOk(b)
  {
    hide ClosedNow;
    forall t: nat | ClosedNow(b, t) ensures NoneWaits(b, t) {
      assert NoneWaits(a, t);
    }
  }

  // -------------------------------------------------------- the two exceptions

  // Entering merging finds no instruction pending, and leaves the rest alone.
  lemma {:induction false} BeginMergeKeeps(db: Db, r: nat, url: string)
    requires Good(db) && BeginMerge(db, r, url).Ok?
    ensures var d := BeginMerge(db, r, url).db;
            && Lasts(db, d, None) && SteersKept(db, d)
            && (MergingOk(db) ==> MergingOk(d))
  {
    hide Moves, Good, SetPhase, NotesKept, SteersKept, MergingOk, RunsKept, TicketsKept;
    Same(db, None);
    MovesAre(db, db, None);
    if NonePending(db, r, Some(url)) {
      SetPhaseMoves(db, r, Merging);
      SetPhaseIs(db, r, Merging);
      var d := SetPhase(db, r, Merging).db;
      MovesAre(db, d, None);
      GoodRun(d, r);
      MergingMark(d, r, url);
      var next := d.(runs := d.runs[r := d.runs[r].(merging := Some(url))]);
      RunsKeptThen(db.runs, d.runs, next.runs, None);
      TicketsKeptThen(db.tickets, d.tickets, next.tickets);
      SteersKeptThen(db, d, next);
      if MergingOk(db) {
        MergingCarries(db, d, None);
        assert NonePending(d, r, Some(url)) by { SameLineage(db, d, r, url); }
        MarkedOk(d, r, url);
      }
    }
  }

  lemma {:induction false} MovesAre(a: Db, b: Db, x: Option<nat>)
    requires Moves(a, b, x)
    ensures Lasts(a, b, x) && SteersKept(a, b) && NotesKept(a, b)
  {
  }

  lemma {:induction false} TicketsKeptThen(a: seq<Ticket>, b: seq<Ticket>, c: seq<Ticket>)
    requires TicketsKept(a, b) && TicketsKept(b, c)
    ensures TicketsKept(a, c)
  {
  }

  lemma {:induction false} MergingMark(db: Db, r: nat, url: string)
    requires Good(db) && r < |db.runs| && db.runs[r].phase == Merging
    ensures var d := db.(runs := db.runs[r := db.runs[r].(merging := Some(url))]);
            Good(d) && RunsKept(db.runs, d.runs, None) && TicketsKept(db.tickets, d.tickets) && SteersKept(db, d)
  {
    hide Attempts;
    var d := db.(runs := db.runs[r := db.runs[r].(merging := Some(url))]);
    RunsOkSame(db.runs, d.runs, |db.tickets|);
    forall t | 0 <= t < |db.tickets| ensures LeaseOk(db.tickets[t], t, d.runs) {
      assert LeaseOk(db.tickets[t], t, db.runs);
    }
  }

  lemma {:induction false} SameLineage(a: Db, b: Db, r: nat, url: string)
    requires r < |a.runs| && |b.runs| == |a.runs| && b.events == a.events
    requires Good(a)
    requires forall i :: 0 <= i < |a.runs| ==>
               b.runs[i].ticket == a.runs[i].ticket && b.runs[i].prUrl == a.runs[i].prUrl
    requires NonePending(a, r, Some(url))
    ensures NonePending(b, r, Some(url))
  {
    hide IsConsumed;
    forall e | 0 <= e < |b.events| ensures !PendingNote(b, r, Some(url), e) {
      assert !PendingNote(a, r, Some(url), e);
    }
  }

  lemma {:induction false} MarkedOk(db: Db, r: nat, url: string)
    requires Good(db) && MergingOk(db) && r < |db.runs| && NonePending(db, r, Some(url))
    ensures MergingOk(db.(runs := db.runs[r := db.runs[r].(merging := Some(url))]))
  {
    hide IsConsumed, RunsOk;
    var d := db.(runs := db.runs[r := db.runs[r].(merging := Some(url))]);
    forall t: nat | MergesNow(d, t)
      ensures NonePending(d, d.tickets[t].active.value, d.runs[d.tickets[t].active.value].merging)
    {
      var s := d.tickets[t].active.value;
      forall e | 0 <= e < |d.events| ensures !PendingNote(d, s, d.runs[s].merging, e) {
        assert s != r ==> NonePending(db, s, db.runs[s].merging);
        assert !PendingNote(db, s, d.runs[s].merging, e);
      }
    }
  }

  lemma {:induction false} ClosePasses(db: Db, r: nat)
    requires MergingOk(db) && CloseSteers(db, r).Ok?
    ensures MergingOk(CloseSteers(db, r).db)
  {
    var d := CloseSteers(db, r).db;
    forall t: nat | MergesNow(d, t)
      ensures NonePending(d, d.tickets[t].active.value, d.runs[d.tickets[t].active.value].merging)
    {
      assert MergesNow(db, t);
      SameLineageClosed(db, d, d.tickets[t].active.value, d.runs[d.tickets[t].active.value].merging);
    }
  }

  lemma {:induction false} SameLineageClosed(a: Db, b: Db, r: nat, url: Option<string>)
    requires r < |a.runs| && NonePending(a, r, url) && b.runs == a.runs
    requires b.events == a.events || (|b.events| == |a.events| + 1 && b.events[..|a.events|] == a.events
                                      && b.events[|a.events|].SteerClosed?)
    ensures NonePending(b, r, url)
  {
    forall e | 0 <= e < |b.events| ensures !PendingNote(b, r, url, e) {
      if e < |a.events| {
        assert b.events[e] == a.events[e];
        assert !PendingNote(a, r, url, e);
        if IsConsumed(a.events, e) {
          var c :| 0 <= c < |a.events| && a.events[c].Consumed? && a.events[c].note == e;
          assert b.events[c] == a.events[c];
        }
      }
    }
  }

  lemma {:induction false} CloseKeeps(db: Db, r: nat)
    requires Good(db) && CloseSteers(db, r).Ok?
    ensures var d := CloseSteers(db, r).db;
            && Lasts(db, d, None) && NotesKept(db, d) && (SteersOk(db) ==> SteersOk(d))
  {
    Same(db, None);
    if NoneWaits(db, db.runs[r].ticket) {
      var d := CloseSteers(db, r).db;
      if SteersOk(db) {
        forall t: nat | ClosedNow(d, t) ensures NoneWaits(d, t) {
          assert LeaseOk(db.tickets[t], t, db.runs);
          if db.tickets[t].active != Some(r) { assert ClosedNow(db, t); }
        }
      }
    }
  }

  // A pull request written on a run leaves all but pending instructions alone.
  lemma {:induction false} UrlKeeps(db: Db, r: nat, url: Option<string>)
    requires Good(db) && r < |db.runs|
    ensures var d := db.(runs := db.runs[r := db.runs[r].(prUrl := url)]); Lasts(db, d, None) && SteersKept(db, d)
  {
    hide Attempts;
    var d := db.(runs := db.runs[r := db.runs[r].(prUrl := url)]);
    RunsOkSame(db.runs, d.runs, |db.tickets|);
    forall t | 0 <= t < |db.tickets| ensures LeaseOk(db.tickets[t], t, d.runs) {
      assert LeaseOk(db.tickets[t], t, db.runs);
    }
  }

  lemma {:induction false} LastsThen(a: Db, b: Db, c: Db)
    requires Lasts(a, b, None) && SteersKept(a, b) && Lasts(b, c, None) && SteersKept(b, c)
    ensures Lasts(a, c, None) && SteersKept(a, c)
  {
    hide Good, SteersKept, RunsKept, TicketsKept;
    RunsKeptThen(a.runs, b.runs, c.runs, None);
    TicketsKeptThen(a.tickets, b.tickets, c.tickets);
    SteersKeptThen(a, b, c);
  }

  lemma {:induction false} AnyPark(db: Db, r: nat, phase: Phase, kind: ParkKind, prUrl: Option<string>, candidate: Option<string>)
    requires Good(db)
    ensures var p := Park(db, r, phase, kind, prUrl, candidate);
            p.Ok? ==> Lasts(db, p.db, None) && SteersKept(db, p.db)
  {
    hide Good, Moves, Lasts, SteersKept, SetPhase, DropLease;
    var p := Park(db, r, phase, kind, prUrl, candidate);
    if p.Ok? {
      var q := Park(db, r, phase, kind, None, candidate);
      ParkMoves(db, r, phase, kind, None, candidate);
      MovesAre(db, q.db, None);
      MovesGood(db, q.db, None);
      SetPhaseIs(db, r, phase);
      UrlKeeps(q.db, r, p.db.runs[r].prUrl);
      assert p.db.runs == q.db.runs[r := q.db.runs[r].(prUrl := p.db.runs[r].prUrl)];
      LastsThen(db, q.db, p.db);
    }
  }

  lemma {:induction false} AnyPullRequest(db: Db, r: nat, url: string, candidate: Option<string>)
    requires Good(db)
    ensures var d := SetPullRequest(db, r, url, candidate).db; Lasts(db, d, None) && SteersKept(db, d)
  {
    hide Good, Moves, Lasts, SteersKept;
    Same(db, None);
    MovesAre(db, db, None);
    if r < |db.runs| {
      var d := SetPullRequest(db, r, url, candidate).db;
      var marked := db.runs[r].(candidate := d.runs[r].candidate);
      MarkMoves(db, db, r, marked);
      var m := db.(runs := db.runs[r := marked]);
      MovesAre(db, m, None);
      MovesGood(db, m, None);
      UrlKeeps(m, r, Some(url));
      assert d.runs == m.runs[r := m.runs[r].(prUrl := Some(url))];
      LastsThen(db, m, d);
    }
  }

  // What every step keeps, whatever it is.
  lemma {:induction false} StepKeeps(db: Db, step: Step)
    requires Good(db)
    ensures Lasts(db, Apply(db, step), Resumed(step))
    ensures SteersOk(db) ==> SteersOk(Apply(db, step))
    ensures MergingOk(db) && Careful(db, step) ==> MergingOk(Apply(db, step))
  {
    hide Good, Moves, Lasts, SteersKept, NotesKept, SteersOk, MergingOk, Claim, SetPhase, Park, Release, ResumeRun, Record,
         PauseRun, AbortRun, RepointRun, Transition, Walk, Mirror, MirrorNew, RequeueTicket, ReleaseParked, SendBack,
         AddNote, NoteLive, ConsumeNotes, SetPullRequest, SetQuestion, SteerTicket, WithdrawSteers, ConsumeSteers,
         BeginMerge, CloseSteers, MergesNow, ClosedNow, ParkCareful;
    Same(db, None);
    MovesAre(db, db, None);
    Weaken(db, db, Resumed(step));
    MovesAre(db, db, Resumed(step));
    var next := Apply(db, step);
    if step.DoBeginMerge? {
      if BeginMerge(db, step.run, step.url).Ok? {
        BeginMergeKeeps(db, step.run, step.url);
        SteersPass(db, next);
      }
    } else if step.DoClose? {
      if CloseSteers(db, step.run).Ok? {
        CloseKeeps(db, step.run);
        if MergingOk(db) { ClosePasses(db, step.run); }
      }
    } else if Careful(db, step) {
      StepMoves(db, step);
      if Try(db, step).Ok? {
        MovesAre(db, next, Resumed(step));
        SteersPass(db, next);
        if MergingOk(db) { MergingCarries(db, next, Resumed(step)); }
      }
    } else if step.DoPark? {
      AnyPark(db, step.run, step.phase, step.kind, step.prUrl, step.candidate);
      if Try(db, step).Ok? { SteersPass(db, next); }
    } else {
      PullRequestAlways(db, step.run, step.url, step.candidate);
      AnyPullRequest(db, step.run, step.url, step.candidate);
      SteersPass(db, next);
    }
  }

  lemma {:induction false} PullRequestAlways(db: Db, r: nat, url: string, candidate: Option<string>)
    ensures SetPullRequest(db, r, url, candidate).Ok?
  {
  }

  lemma {:induction false} SteersPass(a: Db, b: Db)
    requires SteersKept(a, b)
    ensures SteersOk(a) ==> SteersOk(b)
  {
    hide SteersKept, SteersOk;
    if SteersOk(a) { SteersCarry(a, b); }
  }
}

// When each operation on a run is accepted, and every row it leaves.
//
// Stated on the rows alone, over every store the operations reach: what is not
// mentioned stays as it was.

module LifecycleOperations {
  import opened Lifecycle
  import opened LifecycleMoves
  import opened LifecycleFacts
  import opened LifecycleReleases

  // ----------------------------------------------------------------- claims

  function RunsOf(runs: seq<Run>, t: nat): set<nat> {
    set r | 0 <= r < |runs| && runs[r].ticket == t
  }

  lemma RunsOfNext(runs: seq<Run>, t: nat)
    requires runs != []
    ensures var n := |runs| - 1;
            && n !in RunsOf(runs[..n], t)
            && RunsOf(runs, t) == RunsOf(runs[..n], t) + if runs[n].ticket == t then {n} else {}
  {
    var n := |runs| - 1;
    forall i: nat | i < n ensures runs[..n][i] == runs[i] {
    }
  }

  lemma {:induction false} AttemptsAre(runs: seq<Run>, t: nat)
    ensures Attempts(runs, t) == |RunsOf(runs, t)|
  {
    hide RunsOf;
    if runs == [] {
      assert RunsOf(runs, t) == {} by { NoRuns(t); }
    } else {
      AttemptsAre(runs[..|runs| - 1], t);
      RunsOfNext(runs, t);
    }
  }

  lemma NoRuns(t: nat)
    ensures RunsOf([], t) == {}
  {
  }

  // A project that holds admission starts nothing.  Otherwise a claim succeeds
  // exactly when no run holds the ticket, the ticket is as the claimer read it
  // and ready, no cap is reached and it is the project's own; then a new run, one
  // attempt further, holds the lease.
  lemma ClaimCompletes(db: Db, p: nat, t: nat, expected: Option<nat>, atCap: bool)
    ensures var q := Claim(db, p, t, expected, atCap);
            && (p in db.held ==> q == Ok(db))
            && (p !in db.held ==>
                  && (q.Ok? <==>
                        && t < |db.tickets| && db.tickets[t].active.None? && !atCap && db.tickets[t].project == p
                        && (expected.Some? ==>
                              && db.tickets[t].revision == expected.value && db.tickets[t].column == "ready"
                              && db.tickets[t].status == Ready && !db.tickets[t].gone))
                  && (q.Ok? ==>
                        && q.db == db.(runs := q.db.runs,
                                       tickets := db.tickets[t := db.tickets[t].(active := Some(|db.runs|))])
                        && q.db.runs == db.runs + [Run(t, p, |RunsOf(db.runs, t)| + 1, Claimed, None, None, None, None, None,
                                                       None, None, None, None)]))
  {
    hide RunsOf, Attempts;
    AttemptsAre(db.runs, t);
  }

  // ------------------------------------------------------ parks and releases

  // A run `r` leaves its ticket: if it holds the lease, the ticket is free and
  // remembers it.
  predicate LeaseBack(tickets: seq<Ticket>, after: seq<Ticket>, t: nat, r: nat) {
    if t < |tickets| && tickets[t].active == Some(r)
    then after == tickets[t := tickets[t].(active := None, last := Some(r))] else after == tickets
  }

  // A run that has not ended may enter a phase the table draws, or stay.
  predicate MayEnter(db: Db, r: nat, phase: Phase) {
    r < |db.runs| && db.runs[r].endedAt.None? && (db.runs[r].phase == phase || phase in NextPhases(db.runs[r].phase))
  }

  // A park succeeds exactly when its phase is one a run parks in and the table
  // lets the run enter it; then the run is marked with the kind of park, what was
  // given of its pull request and candidate is written, and the lease goes back.
  lemma ParkCompletes(db: Db, r: nat, phase: Phase, kind: ParkKind, prUrl: Option<string>, candidate: Option<string>)
    requires Good(db)
    ensures var q := Park(db, r, phase, kind, prUrl, candidate);
            && (q.Ok? <==> (phase == Phase.BlockedOnOperator || phase == AwaitingMergeApproval) && MayEnter(db, r, phase))
            && (q.Ok? ==>
                  var was := db.runs[r];
                  && q.db == db.(runs := q.db.runs, tickets := q.db.tickets)
                  && LeaseBack(db.tickets, q.db.tickets, was.ticket, r)
                  && q.db.runs == db.runs[r := was.(
                       phase := phase, parkKind := Some(kind), merging := None,
                       prUrl := match prUrl case Some(url) => Some(url) case None => was.prUrl,
                       candidate := match candidate case Some(sha) => Some(sha) case None => was.candidate)])
  {
    if r < |db.runs| { GoodRun(db, r); }
  }

  // A release of a run that has ended changes nothing.  Otherwise it succeeds
  // exactly when the table draws the outcome's phase; then the run is over with
  // its outcome, resumes where it was if it failed at work, or where asked if it
  // was paused, and the lease goes back.
  lemma ReleaseCompletes(
      db: Db, r: nat, outcome: Outcome, asked: Option<Phase>, candidate: Option<string>, now: int)
    requires Good(db)
    ensures var q := Release(db, r, outcome, asked, candidate, now);
            if r < |db.runs| && db.runs[r].endedAt.Some? then q == Ok(db)
            else
              && (q.Ok? <==> MayEnter(db, r, TerminalPhase(outcome)))
              && (q.Ok? ==>
                    var was := db.runs[r];
                    && q.db == db.(runs := q.db.runs, tickets := q.db.tickets)
                    && LeaseBack(db.tickets, q.db.tickets, was.ticket, r)
                    && q.db.runs == db.runs[r := was.(
                         phase := TerminalPhase(outcome), endedAt := Some(now), outcome := Some(outcome), merging := None,
                         resumePhase :=
                           if outcome == Outcome.Paused then asked
                           else if (outcome == Outcome.Failed || outcome == Outcome.Abandoned)
                                   && was.phase in {Working, Verifying, Reviewing, Addressing} then Some(was.phase)
                           else None,
                         candidate := match candidate case Some(sha) => Some(sha) case None => was.candidate)])
  {
    if r < |db.runs| { GoodRun(db, r); }
  }

  // A resume succeeds exactly when the run is in a work phase, failed, blocked or
  // paused, and guidance is given to a blocked one alone and says something; then
  // a run that stopped is where it stopped, or back at work, has not ended, and
  // nobody asks it to stop.  No ticket changes.
  lemma ResumeCompletes(db: Db, r: nat, guided: bool, blank: bool, human: bool)
    requires Good(db)
    ensures var q := ResumeRun(db, r, guided, blank, human);
            && (q.Ok? <==>
                  && r < |db.runs|
                  && db.runs[r].phase in {Working, Verifying, Reviewing, Addressing, Phase.Failed, Phase.BlockedOnOperator,
                                          Phase.Paused}
                  && (guided ==> !blank && db.runs[r].phase == Phase.BlockedOnOperator))
            && (q.Ok? ==>
                  var was := db.runs[r];
                  var to := if was.phase in {Phase.Failed, Phase.Paused} && was.resumePhase.Some? then was.resumePhase.value
                            else if was.phase == Phase.Failed || was.phase == Phase.BlockedOnOperator then Working
                            else was.phase;
                  && q.db == db.(runs := q.db.runs, interventions := q.db.interventions)
                  && q.db.interventions == db.interventions + [Intervention(Some(r), Resume, human, false)]
                  && q.db.runs == db.runs[r := was.(phase := to, endedAt := None, outcome := None, resumePhase := None,
                                                    parkKind := None, stop := None, merging := None)])
  {
    if r < |db.runs| { GoodRun(db, r); }
  }

  // ------------------------------------------------------------------- stops

  // A pause asks a run that has not ended to stop, once: a request that stands is
  // left standing.
  lemma PauseCompletes(db: Db, r: nat, blank: bool, human: bool)
    ensures var q := PauseRun(db, r, blank, human);
            && (q.Ok? <==> r < |db.runs| && db.runs[r].endedAt.None? && (db.runs[r].stop.Some? || !blank))
            && (q.Ok? ==>
                  q.db == if db.runs[r].stop.Some? then db
                          else db.(interventions := db.interventions + [Intervention(Some(r), Pause, human, false)],
                                   runs := db.runs[r := db.runs[r].(stop := Some(|db.interventions|))]))
  {
  }

  // The request a run is asked to stop by.
  predicate Stands(db: Db, r: nat, action: Action, cancels: bool)
    requires r < |db.runs|
  {
    && db.runs[r].stop.Some? && db.runs[r].stop.value < |db.interventions|
    && db.interventions[db.runs[r].stop.value].action == action
    && db.interventions[db.runs[r].stop.value].cancels == cancels
  }

  // An abort upgrades what stands and never weakens it: afterwards the run is
  // asked to abort, to close as well if that was asked now or before, and for a
  // cancellation if it was one now or before.
  lemma AbortCompletes(db: Db, r: nat, close: bool, cancels: bool, blank: bool, human: bool)
    ensures var q := AbortRun(db, r, close, cancels, blank, human);
            && (q.Ok? ==>
                  && r < |db.runs| == |q.db.runs| && db.runs[r].endedAt.None? && Phase.Failed in NextPhases(db.runs[r].phase)
                  && q.db == db.(runs := q.db.runs, interventions := q.db.interventions)
                  && q.db.runs == db.runs[r := db.runs[r].(stop := q.db.runs[r].stop)]
                  && var closes := close || Stands(db, r, AbortClose, false) || Stands(db, r, AbortClose, true);
                     var canceled := cancels || exists a :: Stands(db, r, a, true);
                     && Stands(q.db, r, if closes then AbortClose else Abort, canceled)
                     && (if Stands(db, r, if closes then AbortClose else Abort, canceled) then q.db == db
                         else q.db.interventions == db.interventions + [Intervention(
                                Some(r), if closes then AbortClose else Abort, human, canceled)]))
            && (r < |db.runs| && db.runs[r].endedAt.None? && Phase.Failed in NextPhases(db.runs[r].phase) && !blank ==> q.Ok?)
  {
    if r < |db.runs| && Pending(db, r).Some? {
      var a := Pending(db, r).value.action;
      assert Pending(db, r).value.cancels ==> Stands(db, r, a, true);
    }
  }

  // A candidate is re-pointed exactly on an unleased ticket whose last run waits
  // for approval and was not approved, to a full commit id, with a note.
  lemma RepointCompletes(db: Db, t: nat, fullSha: bool, sha: string, blank: bool)
    ensures var q := RepointRun(db, t, fullSha, sha, blank);
            && (q.Ok? <==>
                  && fullSha && !blank && t < |db.tickets| && db.tickets[t].active.None? && db.tickets[t].last.Some?
                  && db.tickets[t].last.value < |db.runs|
                  && db.runs[db.tickets[t].last.value].phase == AwaitingMergeApproval
                  && db.runs[db.tickets[t].last.value].resumePhase.None?)
            && (q.Ok? ==>
                  var r := db.tickets[t].last.value;
                  q.db == db.(interventions := db.interventions + [Intervention(Some(r), Repoint, true, false)],
                              runs := db.runs[r := db.runs[r].(candidate := Some(sha))]))
  {
  }

  // ------------------------------------------------------------ instructions

  // Run `r` is the last of its ticket, unleased, and will resume on its pull
  // request.
  predicate WaitsOnPullRequest(db: Db, r: nat) {
    && r < |db.runs| && db.runs[r].ticket < |db.tickets|
    && db.tickets[db.runs[r].ticket].last == Some(r) && db.tickets[db.runs[r].ticket].active.None?
    && db.runs[r].prUrl.Some? && db.runs[r].resumePhase == Some(MergeGate)
  }

  // Run `r` holds its ticket's lease and babysits its pull request.
  predicate Babysits(db: Db, r: nat) {
    && r < |db.runs| && db.runs[r].ticket < |db.tickets| && db.tickets[db.runs[r].ticket].active == Some(r)
    && db.runs[r].endedAt.None? && db.runs[r].prUrl.Some?
    && (db.runs[r].phase == MergeGate || db.runs[r].phase == Verifying || db.runs[r].phase == Reviewing)
  }

  // An instruction is added exactly to a run that will read it: one that waits to
  // resume on its pull request, or one that babysits it.
  lemma NotesComplete(db: Db, r: nat, blank: bool)
    ensures var q := AddNote(db, r, blank);
            && (q.Ok? <==> !blank && WaitsOnPullRequest(db, r))
            && (q.Ok? ==>
                  q.db == db.(interventions := db.interventions + [Intervention(Some(r), OperatorNote, true, false)],
                              events := db.events + [Note(r)]))
    ensures var q := NoteLive(db, r, blank);
            && (q.Ok? <==> !blank && Babysits(db, r))
            && (q.Ok? ==> q.db == db.(events := db.events + [Note(r)]))
  {
  }

  // Event `e` is an instruction for run `r` on pull request `url` that no event
  // consumed: one left on it, or on an earlier run of the ticket on the same pull
  // request.
  predicate Unread(db: Db, r: nat, url: string, e: nat)
    requires r < |db.runs|
  {
    && e < |db.events| && db.events[e].Note?
    && (forall c :: 0 <= c < |db.events| ==> db.events[c] != Consumed(db.events[c].run, e))
    && (|| db.events[e].run == r
        || (&& db.events[e].run < r && db.runs[db.events[e].run].ticket == db.runs[r].ticket
            && db.runs[db.events[e].run].prUrl == Some(if db.runs[r].prUrl.Some? then db.runs[r].prUrl.value else url)))
  }

  // A run enters merging exactly when no instruction on its pull request is left
  // unread and the table lets it; with one left it stays where it is.
  lemma BeginMergeCompletes(db: Db, r: nat, url: string)
    requires r < |db.runs|
    ensures var q := BeginMerge(db, r, url);
            if exists e :: 0 <= e < |db.events| && Unread(db, r, url, e) then q == Ok(db)
            else
              && (q.Ok? <==> MayEnter(db, r, Merging))
              && (q.Ok? ==> q.db == db.(runs := db.runs[r := db.runs[r].(phase := Merging, merging := Some(url))]))
  {
    forall e | 0 <= e < |db.events| ensures PendingNote(db, r, Some(url), e) <==> Unread(db, r, url, e) {
      UnreadIsPending(db, r, url, e);
    }
    if !NonePending(db, r, Some(url)) {
      var e :| 0 <= e < |db.events| && PendingNote(db, r, Some(url), e);
      assert Unread(db, r, url, e);
    }
  }

  lemma UnreadIsPending(db: Db, r: nat, url: string, e: nat)
    requires r < |db.runs| && e < |db.events|
    ensures PendingNote(db, r, Some(url), e) <==> Unread(db, r, url, e)
  {
    if IsConsumed(db.events, e) {
      var c :| 0 <= c < |db.events| && db.events[c].Consumed? && db.events[c].note == e;
      assert db.events[c] == Consumed(db.events[c].run, e);
    }
  }

  // ------------------------------------------------------------------ steers

  // How a steer on a ticket is taken: carried by an instruction on its pull
  // request, left for the next implementer's turn, or not at all.
  datatype Taken = Carried | Left | No

  // The ticket's last run, if the rows have it.
  function LastOf(db: Db, t: nat): Option<Run>
    requires t < |db.tickets|
  {
    match db.tickets[t].last
    case None => None
    case Some(r) => if r < |db.runs| then Some(db.runs[r]) else None
  }

  predicate AtGate(p: Option<Phase>) {
    p == Some(MergeGate) || p == Some(Merging)
  }

  // A live run carries a steer while it babysits its pull request, and takes one
  // for a later turn while it has one to come: before its pull request, before
  // its steering closed, and not when it resumes a candidate past that turn.
  function LiveTakes(db: Db, t: nat, r: nat): Taken
    requires t < |db.tickets| && r < |db.runs|
  {
    var run := db.runs[r];
    var resume := match LastOf(db, t) case Some(last) => last.resumePhase case None => None;
    if run.prUrl.Some? then
      if run.phase in {MergeGate, Verifying, Reviewing} then Carried else No
    else if run.phase in {Working, Verifying, Reviewing, Addressing} && SteerClosed(r) !in db.events then Left
    else if run.phase == Claimed && SteerClosed(r) !in db.events && !AtGate(resume) then Left
    else No
  }

  // A ticket at rest carries a steer on the pull request it is parked on or will
  // resume on; otherwise it keeps one for its next run, unless that run would
  // resume past its implementer's turn.
  function IdleTakes(db: Db, t: nat): Taken
    requires t < |db.tickets|
  {
    var status := db.tickets[t].status;
    match LastOf(db, t)
    case None => if status in {Status.Merged, Status.Abandoned, Status.BlockedOnOperator} then No else Left
    case Some(last) =>
      if status in {Status.Merged, Status.Abandoned} then No
      else if status == Status.BlockedOnOperator then
        if last.phase == AwaitingMergeApproval && last.prUrl.Some? then Carried else No
      else if last.outcome == Some(Outcome.Paused) then
        if last.resumePhase == None || last.resumePhase == Some(Working) then Left else No
      else if last.resumePhase == Some(MergeGate) && last.prUrl.Some? then Carried
      else if AtGate(last.resumePhase) then No
      else Left
  }

  // A steer is accepted exactly when it says something that reads and someone
  // will take it; an interruption only of a live run.  Then one steer is written
  // for the run it is on, with the instruction that carries it when one does.  A
  // parked ticket is sent back with it; no other run or ticket changes.
  lemma SteerCompletes(
      db: Db, t: nat, amendment: bool, interrupt: bool, blank: bool, bad: bool, human: bool, now: int)
    requires Good(db)
    ensures var q := SteerTicket(db, t, amendment, interrupt, blank, bad, human, now);
            && (q.Ok? <==>
                  && !blank && !bad && t < |db.tickets|
                  && (if db.tickets[t].active.Some? then LiveTakes(db, t, db.tickets[t].active.value) != No
                      else !interrupt && IdleTakes(db, t) != No))
            && (q.Ok? ==>
                  var live := db.tickets[t].active.Some?;
                  var on := if live then db.tickets[t].active else db.tickets[t].last;
                  var carried := (if live then LiveTakes(db, t, on.value) else IdleTakes(db, t)) == Carried;
                  && q.db.steers == db.steers
                     + [SteerNote(t, on, amendment, if carried then Some(|db.events|) else None, None, false)]
                  && q.db.events == (if carried then db.events + [Note(on.value)] else db.events)
                  && q.db.interventions == db.interventions
                     + [Intervention(on, if carried && !live then OperatorNote else Steer, live || carried || human, false)]
                  && q.db.held == db.held
                  && if !live && db.tickets[t].status == Status.BlockedOnOperator
                     then
                       && q.db.tickets == db.tickets[t := db.tickets[t].(status := Ready)]
                       && |q.db.runs| == |db.runs|
                       && forall i :: 0 <= i < |db.runs| ==>
                            q.db.runs[i] ==
                              if Some(i) == on
                              then Ended(db.runs[i], now).(resumePhase := Some(MergeGate), parkKind := None, approvedAt := None)
                              else if db.runs[i].ticket == t then db.runs[i].(parkKind := None) else db.runs[i]
                     else q.db.runs == db.runs && q.db.tickets == db.tickets)
  {
    hide Good, ReleaseParked;
    if t < |db.tickets| {
      var k := db.tickets[t];
      if k.active.Some? { LiveIsOwn(db, t); }
      if k.last.Some? { LastIsOwn(db, t); }
      if k.last.Some? && k.active.None? && k.status == Status.BlockedOnOperator {
        ReleaseParkedCompletes(db, t, OperatorNote, false, true, true, None, now);
      }
    }
  }

  lemma LiveIsOwn(db: Db, t: nat)
    requires Good(db) && t < |db.tickets| && db.tickets[t].active.Some?
    ensures var r := db.tickets[t].active.value; r < |db.runs| && db.runs[r].ticket == t && db.runs[r].endedAt.None?
  {
    assert LeaseOk(db.tickets[t], t, db.runs);
  }

  lemma {:induction false} WithdrawnAt(steers: seq<SteerNote>, t: nat, i: nat)
    requires i < |steers|
    ensures WithdrawAll(steers, t)[i] ==
            if steers[i].ticket == t && steers[i].amendment then steers[i].(withdrawn := true) else steers[i]
  {
    if i < |steers| - 1 { WithdrawnAt(steers[..|steers| - 1], t, i); }
  }

  // A withdrawal succeeds exactly on a ticket that is not sealed, has no live run
  // and has an amendment standing; then none of its amendments stands, and no
  // other steer changes.
  lemma WithdrawCompletes(db: Db, t: nat, blank: bool)
    ensures var q := WithdrawSteers(db, t, blank);
            && (q.Ok? <==>
                  && !blank && t < |db.tickets| && db.tickets[t].active.None?
                  && db.tickets[t].status != Status.Merged && db.tickets[t].status != Status.Abandoned
                  && exists i :: 0 <= i < |db.steers| && db.steers[i].ticket == t && db.steers[i].amendment
                                 && !db.steers[i].withdrawn)
            && (q.Ok? ==>
                  && q.db == db.(steers := q.db.steers, interventions := q.db.interventions)
                  && q.db.interventions == db.interventions + [Intervention(db.tickets[t].last, Steer, true, false)]
                  && |q.db.steers| == |db.steers|
                  && forall i :: 0 <= i < |db.steers| ==>
                       q.db.steers[i] == if db.steers[i].ticket == t && db.steers[i].amendment
                                         then db.steers[i].(withdrawn := true) else db.steers[i])
  {
    hide WithdrawAll;
    forall i | 0 <= i < |db.steers|
      ensures WithdrawAll(db.steers, t)[i] ==
              if db.steers[i].ticket == t && db.steers[i].amendment then db.steers[i].(withdrawn := true) else db.steers[i]
    {
      WithdrawnAt(db.steers, t, i);
    }
  }

  // Each steer a turn took is the turn's if nobody took it before; no other steer
  // and no other row changes.
  lemma {:induction false} StepsTaken(db: Db, r: nat, notes: seq<nat>)
    ensures var q := ConsumeSteers(db, r, notes);
            && q.Ok? && q.db == db.(steers := q.db.steers) && |q.db.steers| == |db.steers|
            && forall i :: 0 <= i < |db.steers| ==>
                 q.db.steers[i] == if i in notes && db.steers[i].consumedBy.None?
                                   then db.steers[i].(consumedBy := Some(r)) else db.steers[i]
    decreases |notes|
  {
    if notes != [] {
      var n := notes[0];
      var d := if n < |db.steers| && db.steers[n].consumedBy.None?
               then db.(steers := db.steers[n := db.steers[n].(consumedBy := Some(r))]) else db;
      StepsTaken(d, r, notes[1..]);
      assert notes == [n] + notes[1..];
    }
  }

  // Each instruction a round read is marked consumed by its run, in turn.
  lemma {:induction false} NotesConsumed(db: Db, r: nat, notes: seq<nat>)
    requires r < |db.runs|
    ensures ConsumeNotes(db, r, notes)
            == Ok(db.(events := db.events + seq(|notes|, i requires 0 <= i < |notes| => Consumed(r, notes[i]))))
    decreases |notes|
  {
    if notes == [] {
      assert db.events + [] == db.events;
    } else {
      NotesConsumed(db.(events := db.events + [Consumed(r, notes[0])]), r, notes[1..]);
      var all := seq(|notes|, i requires 0 <= i < |notes| => Consumed(r, notes[i]));
      var rest := seq(|notes| - 1, i requires 0 <= i < |notes| - 1 => Consumed(r, notes[1..][i]));
      assert all == [Consumed(r, notes[0])] + rest;
      assert db.events + all == db.events + [Consumed(r, notes[0])] + rest;
    }
  }

  // Steering closes for a run exactly when no steer waits on its ticket.
  lemma CloseCompletes(db: Db, r: nat)
    requires r < |db.runs|
    ensures CloseSteers(db, r) ==
            if exists i :: 0 <= i < |db.steers| && db.steers[i].ticket == db.runs[r].ticket && db.steers[i].event.None?
                           && db.steers[i].consumedBy.None? && !db.steers[i].withdrawn
            then Ok(db) else Ok(db.(events := db.events + [SteerClosed(r)]))
  {
    if !NoneWaits(db, db.runs[r].ticket) {
      var i :| 0 <= i < |db.steers| && Waits(db.steers[i], db.runs[r].ticket);
      assert db.steers[i].ticket == db.runs[r].ticket;
    }
    forall i | 0 <= i < |db.steers| && db.steers[i].ticket == db.runs[r].ticket && db.steers[i].event.None?
               && db.steers[i].consumedBy.None? && !db.steers[i].withdrawn
      ensures !NoneWaits(db, db.runs[r].ticket)
    {
      assert Waits(db.steers[i], db.runs[r].ticket);
    }
  }
}

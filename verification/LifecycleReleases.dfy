// Requeueing a ticket and releasing the run it is parked on, stated on the rows.

module LifecycleReleases {
  // What each asks of a ticket, and every row it leaves behind.

  import Path = StatusPath
  import opened Lifecycle
  import opened LifecycleMoves
  import opened LifecycleFacts

  // A run once the ticket it is of has left blocked_on_operator, or as it was.
  predicate Unmarked(a: Run, b: Run, t: nat) {
    b == a || (a.ticket == t && b == a.(parkKind := None))
  }

  lemma TransitionIs(db: Db, t: nat, to: Status)
    requires t < |db.tickets| && to in NextStatuses(db.tickets[t].status)
    ensures var r := Transition(db, t, to);
            && r.Ok?
            && r.db == db.(tickets := db.tickets[t := db.tickets[t].(status := to)], runs := r.db.runs)
            && |r.db.runs| == |db.runs|
            && forall i :: 0 <= i < |db.runs| ==>
                 r.db.runs[i] == if db.tickets[t].status == Status.BlockedOnOperator && db.runs[i].ticket == t
                                 then db.runs[i].(parkKind := None) else db.runs[i]
  {
    hide ClearParkKinds;
    forall i | 0 <= i < |db.runs|
      ensures ClearParkKinds(db.runs, t)[i] == if db.runs[i].ticket == t then db.runs[i].(parkKind := None) else db.runs[i]
    {
      ClearParkKindsAt(db.runs, t, i);
    }
  }

  lemma {:induction false} TransitionAllCompletes(db: Db, t: nat, path: seq<Status>, to: Status)
    requires t < |db.tickets| && Path.IsPath(STATUSES, db.tickets[t].status, path, to)
    ensures var r := TransitionAll(db, t, path);
            && r.Ok?
            && r.db == db.(tickets := db.tickets[t := db.tickets[t].(status := to)], runs := r.db.runs)
            && |r.db.runs| == |db.runs|
            && (forall i :: 0 <= i < |db.runs| ==> Unmarked(db.runs[i], r.db.runs[i], t))
            && (path != [] && db.tickets[t].status == Status.BlockedOnOperator ==> NoneMarked(r.db, t))
    decreases |path|
  {
    hide Transition;
    if path != [] {
      assert path[0] in STATUSES[db.tickets[t].status];
      TransitionIs(db, t, path[0]);
      var d := Transition(db, t, path[0]).db;
      TransitionAllCompletes(d, t, path[1..], to);
    }
  }

  // No run of the ticket is marked with a kind of park.
  ghost predicate NoneMarked(db: Db, t: nat) {
    forall i :: 0 <= i < |db.runs| && db.runs[i].ticket == t ==> db.runs[i].parkKind.None?
  }

  lemma DeadEnds(from: Status, path: seq<Status>)
    requires Path.IsPath(STATUSES, from, path, Ready)
    ensures from != Status.Merged && from != Status.Abandoned
  {
  }

  // Any way back to ready leaves blocked_on_operator.
  lemma {:induction false} WayBackUnmarks(db: Db, t: nat, path: seq<Status>)
    requires t < |db.tickets| && db.tickets[t].status in {InFlight, Status.BlockedOnOperator}
    requires Path.IsPath(STATUSES, db.tickets[t].status, path, Ready)
    ensures TransitionAll(db, t, path).Ok? && NoneMarked(TransitionAll(db, t, path).db, t)
  {
    hide Transition;
    TransitionAllCompletes(db, t, path, Ready);
    if db.tickets[t].status == InFlight {
      assert path[0] in STATUSES[InFlight];
      DeadEnds(path[0], path[1..]);
      assert path[1..] != [];
      TransitionIs(db, t, path[0]);
      TransitionAllCompletes(Transition(db, t, path[0]).db, t, path[1..], Ready);
    }
  }

  ghost predicate Reaches(from: Status, to: Status) {
    exists q :: Path.IsPath(STATUSES, from, q, to)
  }

  lemma {:induction false} ReachesByPath(from: Status, to: Status)
    ensures Reaches(from, to) <==> from == to || Path.Shortest(STATUSES, from, to).Some?
  {
    Path.ShortestPath(STATUSES, from, to);
    var found := Path.Shortest(STATUSES, from, to);
    if from == to {
      assert Path.IsPath(STATUSES, from, [], to);
    } else if found.Some? {
      assert Path.IsPath(STATUSES, from, found.value, to);
    } else {
      forall q | Path.IsPath(STATUSES, from, q, to) ensures Path.Leads(STATUSES, from, q, to) {
      }
    }
  }

  // A walk completes exactly when the table has a path, and then changes the
  // ticket's status and, of its own runs, the kind of park alone.
  lemma {:induction false} WalkCompletes(db: Db, t: nat, to: Status)
    requires t < |db.tickets|
    ensures var r := Walk(db, t, to);
            && (r.Ok? <==> Reaches(db.tickets[t].status, to))
            && (r.Ok? ==>
                  && r.db == db.(tickets := db.tickets[t := db.tickets[t].(status := to)], runs := r.db.runs)
                  && |r.db.runs| == |db.runs|
                  && forall i :: 0 <= i < |db.runs| ==> Unmarked(db.runs[i], r.db.runs[i], t))
  {
    hide Reaches, TransitionAll;
    var from := db.tickets[t].status;
    ReachesByPath(from, to);
    if from != to {
      Path.ShortestPath(STATUSES, from, to);
      var found := Path.Shortest(STATUSES, from, to);
      if found.Some? { TransitionAllCompletes(db, t, found.value, to); }
    }
  }

  lemma {:induction false} ReadyIsReachable(from: Status)
    requires from in {InFlight, Status.BlockedOnOperator}
    ensures Reaches(from, Ready)
  {
    var q := [BlockedOnDeps, Ready];
    assert q[1..] == [Ready];
    assert Path.IsPath(STATUSES, Ready, [], Ready);
    assert Path.IsPath(STATUSES, BlockedOnDeps, [Ready], Ready);
    assert Path.IsPath(STATUSES, Status.BlockedOnOperator, q, Ready);
    assert ([Status.BlockedOnOperator] + q)[1..] == q;
    assert Path.IsPath(STATUSES, InFlight, [Status.BlockedOnOperator] + q, Ready);
  }

  // The ticket is ready and unleased, and its last run ended.
  predicate BackToReady(db: Db, t: nat, r: nat) {
    && t < |db.tickets| && db.tickets[t].status == Ready && db.tickets[t].active.None?
    && db.tickets[t].last == Some(r) && r < |db.runs| && db.runs[r].endedAt.Some?
  }

  // Releasing a parked run that holds no lease only ends it.
  lemma {:induction false} ReleaseEnds(db: Db, r: nat, now: int)
    requires Good(db) && r < |db.runs| && db.runs[r].phase in PARKED_PHASES && Unleased(db, r)
    ensures Release(db, r, Outcome.Abandoned, None, None, now)
            == Ok(db.(runs := db.runs[r := Ended(db.runs[r], now)]))
  {
    hide Good;
    NotEnded(db, r);
    GoodRun(db, r);
    var failed := db.runs[r].(phase := Phase.Failed, merging := None);
    assert SetPhase(db, r, Phase.Failed) == Ok(db.(runs := db.runs[r := failed]));
    assert DropLease(db.tickets, failed.ticket, r) == db.tickets;
    assert db.runs[r := failed][r := Ended(db.runs[r], now)] == db.runs[r := Ended(db.runs[r], now)];
  }

  lemma {:induction false} LastUnleased(db: Db, t: nat)
    requires Good(db) && t < |db.tickets| && db.tickets[t].active.None? && db.tickets[t].last.Some?
    ensures Unleased(db, db.tickets[t].last.value)
  {
    LastIsOwn(db, t);
    forall u | 0 <= u < |db.tickets| ensures db.tickets[u].active != Some(db.tickets[t].last.value) {
      assert LeaseOk(db.tickets[u], u, db.runs);
    }
  }

  // Ticket `t` is ready again, and every run but `r` as it was, unmarked.
  ghost predicate ReadyAgain(db: Db, after: Db, t: nat, r: nat)
    requires t < |db.tickets| && r < |db.runs|
  {
    && after.held == db.held && after.steers == db.steers
    && after.tickets == db.tickets[t := db.tickets[t].(status := Ready)]
    && |after.runs| == |db.runs|
    && forall i :: 0 <= i < |db.runs| && i != r ==>
         after.runs[i] == if db.runs[i].ticket == t then db.runs[i].(parkKind := None) else db.runs[i]
  }

  lemma WalksToReady(db: Db, t: nat)
    requires t < |db.tickets| && db.tickets[t].status in {InFlight, Status.BlockedOnOperator}
    ensures var r := Walk(db, t, Ready);
            && r.Ok?
            && r.db == db.(tickets := db.tickets[t := db.tickets[t].(status := Ready)], runs := r.db.runs)
            && |r.db.runs| == |db.runs|
            && forall i :: 0 <= i < |db.runs| ==>
                 r.db.runs[i] == if db.runs[i].ticket == t then db.runs[i].(parkKind := None) else db.runs[i]
  {
    hide TransitionAll;
    var from := db.tickets[t].status;
    ReadyIsReachable(from);
    ReachesByPath(from, Ready);
    Path.ShortestPath(STATUSES, from, Ready);
    var path := Path.Shortest(STATUSES, from, Ready).value;
    TransitionAllCompletes(db, t, path, Ready);
    WayBackUnmarks(db, t, path);
  }

  // A parked run as releasing it ends it.
  function Ended(run: Run, now: int): Run {
    run.(phase := Phase.Failed, endedAt := Some(now), outcome := Some(Outcome.Abandoned), resumePhase := None,
         merging := None)
  }

  // --------------------------------------------------------------- requeue

  // A requeue of a failed or rejected run of the ticket, among the first `n`
  // interventions, since when no person did anything else on the ticket.
  predicate Struck(db: Db, t: nat, n: nat, i: nat)
    requires n <= |db.interventions|
  {
    && i < n && db.interventions[i].action == Requeue
    && db.interventions[i].run.Some? && db.interventions[i].run.value < |db.runs|
    && db.runs[db.interventions[i].run.value].ticket == t
    && (db.runs[db.interventions[i].run.value].outcome == Some(Outcome.Failed)
        || db.runs[db.interventions[i].run.value].outcome == Some(Outcome.Rejected))
    && forall j :: i < j < n && db.interventions[j].human && db.interventions[j].run.Some?
                   && db.interventions[j].run.value < |db.runs| && db.runs[db.interventions[j].run.value].ticket == t ==>
         db.interventions[j].action == Requeue
  }

  predicate StruckTwice(db: Db, t: nat, n: nat)
    requires n <= |db.interventions|
  {
    exists i, j :: 0 <= i < j < n && Struck(db, t, n, i) && Struck(db, t, n, j)
  }

  // The latest intervention either ends what counted before it or leaves it.
  lemma {:induction false} StruckBefore(db: Db, t: nat, n: nat, i: nat)
    requires 0 < n <= |db.interventions| && i < n - 1
    ensures var x := db.interventions[n - 1];
            Struck(db, t, n, i) <==> Struck(db, t, n - 1, i) && !(OfTicket(db, x, t) && x.human && x.action != Requeue)
  {
    var x := db.interventions[n - 1];
    if Struck(db, t, n - 1, i) && !(OfTicket(db, x, t) && x.human && x.action != Requeue) {
      assert Struck(db, t, n, i);
    }
  }

  predicate StruckOnce(db: Db, t: nat, n: nat)
    requires n <= |db.interventions|
  {
    exists i :: 0 <= i < n && Struck(db, t, n, i)
  }

  lemma StruckStep(db: Db, t: nat, n: nat)
    requires 0 < n <= |db.interventions|
    ensures var x := db.interventions[n - 1];
            var ends := OfTicket(db, x, t) && x.human && x.action != Requeue;
            && (StruckOnce(db, t, n) <==> (StruckOnce(db, t, n - 1) && !ends) || Struck(db, t, n, n - 1))
            && (StruckTwice(db, t, n) <==>
                  (StruckTwice(db, t, n - 1) && !ends) || (StruckOnce(db, t, n - 1) && !ends && Struck(db, t, n, n - 1)))
  {
    hide Struck;
    var m: nat := n - 1;
    var x := db.interventions[m];
    var ends := OfTicket(db, x, t) && x.human && x.action != Requeue;
    forall i: nat | i < m ensures Struck(db, t, n, i) <==> (Struck(db, t, m, i) && !ends) {
      StruckBefore(db, t, n, i);
    }
    forall i: nat ensures Struck(db, t, m, i) ==> i < m {
      StruckEarly(db, t, m, i);
    }
    if StruckTwice(db, t, m) && !ends {
      var i, j :| 0 <= i < j < m && Struck(db, t, m, i) && Struck(db, t, m, j);
      assert Struck(db, t, n, i) && Struck(db, t, n, j);
    }
    if StruckOnce(db, t, m) && !ends {
      var i :| 0 <= i < m && Struck(db, t, m, i);
      assert Struck(db, t, n, i);
    }
    if StruckTwice(db, t, n) {
      var i, j :| 0 <= i < j < n && Struck(db, t, n, i) && Struck(db, t, n, j);
      assert Struck(db, t, m, i) && !ends;
    }
  }

  lemma StruckEarly(db: Db, t: nat, n: nat, i: nat)
    requires n <= |db.interventions|
    ensures Struck(db, t, n, i) ==> i < n
  {
  }

  lemma {:induction false} RelaunchesStruck(db: Db, t: nat, n: nat)
    requires n <= |db.interventions|
    ensures Relaunches(db, t, n) >= 1 <==> StruckOnce(db, t, n)
    ensures Relaunches(db, t, n) >= 2 <==> StruckTwice(db, t, n)
    decreases n
  {
    hide Struck;
    if n > 0 {
      RelaunchesStruck(db, t, n - 1);
      StruckStep(db, t, n);
      LastStruck(db, t, n);
    }
  }

  lemma LastStruck(db: Db, t: nat, n: nat)
    requires 0 < n <= |db.interventions|
    ensures var x := db.interventions[n - 1];
            Struck(db, t, n, n - 1) <==>
              x.action == Requeue && OfTicket(db, x, t)
              && db.runs[x.run.value].outcome in {Some(Outcome.Failed), Some(Outcome.Rejected)}
  {
  }

  // What `requeue` asks of a ticket before anything is written: the board has it
  // open and no run of it is live; its last run failed, was rejected or was
  // aborted, or is parked as a contradiction or as not reproduced; and unless
  // forced it was not relaunched twice since a person last acted on it.
  predicate Requeueable(db: Db, t: nat, force: bool) {
    && t < |db.tickets| && db.tickets[t].board != "Backlog" && db.tickets[t].board != "Canceled"
    && db.tickets[t].board != "Done" && db.tickets[t].active.None?
    && db.tickets[t].last.Some? && db.tickets[t].last.value < |db.runs|
    && (RanOut(db, t, db.tickets[t].last.value) || ParkedUnworkable(db, t, db.tickets[t].last.value))
    && (force || !StruckTwice(db, t, |db.interventions|))
  }

  predicate RanOut(db: Db, t: nat, r: nat)
    requires t < |db.tickets| && r < |db.runs|
  {
    && (db.tickets[t].status == InFlight || db.tickets[t].status == Status.BlockedOnOperator)
    && (|| db.runs[r].outcome == Some(Outcome.Failed)
        || db.runs[r].outcome == Some(Outcome.Rejected)
        || (db.runs[r].outcome == Some(Outcome.Abandoned)
            && exists i :: 0 <= i < |db.interventions| && db.interventions[i].run == Some(r)
                           && (db.interventions[i].action == Abort || db.interventions[i].action == AbortClose)))
  }

  predicate ParkedUnworkable(db: Db, t: nat, r: nat)
    requires t < |db.tickets| && r < |db.runs|
  {
    && db.tickets[t].status == Status.BlockedOnOperator
    && (|| (db.runs[r].phase == Phase.BlockedOnOperator && db.runs[r].parkKind == Some(Contradiction))
        || (db.runs[r].phase == AwaitingMergeApproval && db.runs[r].parkKind == Some(NotReproduced)))
  }

  // Whether a requeue is admitted, and has a parked run to release first.
  lemma AdmitsIs(db: Db, t: nat)
    requires Good(db) && t < |db.tickets| && LastRun(db, t).Some?
    ensures var r := db.tickets[t].last.value;
            var a := Admits(db.tickets[t].status, LastRun(db, t), Aborted(db, r));
            && (a.Some? <==> RanOut(db, t, r) || ParkedUnworkable(db, t, r))
            && (a.Some? ==> (a.value <==> ParkedUnworkable(db, t, r)))
            && (ParkedUnworkable(db, t, r) ==> db.runs[r].outcome.None?)
            && (RanOut(db, t, r) ==> db.runs[r].outcome.Some?)
  {
    GoodRun(db, db.tickets[t].last.value);
  }

  // A requeue succeeds exactly when the rows admit it and its note says
  // something.  Then the ticket is ready and unleased; a parked run is abandoned,
  // an ended one stays ended, and neither is approved any more; the requeue is
  // recorded on it, and nothing else changes.
  lemma {:induction false} RequeueCompletes(db: Db, t: nat, blank: bool, human: bool, force: bool, now: int)
    requires Good(db)
    ensures var q := RequeueTicket(db, t, blank, human, force, now);
            && (q.Ok? <==> Requeueable(db, t, force) && !blank)
            && (q.Ok? ==>
                  var r := db.tickets[t].last.value;
                  var was := db.runs[r];
                  && ReadyAgain(db, q.db, t, r) && q.db.events == db.events
                  && q.db.interventions == db.interventions + [Intervention(Some(r), Requeue, human, false)]
                  && q.db.tickets[t].active.None? && q.db.runs[r].endedAt.Some?
                  && q.db.runs[r] == (if was.outcome.Some? then was else Ended(was, now)).(approvedAt := None, parkKind := None))
  {
    hide Good, Release, Walk, Relaunches, Aborted, Moves, Admits, RanOut, ParkedUnworkable, StruckTwice;
    if t < |db.tickets| && LastRun(db, t).Some? {
      AdmitsIs(db, t);
      RelaunchesStruck(db, t, |db.interventions|);
    }
    if Requeueable(db, t, force) && !blank {
      var r := db.tickets[t].last.value;
      LastIsOwn(db, t);
      LastUnleased(db, t);
      var d1 := Record(db, r, Requeue, blank, human, false).db;
      RecordMoves(db, r, Requeue, blank, human, false);
      MovesGood(db, d1, None);
      ParkedPhase(db, t, r);
      GoodRun(db, r);
      if ParkedUnworkable(db, t, r) { ReleaseEnds(d1, r, now); }
      var d2 := if ParkedUnworkable(db, t, r) then d1.(runs := d1.runs[r := Ended(d1.runs[r], now)]) else d1;
      WalksToReady(d2.(runs := d2.runs[r := d2.runs[r].(approvedAt := None)]), t);
    }
  }

  lemma ParkedPhase(db: Db, t: nat, r: nat)
    requires t < |db.tickets| && r < |db.runs|
    ensures ParkedUnworkable(db, t, r) ==>
              db.runs[r].phase in PARKED_PHASES && db.tickets[t].status == Status.BlockedOnOperator
    ensures RanOut(db, t, r) ==> db.tickets[t].status in {InFlight, Status.BlockedOnOperator}
  {
  }

  // ------------------------------------------------------ parked releases

  // What an approval or a send-back to the babysitter asks of a ticket.
  predicate Releasable(db: Db, t: nat, requirePr: bool, only: Option<nat>) {
    && t < |db.tickets| && db.tickets[t].active.None? && db.tickets[t].status == Status.BlockedOnOperator
    && (only.Some? ==> db.tickets[t].last == only)
    && db.tickets[t].last.Some? && db.tickets[t].last.value < |db.runs|
    && db.runs[db.tickets[t].last.value].phase == AwaitingMergeApproval
    && (requirePr ==> db.runs[db.tickets[t].last.value].prUrl.Some?)
  }

  // Approve, babysit and send back succeed exactly when admitted with a note that
  // says something.  Then the ticket is ready and unleased, and its run is
  // abandoned and resumes at the merge gate, approved only by an approval; what
  // was asked is recorded on it, a send-back's instruction with it, and nothing
  // else changes.
  lemma {:induction false} ReleaseParkedCompletes(
      db: Db, t: nat, action: Action, blank: bool, human: bool, requirePr: bool, only: Option<nat>, now: int)
    requires Good(db)
    ensures var q := ReleaseParked(db, t, action, blank, human, requirePr, only, now);
            && (q.Ok? <==> Releasable(db, t, requirePr, only) && !blank)
            && (q.Ok? ==>
                  var r := db.tickets[t].last.value;
                  && ReadyAgain(db, q.db, t, r) && q.db.tickets[t].active.None?
                  && q.db.interventions == db.interventions + [Intervention(Some(r), action, human, false)]
                  && q.db.events == (if action == OperatorNote then db.events + [Note(r)] else db.events)
                  && q.db.runs[r] == Ended(db.runs[r], now).(
                       resumePhase := Some(MergeGate), parkKind := None,
                       approvedAt := if action == Approve then Some(now) else None))
  {
    hide Good, Release, Walk, MergesNow, Moves;
    if Releasable(db, t, requirePr, only) && !blank {
      var r := db.tickets[t].last.value;
      LastIsOwn(db, t);
      LastUnleased(db, t);
      var d1 := Record(db, r, action, blank, human, false).db;
      RecordMoves(db, r, action, blank, human, false);
      MovesGood(db, d1, None);
      var d2 := if action == OperatorNote then d1.(events := d1.events + [Note(r)]) else d1;
      if action == OperatorNote {
        IdleTicket(d1, r);
        AddEvent(d1, Note(r), None);
        MovesGood(d1, d2, None);
      }
      ReleaseEnds(d2, r, now);
      var d3 := d2.(runs := d2.runs[r := Ended(d2.runs[r], now)]);
      var back := d3.runs[r].(resumePhase := Some(MergeGate), approvedAt := if action == Approve then Some(now) else None);
      WalksToReady(d3.(runs := d3.runs[r := back]), t);
    }
  }
}

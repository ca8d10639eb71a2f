// What holds over every history of the store's operations.

module LifecycleTheorems {
  import Path = StatusPath
  import opened Lifecycle
  import opened LifecycleMoves
  import opened LifecycleFacts
  import opened LifecycleRuns

  lemma {:induction false} HistoryKeeps(db: Db, steps: seq<Step>)
    requires Good(db) && SteersOk(db)
    ensures Good(RunSteps(db, steps)) && SteersOk(RunSteps(db, steps))
    decreases |steps|
  {
    hide Good, SteersOk, Apply;
    if steps != [] {
      StepKeeps(db, steps[0]);
      LastsGood(db, Apply(db, steps[0]), Resumed(steps[0]));
      HistoryKeeps(Apply(db, steps[0]), steps[1..]);
    }
  }

  lemma {:induction false} LastsGood(a: Db, b: Db, x: Option<nat>)
    requires Lasts(a, b, x)
    ensures Good(b)
  {
  }

  // ------------------------------------------------------- every store reached

  // A ticket's lease names one of its own runs that has not ended; a run has
  // `endedAt` when it has an outcome, and then its phase is the outcome's.
  lemma {:induction false} LeasesAndOutcomes(steps: seq<Step>)
    ensures var db := RunSteps(EMPTY, steps);
            && (forall t :: 0 <= t < |db.tickets| && db.tickets[t].active.Some? ==>
                  && db.tickets[t].active.value < |db.runs|
                  && db.runs[db.tickets[t].active.value].ticket == t
                  && db.runs[db.tickets[t].active.value].endedAt.None?)
            && (forall r :: 0 <= r < |db.runs| ==>
                  && (db.runs[r].endedAt.Some? <==> db.runs[r].outcome.Some?)
                  && (db.runs[r].outcome.Some? ==> db.runs[r].phase == TerminalPhase(db.runs[r].outcome.value)))
  {
    HistoryKeeps(EMPTY, steps);
    var db := RunSteps(EMPTY, steps);
    forall t | 0 <= t < |db.tickets| ensures LeaseOk(db.tickets[t], t, db.runs) {
    }
    forall r | 0 <= r < |db.runs| ensures RunOk(db.runs[r]) {
    }
  }

  ghost predicate HasAttempt(runs: seq<Run>, t: nat, a: int) {
    exists r :: 0 <= r < |runs| && runs[r].ticket == t && runs[r].attempt == a
  }

  lemma {:induction false} AttemptsUpTo(runs: seq<Run>, tickets: nat, t: nat, n: nat)
    requires RunsOk(runs, tickets) && n <= |runs|
    ensures forall r :: 0 <= r < n && runs[r].ticket == t ==> 1 <= runs[r].attempt <= Attempts(runs[..n], t)
    ensures forall r, q :: 0 <= r < q < n && runs[r].ticket == t && runs[q].ticket == t ==>
              runs[r].attempt < runs[q].attempt
    ensures forall a :: 1 <= a <= Attempts(runs[..n], t) ==> HasAttempt(runs[..n], t, a)
  {
    if n > 0 {
      AttemptsUpTo(runs, tickets, t, n - 1);
      assert runs[..n][..n - 1] == runs[..n - 1];
      forall a | 1 <= a <= Attempts(runs[..n], t)
        ensures HasAttempt(runs[..n], t, a)
      {
        if a <= Attempts(runs[..n - 1], t) {
          assert HasAttempt(runs[..n - 1], t, a);
          var r :| 0 <= r < n - 1 && runs[..n - 1][r].ticket == t && runs[..n - 1][r].attempt == a;
          assert runs[..n][r] == runs[r];
        } else {
          assert runs[..n][n - 1].ticket == t && runs[..n][n - 1].attempt == a;
        }
      }
    }
  }

  // A ticket's attempts are exactly 1 to the number of its runs, each once.
  lemma {:induction false} AttemptsExact(steps: seq<Step>, t: nat)
    ensures var runs := RunSteps(EMPTY, steps).runs;
            && (forall r :: 0 <= r < |runs| && runs[r].ticket == t ==> 1 <= runs[r].attempt <= Attempts(runs, t))
            && (forall r, q :: 0 <= r < q < |runs| && runs[r].ticket == t && runs[q].ticket == t ==>
                  runs[r].attempt != runs[q].attempt)
            && (forall a :: 1 <= a <= Attempts(runs, t) ==> HasAttempt(runs, t, a))
  {
    HistoryKeeps(EMPTY, steps);
    var db := RunSteps(EMPTY, steps);
    assert db.runs[..|db.runs|] == db.runs;
    AttemptsUpTo(db.runs, |db.tickets|, t, |db.runs|);
  }

  // Done, killed and rejected runs and merged and abandoned tickets stay so.
  lemma {:induction false} FinalStaysFinal(db: Db, steps: seq<Step>)
    requires Good(db)
    ensures var d := RunSteps(db, steps);
            && |db.runs| <= |d.runs| && |db.tickets| <= |d.tickets|
            && (forall r :: 0 <= r < |db.runs| && db.runs[r].phase in {Done, Phase.Killed, Phase.Rejected} ==>
                  d.runs[r].phase == db.runs[r].phase)
            && (forall t :: 0 <= t < |db.tickets| && db.tickets[t].status in {Status.Merged, Status.Abandoned} ==>
                  d.tickets[t].status == db.tickets[t].status)
    decreases |steps|
  {
    hide Good, Apply, Lasts;
    if steps != [] {
      var next := Apply(db, steps[0]);
      StepKeeps(db, steps[0]);
      LastsGood(db, next, Resumed(steps[0]));
      FinalStays(db, next, Resumed(steps[0]));
      FinalStaysFinal(next, steps[1..]);
    }
  }

  lemma {:induction false} FinalStays(a: Db, b: Db, x: Option<nat>)
    requires Lasts(a, b, x)
    ensures |a.runs| <= |b.runs| && |a.tickets| <= |b.tickets|
    ensures forall r :: 0 <= r < |a.runs| && a.runs[r].phase in {Done, Phase.Killed, Phase.Rejected} ==>
              b.runs[r].phase == a.runs[r].phase
    ensures forall t :: 0 <= t < |a.tickets| && a.tickets[t].status in {Status.Merged, Status.Abandoned} ==>
              b.tickets[t].status == a.tickets[t].status
  {
    hide Good, Frozen;
    forall r | 0 <= r < |a.runs| ensures RunKept(a.runs[r], b.runs[r]) {
    }
    forall t | 0 <= t < |a.tickets| ensures TicketKept(a.tickets[t], b.tickets[t]) {
    }
  }

  // An ended run keeps its phase, outcome and resume point until resumed.
  lemma {:induction false} EndedStaysFrozen(db: Db, steps: seq<Step>, r: nat)
    requires Good(db) && r < |db.runs| && db.runs[r].endedAt.Some?
    requires forall i :: 0 <= i < |steps| ==> Resumed(steps[i]) != Some(r)
    ensures var d := RunSteps(db, steps); Good(d) && r < |d.runs| && Frozen(db.runs[r], d.runs[r])
    decreases |steps|
  {
    hide Good, Apply, Lasts, Frozen;
    if steps == [] {
      FrozenThen(db.runs[r], db.runs[r], db.runs[r]);
    } else {
      var next := Apply(db, steps[0]);
      StepKeeps(db, steps[0]);
      LastsGood(db, next, Resumed(steps[0]));
      LastsFrozen(db, next, Resumed(steps[0]), r);
      FrozenThen(db.runs[r], next.runs[r], next.runs[r]);
      EndedStaysFrozen(next, steps[1..], r);
      FrozenThen(db.runs[r], next.runs[r], RunSteps(db, steps).runs[r]);
    }
  }

  lemma {:induction false} LastsFrozen(a: Db, b: Db, x: Option<nat>, r: nat)
    requires Lasts(a, b, x) && r < |a.runs| && x != Some(r)
    ensures r < |b.runs| && Frozen(a.runs[r], b.runs[r])
  {
    hide Frozen;
  }

  lemma {:induction false} FrozenThen(a: Run, b: Run, c: Run)
    ensures Frozen(a, a)
    ensures Frozen(a, b) && a.endedAt.Some? ==> b.endedAt.Some?
    ensures Frozen(a, b) && Frozen(b, c) ==> Frozen(a, c)
  {
  }

  // A run released as failed or abandoned from a work phase resumes into that
  // phase, whatever happened in between.
  lemma {:induction false} ResumesWhereItStopped(
      db: Db, r: nat, outcome: Outcome, asked: Option<Phase>, candidate: Option<string>, now: int, steps: seq<Step>,
      human: bool)
    requires Good(db) && r < |db.runs| && db.runs[r].endedAt.None? && db.runs[r].phase in WORK_PHASES
    requires outcome in {Outcome.Failed, Outcome.Abandoned}
    requires forall i :: 0 <= i < |steps| ==> Resumed(steps[i]) != Some(r)
    ensures var ended := Apply(db, DoRelease(r, outcome, asked, candidate, now));
            var later := RunSteps(ended, steps);
            var resumed := Apply(later, DoResume(r, false, false, human));
            && r < |resumed.runs| && resumed.runs[r].phase == db.runs[r].phase && resumed.runs[r].endedAt.None?
            && resumed.tickets == later.tickets
  {
    hide Good, Moves, DropLease, RunSteps;
    var step := DoRelease(r, outcome, asked, candidate, now);
    var ended := Apply(db, step);
    ReleaseMoves(db, r, outcome, asked, candidate, now);
    MovesGood(db, ended, None);
    EndedStaysFrozen(ended, steps, r);
  }

  // ------------------------------------------------------------ instructions

  // No steer is stranded: a leased run that closed its steering has none
  // waiting on its ticket.
  lemma {:induction false} NoSteerStranded(steps: seq<Step>, t: nat)
    ensures var db := RunSteps(EMPTY, steps); ClosedNow(db, t) ==> NoneWaits(db, t)
  {
    HistoryKeeps(EMPTY, steps);
  }
}

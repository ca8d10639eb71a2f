// Histories that reach the store's exceptions.

module LifecycleHistories {
  // Instructions stranded by either writer of a pull request, a terminal phase
  // without an end, and a resume that leaves the transition table.

  import opened Lifecycle
  import opened LifecycleMoves
  import opened LifecycleRuns
  import opened LifecycleStranding

  lemma {:induction false} RunSnoc(db: Db, steps: seq<Step>, step: Step)
    ensures RunSteps(db, steps + [step]) == Apply(RunSteps(db, steps), step)
    decreases |steps|
  {
    hide Apply;
    if steps == [] {
      assert [] + [step] == [step];
    } else {
      assert (steps + [step])[1..] == steps[1..] + [step];
      RunSnoc(Apply(db, steps[0]), steps[1..], step);
    }
  }

  // One more step of a history that stands at `db`.
  lemma {:induction false} Reaches(steps: seq<Step>, n: nat, db: Db, next: Db)
    requires n < |steps| && RunSteps(EMPTY, steps[..n]) == db && Apply(db, steps[n]) == next
    ensures RunSteps(EMPTY, steps[..n + 1]) == next
  {
    hide Apply, RunSteps;
    assert steps[..n + 1] == steps[..n] + [steps[n]];
    RunSnoc(EMPTY, steps[..n], steps[n]);
  }

  const TICKET := Ticket(0, Ready, None, None, 1, "ready", "Todo", false)
  const FIRST := Run(0, 0, 1, Claimed, None, None, None, None, None, None, None, None, None)

  // A ticket is mirrored and claimed.
  const CLAIMED: seq<Step> := [DoMirrorNew(0, true, "ready", "Todo", 1), DoClaim(0, 0, None, false)]

  const LEASED := Db({}, [TICKET.(active := Some(0))], [FIRST], [], [], [])

  lemma {:induction false} ClaimedIs()
    ensures RunSteps(EMPTY, CLAIMED) == LEASED
  {
    var d1 := EMPTY.(tickets := [TICKET]);
    assert RunSteps(EMPTY, CLAIMED[..0]) == EMPTY;
    assert Apply(EMPTY, CLAIMED[0]) == d1;
    Reaches(CLAIMED, 0, EMPTY, d1);
    assert Apply(d1, CLAIMED[1]) == LEASED;
    Reaches(CLAIMED, 1, d1, LEASED);
    assert CLAIMED[..2] == CLAIMED;
  }

  // ---------------------------------------------------------------- stranding

  // The first run is given an instruction on pull request A, fails, and is
  // resumed without its lease; the second enters merging on pull request B.
  const MERGING: seq<Step> := CLAIMED + [
    DoSetPhase(0, MergeGate), DoSetPullRequest(0, "A", None), DoNoteLive(0, false),
    DoRelease(0, Outcome.Failed, None, None, 1), DoResume(0, false, false, true), DoClaim(0, 0, None, false),
    DoSetPhase(1, MergeGate), DoSetPullRequest(1, "B", None), DoBeginMerge(1, "B")]

  const RESUMED := FIRST.(phase := Working, prUrl := Some("A"))
  const SECOND := FIRST.(attempt := 2)

  // The store once the second run is merging.
  const MERGES := Db(
    {}, [TICKET.(active := Some(1), last := Some(0))],
    [RESUMED, SECOND.(phase := Merging, prUrl := Some("B"), merging := Some("B"))],
    [Intervention(Some(0), Resume, true, false)], [Note(0)], [])

  // The store when the first run is back at work without the lease.
  const AT_WORK := Db({}, [TICKET.(last := Some(0))], [RESUMED], MERGES.interventions, MERGES.events, [])

  lemma {:induction false} AtWorkIs()
    ensures RunSteps(EMPTY, MERGING[..7]) == AT_WORK
  {
    hide RunSteps;
    ClaimedIs();
    assert MERGING[..2] == CLAIMED;
    var d3 := LEASED.(runs := [FIRST.(phase := MergeGate)]);
    Reaches(MERGING, 2, LEASED, d3);
    var d4 := LEASED.(runs := [FIRST.(phase := MergeGate, prUrl := Some("A"))]);
    Reaches(MERGING, 3, d3, d4);
    var d5 := d4.(events := [Note(0)]);
    Reaches(MERGING, 4, d4, d5);
    var d6 := d5.(tickets := [TICKET.(last := Some(0))],
                  runs := [FIRST.(phase := Phase.Failed, prUrl := Some("A"), endedAt := Some(1),
                                  outcome := Some(Outcome.Failed))]);
    Reaches(MERGING, 5, d5, d6);
    Reaches(MERGING, 6, d6, AT_WORK);
  }

  lemma {:induction false} MergingIs()
    ensures RunSteps(EMPTY, MERGING) == MERGES
  {
    hide RunSteps, BeginMerge, Claim;
    AtWorkIs();
    var d8 := AT_WORK.(tickets := MERGES.tickets, runs := [RESUMED, SECOND]);
    SecondClaim(AT_WORK, d8);
    Reaches(MERGING, 7, AT_WORK, d8);
    var d9 := d8.(runs := [RESUMED, SECOND.(phase := MergeGate)]);
    Reaches(MERGING, 8, d8, d9);
    var d10 := d8.(runs := [RESUMED, SECOND.(phase := MergeGate, prUrl := Some("B"))]);
    Reaches(MERGING, 9, d9, d10);
    EntersMerging(d10);
    Reaches(MERGING, 10, d10, MERGES);
    assert MERGING[..11] == MERGING;
  }

  lemma {:induction false} SecondClaim(db: Db, next: Db)
    requires db.held == {} && db.tickets == [TICKET.(last := Some(0))] && db.runs == [RESUMED]
    requires next == db.(tickets := [TICKET.(active := Some(1), last := Some(0))], runs := [RESUMED, SECOND])
    ensures Apply(db, DoClaim(0, 0, None, false)) == next
  {
    assert db.runs[..0] == [];
    assert Attempts(db.runs, 0) == 1;
  }

  // On pull request B nothing is pending for the second run.
  lemma {:induction false} NoneOnB(db: Db)
    requires db.runs == [RESUMED, SECOND.(phase := MergeGate, prUrl := Some("B"))] && db.events == [Note(0)]
    ensures NonePending(db, 1, Some("B"))
  {
  }

  lemma {:induction false} EntersMerging(db: Db)
    requires db == MERGES.(runs := [RESUMED, SECOND.(phase := MergeGate, prUrl := Some("B"))])
    ensures Apply(db, DoBeginMerge(1, "B")) == MERGES
  {
    hide NonePending;
    NoneOnB(db);
  }

  // The instruction on the first run is pending for the merging one.
  predicate StrandedOnB(db: Db) {
    MergesNow(db, 0) && db.tickets[0].active == Some(1) && |db.runs| == 2 && PendingNote(db, 1, Some("B"), 0)
  }

  lemma {:induction false} JoinedIsStranded(db: Db)
    requires db.tickets == MERGES.tickets && db.events == MERGES.events && |db.runs| == 2
    requires db.runs[1] == MERGES.runs[1] && db.runs[0].ticket == 0 && db.runs[0].prUrl == Some("B")
    ensures StrandedOnB(db)
  {
    assert !IsConsumed(db.events, 0);
  }

  // `set_pull_request` can strand an instruction.
  lemma {:induction false} PullRequestCanStrand()
    ensures StrandedOnB(RunSteps(EMPTY, MERGING + [DoSetPullRequest(0, "B", None)]))
  {
    hide RunSteps, StrandedOnB;
    MergingIs();
    RunSnoc(EMPTY, MERGING, DoSetPullRequest(0, "B", None));
    JoinedIsStranded(Apply(MERGES, DoSetPullRequest(0, "B", None)));
  }

  // So can a park of a run without the lease.
  lemma {:induction false} ParkCanStrand()
    ensures StrandedOnB(RunSteps(EMPTY, MERGING + [DoPark(0, Phase.BlockedOnOperator, OtherPark, Some("B"), None)]))
  {
    hide RunSteps, StrandedOnB;
    MergingIs();
    RunSnoc(EMPTY, MERGING, DoPark(0, Phase.BlockedOnOperator, OtherPark, Some("B"), None));
    JoinedIsStranded(Apply(MERGES, DoPark(0, Phase.BlockedOnOperator, OtherPark, Some("B"), None)));
  }

  // -------------------------------------------------------------- exceptions

  // `set_phase` takes a live run into a terminal phase and ends nothing.
  lemma {:induction false} TerminalWithoutEnd()
    ensures var db := RunSteps(EMPTY, CLAIMED + [DoSetPhase(0, Phase.Failed)]);
            && |db.runs| == 1 && Leased(db, 0)
            && Terminal(db.runs[0].phase) && db.runs[0].endedAt.None?
  {
    ClaimedIs();
    RunSnoc(EMPTY, CLAIMED, DoSetPhase(0, Phase.Failed));
    hide RunSteps;
  }

  // A run paused as soon as it was claimed resumes into the phase it left,
  // which the table draws from no paused run, and gets no lease.
  lemma {:induction false} ResumeOffTheTable()
    ensures var was := RunSteps(EMPTY, CLAIMED + [DoRelease(0, Outcome.Paused, Some(Claimed), None, 1)]);
            var db := Apply(was, DoResume(0, false, false, true));
            && |was.runs| == 1 == |db.runs|
            && was.runs[0].phase == Phase.Paused && db.runs[0].phase == Claimed && Claimed !in NextPhases(Phase.Paused)
            && db.runs[0].endedAt.None? && !Leased(db, 0)
  {
    ClaimedIs();
    RunSnoc(EMPTY, CLAIMED, DoRelease(0, Outcome.Paused, Some(Claimed), None, 1));
    hide RunSteps;
    var was := Apply(LEASED, DoRelease(0, Outcome.Paused, Some(Claimed), None, 1));
    assert was.tickets == [TICKET.(last := Some(0))];
  }

  // No resume gives a lease.
  lemma {:induction false} ResumeGivesNoLease(db: Db, r: nat, guided: bool, blank: bool, human: bool)
    ensures Apply(db, DoResume(r, guided, blank, human)).tickets == db.tickets
  {
  }
}

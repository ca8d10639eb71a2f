// A firing's whole life, step by step: what the theorems about every interleaving
// ask of a run, a run does.

module FiringHistories {
  import opened Firings
  import opened FiringProtocol
  import opened FiringLimits
  import opened FiringOutcomes

  const KEY := Key(0, Main, "run 7")
  const HELD := Detail(Some(RerunFailedJobs), false, 0, 1, None)
  const LEASE := Firing(KEY, Act, Leased, HELD, 0, None, Some(300000), None)
  const RENEWED := LEASE.(leaseUntil := Some(600000), detail := HELD.(replays := 1))
  const TAKEN := RENEWED.(worker := Some(42))
  const DONE := TAKEN.(state := Confirmed, settledAt := Some(600000), detail := HELD.(replays := 1, rerun := Some(2)))

  // A pass leases a rerun and nobody takes it.  The next pass leases it once more;
  // a worker takes it, sends the rerun and dies.  The pass after reads the attempt
  // back.
  const LIFE: seq<Step> := [
    BeginPass(0), LeaseRerun(0, KEY, 1, false), EndPass(0), Tick(300000),
    BeginPass(1), ReadExpiring(1, 0), DealWithExpired(1, 0, Unreadable), EndPass(1),
    StartWorker(0, 42), TakeLease(0), Recheck(0, None), SendRerun(0, None, CrashedAfterSend), Tick(600000),
    BeginPass(1), ReadExpiring(2, 0), DealWithExpired(2, 0, Attempt(2))]

  // The steps lead to `end`, with one sweeper, a clock that does not go back and
  // true read-backs.
  ghost predicate LeadsTo(h: Host, s: World, steps: seq<Step>, end: World) {
    && Run(h, s, steps) == end
    && OneSweeper(h, s, steps) && MonotoneClock(h, s, steps) && AllTruthful(h, s, steps)
  }

  const FIRST := Pass(0, false, 1, [])
  const SECOND := Pass(300000, false, 1, [])
  const THIRD := Pass(600000, true, 1, [])
  const WORKER := Worker(0, 42, Ended, true, RENEWED.detail)
  const SENT := Send(0, 0, TAKEN, CrashedAfterSend)

  // Where the life of the firing stands.
  function At(clock: int, row: Firing, workers: seq<Worker>, sends: seq<Send>, passes: seq<Pass>, found: nat): World {
    World(clock, [row], [], workers, sends, passes, [found])
  }

  const WAITING := Worker(0, 42, Waiting, false, Detail(None, false, 0, 0, None))

  // The world after the first `n` steps.
  function After(n: nat): World
    requires n <= 16
  {
    var two := [FIRST, SECOND];
    if n == 0 then INIT
    else if n == 1 then INIT.(passes := [Pass(0, true, 0, [])])
    else if n == 2 then At(0, LEASE, [], [], [FIRST.(live := true)], 0)
    else if n == 3 then At(0, LEASE, [], [], [FIRST], 0)
    else if n == 4 then At(300000, LEASE, [], [], [FIRST], 0)
    else if n == 5 then At(300000, LEASE, [], [], [FIRST, SECOND.(live := true)], 0)
    else if n == 6 then At(300000, LEASE, [], [], [FIRST, SECOND.(live := true, expiring := [(0, LEASE)])], 0)
    else if n == 7 then At(300000, RENEWED, [], [], [FIRST, SECOND.(live := true)], 1)
    else if n == 8 then At(300000, RENEWED, [], [], two, 1)
    else if n == 9 then At(300000, RENEWED, [WAITING], [], two, 1)
    else if n == 10 then At(300000, TAKEN, [WORKER.(stage := Holding)], [], two, 1)
    else if n == 11 then At(300000, TAKEN, [WORKER.(stage := Checked)], [], two, 1)
    else if n == 12 then At(300000, TAKEN, [WORKER], [SENT], two, 1)
    else if n == 13 then At(600000, TAKEN, [WORKER], [SENT], two, 1)
    else if n == 14 then At(600000, TAKEN, [WORKER], [SENT], two + [THIRD], 1)
    else if n == 15 then At(600000, TAKEN, [WORKER], [SENT], two + [THIRD.(expiring := [(0, TAKEN)])], 1)
    else At(600000, DONE, [WORKER], [SENT], two + [THIRD], 2)
  }

  ghost predicate Goes(h: Host, n: nat)
    requires n < 16
  {
    Apply(h, After(n), LIFE[n]) == After(n + 1) && Alone(After(n), LIFE[n]) && Forward(After(n), LIFE[n])
    && Truthful(After(n), LIFE[n])
  }

  lemma ReadsOne(row: Firing)
    requires row.key == KEY && row.state == Leased && row.detail.action == Some(RerunFailedJobs)
    ensures LeasedReruns([row], 0, 1) == [(0, row)]
  {
    assert LeasedReruns([row], 0, 0) == [];
  }

  // With one row, what a new pass counts is what the last one saved.
  lemma CountsOne(h: Host, row: Firing, clock: int)
    ensures Max(1, Count(h.midnight, [row], HostSince(h.midnight(clock)))) == 1
  {
    assert [row][..0] == [];
    assert Count(h.midnight, [], HostSince(h.midnight(clock))) == 0;
  }

  lemma FirstPass(h: Host, n: nat)
    requires h.cap > 0 && n < 4
    ensures Goes(h, n)
  {
    forall w ensures Count(h.midnight, [], w) == 0 {
    }
  }

  lemma SecondPass(h: Host, n: nat)
    requires 4 <= n < 8
    ensures Goes(h, n)
  {
    hide Count, LeasedReruns;
    CountsOne(h, LEASE, 300000);
    ReadsOne(LEASE);
    assert [(0, LEASE)][..0] + [(0, LEASE)][1..] == [];
  }

  lemma WorkerLife(h: Host, n: nat)
    requires 8 <= n < 13
    ensures Goes(h, n)
  {
    hide Count, LeasedReruns, Deal, Reserve;
  }

  lemma LastPass(h: Host, n: nat)
    requires 13 <= n < 16
    ensures Goes(h, n)
  {
    hide Count, LeasedReruns;
    CountsOne(h, TAKEN, 600000);
    ReadsOne(TAKEN);
    assert [(0, TAKEN)][..0] + [(0, TAKEN)][1..] == [];
    assert Reran([SENT], 0) by { assert [SENT][0].firing == 0; }
  }

  lemma {:induction false} LeadsFrom(h: Host, n: nat)
    requires h.cap > 0 && n <= 16
    ensures LeadsTo(h, After(n), LIFE[n..], After(16))
    decreases 16 - n
  {
    hide Apply, After, Alone, Forward, Truthful;
    if n == 16 {
      assert LIFE[n..] == [];
    } else {
      if n < 4 { FirstPass(h, n); }
      else if n < 8 { SecondPass(h, n); }
      else if n < 13 { WorkerLife(h, n); }
      else { LastPass(h, n); }
      assert LIFE[n..][0] == LIFE[n] && LIFE[n..][1..] == LIFE[n + 1..];
      LeadsFrom(h, n + 1);
    }
  }

  // Under every assumption the theorems make, on any host with room for a rerun: a
  // firing leased, renewed once, taken, sent and never settled by its worker is
  // confirmed by the pass that reads its attempt back, which is the second to find
  // it expired.
  lemma WholeLife(h: Host)
    requires h.cap > 0
    ensures LeadsTo(h, INIT, LIFE, At(600000, DONE, [WORKER], [SENT], [FIRST, SECOND, THIRD], 2))
  {
    hide LeadsTo;
    LeadsFrom(h, 0);
    assert LIFE[0..] == LIFE;
    assert [FIRST, SECOND] + [THIRD] == [FIRST, SECOND, THIRD];
  }
}

// A rerun's lease is renewed at most once, with one sweeper and a clock that
// does not go back: what a pass read as expired stays as it read it, since an
// expired lease is not taken and only that pass renews it.

module FiringRenewal {
  import opened Firings
  import opened FiringProtocol
  import opened FiringSafety
  import opened FiringLimits

  // A row a pass read as expired stays as read until something settles it.
  ghost predicate ReadStands(x: (nat, Firing), rows: seq<Firing>, now: int) {
    x.0 < |rows| && rows[x.0].state != Proposed && (Expired(x.1, now) && rows[x.0].state == Leased ==> rows[x.0] == x.1)
  }

  ghost predicate PassStands(pass: Pass, rows: seq<Firing>, clock: int) {
    && pass.now <= clock
    && (forall e :: 0 <= e < |pass.expiring| ==> ReadStands(pass.expiring[e], rows, pass.now))
    && (forall d, e :: 0 <= d < e < |pass.expiring| ==> pass.expiring[d].0 != pass.expiring[e].0)
  }

  // A proposal was never found expired; a leased rerun was found expired as
  // often as its lease was renewed, once at most.
  ghost predicate FoundOk(f: Firing, found: nat) {
    && (f.state == Proposed ==> found == 0)
    && (f.state == Leased ==> found == f.detail.replays <= 1)
  }

  ghost predicate AllFoundOk(rows: seq<Firing>, findings: seq<nat>) {
    |rows| == |findings| && forall i :: 0 <= i < |rows| ==> FoundOk(rows[i], findings[i])
  }

  ghost predicate OneLive(passes: seq<Pass>) {
    forall p, q :: 0 <= p < q < |passes| ==> !(passes[p].live && passes[q].live)
  }

  ghost predicate AllStand(passes: seq<Pass>, rows: seq<Firing>, clock: int) {
    forall p :: 0 <= p < |passes| && passes[p].live ==> PassStands(passes[p], rows, clock)
  }

  ghost predicate Renewals(s: World) {
    && AllFoundOk(s.rows, s.findings)
    && OneLive(s.passes)
    && AllStand(s.passes, s.rows, s.clock)
  }

  // ------------------------------------- steps that look at no expired lease

  // A lease can only be taken while it lasts; otherwise a leased row stays as
  // it is until it is settled, and a new lease was never renewed.
  ghost predicate Quiet(a: seq<Firing>, b: seq<Firing>, clock: int) {
    && |a| <= |b|
    && forall i :: 0 <= i < |b| && b[i].state == Leased ==>
         if i < |a| && a[i].state != Proposed then
           || b[i] == a[i]
           || (Takable(a[i], clock) && b[i].detail == a[i].detail)
         else b[i].detail.replays == 0
  }

  lemma {:induction false} QuietReserve(rows: seq<Firing>, key: Key, mode: Mode, detail: Detail, now: int, lease: Option<int>, limited: bool, clock: int)
    requires detail.replays == 0
    ensures Quiet(rows, Reserve(rows, key, mode, detail, now, lease, limited).0, clock)
  {
  }

  lemma {:induction false} QuietSettle(rows: seq<Firing>, id: nat, pid: Option<int>, state: State, now: int, detail: Option<Detail>, clock: int)
    requires Settled(state) && RowsOk(rows)
    ensures Quiet(rows, Settle(rows, id, pid, state, now, detail), clock)
  {
    assert forall i :: 0 <= i < |rows| ==> RowOk(rows[i]);
  }

  lemma {:induction false} QuietHold(rows: seq<Firing>, holds: seq<Hold>, key: Key, red: string, now: int, lease: int, clock: int)
    requires RowsOk(rows)
    ensures Quiet(rows, PlaceHold(rows, holds, key, red, now, lease).0, clock)
    ensures Quiet(rows, EndHold(rows, holds, key, now, lease).0, clock)
  {
    assert forall i :: 0 <= i < |rows| ==> RowOk(rows[i]);
  }

  lemma {:induction false} QuietTake(rows: seq<Firing>, id: nat, pid: int, clock: int)
    requires RowsOk(rows)
    ensures Quiet(rows, Take(rows, id, pid, clock), clock)
  {
    assert forall i :: 0 <= i < |rows| ==> RowOk(rows[i]);
  }

  lemma {:induction false} QuietAnswer(rows: seq<Firing>, id: nat, state: State, clock: int)
    requires RowsOk(rows) && (state == Confirmed || state == Canceled)
    ensures Quiet(rows, SettleUnknown(rows, id, state), clock)
    ensures Quiet(rows, rows, clock)
  {
    assert forall i :: 0 <= i < |rows| ==> RowOk(rows[i]);
  }

  lemma {:induction false} StepQuiet(h: Host, s: World, step: Step)
    requires Inv(s) && !step.DealWithExpired?
    ensures Quiet(s.rows, Apply(h, s, step).rows, s.clock)
  {
    hide Reserve, Settle, PlaceHold, EndHold, Deal, RowsKept, RowsOk, Limited, Count, LeasedReruns, SendsOk,
         PassesOk, HoldsOk, WorkersOk, NoHold, Take, SettleUnknown, Quiet;
    QuietAnswer(s.rows, 0, Canceled, s.clock);
    match step
    case TakeLease(w) =>
      if WorkerAt(s, w, Waiting) { QuietTake(s.rows, s.workers[w].firing, s.workers[w].pid, s.clock); }
    case Recheck(w, refusal) =>
      if WorkerAt(s, w, Holding) && refusal.Some? {
        QuietSettle(s.rows, s.workers[w].firing, Some(s.workers[w].pid), RefusalState(refusal.value), s.clock, None, s.clock);
      }
    case SendRerun(w, refusal, reply) =>
      if WorkerAt(s, w, Checked) {
        var k := s.workers[w];
        QuietSettle(s.rows, k.firing, Some(k.pid), if reply.Accepted? then Confirmed else Refused, s.clock,
                    Some(if reply.Accepted? then k.detail.(rerun := Some(k.detail.attempt + 1)) else k.detail), s.clock);
        if refusal.Some? {
          QuietSettle(s.rows, k.firing, Some(k.pid), RefusalState(refusal.value), s.clock, None, s.clock);
        }
      }
    case Propose(p, key, action) =>
      if Live(s, p) {
        QuietReserve(s.rows, key, DryRun, Detail(action, false, 0, 0, None), s.passes[p].now, None, false, s.clock);
      }
    case LeaseRerun(p, key, attempt, dies) =>
      if Live(s, p) {
        QuietReserve(s.rows, key, Act, Detail(Some(RerunFailedJobs), false, 0, attempt, None), s.passes[p].now,
                     Some(s.clock + LEASE_MS),
                     Limited(h.midnight, s.rows, key.project, s.passes[p].now, s.passes[p].reruns, h.cap), s.clock);
      }
    case HoldMerge(p, key, red) =>
      if Live(s, p) { QuietHold(s.rows, s.holds, key, red, s.passes[p].now, s.clock + LEASE_MS, s.clock); }
    case ReleaseHold(p, key) =>
      if Live(s, p) { QuietHold(s.rows, s.holds, key, "", s.passes[p].now, s.clock + LEASE_MS, s.clock); }
    case AnswerUnknown(firing, confirmed) =>
      QuietAnswer(s.rows, firing, if confirmed then Confirmed else Canceled, s.clock);
    case _ =>
  }

  lemma {:induction false} FoundCarry(a: seq<Firing>, found: seq<nat>, b: seq<Firing>, found': seq<nat>, clock: int)
    requires AllFoundOk(a, found) && Quiet(a, b, clock) && RowsKept(a, b) && |b| == |found'|
    requires forall i :: 0 <= i < |b| ==> found'[i] == if i < |found| then found[i] else 0
    ensures AllFoundOk(b, found')
  {
    forall i | 0 <= i < |b| ensures FoundOk(b[i], found'[i]) {
      if i < |a| {
        assert Kept(a[i], b[i]) && FoundOk(a[i], found[i]);
      }
    }
  }

  lemma {:induction false} StandCarry(pass: Pass, a: seq<Firing>, b: seq<Firing>, clock: int, clock': int)
    requires PassStands(pass, a, clock) && Quiet(a, b, clock) && RowsKept(a, b) && clock <= clock'
    ensures PassStands(pass, b, clock')
  {
    forall e | 0 <= e < |pass.expiring| ensures ReadStands(pass.expiring[e], b, pass.now) {
      var x := pass.expiring[e];
      assert ReadStands(x, a, pass.now);
      assert Kept(a[x.0], b[x.0]);
    }
  }

  lemma {:induction false} FindingsStand(h: Host, s: World, step: Step)
    requires Inv(s) && !step.DealWithExpired?
    ensures var t := Apply(h, s, step);
            |t.findings| == |t.rows| && forall i :: 0 <= i < |t.rows| ==>
              t.findings[i] == if i < |s.findings| then s.findings[i] else 0
  {
    hide Reserve, Settle, PlaceHold, EndHold, Deal, RowsKept, NoMoreCounted, RowsOk, Limited, Count, LeasedReruns,
         NoHold, Take, SettleUnknown, WorkersOk, SendsOk, PassesOk, HoldsOk;
    StepKeepsRows(h, s, step);
    KeptLonger(s.rows, Apply(h, s, step).rows);
  }

  lemma {:induction false} KeptLonger(a: seq<Firing>, b: seq<Firing>)
    requires RowsKept(a, b)
    ensures |a| <= |b|
  {
  }

  // A pass that has just read, or that goes on from what it read.
  lemma {:induction false} PassesMove(h: Host, s: World, step: Step)
    requires Inv(s) && Renewals(s) && Alone(s, step) && Forward(s, step) && !step.DealWithExpired?
    ensures OneLive(Apply(h, s, step).passes)
    ensures AllStand(Apply(h, s, step).passes, s.rows, s.clock)
  {
    hide Reserve, Settle, PlaceHold, EndHold, Deal, RowsKept, NoMoreCounted, RowsOk, Limited, Count, LeasedReruns,
         NoHold, Take, SettleUnknown, WorkersOk, SendsOk, PassesOk, HoldsOk, AllFoundOk, PassStands;
    match step
    case BeginPass(saved) =>
      NewStands(Apply(h, s, step).passes[|s.passes|], s.rows, s.clock);
    case ReadExpiring(p, project) =>
      if Live(s, p) {
        assert PassStands(s.passes[p], s.rows, s.clock);
        FreshStands(s.passes[p], s.rows, project, s.clock);
      }
    case LeaseRerun(p, _, _, _) =>
      if Live(s, p) {
        assert PassStands(s.passes[p], s.rows, s.clock);
        SameStands(s.passes[p], Apply(h, s, step).passes[p], s.rows, s.clock);
      }
    case _ =>
  }

  lemma {:induction false} NewStands(pass: Pass, rows: seq<Firing>, clock: int)
    requires pass.now == clock && pass.expiring == []
    ensures PassStands(pass, rows, clock)
  {
  }

  lemma {:induction false} SameStands(pass: Pass, other: Pass, rows: seq<Firing>, clock: int)
    requires PassStands(pass, rows, clock) && other.now == pass.now && other.expiring == pass.expiring
    ensures PassStands(other, rows, clock)
  {
  }

  lemma {:induction false} FreshStands(pass: Pass, rows: seq<Firing>, project: nat, clock: int)
    requires PassStands(pass, rows, clock)
    ensures PassStands(pass.(expiring := LeasedReruns(rows, project, |rows|)), rows, clock)
  {
    LeasedRerunsOk(rows, project, |rows|);
  }

  lemma {:induction false} QuietStep(h: Host, s: World, step: Step)
    requires Inv(s) && Renewals(s) && Alone(s, step) && Forward(s, step) && !step.DealWithExpired?
    ensures Renewals(Apply(h, s, step))
  {
    hide Reserve, RowsKept, NoMoreCounted, RowsOk, Limited, Count, LeasedReruns, Inv, RowsOk, WorkersOk, SendsOk,
         HoldsOk, AllFoundOk, PassStands, OneLive, Quiet, PassesOk;
    var next := Apply(h, s, step);
    StepKeepsRows(h, s, step);
    StepQuiet(h, s, step);
    FindingsStand(h, s, step);
    FoundCarry(s.rows, s.findings, next.rows, next.findings, s.clock);
    PassesMove(h, s, step);
    ClockMoves(h, s, step);
    forall p | 0 <= p < |next.passes| && next.passes[p].live ensures PassStands(next.passes[p], next.rows, next.clock) {
      StandCarry(next.passes[p], s.rows, next.rows, s.clock, next.clock);
    }
  }

  lemma {:induction false} ClockMoves(h: Host, s: World, step: Step)
    requires Forward(s, step)
    ensures s.clock <= Apply(h, s, step).clock
  {
    hide Reserve, Settle, PlaceHold, EndHold, Deal, Limited, Count, LeasedReruns, NoHold, Take, SettleUnknown;
  }

  // ------------------------------------------------ dealing with one lease

  // What dealing with an expired lease does to its row: settles it, or renews
  // a lease never renewed before.
  lemma {:induction false} DealOutcome(rows: seq<Firing>, id: nat, f: Firing, now: int, read: ReadBack)
    requires id < |rows| && rows[id].state != Proposed
    requires Expired(f, now) && rows[id].state == Leased ==> rows[id] == f
    ensures var r := Deal(rows, id, f, now, read);
            && |r| == |rows| && (forall i :: 0 <= i < |rows| && i != id ==> r[i] == rows[i])
            && (!Expired(f, now) ==> r == rows)
            && (Expired(f, now) && r[id].state == Leased ==>
                  && rows[id].state == Leased && rows[id].detail.replays == 0 && r[id].detail.replays == 1)
            && r[id].state != Proposed
  {
  }

  lemma {:induction false} DealStep(h: Host, s: World, p: nat, n: nat, read: ReadBack)
    requires Inv(s) && Renewals(s) && Live(s, p) && n < |s.passes[p].expiring|
    ensures Renewals(DealWith(s, p, n, read))
  {
    hide Deal, RowsKept, NoMoreCounted, RowsOk, WorkersOk, SendsOk, PassesOk, HoldsOk, Expired;
    var next, pass := DealWith(s, p, n, read), s.passes[p];
    var (id, f) := pass.expiring[n];
    assert PassStands(pass, s.rows, s.clock) && ReadStands(pass.expiring[n], s.rows, pass.now);
    DealOutcome(s.rows, id, f, pass.now, read);
    forall i | 0 <= i < |next.rows| ensures FoundOk(next.rows[i], next.findings[i]) {
      assert FoundOk(s.rows[i], s.findings[i]);
    }
    var left := next.passes[p];
    forall e | 0 <= e < |left.expiring| ensures ReadStands(left.expiring[e], next.rows, left.now) {
      var o := if e < n then e else e + 1;
      assert left.expiring[e] == pass.expiring[o];
      assert ReadStands(pass.expiring[o], s.rows, pass.now);
    }
    assert PassStands(left, next.rows, next.clock);
  }

  lemma {:induction false} StepKeepsRenewals(h: Host, s: World, step: Step)
    requires Inv(s) && Renewals(s) && Alone(s, step) && Forward(s, step)
    ensures Renewals(Apply(h, s, step))
  {
    hide Inv, Renewals, DealWith;
    if step.DealWithExpired? {
      if Live(s, step.pass) && step.n < |s.passes[step.pass].expiring| {
        DealStep(h, s, step.pass, step.n, step.read);
      }
    } else {
      QuietStep(h, s, step);
    }
  }

  lemma {:induction false} RunKeepsRenewals(h: Host, s: World, steps: seq<Step>)
    requires Inv(s) && Renewals(s) && OneSweeper(h, s, steps) && MonotoneClock(h, s, steps)
    ensures Renewals(Run(h, s, steps))
    decreases |steps|
  {
    hide Inv, Renewals, Apply;
    if steps != [] {
      StepKeepsInv(h, s, steps[0]);
      StepKeepsRenewals(h, s, steps[0]);
      RunKeepsRenewals(h, Apply(h, s, steps[0]), steps[1..]);
    }
  }

  // A leased rerun has been renewed as often as passes dealt with its expired
  // lease, once at most; so a firing two passes dealt with as expired is settled.
  lemma {:induction false} RenewedAtMostOnce(h: Host, steps: seq<Step>, i: nat)
    requires OneSweeper(h, INIT, steps) && MonotoneClock(h, INIT, steps)
    requires i < |Run(h, INIT, steps).rows|
    ensures var s := Run(h, INIT, steps);
            && i < |s.findings|
            && (s.rows[i].state == Leased ==> s.findings[i] == s.rows[i].detail.replays <= 1)
            && (s.findings[i] >= 2 ==> Settled(s.rows[i].state))
  {
    RunKeepsRenewals(h, INIT, steps);
    var s := Run(h, INIT, steps);
    assert FoundOk(s.rows[i], s.findings[i]);
  }
}

// What the rate limits, and the host's daily cap guarantee over
// every run of the firing protocol.

module FiringLimits {
  import opened Firings
  import opened FiringProtocol
  import opened FiringSafety

  // One sweeper on the host: a pass begins when no other is under way.
  predicate Alone(s: World, step: Step) {
    step.BeginPass? ==> forall p :: 0 <= p < |s.passes| ==> !s.passes[p].live
  }

  // A clock that does not go back.
  predicate Forward(s: World, step: Step) {
    step.Tick? ==> s.clock <= step.now
  }

  predicate OneSweeper(h: Host, s: World, steps: seq<Step>)
    decreases |steps|
  {
    steps != [] ==> Alone(s, steps[0]) && OneSweeper(h, Apply(h, s, steps[0]), steps[1..])
  }

  predicate MonotoneClock(h: Host, s: World, steps: seq<Step>)
    decreases |steps|
  {
    steps != [] ==> Forward(s, steps[0]) && MonotoneClock(h, Apply(h, s, steps[0]), steps[1..])
  }

  // ---------------------------------------------------- what a step counts

  lemma {:induction false} CountNoMore(m: Midnight, a: seq<Firing>, b: seq<Firing>, w: Which)
    requires NoMoreCounted(a, b)
    ensures Count(m, b, w) <= Count(m, a, w)
    decreases |a| + |b|
  {
    if b != [] {
      var n := |b| - 1;
      if n >= |a| || |a| > |b| {
        var a', b' := if |a| > |b| then a[..|b|] else a, if |a| > |b| then b else b[..n];
        CountNoMore(m, a', b', w);
        if |a| > |b| { CountPrefix(m, a, |b|, w); }
      } else {
        CountNoMore(m, a[..n], b[..n], w);
      }
    }
  }

  lemma {:induction false} CountPrefix(m: Midnight, a: seq<Firing>, n: nat, w: Which)
    requires n <= |a|
    ensures Count(m, a[..n], w) <= Count(m, a, w)
  {
    if n < |a| {
      assert a[..|a| - 1][..n] == a[..n];
      CountPrefix(m, a[..|a| - 1], n, w);
    } else {
      assert a[..n] == a;
    }
  }

  // A rerun's reservation adds at most its own row, and none under a limit.
  lemma {:induction false} ReserveCounts(m: Midnight, rows: seq<Firing>, key: Key, attempt: int, now: int, lease: int, limited: bool, w: Which)
    requires RowsOk(rows)
    ensures var r := Reserve(rows, key, Act, Detail(Some(RerunFailedJobs), false, 0, attempt, None), now, Some(lease), limited);
            var f := Firing(key, Act, Leased, Detail(Some(RerunFailedJobs), false, 0, attempt, None), now, None, Some(lease), None);
            Count(m, r.0, w) <= Count(m, rows, w) + if r.1.Some? && !limited && Is(m, f, w) then 1 else 0
  {
    var r := Reserve(rows, key, Act, Detail(Some(RerunFailedJobs), false, 0, attempt, None), now, Some(lease), limited);
    var id := IdOf(rows, key);
    if id == |rows| {
      CountAppend(m, rows, r.0[id], w);
    } else if rows[id].state == Proposed {
      assert RowOk(rows[id]);
      CountUpdate(m, rows, id, r.0[id], w);
    }
  }

  // ----------------------------------------------------- the project's limits

  ghost predicate WithinLimits(m: Midnight, rows: seq<Firing>) {
    && (forall p :: Count(m, rows, Queued(p)) <= QUEUED)
    && (forall p, t :: Count(m, rows, InHour(p, t)) <= PER_HOUR)
    && (forall p, d :: Count(m, rows, OnDay(p, d)) <= PER_DAY)
  }

  // A reservation no limit refused had room for one more.
  lemma {:induction false} Room(m: Midnight, rows: seq<Firing>, p: nat, now: int, reruns: nat, cap: nat, t: int)
    requires !Limited(m, rows, p, now, reruns, cap)
    requires forall x :: m(x) <= x
    ensures Count(m, rows, Queued(p)) < QUEUED
    ensures t <= now <= t + HOUR_MS ==> Count(m, rows, InHour(p, t)) < PER_HOUR
    ensures Count(m, rows, OnDay(p, m(now))) < PER_DAY
  {
    if t <= now <= t + HOUR_MS {
      CountLeq(m, rows, InHour(p, t), rows, CreatedSince(p, now - HOUR_MS));
    }
    CountLeq(m, rows, OnDay(p, m(now)), rows, CreatedSince(p, m(now)));
  }

  lemma {:induction false} StepKeepsLimits(h: Host, s: World, step: Step)
    requires Inv(s) && WithinLimits(h.midnight, s.rows)
    requires forall x :: h.midnight(x) <= x
    ensures WithinLimits(h.midnight, Apply(h, s, step).rows)
  {
    hide NoMoreCounted, RowsOk, RowsKept, WorkersOk, SendsOk, PassesOk, HoldsOk, Reserve, Limited, Apply;
    var m, next := h.midnight, Apply(h, s, step).rows;
    StepKeepsRows(h, s, step);
    if step.LeaseRerun? {
      LeaseKeepsLimits(h, s, step);
    } else {
      forall p ensures Count(m, next, Queued(p)) <= QUEUED { CountNoMore(m, s.rows, next, Queued(p)); }
      forall p, t ensures Count(m, next, InHour(p, t)) <= PER_HOUR {
        CountNoMore(m, s.rows, next, InHour(p, t));
      }
      forall p, d ensures Count(m, next, OnDay(p, d)) <= PER_DAY { CountNoMore(m, s.rows, next, OnDay(p, d)); }
    }
  }

  lemma {:induction false} LeaseKeepsLimits(h: Host, s: World, step: Step)
    requires Inv(s) && WithinLimits(h.midnight, s.rows) && step.LeaseRerun?
    requires forall x :: h.midnight(x) <= x
    ensures WithinLimits(h.midnight, Apply(h, s, step).rows)
  {
    hide RowsOk, RowsKept, WorkersOk, SendsOk, PassesOk, HoldsOk, Reserve, Limited, Count;
    if Live(s, step.pass) {
      var m, next, pass, q := h.midnight, Apply(h, s, step).rows, s.passes[step.pass], step.key.project;
      var limited := Limited(m, s.rows, q, pass.now, pass.reruns, h.cap);
      forall p ensures Count(m, next, Queued(p)) <= QUEUED {
        ReserveCounts(m, s.rows, step.key, step.attempt, pass.now, s.clock + LEASE_MS, limited, Queued(p));
        if !limited { Room(m, s.rows, q, pass.now, pass.reruns, h.cap, 0); }
      }
      forall p, t ensures Count(m, next, InHour(p, t)) <= PER_HOUR {
        ReserveCounts(m, s.rows, step.key, step.attempt, pass.now, s.clock + LEASE_MS, limited, InHour(p, t));
        if !limited { Room(m, s.rows, q, pass.now, pass.reruns, h.cap, t); }
      }
      forall p, d ensures Count(m, next, OnDay(p, d)) <= PER_DAY {
        ReserveCounts(m, s.rows, step.key, step.attempt, pass.now, s.clock + LEASE_MS, limited, OnDay(p, d));
        if !limited { Room(m, s.rows, q, pass.now, pass.reruns, h.cap, 0); }
      }
    }
  }

  lemma {:induction false} RunKeepsLimits(h: Host, s: World, steps: seq<Step>)
    requires Inv(s) && WithinLimits(h.midnight, s.rows)
    requires forall x :: h.midnight(x) <= x
    ensures WithinLimits(h.midnight, Run(h, s, steps).rows)
    decreases |steps|
  {
    hide Inv, WithinLimits;
    if steps != [] {
      StepKeepsInv(h, s, steps[0]);
      StepKeepsLimits(h, s, steps[0]);
      RunKeepsLimits(h, Apply(h, s, steps[0]), steps[1..]);
    }
  }

  // Over every interleaving, whatever the clock does: no project ever has more
  // than three leased reruns, six created in any hour, thirty on any day.
  lemma {:induction false} ProjectLimitsHold(h: Host, steps: seq<Step>)
    requires forall x :: h.midnight(x) <= x
    ensures WithinLimits(h.midnight, Run(h, INIT, steps).rows)
  {
    forall w ensures Count(h.midnight, INIT.rows, w) == 0 {
    }
    RunKeepsLimits(h, INIT, steps);
  }

  // --------------------------------------------------------- the host's cap

  ghost predicate WithinCap(h: Host, s: World) {
    && (forall d :: Count(h.midnight, s.rows, HostOnDay(d)) <= h.cap)
    && (forall p :: 0 <= p < |s.passes| && s.passes[p].live ==>
          Count(h.midnight, s.rows, HostOnDay(h.midnight(s.passes[p].now))) <= s.passes[p].reruns)
    && (forall p, q :: 0 <= p < q < |s.passes| ==> !(s.passes[p].live && s.passes[q].live))
  }

  // Any step but a lease changes no pass's day or count.
  lemma {:induction false} PassesStand(h: Host, s: World, step: Step)
    requires Inv(s) && !step.LeaseRerun? && !step.BeginPass?
    ensures var t := Apply(h, s, step).passes;
            && |t| == |s.passes|
            && forall p :: 0 <= p < |t| ==>
                 && t[p].now == s.passes[p].now && t[p].reruns == s.passes[p].reruns
                 && (t[p].live ==> s.passes[p].live)
  {
    hide Inv, Reserve, Settle, PlaceHold, EndHold, Deal, LeasedReruns, Limited, Count, NoHold, Take, SettleUnknown, Lease1;
  }

  lemma {:induction false} StepKeepsCap(h: Host, s: World, step: Step)
    requires Inv(s) && WithinCap(h, s) && Alone(s, step)
    requires forall x :: h.midnight(x) <= x
    ensures WithinCap(h, Apply(h, s, step))
  {
    var m, next := h.midnight, Apply(h, s, step);
    if step.LeaseRerun? {
      LeaseKeepsCap(h, s, step);
    } else {
      hide Inv, NoMoreCounted, Count, Apply;
      StepKeepsRows(h, s, step);
      forall d ensures Count(m, next.rows, HostOnDay(d)) <= Count(m, s.rows, HostOnDay(d)) {
        CountNoMore(m, s.rows, next.rows, HostOnDay(d));
      }
      if step.BeginPass? {
        NewPass(h, s, step);
      } else {
        PassesStand(h, s, step);
      }
    }
  }

  lemma {:induction false} NewPass(h: Host, s: World, step: Step)
    requires WithinCap(h, s) && Alone(s, step) && step.BeginPass?
    requires forall x :: h.midnight(x) <= x
    ensures WithinCap(h, Apply(h, s, step))
  {
    var d := h.midnight(s.clock);
    CountLeq(h.midnight, s.rows, HostOnDay(d), s.rows, HostSince(d));
  }

  lemma {:induction false} LeaseKeepsCap(h: Host, s: World, step: Step)
    requires Inv(s) && WithinCap(h, s) && step.LeaseRerun?
    ensures WithinCap(h, Apply(h, s, step))
  {
    hide RowsOk, RowsKept, WorkersOk, SendsOk, PassesOk, HoldsOk, Reserve, Count;
    if Live(s, step.pass) {
      var m, next, pass := h.midnight, Apply(h, s, step), s.passes[step.pass];
      var limited := Limited(m, s.rows, step.key.project, pass.now, pass.reruns, h.cap);
      forall d ensures Count(m, next.rows, HostOnDay(d)) <= h.cap
      {
        ReserveCounts(m, s.rows, step.key, step.attempt, pass.now, s.clock + LEASE_MS, limited, HostOnDay(d));
      }
      ReserveCounts(m, s.rows, step.key, step.attempt, pass.now, s.clock + LEASE_MS, limited,
                    HostOnDay(m(pass.now)));
    }
  }

  lemma {:induction false} RunKeepsCap(h: Host, s: World, steps: seq<Step>)
    requires Inv(s) && WithinCap(h, s) && OneSweeper(h, s, steps)
    requires forall x :: h.midnight(x) <= x
    ensures WithinCap(h, Run(h, s, steps))
    decreases |steps|
  {
    hide Inv, WithinCap;
    if steps != [] {
      StepKeepsInv(h, s, steps[0]);
      StepKeepsCap(h, s, steps[0]);
      RunKeepsCap(h, Apply(h, s, steps[0]), steps[1..]);
    }
  }

  // With one sweeper, no day ever sees more reruns leased on the host than its
  // cap, even when passes die between a lease and its count.
  lemma {:induction false} HostCapHolds(h: Host, steps: seq<Step>, day: int)
    requires OneSweeper(h, INIT, steps)
    requires forall x :: h.midnight(x) <= x
    ensures Count(h.midnight, Run(h, INIT, steps).rows, HostOnDay(day)) <= h.cap
  {
    RunKeepsCap(h, INIT, steps);
  }
}

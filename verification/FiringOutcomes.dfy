// What a settled rerun firing says of GitHub: confirmed firings were rerun, and
// canceled and refused ones were not.

module FiringOutcomes {
  // A pass that finds a dead worker's lease expired asks GitHub for the workflow
  // run's attempt.  When every such answer is the attempt GitHub really has, the
  // recorded one or one more for a rerun it took, no pass settles wrongly.

  import opened Firings
  import opened FiringProtocol
  import opened FiringSafety

  // GitHub took a rerun of firing `i`.
  predicate Reran(sends: seq<Send>, i: nat) {
    exists x :: 0 <= x < |sends| && sends[x].firing == i && sends[x].reply != RefusedByGitHub
  }

  // An attempt read back is the one recorded, and one more if GitHub took the
  // rerun.
  predicate Truthful(s: World, step: Step) {
    step.DealWithExpired? && Live(s, step.pass) && step.n < |s.passes[step.pass].expiring| && step.read.Attempt? ==>
      var (id, f) := s.passes[step.pass].expiring[step.n];
      step.read.attempt == f.detail.attempt + if Reran(s.sends, id) then 1 else 0
  }

  predicate AllTruthful(h: Host, s: World, steps: seq<Step>)
    decreases |steps|
  {
    steps != [] ==> Truthful(s, steps[0]) && AllTruthful(h, Apply(h, s, steps[0]), steps[1..])
  }

  // What the state of a rerun's firing says.
  predicate Says(f: Firing, reran: bool) {
    && (f.state == Canceled || f.state == Refused ==> !reran)
    && (f.state == Confirmed && f.detail.action == Some(RerunFailedJobs) ==>
          reran && f.detail.rerun == Some(f.detail.attempt + 1))
  }

  // A settled row says so, or its outcome is the operator's to say.
  predicate SaysSo(s: World, i: nat) {
    i < |s.rows| ==> Says(s.rows[i], Reran(s.sends, i))
  }

  // ------------------------------------------------------ who has sent none

  // No rerun was sent of a firing no worker took, nor of one whose worker is
  // still under way.
  lemma {:induction false} NoneSent(s: World, i: nat)
    requires Inv(s)
    requires i >= |s.rows| || s.rows[i].worker == None || s.rows[i].state == Proposed
    ensures !Reran(s.sends, i)
  {
    forall x | 0 <= x < |s.sends| ensures s.sends[x].firing != i {
      assert SendOk(s.sends[x], s.workers, s.rows);
      assert WorkerOk(s.workers[s.sends[x].worker], s.rows);
    }
  }

  lemma {:induction false} NotYetSent(s: World, w: nat)
    requires Inv(s) && w < |s.workers| && (s.workers[w].stage == Holding || s.workers[w].stage == Checked)
    ensures !Reran(s.sends, s.workers[w].firing)
  {
    TookOf(s.workers, s.rows, w);
    forall x | 0 <= x < |s.sends| ensures s.sends[x].firing != s.workers[w].firing {
      assert SendOk(s.sends[x], s.workers, s.rows);
    }
  }

  lemma SentNext(sends: seq<Send>, x: Send, i: nat)
    ensures Reran(sends + [x], i) <==> Reran(sends, i) || (x.firing == i && x.reply != RefusedByGitHub)
  {
    if Reran(sends, i) {
      var k :| 0 <= k < |sends| && sends[k].firing == i && sends[k].reply != RefusedByGitHub;
      assert (sends + [x])[k] == sends[k];
    }
    assert (sends + [x])[|sends|] == x;
  }

  // --------------------------------------------------------- transactions

  // A row as it was, or one not settled before that says nothing or that no
  // rerun was sent.
  predicate NewlySays(a: seq<Firing>, b: seq<Firing>, i: nat) {
    i < |b| ==>
      || (i < |a| && b[i] == a[i])
      || ((i >= |a| || a[i].state == Proposed) && (b[i].state == Confirmed ==> b[i].detail.action != Some(RerunFailedJobs)))
  }

  lemma ReserveSays(
      rows: seq<Firing>, key: Key, mode: Mode, detail: Detail, now: int, lease: Option<int>, limited: bool, i: nat)
    ensures NewlySays(rows, Reserve(rows, key, mode, detail, now, lease, limited).0, i)
  {
  }

  lemma HoldSays(rows: seq<Firing>, holds: seq<Hold>, key: Key, red: string, now: int, lease: int, i: nat)
    requires RowsOk(rows) && key.subject == Merges
    ensures NewlySays(rows, PlaceHold(rows, holds, key, red, now, lease).0, i)
    ensures NewlySays(rows, EndHold(rows, holds, key, now, lease).0, i)
  {
    var id := IdOf(rows, key);
    if id < |rows| { assert RowOk(rows[id]); }
  }

  lemma NewlySo(s: World, rows: seq<Firing>, i: nat)
    requires Inv(s) && SaysSo(s, i) && NewlySays(s.rows, rows, i)
    ensures i < |rows| ==> Says(rows[i], Reran(s.sends, i))
  {
    hide Inv, Reran;
    if i >= |s.rows| || s.rows[i].state == Proposed { NoneSent(s, i); }
  }

  // A pass that deals with an expired lease settles it as GitHub says.
  lemma DealSays(s: World, p: nat, n: nat, read: ReadBack, i: nat)
    requires Inv(s) && SaysSo(s, i) && Live(s, p) && n < |s.passes[p].expiring|
    requires Truthful(s, DealWithExpired(p, n, read))
    ensures SaysSo(DealWith(s, p, n, read), i)
  {
    hide Inv, Reran;
    var (id, f) := s.passes[p].expiring[n];
    if i < |s.rows| && s.rows[i].worker == None { NoneSent(s, i); }
    ReadSame(s, p, n);
  }

  // What a pass read of a lease is what the lease is for.
  lemma {:induction false} ReadSame(s: World, p: nat, n: nat)
    requires Inv(s) && p < |s.passes| && n < |s.passes[p].expiring|
    ensures var (id, f) := s.passes[p].expiring[n]; id < |s.rows| && f.detail.action == s.rows[id].detail.action
  {
    assert ReadOk(s.passes[p].expiring[n], s.rows);
  }

  lemma {:induction false} SendSays(h: Host, s: World, w: nat, refusal: Option<State>, reply: Reply, i: nat)
    requires Inv(s) && SaysSo(s, i) && WorkerAt(s, w, Checked)
    ensures SaysSo(Apply(h, s, SendRerun(w, refusal, reply)), i)
  {
    hide Inv, Reran, Deal, Reserve, PlaceHold, EndHold, Count, LeasedReruns, NoHold;
    var k := s.workers[w];
    NotYetSent(s, w);
    WorkerSame(s, w);
    SentNext(s.sends, Send(k.firing, w, s.rows[k.firing], reply), i);
  }

  lemma {:induction false} WorkerSame(s: World, w: nat)
    requires Inv(s) && w < |s.workers| && (s.workers[w].stage == Holding || s.workers[w].stage == Checked)
    ensures s.workers[w].firing < |s.rows| && s.rows[s.workers[w].firing].detail.action == s.workers[w].detail.action
  {
    assert WorkerOk(s.workers[w], s.rows);
  }

  lemma {:induction false} StepSays(h: Host, s: World, step: Step, i: nat)
    requires Inv(s) && SaysSo(s, i) && Truthful(s, step)
    requires step.AnswerUnknown? ==> step.firing != i
    ensures SaysSo(Apply(h, s, step), i)
  {
    hide Inv, Reran, Deal, DealWith, Reserve, PlaceHold, EndHold, Limited, Count, LeasedReruns, NoHold, NewlySays, Send1;
    match step
    case Recheck(w, refusal) =>
      if WorkerAt(s, w, Holding) {
        NotYetSent(s, w);
        WorkerSame(s, w);
      }
    case SendRerun(w, refusal, reply) =>
      if WorkerAt(s, w, Checked) { SendSays(h, s, w, refusal, reply, i); }
    case DealWithExpired(p, n, read) =>
      if Live(s, p) && n < |s.passes[p].expiring| { DealSays(s, p, n, read, i); }
    case Propose(p, key, action) =>
      if Live(s, p) && action != Some(RerunFailedJobs) {
        ReserveSays(s.rows, key, DryRun, Detail(action, false, 0, 0, None), s.passes[p].now, None, false, i);
        NewlySo(s, Apply(h, s, step).rows, i);
      }
    case LeaseRerun(p, key, attempt, dies) =>
      if Live(s, p) && key.subject == Main {
        ReserveSays(s.rows, key, Act, Detail(Some(RerunFailedJobs), false, 0, attempt, None), s.passes[p].now,
                    Some(s.clock + LEASE_MS),
                    Limited(h.midnight, s.rows, key.project, s.passes[p].now, s.passes[p].reruns, h.cap), i);
        NewlySo(s, Apply(h, s, step).rows, i);
      }
    case HoldMerge(p, key, red) =>
      if Live(s, p) && key.subject == Merges {
        RowsOf(s);
        HoldSays(s.rows, s.holds, key, red, s.passes[p].now, s.clock + LEASE_MS, i);
        NewlySo(s, Apply(h, s, step).rows, i);
      }
    case ReleaseHold(p, key) =>
      if Live(s, p) && key.subject == Merges && !NoHold(s.holds, key.project) {
        RowsOf(s);
        HoldSays(s.rows, s.holds, key, "", s.passes[p].now, s.clock + LEASE_MS, i);
        NewlySo(s, Apply(h, s, step).rows, i);
      }
    case _ =>
  }

  lemma RowsOf(s: World)
    requires Inv(s)
    ensures RowsOk(s.rows)
  {
  }

  lemma {:induction false} RunSays(h: Host, s: World, steps: seq<Step>, i: nat)
    requires Inv(s) && SaysSo(s, i) && AllTruthful(h, s, steps)
    requires forall k :: 0 <= k < |steps| && steps[k].AnswerUnknown? ==> steps[k].firing != i
    ensures SaysSo(Run(h, s, steps), i)
    decreases |steps|
  {
    hide Inv, SaysSo, Apply;
    if steps != [] {
      StepKeepsInv(h, s, steps[0]);
      StepSays(h, s, steps[0], i);
      RunSays(h, Apply(h, s, steps[0]), steps[1..], i);
    }
  }

  // Over every interleaving whose read-backs are true: a firing the operator did
  // not answer for is canceled or refused only if GitHub took no rerun of it, and
  // a rerun's is confirmed only if GitHub did, with the attempt it became.
  lemma {:induction false} SettledTruly(h: Host, steps: seq<Step>, i: nat)
    requires AllTruthful(h, INIT, steps) && i < |Run(h, INIT, steps).rows|
    requires forall k :: 0 <= k < |steps| && steps[k].AnswerUnknown? ==> steps[k].firing != i
    ensures var s := Run(h, INIT, steps);
            var f := s.rows[i];
            && (f.state == Canceled || f.state == Refused ==> !Reran(s.sends, i))
            && (f.state == Confirmed && f.detail.action == Some(RerunFailedJobs) ==>
                  Reran(s.sends, i) && f.detail.rerun == Some(f.detail.attempt + 1))
  {
    RunSays(h, INIT, steps, i);
  }

  // One pass, whatever the operator answered before: it cancels no firing GitHub
  // took a rerun of, and confirms none it took no rerun of.
  lemma {:induction false} PassSettlesTruly(h: Host, steps: seq<Step>, p: nat, n: nat, read: ReadBack, i: nat)
    requires i < |Run(h, INIT, steps).rows| && Run(h, INIT, steps).rows[i].state == Leased
    requires Truthful(Run(h, INIT, steps), DealWithExpired(p, n, read))
    ensures var s := Run(h, INIT, steps);
            var t := Apply(h, s, DealWithExpired(p, n, read));
            && i < |t.rows|
            && (t.rows[i].state == Canceled ==> !Reran(s.sends, i))
            && (t.rows[i].state == Confirmed ==> Reran(s.sends, i))
            && (t.rows[i].state in {Leased, Canceled, Confirmed, Unknown})
  {
    hide Inv, Reran;
    var s := Run(h, INIT, steps);
    RunKeepsInv(h, INIT, steps);
    if Live(s, p) && n < |s.passes[p].expiring| {
      assert SaysSo(s, i);
      DealSays(s, p, n, read, i);
      LeasedAction(s, i);
      DealAction(s, p, n, read, i);
    }
  }

  lemma LeasedAction(s: World, i: nat)
    requires Inv(s) && i < |s.rows| && s.rows[i].state == Leased
    ensures s.rows[i].detail.action == Some(RerunFailedJobs)
  {
    assert RowOk(s.rows[i]);
  }

  lemma DealAction(s: World, p: nat, n: nat, read: ReadBack, i: nat)
    requires Inv(s) && i < |s.rows| && s.rows[i].state == Leased && p < |s.passes| && n < |s.passes[p].expiring|
    ensures var t := DealWith(s, p, n, read);
            && t.sends == s.sends && i < |t.rows| && t.rows[i].detail.action == s.rows[i].detail.action
            && t.rows[i].state in {Leased, Canceled, Confirmed, Unknown}
  {
    hide Inv;
    ReadSame(s, p, n);
    var (id, f) := s.passes[p].expiring[n];
    DealKeepsAction(s.rows, id, f, s.passes[p].now, read, i);
  }

  lemma DealKeepsAction(rows: seq<Firing>, id: nat, f: Firing, now: int, read: ReadBack, i: nat)
    requires id < |rows| && i < |rows| && f.detail.action == rows[id].detail.action && rows[i].state == Leased
    ensures var r := Deal(rows, id, f, now, read);
            && |r| == |rows| && r[i].detail.action == rows[i].detail.action
            && (r[i].state == Leased || r[i].state == Canceled || r[i].state == Confirmed || r[i].state == Unknown)
  {
  }
}

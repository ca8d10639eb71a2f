// What every interleaving of the firing protocol keeps.

module FiringSafety {
  import opened Firings
  import opened FiringProtocol

  // ------------------------------------------------- what every step keeps

  // What happens to one row: its identity stays, its state moves forward, its
  // worker is never taken back, and once it is leased its facts are fixed.
  ghost predicate Kept(a: Firing, b: Firing) {
    && b.key == a.key && Later(a.state, b.state)
    && (a.worker.Some? ==> b.worker == a.worker)
    && (a.state != Proposed ==>
          && b.mode == a.mode && b.createdAt == a.createdAt
          && b.detail.action == a.detail.action && b.detail.limited == a.detail.limited
          && (b.state == Leased ==> a.state == Leased))
  }

  ghost predicate RowsKept(a: seq<Firing>, b: seq<Firing>) {
    |a| <= |b| && forall i :: 0 <= i < |a| ==> Kept(a[i], b[i])
  }

  // No row newly matches what a rate limit counts.
  ghost predicate NoMoreCounted(a: seq<Firing>, b: seq<Firing>) {
    forall i :: 0 <= i < |b| && Counted(b[i]) ==>
      && i < |a| && Counted(a[i]) && b[i].key == a[i].key && b[i].createdAt == a[i].createdAt
      && (b[i].state == Leased ==> a[i].state == Leased)
  }

  // A row no worker has touched yet, or one whose lease is a rerun's.
  ghost predicate RowOk(f: Firing) {
    && (f.state == Proposed ==> f.worker == None && f.detail.replays == 0 && f.detail.action != Some(RerunFailedJobs))
    && (f.state == Leased ==> f.detail.action == Some(RerunFailedJobs))
    && (f.detail.action == Some(RerunFailedJobs) ==> f.key.subject == Main)
  }

  ghost predicate RowsOk(rows: seq<Firing>) {
    && (forall i :: 0 <= i < |rows| ==> RowOk(rows[i]))
    && (forall i, j :: 0 <= i < j < |rows| ==> rows[i].key != rows[j].key)
  }

  ghost predicate SameFacts(a: Detail, b: Detail) {
    a.action == b.action && a.limited == b.limited
  }

  ghost predicate WorkerOk(k: Worker, rows: seq<Firing>) {
    && (k.stage == Waiting ==> !k.took)
    && (k.stage == Holding || k.stage == Checked ==> k.took)
    && (k.took ==> && k.firing < |rows| && rows[k.firing].worker == Some(k.pid)
                   && rows[k.firing].state != Proposed && SameFacts(k.detail, rows[k.firing].detail))
  }

  // A worker that took its lease holds the row, alone.
  ghost predicate WorkersOk(workers: seq<Worker>, rows: seq<Firing>) {
    && (forall w :: 0 <= w < |workers| ==> WorkerOk(workers[w], rows))
    && (forall v, w :: 0 <= v < w < |workers| && workers[v].took && workers[w].took ==>
          workers[v].firing != workers[w].firing)
  }

  ghost predicate SendOk(x: Send, workers: seq<Worker>, rows: seq<Firing>) {
    && x.worker < |workers| && workers[x.worker].took && workers[x.worker].stage == Ended
    && x.firing == workers[x.worker].firing && x.firing < |rows|
    && x.row.key == rows[x.firing].key
    && x.row.state == Leased && x.row.worker == Some(workers[x.worker].pid)
  }

  // Every send is an ended worker's, on a row committed as leased to it.
  ghost predicate SendsOk(sends: seq<Send>, workers: seq<Worker>, rows: seq<Firing>) {
    && (forall i :: 0 <= i < |sends| ==> SendOk(sends[i], workers, rows))
    && (forall i, j :: 0 <= i < j < |sends| ==> sends[i].worker != sends[j].worker)
  }

  ghost predicate ReadOk(x: (nat, Firing), rows: seq<Firing>) {
    && x.0 < |rows| && rows[x.0].state != Proposed && SameFacts(x.1.detail, rows[x.0].detail)
  }

  ghost predicate PassesOk(passes: seq<Pass>, rows: seq<Firing>) {
    forall p, e :: 0 <= p < |passes| && 0 <= e < |passes[p].expiring| ==> ReadOk(passes[p].expiring[e], rows)
  }

  ghost predicate HoldsOk(holds: seq<Hold>) {
    forall i, j :: 0 <= i < j < |holds| && holds[i].open && holds[j].open ==> holds[i].project != holds[j].project
  }

  ghost predicate Inv(s: World) {
    && |s.findings| == |s.rows|
    && RowsOk(s.rows) && WorkersOk(s.workers, s.rows) && SendsOk(s.sends, s.workers, s.rows)
    && PassesOk(s.passes, s.rows) && HoldsOk(s.holds)
  }

  // ------------------------------------------------------- row by row

  lemma {:induction false} ReserveKeeps(
      rows: seq<Firing>, key: Key, mode: Mode, detail: Detail, now: int,
      lease: Option<int>, limited: bool)
    requires RowsOk(rows) && detail.replays == 0
    requires detail.action == Some(RerunFailedJobs) <==> lease.Some?
    requires lease.Some? ==> key.subject == Main
    ensures var r := Reserve(rows, key, mode, detail, now, lease, limited).0;
            RowsKept(rows, r) && RowsOk(r)
    ensures lease == None && mode == DryRun ==>
              NoMoreCounted(rows, Reserve(rows, key, mode, detail, now, lease, limited).0)
  {
    var id := IdOf(rows, key);
    if id < |rows| {
      forall i | 0 <= i < |rows| && i != id ensures rows[i].key != key {
        assert rows[id].key == key;
      }
    }
  }

  lemma {:induction false} SettleKeeps(rows: seq<Firing>, id: nat, pid: Option<int>, state: State, now: int, detail: Option<Detail>)
    requires RowsOk(rows) && Settled(state)
    requires detail.Some? && id < |rows| ==> SameFacts(detail.value, rows[id].detail)
    ensures var r := Settle(rows, id, pid, state, now, detail); RowsKept(rows, r) && NoMoreCounted(rows, r) && RowsOk(r) && |r| == |rows|
  {
  }

  lemma {:induction false} HoldKeeps(rows: seq<Firing>, holds: seq<Hold>, key: Key, red: string, now: int, lease: int)
    requires RowsOk(rows)
    ensures var r := PlaceHold(rows, holds, key, red, now, lease).0; RowsKept(rows, r) && NoMoreCounted(rows, r) && RowsOk(r)
  {
    var id := IdOf(rows, key);
    if id < |rows| {
      forall i | 0 <= i < |rows| && i != id ensures rows[i].key != key {
        assert rows[id].key == key;
      }
    }
  }

  lemma {:induction false} ReleaseKeeps(rows: seq<Firing>, holds: seq<Hold>, key: Key, now: int, lease: int)
    requires RowsOk(rows)
    ensures var r := EndHold(rows, holds, key, now, lease).0; RowsKept(rows, r) && NoMoreCounted(rows, r) && RowsOk(r)
  {
    var id := IdOf(rows, key);
    if id < |rows| {
      forall i | 0 <= i < |rows| && i != id ensures rows[i].key != key {
        assert rows[id].key == key;
      }
    }
  }

  lemma {:induction false} DealKeeps(rows: seq<Firing>, id: nat, f: Firing, now: int, read: ReadBack)
    requires RowsOk(rows) && id < |rows| && SameFacts(f.detail, rows[id].detail)
    ensures var r := Deal(rows, id, f, now, read); RowsKept(rows, r) && NoMoreCounted(rows, r) && RowsOk(r) && |r| == |rows|
  {
  }

  lemma {:induction false} SendSettles(s: World, w: nat, state: State, detail: Option<Detail>)
    requires Inv(s) && w < |s.workers| && s.workers[w].took && Settled(state)
    requires detail.Some? ==> SameFacts(detail.value, s.workers[w].detail)
    ensures var k := s.workers[w];
            var r := Settle(s.rows, k.firing, Some(k.pid), state, s.clock, detail);
            RowsKept(s.rows, r) && NoMoreCounted(s.rows, r) && RowsOk(r) && |r| == |s.rows|
  {
    hide RowsKept, NoMoreCounted, RowsOk, SendsOk, PassesOk, HoldsOk, Settle;
    assert WorkerOk(s.workers[w], s.rows);
    SettleKeeps(s.rows, s.workers[w].firing, Some(s.workers[w].pid), state, s.clock, detail);
  }

  lemma {:induction false} TookOf(workers: seq<Worker>, rows: seq<Firing>, w: nat)
    requires WorkersOk(workers, rows) && w < |workers| && (workers[w].stage == Holding || workers[w].stage == Checked)
    ensures workers[w].took
  {
    assert WorkerOk(workers[w], rows);
  }

  lemma {:induction false} StepKeepsRows(h: Host, s: World, step: Step)
    requires Inv(s)
    ensures RowsKept(s.rows, Apply(h, s, step).rows) && RowsOk(Apply(h, s, step).rows)
    ensures |Apply(h, s, step).findings| == |Apply(h, s, step).rows|
    ensures !step.LeaseRerun? ==> NoMoreCounted(s.rows, Apply(h, s, step).rows)
  {
    hide Reserve, Settle, PlaceHold, EndHold, Deal, RowsKept, NoMoreCounted, RowsOk, Limited, Count, LeasedReruns, SendsOk, HoldsOk,
         WorkersOk, PassesOk, NoHold, Take, SettleUnknown;
    Unchanged(s.rows);
    match step
    case TakeLease(w) =>
      if WorkerAt(s, w, Waiting) { TakeKeeps(s.rows, s.workers[w].firing, s.workers[w].pid, s.clock); }
    case Recheck(w, refusal) =>
      if WorkerAt(s, w, Holding) && refusal.Some? {
        TookOf(s.workers, s.rows, w);
        SendSettles(s, w, RefusalState(refusal.value), None);
      }
    case SendRerun(w, refusal, reply) =>
      if WorkerAt(s, w, Checked) {
        TookOf(s.workers, s.rows, w);
        var k := s.workers[w];
        SendSettles(s, step.worker, if reply.Accepted? then Confirmed else Refused,
                    Some(if reply.Accepted? then k.detail.(rerun := Some(k.detail.attempt + 1)) else k.detail));
        if refusal.Some? { SendSettles(s, step.worker, RefusalState(refusal.value), None); }
      }
    case DealWithExpired(p, n, read) =>
      if Live(s, p) && n < |s.passes[p].expiring| {
        var (id, f) := s.passes[p].expiring[n];
        PassReadOk(s.passes, s.rows, p);
        assert ReadOk(s.passes[p].expiring[n], s.rows);
        DealKeeps(s.rows, id, f, s.passes[p].now, read);
      }
    case Propose(p, key, action) =>
      if Live(s, p) && action != Some(RerunFailedJobs) {
        ReserveKeeps(s.rows, key, DryRun, Detail(action, false, 0, 0, None), s.passes[p].now, None, false);
      }
    case LeaseRerun(p, key, attempt, dies) =>
      if Live(s, p) && key.subject == Main {
        ReserveKeeps(s.rows, key, Act, Detail(Some(RerunFailedJobs), false, 0, attempt, None),
                     s.passes[p].now, Some(s.clock + LEASE_MS),
                     Limited(h.midnight, s.rows, key.project, s.passes[p].now, s.passes[p].reruns, h.cap));
      }
    case HoldMerge(p, key, red) =>
      if Live(s, p) { HoldKeeps(s.rows, s.holds, key, red, s.passes[p].now, s.clock + LEASE_MS); }
    case ReleaseHold(p, key) =>
      if Live(s, p) { ReleaseKeeps(s.rows, s.holds, key, s.passes[p].now, s.clock + LEASE_MS); }
    case AnswerUnknown(firing, confirmed) => AnswerKeeps(s.rows, firing, if confirmed then Confirmed else Canceled);
    case _ =>
  }

  lemma {:induction false} Unchanged(rows: seq<Firing>)
    ensures RowsKept(rows, rows) && NoMoreCounted(rows, rows)
  {
  }

  lemma {:induction false} TakeKeeps(rows: seq<Firing>, id: nat, pid: int, now: int)
    requires RowsOk(rows)
    ensures var r := Take(rows, id, pid, now); RowsKept(rows, r) && NoMoreCounted(rows, r) && RowsOk(r) && |r| == |rows|
  {
  }

  lemma {:induction false} AnswerKeeps(rows: seq<Firing>, id: nat, state: State)
    requires RowsOk(rows) && (state == Confirmed || state == Canceled)
    ensures var r := SettleUnknown(rows, id, state); RowsKept(rows, r) && NoMoreCounted(rows, r) && RowsOk(r) && |r| == |rows|
  {
  }

  // --------------------------------------------------- workers, sends, holds

  // Facts about rows that are leased, settled or taken go on holding.
  lemma {:induction false} RowsCarry(s: World, rows: seq<Firing>)
    requires Inv(s) && RowsKept(s.rows, rows)
    ensures WorkersOk(s.workers, rows) && SendsOk(s.sends, s.workers, rows) && PassesOk(s.passes, rows)
  {
    forall w | 0 <= w < |s.workers| ensures WorkerOk(s.workers[w], rows) {
      var k := s.workers[w];
      assert WorkerOk(k, s.rows);
      if k.took { assert Kept(s.rows[k.firing], rows[k.firing]); }
    }
    forall i | 0 <= i < |s.sends| ensures SendOk(s.sends[i], s.workers, rows) {
      var x := s.sends[i];
      assert SendOk(x, s.workers, s.rows);
      assert Kept(s.rows[x.firing], rows[x.firing]);
    }
    forall p, e | 0 <= p < |s.passes| && 0 <= e < |s.passes[p].expiring|
      ensures ReadOk(s.passes[p].expiring[e], rows)
    {
      var x := s.passes[p].expiring[e];
      assert ReadOk(x, s.rows);
      assert Kept(s.rows[x.0], rows[x.0]);
    }
  }

  // A worker ends or moves on.
  lemma {:induction false} StageKeeps(workers: seq<Worker>, rows: seq<Firing>, w: nat, stage: Stage)
    requires WorkersOk(workers, rows) && w < |workers|
    requires stage == Ended || (stage == Checked && workers[w].stage == Holding)
    ensures WorkersOk(workers[w := workers[w].(stage := stage)], rows)
  {
    assert WorkerOk(workers[w], rows);
  }

  lemma {:induction false} TakeKeepsWorkers(workers: seq<Worker>, rows: seq<Firing>, w: nat, now: int, rows': seq<Firing>)
    requires WorkersOk(workers, rows) && w < |workers| && workers[w].stage == Waiting
    requires var id := workers[w].firing;
             && id < |rows| && Takable(rows[id], now)
             && rows' == Take(rows, id, workers[w].pid, now) && WorkersOk(workers, rows')
    ensures var k := workers[w];
            WorkersOk(workers[w := k.(stage := Holding, took := true, detail := rows[k.firing].detail)], rows')
  {
    var k := workers[w];
    assert WorkerOk(k, rows);
    forall v | 0 <= v < |workers| && workers[v].took ensures workers[v].firing != k.firing {
      assert WorkerOk(workers[v], rows);
    }
  }

  lemma {:induction false} StepKeepsWorkers(h: Host, s: World, step: Step)
    requires Inv(s)
    ensures WorkersOk(Apply(h, s, step).workers, Apply(h, s, step).rows)
  {
    hide Reserve, Settle, PlaceHold, EndHold, Deal, RowsKept, NoMoreCounted, RowsOk, Limited, Count, LeasedReruns,
         SendsOk, PassesOk, HoldsOk, NoHold, WorkersOk, Take, SettleUnknown;
    var next := Apply(h, s, step);
    StepKeepsRows(h, s, step);
    RowsCarry(s, next.rows);
    match step
    case StartWorker(firing, pid) => NewWorkerKeeps(s.workers, s.rows, firing, pid);
    case TakeLease(w) =>
      if WorkerAt(s, w, Waiting) {
        var id := s.workers[w].firing;
        if id < |s.rows| && Takable(s.rows[id], s.clock) {
          TakeKeepsWorkers(s.workers, s.rows, w, s.clock, next.rows);
        } else {
          StageKeeps(s.workers, s.rows, w, Ended);
        }
      }
    case Recheck(w, refusal) =>
      if WorkerAt(s, w, Holding) {
        StageKeeps(s.workers, next.rows, w, if refusal.Some? then Ended else Checked);
      }
    case SendRerun(w, _, _) => if w < |s.workers| { StageKeeps(s.workers, next.rows, w, Ended); }
    case CrashWorker(w) => if w < |s.workers| { StageKeeps(s.workers, s.rows, w, Ended); }
    case _ =>
  }

  lemma {:induction false} NewWorkerKeeps(workers: seq<Worker>, rows: seq<Firing>, firing: nat, pid: int)
    requires WorkersOk(workers, rows)
    ensures WorkersOk(workers + [Worker(firing, pid, Waiting, false, Detail(None, false, 0, 0, None))], rows)
  {
  }

  // Sends stay good while the workers that sent them stay ended.
  lemma {:induction false} SendsCarry(sends: seq<Send>, workers: seq<Worker>, workers': seq<Worker>, rows: seq<Firing>)
    requires SendsOk(sends, workers, rows) && |workers| <= |workers'|
    requires forall w :: 0 <= w < |workers| && workers[w].stage == Ended ==> workers'[w] == workers[w]
    ensures SendsOk(sends, workers', rows)
  {
    forall i | 0 <= i < |sends| ensures SendOk(sends[i], workers', rows) {
      assert SendOk(sends[i], workers, rows);
    }
  }

  lemma {:induction false} SendKeeps(sends: seq<Send>, workers: seq<Worker>, rows: seq<Firing>, w: nat, row: Firing, reply: Reply)
    requires SendsOk(sends, workers, rows) && WorkersOk(workers, rows)
    requires w < |workers| && workers[w].stage == Checked
    requires workers[w].firing < |rows| && row.key == rows[workers[w].firing].key
    requires row.state == Leased && row.worker == Some(workers[w].pid)
    ensures SendsOk(sends + [Send(workers[w].firing, w, row, reply)], workers[w := workers[w].(stage := Ended)], rows)
  {
    var workers' := workers[w := workers[w].(stage := Ended)];
    assert WorkerOk(workers[w], rows);
    forall i | 0 <= i < |sends| ensures SendOk(sends[i], workers', rows) && sends[i].worker != w {
      assert SendOk(sends[i], workers, rows);
    }
  }

  lemma {:induction false} StepKeepsSends(h: Host, s: World, step: Step)
    requires Inv(s)
    ensures var t := Apply(h, s, step); SendsOk(t.sends, t.workers, t.rows)
  {
    hide Reserve, Settle, PlaceHold, EndHold, Deal, RowsKept, NoMoreCounted, RowsOk, Limited, Count, LeasedReruns,
         PassesOk, HoldsOk, NoHold, WorkersOk, SendsOk, Take, SettleUnknown;
    var next := Apply(h, s, step);
    StepKeepsRows(h, s, step);
    RowsCarry(s, next.rows);
    if step.SendRerun? && next.sends != s.sends {
      var k := s.workers[step.worker];
      KeyKept(s.rows, next.rows, k.firing);
      SendKeeps(s.sends, s.workers, next.rows, step.worker, s.rows[k.firing], step.reply);
    } else if !step.SendRerun? || WorkerAt(s, step.worker, Checked) {
      SendsCarry(s.sends, s.workers, next.workers, next.rows);
    }
  }

  lemma {:induction false} KeyKept(a: seq<Firing>, b: seq<Firing>, i: nat)
    requires RowsKept(a, b) && i < |a|
    ensures |a| <= |b| && b[i].key == a[i].key
  {
    assert Kept(a[i], b[i]);
  }

  // What a pass reads: rows as they stand, leased reruns, each once.
  lemma {:induction false} LeasedRerunsOk(rows: seq<Firing>, project: nat, n: nat)
    requires n <= |rows|
    ensures forall e :: 0 <= e < |LeasedReruns(rows, project, n)| ==>
              var (id, f) := LeasedReruns(rows, project, n)[e];
              id < n && f == rows[id] && f.state == Leased && f.detail.action == Some(RerunFailedJobs)
    ensures forall d, e :: 0 <= d < e < |LeasedReruns(rows, project, n)| ==>
              LeasedReruns(rows, project, n)[d].0 != LeasedReruns(rows, project, n)[e].0
    decreases n
  {
    if n > 0 { LeasedRerunsOk(rows, project, n - 1); }
  }

  // A pass ends, counts, or has dealt with one row it read.
  lemma {:induction false} PassKeeps(passes: seq<Pass>, rows: seq<Firing>, p: nat, pass: Pass)
    requires PassesOk(passes, rows) && p < |passes|
    requires forall e :: 0 <= e < |pass.expiring| ==> ReadOk(pass.expiring[e], rows)
    ensures PassesOk(passes[p := pass], rows)
  {
  }

  lemma {:induction false} PassReadOk(passes: seq<Pass>, rows: seq<Firing>, p: nat)
    requires PassesOk(passes, rows) && p < |passes|
    ensures forall e :: 0 <= e < |passes[p].expiring| ==> ReadOk(passes[p].expiring[e], rows)
  {
  }

  lemma {:induction false} NewPassKeeps(passes: seq<Pass>, rows: seq<Firing>, pass: Pass)
    requires PassesOk(passes, rows) && pass.expiring == []
    ensures PassesOk(passes + [pass], rows)
  {
  }

  lemma {:induction false} StepKeepsPasses(h: Host, s: World, step: Step)
    requires Inv(s)
    ensures PassesOk(Apply(h, s, step).passes, Apply(h, s, step).rows)
  {
    hide Reserve, Settle, PlaceHold, EndHold, Deal, RowsKept, NoMoreCounted, RowsOk, Limited, Count, LeasedReruns,
         SendsOk, HoldsOk, NoHold, WorkersOk, PassesOk, Take, SettleUnknown;
    var next := Apply(h, s, step);
    StepKeepsRows(h, s, step);
    RowsCarry(s, next.rows);
    match step
    case BeginPass(saved) => NewPassKeeps(s.passes, s.rows, next.passes[|s.passes|]);
    case ReadExpiring(p, project) =>
      if Live(s, p) {
        LeasedRerunsOk(s.rows, project, |s.rows|);
        PassReadOk(s.passes, s.rows, p);
        PassKeeps(s.passes, s.rows, p, next.passes[p]);
      }
    case DealWithExpired(p, _, _) =>
      if Live(s, p) {
        PassReadOk(s.passes, next.rows, p);
        PassKeeps(s.passes, next.rows, p, next.passes[p]);
      }
    case LeaseRerun(p, _, _, _) =>
      if Live(s, p) {
        PassReadOk(s.passes, next.rows, p);
        PassKeeps(s.passes, next.rows, p, next.passes[p]);
      }
    case EndPass(p) =>
      if p < |s.passes| {
        PassReadOk(s.passes, next.rows, p);
        PassKeeps(s.passes, next.rows, p, next.passes[p]);
      }
    case _ =>
  }

  lemma {:induction false} StepKeepsHolds(h: Host, s: World, step: Step)
    requires Inv(s)
    ensures HoldsOk(Apply(h, s, step).holds)
  {
    hide Reserve, Settle, Deal, RowsKept, NoMoreCounted, RowsOk, Limited, Count, LeasedReruns, SendsOk, PassesOk, WorkersOk;
  }

  lemma {:induction false} StepKeepsInv(h: Host, s: World, step: Step)
    requires Inv(s)
    ensures Inv(Apply(h, s, step))
  {
    hide Apply, RowsOk, WorkersOk, SendsOk, PassesOk, HoldsOk;
    StepKeepsRows(h, s, step);
    StepKeepsWorkers(h, s, step);
    StepKeepsSends(h, s, step);
    StepKeepsPasses(h, s, step);
    StepKeepsHolds(h, s, step);
  }

  lemma {:induction false} RunKeepsInv(h: Host, s: World, steps: seq<Step>)
    requires Inv(s)
    ensures Inv(Run(h, s, steps))
    decreases |steps|
  {
    if steps != [] {
      StepKeepsInv(h, s, steps[0]);
      RunKeepsInv(h, Apply(h, s, steps[0]), steps[1..]);
    }
  }

  // ------------------------------------------------------------- theorems

  // Over every interleaving: at most one rerun is sent per firing key, and
  // each while the committed row was leased to that very worker.
  lemma {:induction false} RerunSentAtMostOnce(h: Host, steps: seq<Step>)
    ensures var s := Run(h, INIT, steps);
            && (forall i, j :: 0 <= i < j < |s.sends| ==> s.sends[i].row.key != s.sends[j].row.key)
            && (forall i :: 0 <= i < |s.sends| ==>
                  && s.sends[i].worker < |s.workers|
                  && s.sends[i].row.state == Leased
                  && s.sends[i].row.worker == Some(s.workers[s.sends[i].worker].pid))
  {
    RunKeepsInv(h, INIT, steps);
    var s := Run(h, INIT, steps);
    forall i, j | 0 <= i < j < |s.sends| ensures s.sends[i].row.key != s.sends[j].row.key {
      var v, w := s.sends[i].worker, s.sends[j].worker;
      assert SendOk(s.sends[i], s.workers, s.rows) && SendOk(s.sends[j], s.workers, s.rows);
      assert v != w;
      var a, b := s.sends[i].firing, s.sends[j].firing;
      assert a != b;
      assert s.rows[a].key != s.rows[b].key;
    }
  }

  lemma {:induction false} LaterIsTransitive(a: State, b: State, c: State)
    requires Later(a, b) && Later(b, c)
    ensures Later(a, c)
  {
  }

  // Along every run a firing's state only moves forward, its key stays, and a worker that has it is never replaced.
  lemma {:induction false} FiringsMoveForward(h: Host, s: World, steps: seq<Step>, i: nat)
    requires Inv(s) && i < |s.rows|
    ensures var t := Run(h, s, steps);
            && i < |t.rows| && t.rows[i].key == s.rows[i].key
            && Later(s.rows[i].state, t.rows[i].state)
            && (s.rows[i].worker.Some? ==> t.rows[i].worker == s.rows[i].worker)
    decreases |steps|
  {
    if steps != [] {
      var next := Apply(h, s, steps[0]);
      StepKeepsRows(h, s, steps[0]);
      StepKeepsInv(h, s, steps[0]);
      assert Kept(s.rows[i], next.rows[i]);
      FiringsMoveForward(h, next, steps[1..], i);
      LaterIsTransitive(s.rows[i].state, next.rows[i].state, Run(h, s, steps).rows[i].state);
    }
  }

  // At most one merge hold per project stands.
  lemma {:induction false} OneHoldPerProject(h: Host, steps: seq<Step>)
    ensures HoldsOk(Run(h, INIT, steps).holds)
  {
    RunKeepsInv(h, INIT, steps);
  }
}

// Sweeps, workers and the operator over one firing table, step by step.
//
// A step is one transaction, or one event outside any: a process starting or
// dying, the clock moving.  Nothing else is assumed about their order.

module FiringProtocol {
  import opened Firings

  // What a worker has done: read nothing yet, holds the lease, passed its
  // first recheck, or ended (settled, refused or crashed).
  datatype Stage = Waiting | Holding | Checked | Ended

  // A worker process of one firing; `detail` is the firing's as it was taken.
  datatype Worker = Worker(firing: nat, pid: int, stage: Stage, took: bool, detail: Detail)

  datatype Reply = Accepted | RefusedByGitHub | CrashedAfterSend

  // A rerun sent to GitHub, with the committed row at that moment and what came
  // of it.
  datatype Send = Send(firing: nat, worker: nat, row: Firing, reply: Reply)

  // A sweep's pass: its fixed `now`, its count of the day's reruns, and the
  // rows it read as leased and has still to look at.
  datatype Pass = Pass(now: int, live: bool, reruns: nat, expiring: seq<(nat, Firing)>)

  // `findings[i]` counts the passes that found firing `i` expired and dealt
  // with it.
  datatype World = World(
    clock: int, rows: seq<Firing>, holds: seq<Hold>, workers: seq<Worker>, sends: seq<Send>,
    passes: seq<Pass>, findings: seq<nat>)

  // The host: its daily cap and the day an instant is in.
  datatype Host = Host(cap: nat, midnight: Midnight)

  datatype ReadBack = Unreadable | Attempt(attempt: int)

  datatype Step =
    | Tick(now: int)
    | StartWorker(firing: nat, pid: int)
    | TakeLease(worker: nat)
    | Recheck(worker: nat, refusal: Option<State>)
    | SendRerun(worker: nat, refusal: Option<State>, reply: Reply)
    | CrashWorker(worker: nat)
    | BeginPass(saved: nat)
    | ReadExpiring(pass: nat, project: nat)
    | DealWithExpired(pass: nat, n: nat, read: ReadBack)
    | Propose(pass: nat, key: Key, action: Option<Action>)
    | LeaseRerun(pass: nat, key: Key, attempt: int, dies: bool)
    | HoldMerge(pass: nat, key: Key, red: string)
    | ReleaseHold(pass: nat, key: Key)
    | EndPass(pass: nat)
    | AnswerUnknown(firing: nat, confirmed: bool)

  const INIT := World(0, [], [], [], [], [], [])

  // ---------------------------------------------------------------- workers

  function SetWorker(s: World, w: nat, stage: Stage): World
    requires w < |s.workers|
  {
    s.(workers := s.workers[w := s.workers[w].(stage := stage)])
  }

  predicate WorkerAt(s: World, w: nat, stage: Stage) {
    w < |s.workers| && s.workers[w].stage == stage
  }

  // The state a standing refusal settles a firing in.
  function RefusalState(refusal: State): State {
    if refusal == Canceled then Canceled else Refused
  }

  function Take1(s: World, w: nat): World
    requires w < |s.workers|
  {
    var id := s.workers[w].firing;
    if id < |s.rows| && Takable(s.rows[id], s.clock) then
      s.(rows := Take(s.rows, id, s.workers[w].pid, s.clock),
         workers := s.workers[w := s.workers[w].(stage := Holding, took := true, detail := s.rows[id].detail)])
    else SetWorker(s, w, Ended)
  }

  function SettleBy(s: World, w: nat, state: State, detail: Option<Detail>): World
    requires w < |s.workers| && Settled(state)
  {
    var k := s.workers[w];
    SetWorker(s.(rows := Settle(s.rows, k.firing, Some(k.pid), state, s.clock, detail)), w, Ended)
  }

  // The worker's second transaction: recheck, send, settle, or crash with the
  // rerun sent and nothing committed.
  function Send1(s: World, w: nat, reply: Reply): World
    requires w < |s.workers| && s.workers[w].firing < |s.rows|
  {
    var k := s.workers[w];
    var sent := s.(sends := s.sends + [Send(k.firing, w, s.rows[k.firing], reply)]);
    match reply
    case Accepted =>
      SettleBy(sent, w, Confirmed, Some(k.detail.(rerun := Some(k.detail.attempt + 1))))
    case RefusedByGitHub => SettleBy(sent, w, Refused, Some(k.detail))
    case CrashedAfterSend => SetWorker(sent, w, Ended)
  }

  // ------------------------------------------------------------------ sweeps

  predicate Live(s: World, p: nat) {
    p < |s.passes| && s.passes[p].live
  }

  function Max(a: nat, b: nat): nat {
    if a > b then a else b
  }

  // `project_reruns` of the leased state: this project's leased reruns.
  function LeasedReruns(rows: seq<Firing>, project: nat, n: nat): (r: seq<(nat, Firing)>)
    requires n <= |rows|
  {
    if n == 0 then []
    else
      var f := rows[n - 1];
      LeasedReruns(rows, project, n - 1)
      + if f.key.project == project && f.state == Leased && f.detail.action == Some(RerunFailedJobs)
        then [(n - 1, f)] else []
  }

  predicate Expired(f: Firing, now: int) {
    f.leaseUntil.Some? && f.leaseUntil.value <= now
  }

  // What `settle_expired` does with one firing it read.
  function Deal(rows: seq<Firing>, id: nat, f: Firing, now: int, read: ReadBack): seq<Firing> {
    if !Expired(f, now) then rows
    else if f.worker.Some? then
      match read
      case Unreadable => Settle(rows, id, f.worker, Unknown, now, None)
      case Attempt(n) =>
        if n > f.detail.attempt then Settle(rows, id, f.worker, Confirmed, now, Some(f.detail.(rerun := Some(n))))
        else Settle(rows, id, f.worker, Canceled, now, None)
    else if f.detail.replays >= 1 then Settle(rows, id, None, Canceled, now, None)
    else Replay(rows, id, now + LEASE_MS, now)
  }

  function DealWith(s: World, p: nat, n: nat, read: ReadBack): World
    requires p < |s.passes| && n < |s.passes[p].expiring|
  {
    var pass := s.passes[p];
    var (id, f) := pass.expiring[n];
    s.(rows := Deal(s.rows, id, f, pass.now, read),
       passes := s.passes[p := pass.(expiring := pass.expiring[..n] + pass.expiring[n + 1..])],
       findings := if Expired(f, pass.now) && id < |s.findings| then s.findings[id := s.findings[id] + 1]
                   else s.findings)
  }

  // New rows have no findings yet.
  function WithRows(s: World, rows: seq<Firing>): World {
    s.(rows := rows,
       findings := if |rows| > |s.findings| then s.findings + seq(|rows| - |s.findings|, i => 0) else s.findings)
  }

  // `observe` leasing one rerun; a pass that dies has committed the lease but
  // counted nothing.
  function Lease1(h: Host, s: World, p: nat, key: Key, attempt: int, dies: bool): World
    requires p < |s.passes|
  {
    var pass := s.passes[p];
    var limited := Limited(h.midnight, s.rows, key.project, pass.now, pass.reruns, h.cap);
    var (rows, id) := Reserve(s.rows, key, Act,
                              Detail(Some(RerunFailedJobs), false, 0, attempt, None), pass.now,
                              Some(s.clock + LEASE_MS), limited);
    var counted := id.Some? && !limited && !dies;
    WithRows(s, rows).(passes := s.passes[p := pass.(live := !dies,
                                                     reruns := if counted then pass.reruns + 1 else pass.reruns)])
  }

  predicate NoHold(holds: seq<Hold>, project: nat) {
    forall i :: 0 <= i < |holds| ==> !(holds[i].open && holds[i].project == project)
  }

  function Apply(h: Host, s: World, step: Step): World {
    match step
    case Tick(now) => s.(clock := now)
    case StartWorker(firing, pid) =>
      s.(workers := s.workers + [Worker(firing, pid, Waiting, false, Detail(None, false, 0, 0, None))])
    case TakeLease(w) => if WorkerAt(s, w, Waiting) then Take1(s, w) else s
    case Recheck(w, refusal) =>
      if !WorkerAt(s, w, Holding) then s
      else if refusal.Some? then SettleBy(s, w, RefusalState(refusal.value), None)
      else SetWorker(s, w, Checked)
    case SendRerun(w, refusal, reply) =>
      if !WorkerAt(s, w, Checked) then s
      else if refusal.Some? then SettleBy(s, w, RefusalState(refusal.value), None)
      else if !HeldBy(s.rows, s.workers[w].firing, Some(s.workers[w].pid)) then SetWorker(s, w, Ended)
      else Send1(s, w, reply)
    case CrashWorker(w) => if w < |s.workers| then SetWorker(s, w, Ended) else s
    case BeginPass(saved) =>
      s.(passes := s.passes + [Pass(s.clock, true,
           Max(saved, Count(h.midnight, s.rows, HostSince(h.midnight(s.clock)))), [])])
    case ReadExpiring(p, project) =>
      if Live(s, p)
      then s.(passes := s.passes[p := s.passes[p].(expiring := LeasedReruns(s.rows, project, |s.rows|))])
      else s
    case DealWithExpired(p, n, read) =>
      if Live(s, p) && n < |s.passes[p].expiring| then DealWith(s, p, n, read) else s
    case Propose(p, key, action) =>
      if Live(s, p) && action != Some(RerunFailedJobs)
      then WithRows(s, Reserve(s.rows, key, DryRun, Detail(action, false, 0, 0, None),
                               s.passes[p].now, None, false).0)
      else s
    case LeaseRerun(p, key, attempt, dies) =>
      if Live(s, p) && key.subject == Main then Lease1(h, s, p, key, attempt, dies) else s
    case HoldMerge(p, key, red) =>
      if !Live(s, p) || key.subject != Merges then s
      else
        var (rows, holds) := PlaceHold(s.rows, s.holds, key, red, s.passes[p].now, s.clock + LEASE_MS);
        WithRows(s, rows).(holds := holds)
    case ReleaseHold(p, key) =>
      if !Live(s, p) || key.subject != Merges || NoHold(s.holds, key.project) then s
      else
        var (rows, holds) := EndHold(s.rows, s.holds, key, s.passes[p].now, s.clock + LEASE_MS);
        WithRows(s, rows).(holds := holds)
    case EndPass(p) => if p < |s.passes| then s.(passes := s.passes[p := s.passes[p].(live := false)]) else s
    case AnswerUnknown(firing, confirmed) =>
      s.(rows := SettleUnknown(s.rows, firing, if confirmed then Confirmed else Canceled))
  }

  function Run(h: Host, s: World, steps: seq<Step>): World
    decreases |steps|
  {
    if steps == [] then s else Run(h, Apply(h, s, steps[0]), steps[1..])
  }
}

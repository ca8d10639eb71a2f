// The automationFirings table (store/automations.py): what each transaction
// does to the rows, and the counts the rate limits read.

module Firings {

  datatype Option<+T> = None | Some(value: T)

  datatype Mode = DryRun | Act

  datatype State = Proposed | Refused | Leased | Confirmed | Unknown | Canceled

  datatype Action = RerunFailedJobs | HoldMerges | ReleaseHeldMerges

  // The fields of a firing's JSON detail that the protocol reads or writes:
  // `attempt` is the workflow run's attempt when the firing was detected, and
  // `rerun` the attempt the rerun became.
  datatype Detail = Detail(action: Option<Action>, limited: bool, replays: nat, attempt: int, rerun: Option<int>)

  // What a firing is about: reruns on main, or the holds on merges.
  datatype Subject = Main | Merges

  // The unique firing key: its project, its subject, and its automation, revision
  // and cause.
  datatype Key = Key(project: nat, subject: Subject, cause: string)

  datatype Firing = Firing(
    key: Key, mode: Mode, state: State, detail: Detail,
    createdAt: int, settledAt: Option<int>, leaseUntil: Option<int>, worker: Option<int>)

  predicate Settled(s: State) {
    s == Refused || s == Confirmed || s == Unknown || s == Canceled
  }

  // The order states move in; a refused, confirmed or canceled firing is final.
  predicate Later(a: State, b: State) {
    || a == b || a == Proposed
    || (a == Leased && Settled(b))
    || (a == Unknown && (b == Confirmed || b == Canceled))
  }

  // ------------------------------------------------------------------ rows

  // The id of the row with this firing key, or the id a new row gets.
  function IdOf(rows: seq<Firing>, key: Key): (id: nat)
    ensures id <= |rows|
    ensures id < |rows| ==> rows[id].key == key
    ensures forall i :: 0 <= i < id ==> rows[i].key != key
  {
    if rows == [] || rows[0].key == key then 0 else 1 + IdOf(rows[1..], key)
  }

  // `reserve_firing`: a new row, or a proposal taken over by a lease or a
  // refusal; `limited` is what the limit answered inside the transaction.
  function Reserve(
      rows: seq<Firing>, key: Key, mode: Mode, detail: Detail, now: int,
      lease: Option<int>, limited: bool): (r: (seq<Firing>, Option<nat>))
  {
    var refused := lease.Some? && limited;
    var state := if lease.None? then Proposed else if limited then Refused else Leased;
    var detail' := if refused then detail.(limited := true) else detail;
    var settled := if refused then Some(now) else None;
    var lease' := if refused then None else lease;
    var id := IdOf(rows, key);
    if id == |rows| then
      (rows + [Firing(key, mode, state, detail', now, settled, lease', None)], Some(id))
    else if rows[id].state == Proposed && state != Proposed then
      (rows[id := rows[id].(mode := mode, state := state, detail := detail', createdAt := now,
                            settledAt := settled, leaseUntil := lease')], Some(id))
    else (rows, None)
  }

  predicate Takable(f: Firing, now: int) {
    f.state == Leased && f.worker == None && f.leaseUntil.Some? && f.leaseUntil.value > now
  }

  function Take(rows: seq<Firing>, id: nat, pid: int, now: int): seq<Firing> {
    if id < |rows| && Takable(rows[id], now) then rows[id := rows[id].(worker := Some(pid))] else rows
  }

  predicate HeldBy(rows: seq<Firing>, id: nat, pid: Option<int>) {
    id < |rows| && rows[id].state == Leased && rows[id].worker == pid
  }

  // `settle_firing`: only the lease's own holder settles it.
  function Settle(
      rows: seq<Firing>, id: nat, pid: Option<int>, state: State, now: int, detail: Option<Detail>): seq<Firing>
    requires Settled(state)
  {
    if HeldBy(rows, id, pid) then
      rows[id := rows[id].(state := state, settledAt := Some(now),
                           detail := if detail.Some? then detail.value else rows[id].detail)]
    else rows
  }

  predicate Renewable(f: Firing, now: int) {
    f.state == Leased && f.worker == None && f.leaseUntil.Some? && f.leaseUntil.value <= now
  }

  function Replay(rows: seq<Firing>, id: nat, until: int, now: int): seq<Firing> {
    if id < |rows| && Renewable(rows[id], now) then
      rows[id := rows[id].(leaseUntil := Some(until),
                           detail := rows[id].detail.(replays := rows[id].detail.replays + 1))]
    else rows
  }

  function SettleUnknown(rows: seq<Firing>, id: nat, state: State): seq<Firing>
    requires state == Confirmed || state == Canceled
  {
    if id < |rows| && rows[id].state == Unknown then rows[id := rows[id].(state := state)] else rows
  }

  // --------------------------------------------------------- holds on merges

  // A hold's `red` is the commit and the checks that failed on it.
  datatype Hold = Hold(project: nat, red: string, firing: nat, open: bool)

  function CloseHolds(holds: seq<Hold>, project: nat): (r: seq<Hold>)
    ensures |r| == |holds|
    ensures forall i :: 0 <= i < |r| ==>
      r[i] == (if holds[i].project == project then holds[i].(open := false) else holds[i])
  {
    seq(|holds|, i requires 0 <= i < |holds| =>
      if holds[i].project == project then holds[i].(open := false) else holds[i])
  }

  predicate Stands(holds: seq<Hold>, project: nat, red: string) {
    exists i :: 0 <= i < |holds| && holds[i].open && holds[i].project == project && holds[i].red == red
  }

  function HoldDetail(action: Action): Detail {
    Detail(Some(action), false, 0, 0, None)
  }

  // `hold_merges` once it acts: unless this very hold stands, the firing is reserved, the standing hold
  // ended, the new one placed and the firing confirmed, in one transaction.
  function PlaceHold(
      rows: seq<Firing>, holds: seq<Hold>, key: Key, red: string, now: int, lease: int)
    : (r: (seq<Firing>, seq<Hold>))
  {
    if Stands(holds, key.project, red) then (rows, holds)
    else
      var (reserved, id) := Reserve(rows, key, Act, HoldDetail(HoldMerges), now, Some(lease), false);
      var firing := if id.Some? then id.value else IdOf(rows, key);
      (if firing < |reserved| && reserved[firing].state == Leased
       then reserved[firing := reserved[firing].(state := Confirmed, settledAt := Some(now))] else reserved,
       CloseHolds(holds, key.project) + [Hold(key.project, red, firing, true)])
  }

  // `release_held_merges` on a standing hold.
  function EndHold(
      rows: seq<Firing>, holds: seq<Hold>, key: Key, now: int, lease: int)
    : (r: (seq<Firing>, seq<Hold>))
  {
    var detail := HoldDetail(ReleaseHeldMerges);
    var (reserved, id) := Reserve(rows, key, Act, detail, now, Some(lease), false);
    if id.None? then (rows, holds)
    else (Settle(reserved, id.value, None, Confirmed, now, Some(detail)), CloseHolds(holds, key.project))
  }

  // ---------------------------------------------------------------- counts

  const QUEUED := 3
  const PER_HOUR := 6
  const PER_DAY := 30
  const HOUR_MS := 60 * 60 * 1000
  const LEASE_MS := 5 * 60 * 1000

  // A firing the limits count: an acted rerun no limit refused.
  predicate Counted(f: Firing) {
    f.mode == Act && f.detail.action == Some(RerunFailedJobs) && !f.detail.limited
  }

  // Which counted firings: of one project or of every project, all or only
  // the leased, created in a range or on a day.
  datatype Which =
    | Queued(project: nat)
    | InHour(project: nat, since: int)
    | CreatedSince(project: nat, since: int)
    | OnDay(project: nat, day: int)
    | HostOnDay(day: int)
    | HostSince(since: int)

  // `midnight` answers the start of the Pacific day an instant is in.
  type Midnight = int -> int

  predicate Is(m: Midnight, f: Firing, w: Which) {
    Counted(f) &&
    match w
    case Queued(p) => f.key.project == p && f.state == Leased
    case InHour(p, since) => f.key.project == p && since <= f.createdAt <= since + HOUR_MS
    case CreatedSince(p, since) => f.key.project == p && since <= f.createdAt
    case OnDay(p, day) => f.key.project == p && m(f.createdAt) == day
    case HostOnDay(day) => m(f.createdAt) == day
    case HostSince(since) => since <= f.createdAt
  }

  function Count(m: Midnight, rows: seq<Firing>, w: Which): nat {
    if rows == [] then 0
    else Count(m, rows[..|rows| - 1], w) + if Is(m, rows[|rows| - 1], w) then 1 else 0
  }

  // `limit_reason` over `act_counts`, with the host's reruns so far today.
  predicate Limited(m: Midnight, rows: seq<Firing>, project: nat, now: int, reruns: nat, cap: nat) {
    || Count(m, rows, Queued(project)) >= QUEUED
    || Count(m, rows, CreatedSince(project, now - HOUR_MS)) >= PER_HOUR
    || Count(m, rows, CreatedSince(project, m(now))) >= PER_DAY
    || reruns >= cap
  }

  // A count only grows by rows that newly match.
  lemma {:induction false} CountLeq(m: Midnight, a: seq<Firing>, v: Which, b: seq<Firing>, w: Which)
    requires |a| == |b|
    requires forall i :: 0 <= i < |a| ==> Is(m, a[i], v) ==> Is(m, b[i], w)
    ensures Count(m, a, v) <= Count(m, b, w)
  {
    if a != [] { CountLeq(m, a[..|a| - 1], v, b[..|b| - 1], w); }
  }

  lemma CountAppend(m: Midnight, rows: seq<Firing>, f: Firing, w: Which)
    ensures Count(m, rows + [f], w) == Count(m, rows, w) + if Is(m, f, w) then 1 else 0
  {
    assert (rows + [f])[..|rows|] == rows;
  }

  lemma {:induction false} CountUpdate(m: Midnight, rows: seq<Firing>, id: nat, f: Firing, w: Which)
    requires id < |rows| && !Is(m, rows[id], w)
    ensures Count(m, rows[id := f], w) == Count(m, rows, w) + if Is(m, f, w) then 1 else 0
  {
    var n := |rows| - 1;
    if id == n {
      assert rows[id := f][..n] == rows[..n];
    } else {
      CountUpdate(m, rows[..n], id, f, w);
      assert rows[id := f][..n] == rows[..n][id := f];
    }
  }
}

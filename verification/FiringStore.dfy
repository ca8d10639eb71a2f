// The firing table, the worker and the expiry pass as they change it in place.
// Each method is one transaction, and its result is the protocol's.

module FiringStore {
  import opened Firings
  import opened FiringProtocol

  // The sweep state's reruns of one day, the day named by its midnight.
  class HostReruns {
    const midnight: Midnight
    const cap: nat
    var day: int
    var count: nat

    constructor (midnight: Midnight, cap: nat, saved: Option<(int, nat)>, committed: nat, now: int)
      ensures this.midnight == midnight && this.cap == cap && day == midnight(now)
      ensures count == Max(if saved.Some? && saved.value.0 == midnight(now) then saved.value.1 else 0, committed)
    {
      var today := if saved.Some? && saved.value.0 == midnight(now) then saved.value.1 else 0;
      this.midnight, this.cap := midnight, cap;
      day := midnight(now);
      count := if committed > today then committed else today;
    }

    function Today(now: int): nat
      reads this
    {
      if day == midnight(now) then count else 0
    }

    method CountOne(now: int)
      modifies this
      ensures Today(now) == old(Today(now)) + 1 && day == midnight(now)
      ensures forall t :: midnight(t) != midnight(now) ==> Today(t) == 0
    {
      count := Today(now) + 1;
      day := midnight(now);
    }

    method Limit(rows: seq<Firing>, project: nat, now: int) returns (limited: bool)
      ensures limited == Limited(midnight, rows, project, now, Today(now), cap)
    {
      var queued, hour, today := 0, 0, 0;
      for i := 0 to |rows|
        invariant queued == Count(midnight, rows[..i], Queued(project))
        invariant hour == Count(midnight, rows[..i], CreatedSince(project, now - HOUR_MS))
        invariant today == Count(midnight, rows[..i], CreatedSince(project, midnight(now)))
      {
        assert rows[..i + 1][..i] == rows[..i];
        var f := rows[i];
        if Counted(f) && f.key.project == project {
          queued := queued + if f.state == Leased then 1 else 0;
          hour := hour + if f.createdAt >= now - HOUR_MS then 1 else 0;
          today := today + if f.createdAt >= midnight(now) then 1 else 0;
        }
      }
      assert rows[..|rows|] == rows;
      limited := queued >= QUEUED || hour >= PER_HOUR || today >= PER_DAY || Today(now) >= cap;
    }
  }

  class Table {
    var rows: seq<Firing>
    var holds: seq<Hold>

    constructor ()
      ensures rows == [] && holds == []
    {
      rows, holds := [], [];
    }

    method Find(key: Key) returns (id: nat)
      ensures id == IdOf(rows, key)
    {
      id := 0;
      while id < |rows| && rows[id].key != key
        invariant id <= |rows|
        invariant IdOf(rows, key) == id + IdOf(rows[id..], key)
      {
        id := id + 1;
      }
    }

    // `limit` is asked inside the transaction, and only of a lease.
    method ReserveFiring(key: Key, mode: Mode, detail: Detail, now: int, lease: Option<int>, limit: HostReruns?)
      returns (id: Option<nat>)
      modifies this`rows
      ensures var limited := limit != null && Limited(limit.midnight, old(rows), key.project, now, limit.Today(now), limit.cap);
              (rows, id) == Reserve(old(rows), key, mode, detail, now, lease, limited)
    {
      var limited := false;
      if lease.Some? && limit != null {
        limited := limit.Limit(rows, key.project, now);
      }
      var f := Firing(key, mode, Proposed, detail, now, None, None, None);
      if limited {
        f := f.(state := Refused, detail := detail.(limited := true), settledAt := Some(now));
      } else if lease.Some? {
        f := f.(state := Leased, leaseUntil := lease);
      }
      var at := Find(key);
      if at == |rows| {
        rows := rows + [f];
        id := Some(at);
      } else if rows[at].state == Proposed && f.state != Proposed {
        rows := rows[at := f.(worker := rows[at].worker)];
        id := Some(at);
      } else {
        id := None;
      }
    }

    method TakeFiring(id: nat, pid: int, now: int) returns (taken: Option<Firing>)
      modifies this`rows
      ensures rows == Take(old(rows), id, pid, now)
      ensures taken.Some? <==> id < |old(rows)| && Takable(old(rows)[id], now)
      ensures taken.Some? ==> taken.value == rows[id] && rows[id].worker == Some(pid)
    {
      taken := None;
      if id < |rows| {
        var f := rows[id];
        if f.state == Leased && f.worker == None && f.leaseUntil.Some? && f.leaseUntil.value > now {
          rows := rows[id := f.(worker := Some(pid))];
          taken := Some(rows[id]);
        }
      }
    }

    method SettleFiring(id: nat, pid: Option<int>, state: State, now: int, detail: Option<Detail>) returns (settled: bool)
      requires Settled(state)
      modifies this`rows
      ensures rows == Settle(old(rows), id, pid, state, now, detail)
      ensures settled == HeldBy(old(rows), id, pid)
    {
      settled := id < |rows| && rows[id].state == Leased && rows[id].worker == pid;
      if settled {
        var f := rows[id].(state := state, settledAt := Some(now));
        if detail.Some? { f := f.(detail := detail.value); }
        rows := rows[id := f];
      }
    }

    method ReplayFiring(id: nat, until: int, now: int) returns (replayed: bool)
      modifies this`rows
      ensures rows == Replay(old(rows), id, until, now)
      ensures replayed == (id < |old(rows)| && Renewable(old(rows)[id], now))
    {
      replayed := false;
      if id < |rows| {
        var f := rows[id];
        if f.state == Leased && f.worker == None && f.leaseUntil.Some? && f.leaseUntil.value <= now {
          rows := rows[id := f.(leaseUntil := Some(until), detail := f.detail.(replays := f.detail.replays + 1))];
          replayed := true;
        }
      }
    }

    method SettleUnknownFiring(id: nat, state: State) returns (settled: bool)
      requires state == Confirmed || state == Canceled
      modifies this`rows
      ensures rows == SettleUnknown(old(rows), id, state)
      ensures settled == (id < |old(rows)| && old(rows)[id].state == Unknown)
    {
      settled := id < |rows| && rows[id].state == Unknown;
      if settled { rows := rows[id := rows[id].(state := state)]; }
    }

    // Ends what stands and places a new hold; the firing, if still leased, is
    // confirmed.
    method PlaceMergeHold(project: nat, firing: nat, red: string, now: int)
      modifies this
      ensures holds == CloseHolds(old(holds), project) + [Hold(project, red, firing, true)]
      ensures rows == if firing < |old(rows)| && old(rows)[firing].state == Leased
                      then old(rows)[firing := old(rows)[firing].(state := Confirmed, settledAt := Some(now))]
                      else old(rows)
    {
      EndMergeHolds(project);
      holds := holds + [Hold(project, red, firing, true)];
      if firing < |rows| && rows[firing].state == Leased {
        rows := rows[firing := rows[firing].(state := Confirmed, settledAt := Some(now))];
      }
    }

    method EndMergeHolds(project: nat)
      modifies this`holds
      ensures holds == CloseHolds(old(holds), project)
    {
      for i := 0 to |holds|
        invariant |holds| == |old(holds)|
        invariant holds[..i] == CloseHolds(old(holds), project)[..i]
        invariant holds[i..] == old(holds)[i..]
      {
        assert holds[i] == holds[i..][0] == old(holds)[i];
        if holds[i].project == project { holds := holds[i := holds[i].(open := false)]; }
      }
    }

    // `hold_merges`: nothing while no required check is red, a proposal unless
    // the project acts and policy lets it, and otherwise a hold, in one
    // transaction.
    method HoldRed(key: Key, red: Option<string>, acts: bool, now: int, lease: int)
      modifies this
      ensures (rows, holds) == HoldOrPropose(old(rows), old(holds), key, red, acts, now, lease)
    {
      if red.None? { return; }
      if !acts {
        var _ := ReserveFiring(key, DryRun, HoldDetail(HoldMerges), now, None, null);
        return;
      }
      var standing := false;
      for i := 0 to |holds|
        invariant standing <==> exists j :: 0 <= j < i && holds[j].open && holds[j].project == key.project && holds[j].red == red.value
      {
        if holds[i].open && holds[i].project == key.project && holds[i].red == red.value { standing := true; }
      }
      assert standing <==> Stands(holds, key.project, red.value);
      if standing { return; }
      var id := ReserveFiring(key, Act, HoldDetail(HoldMerges), now, Some(lease), null);
      var firing: nat;
      if id.Some? {
        firing := id.value;
      } else {
        firing := Find(key);
      }
      PlaceMergeHold(key.project, firing, red.value, now);
    }

    // `release_held_merges`: nothing when the project does not act, a gate
    // stands or no hold does; otherwise in one transaction.
    method ReleaseHolds(key: Key, gated: bool, now: int, lease: int) returns (firing: Option<nat>)
      modifies this
      ensures (rows, holds) == if gated || NoHold(old(holds), key.project) then (old(rows), old(holds))
                               else EndHold(old(rows), old(holds), key, now, lease)
    {
      if gated { return None; }
      var standing := false;
      for i := 0 to |holds|
        invariant standing <==> exists j :: 0 <= j < i && holds[j].open && holds[j].project == key.project
      {
        if holds[i].open && holds[i].project == key.project { standing := true; }
      }
      assert standing <==> !NoHold(holds, key.project);
      if !standing { return None; }
      firing := ReserveFiring(key, Act, HoldDetail(ReleaseHeldMerges), now, Some(lease), null);
      if firing.Some? {
        EndMergeHolds(key.project);
        var _ := SettleFiring(firing.value, None, Confirmed, now, Some(HoldDetail(ReleaseHeldMerges)));
      }
    }
  }

  // `hold_merges` on the rows and the holds.
  function HoldOrPropose(
      rows: seq<Firing>, holds: seq<Hold>, key: Key, red: Option<string>, acts: bool, now: int, lease: int)
    : (r: (seq<Firing>, seq<Hold>))
  {
    if red.None? then (rows, holds)
    else if acts then PlaceHold(rows, holds, key, red.value, now, lease)
    else (Reserve(rows, key, DryRun, HoldDetail(HoldMerges), now, None, false).0, holds)
  }

  // ---------------------------------------------------------------- worker

  // A worker process of one firing, the row as it took it.
  class Worker {
    const table: Table
    const id: nat
    const pid: int
    const firing: Firing

    constructor (table: Table, id: nat, pid: int, firing: Firing)
      ensures this.table == table && this.id == id && this.pid == pid && this.firing == firing
    {
      this.table, this.id, this.pid, this.firing := table, id, pid, firing;
    }

    // What stands against the rerun: a stop or changed config cancels it, a
    // policy or an attempt already moved on refuses it.
    static function Standing(stopped: bool, policy: bool, moved: bool): (r: Option<State>)
    {
      if stopped then Some(Canceled) else if policy || moved then Some(Refused) else None
    }

    method SettledIfRefused(stopped: bool, policy: bool, moved: bool, now: int) returns (refused: bool)
      modifies table`rows
      ensures refused <==> stopped || policy || moved
      ensures table.rows == if refused
                            then Settle(old(table.rows), id, Some(pid), if stopped then Canceled else Refused, now, None)
                            else old(table.rows)
    {
      var found := Standing(stopped, policy, moved);
      if found.Some? { var _ := table.SettleFiring(id, Some(pid), found.value, now, None); }
      refused := found.Some?;
    }

    method StillLeased() returns (held: bool)
      ensures held == HeldBy(table.rows, id, Some(pid))
    {
      held := id < |table.rows| && table.rows[id].state == Leased && table.rows[id].worker == Some(pid);
    }

    // The worker's second transaction: `sent` reruns on GitHub, which took it
    // or not.
    method Rerun(stopped: bool, policy: bool, moved: bool, taken: bool, now: int) returns (sent: bool)
      modifies table`rows
      ensures sent <==> !stopped && !policy && !moved && HeldBy(old(table.rows), id, Some(pid))
      ensures sent ==>
                table.rows == old(table.rows)[id := old(table.rows)[id].(
                  state := if taken then Confirmed else Refused, settledAt := Some(now),
                  detail := if taken then firing.detail.(rerun := Some(firing.detail.attempt + 1)) else firing.detail)]
      ensures !sent ==>
                table.rows == if stopped || policy || moved
                              then Settle(old(table.rows), id, Some(pid), if stopped then Canceled else Refused, now, None)
                              else old(table.rows)
    {
      sent := false;
      var refused := SettledIfRefused(stopped, policy, moved, now);
      if refused { return; }
      var held := StillLeased();
      if !held { return; }
      sent := true;
      if taken {
        var _ := table.SettleFiring(id, Some(pid), Confirmed, now,
                                    Some(firing.detail.(rerun := Some(firing.detail.attempt + 1))));
      } else {
        var _ := table.SettleFiring(id, Some(pid), Refused, now, Some(firing.detail));
      }
    }
  }

  // ----------------------------------------------------------- expiry pass

  predicate Renews(rows: seq<Firing>, id: nat, f: Firing, now: int) {
    Expired(f, now) && f.worker == None && f.detail.replays == 0 && id < |rows| && Renewable(rows[id], now)
  }

  // Dealing in turn with each lease a pass read, as GitHub answers each, and
  // the firings whose lease was renewed.
  function DealAll(rows: seq<Firing>, read: seq<(nat, Firing)>, now: int, replies: seq<ReadBack>)
    : (r: (seq<Firing>, seq<nat>))
    requires |replies| == |read|
  {
    if read == [] then (rows, [])
    else
      var n := |read| - 1;
      var (before, leased) := DealAll(rows, read[..n], now, replies[..n]);
      (Deal(before, read[n].0, read[n].1, now, replies[n]),
       if Renews(before, read[n].0, read[n].1, now) then leased + [read[n].0] else leased)
  }

  method SettleExpired(table: Table, project: nat, now: int, replies: seq<ReadBack>) returns (leased: seq<nat>)
    requires |replies| == |LeasedReruns(table.rows, project, |table.rows|)|
    modifies table`rows
    ensures (table.rows, leased) ==
            DealAll(old(table.rows), LeasedReruns(old(table.rows), project, |old(table.rows)|), now, replies)
  {
    leased := [];
    var read := [];
    for i := 0 to |table.rows|
      invariant read == LeasedReruns(table.rows, project, i)
    {
      var f := table.rows[i];
      if f.key.project == project && f.state == Leased && f.detail.action == Some(RerunFailedJobs) {
        read := read + [(i, f)];
      }
    }
    ghost var rows := table.rows;
    for i := 0 to |read|
      invariant (table.rows, leased) == DealAll(rows, read[..i], now, replies[..i])
    {
      assert read[..i + 1][..i] == read[..i] && replies[..i + 1][..i] == replies[..i];
      var (id, f) := read[i];
      if f.leaseUntil.None? || f.leaseUntil.value > now { continue; }
      if f.worker.Some? {
        ReadBackOne(table, id, f, now, replies[i]);
      } else if f.detail.replays >= 1 {
        var _ := table.SettleFiring(id, None, Canceled, now, None);
      } else {
        var replayed := table.ReplayFiring(id, now + LEASE_MS, now);
        if replayed { leased := leased + [id]; }
      }
    }
    assert read[..|read|] == read && replies[..|read|] == replies;
  }

  method ReadBackOne(table: Table, id: nat, f: Firing, now: int, reply: ReadBack)
    requires f.worker.Some? && Expired(f, now)
    modifies table`rows
    ensures table.rows == Deal(old(table.rows), id, f, now, reply)
    ensures !(id < |old(table.rows)| && old(table.rows)[id].state == Leased && old(table.rows)[id].worker == f.worker) ==>
              table.rows == old(table.rows)
    ensures id < |old(table.rows)| && old(table.rows)[id].state == Leased && old(table.rows)[id].worker == f.worker ==>
              var was := old(table.rows)[id];
              table.rows == old(table.rows)[id :=
                match reply
                case Unreadable => was.(state := Unknown, settledAt := Some(now))
                case Attempt(n) =>
                  if n > f.detail.attempt
                  then was.(state := Confirmed, settledAt := Some(now), detail := f.detail.(rerun := Some(n)))
                  else was.(state := Canceled, settledAt := Some(now))]
  {
    var state, detail := Canceled, None;
    match reply {
      case Unreadable => state := Unknown;
      case Attempt(n) =>
        if n > f.detail.attempt { state, detail := Confirmed, Some(f.detail.(rerun := Some(n))); }
    }
    var _ := table.SettleFiring(id, f.worker, state, now, detail);
  }

  // A rerun for each found run in turn: proposed when the project does not act,
  // else leased, each lease counting against the next one's limit.
  function LeaseAll(
      m: Midnight, cap: nat, rows: seq<Firing>, reruns: nat, found: seq<(Key, int)>, acts: bool, now: int, until: int)
    : (r: (seq<Firing>, nat))
  {
    if found == [] then (rows, reruns)
    else
      var n := |found| - 1;
      var (before, count) := LeaseAll(m, cap, rows, reruns, found[..n], acts, now, until);
      if !acts then (Reserve(before, found[n].0, DryRun, Detail(None, false, 0, 0, None), now, None, false).0, count)
      else
        var limited := Limited(m, before, found[n].0.project, now, count, cap);
        var (after, id) := Reserve(before, found[n].0, Act, Detail(Some(RerunFailedJobs), false, 0, found[n].1, None),
                                   now, Some(until), limited);
        (after, if id.Some? && !limited then count + 1 else count)
  }

  lemma ReserveLeases(
      m: Midnight, cap: nat, rows: seq<Firing>, reruns: nat, key: Key, detail: Detail, now: int, until: int)
    ensures var limited := Limited(m, rows, key.project, now, reruns, cap);
            var (r, id) := Reserve(rows, key, Act, detail, now, Some(until), limited);
            && (!limited ==> reruns < cap)
            && (id.Some? ==> id.value < |r| && (r[id.value].state == Leased <==> !limited))
  {
  }

  // The reruns of one project's failed runs: propose each, or reserve it under
  // the limits and count it once leased.
  method LeaseFound(table: Table, host: HostReruns, found: seq<(Key, int)>, acts: bool, now: int, until: int)
    returns (leased: seq<nat>)
    modifies table`rows, host
    ensures (table.rows, host.Today(now)) ==
            LeaseAll(host.midnight, host.cap, old(table.rows), old(host.Today(now)), found, acts, now, until)
    ensures host.Today(now) == old(host.Today(now)) + |leased|
    ensures |leased| > 0 ==> host.Today(now) <= host.cap
  {
    hide Reserve, Limited;
    leased := [];
    ghost var rows, reruns := table.rows, host.Today(now);
    for i := 0 to |found|
      invariant (table.rows, host.Today(now))
                == LeaseAll(host.midnight, host.cap, rows, reruns, found[..i], acts, now, until)
      invariant host.Today(now) == reruns + |leased|
      invariant |leased| > 0 ==> host.Today(now) <= host.cap
    {
      assert found[..i + 1][..i] == found[..i];
      var (key, attempt) := found[i];
      if acts {
        ReserveLeases(host.midnight, host.cap, table.rows, host.Today(now), key,
                      Detail(Some(RerunFailedJobs), false, 0, attempt, None), now, until);
        var id := table.ReserveFiring(key, Act, Detail(Some(RerunFailedJobs), false, 0, attempt, None), now,
                                      Some(until), host);
        if id.Some? && table.rows[id.value].state == Leased {
          host.CountOne(now);
          leased := leased + [id.value];
        }
      } else {
        var _ := table.ReserveFiring(key, DryRun, Detail(None, false, 0, 0, None), now, None, null);
      }
    }
    assert found[..|found|] == found;
  }

  // `observe` for one project: hold merges on a red main, then the reruns.
  method Observe(
      table: Table, host: HostReruns, hold: Key, red: Option<string>, holds: bool, found: seq<(Key, int)>, reruns: bool,
      now: int, until: int)
    returns (leased: seq<nat>)
    modifies table, host
    ensures var (rows, held) := HoldOrPropose(old(table.rows), old(table.holds), hold, red, holds, now, until);
            && table.holds == held
            && (table.rows, host.Today(now)) ==
               LeaseAll(host.midnight, host.cap, rows, old(host.Today(now)), found, reruns, now, until)
    ensures host.Today(now) == old(host.Today(now)) + |leased|
    ensures |leased| > 0 ==> host.Today(now) <= host.cap
  {
    hide LeaseAll, HoldOrPropose;
    table.HoldRed(hold, red, holds, now, until);
    leased := LeaseFound(table, host, found, reruns, now, until);
  }
}

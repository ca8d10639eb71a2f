// What an expiry pass does to each lease of its project, all replies given
// (holophyte/automation/step.py).

module FiringPasses {
  import opened Firings
  import opened FiringProtocol
  import opened FiringSafety
  import opened FiringDecisions
  import opened FiringStore

  // A leased rerun of the project whose lease has run out.
  predicate Due(f: Firing, project: nat, now: int) {
    && f.key.project == project && f.state == Leased && f.detail.action == Some(RerunFailedJobs)
    && f.leaseUntil.Some? && f.leaseUntil.value <= now
  }

  // A firing a worker took is settled by the attempt GitHub is at: confirmed when
  // it moved on, canceled when it did not, unknown when it cannot be read.  One
  // no worker took is leased once more, and canceled after that.
  function Dealt(f: Firing, now: int, reply: ReadBack): Firing {
    if f.worker.Some? then
      match reply
      case Unreadable => f.(state := Unknown, settledAt := Some(now))
      case Attempt(n) =>
        if n > f.detail.attempt
        then f.(state := Confirmed, settledAt := Some(now), detail := f.detail.(rerun := Some(n)))
        else f.(state := Canceled, settledAt := Some(now))
    else if f.detail.replays == 0
    then f.(leaseUntil := Some(now + 300000), detail := f.detail.(replays := 1))
    else f.(state := Canceled, settledAt := Some(now))
  }

  lemma DealIs(rows: seq<Firing>, id: nat, now: int, reply: ReadBack)
    requires id < |rows| && rows[id].state == Leased
    ensures Deal(rows, id, rows[id], now, reply)
            == if rows[id].leaseUntil.Some? && rows[id].leaseUntil.value <= now then rows[id := Dealt(rows[id], now, reply)]
               else rows
  {
  }

  // A leased rerun of the project.
  predicate Running(f: Firing, project: nat) {
    f.key.project == project && f.state == Leased && f.detail.action == Some(RerunFailedJobs)
  }

  ghost predicate Has(read: seq<(nat, Firing)>, x: (nat, Firing)) {
    exists e :: 0 <= e < |read| && read[e] == x
  }

  lemma HasNext(read: seq<(nat, Firing)>, y: (nat, Firing), x: (nat, Firing))
    ensures Has(read + [y], x) <==> Has(read, x) || x == y
  {
    if Has(read, x) {
      var e :| 0 <= e < |read| && read[e] == x;
      assert (read + [y])[e] == x;
    }
    assert (read + [y])[|read|] == y;
  }

  // A pass reads each leased rerun of its project, once.
  lemma {:induction false} ReadsAll(rows: seq<Firing>, project: nat, n: nat)
    requires n <= |rows|
    ensures forall i :: 0 <= i < n && Running(rows[i], project) ==> Has(LeasedReruns(rows, project, n), (i, rows[i]))
    ensures forall e :: 0 <= e < |LeasedReruns(rows, project, n)| ==>
              var (i, f) := LeasedReruns(rows, project, n)[e]; i < n && f == rows[i] && Running(f, project)
    ensures forall d, e :: 0 <= d < e < |LeasedReruns(rows, project, n)| ==>
              LeasedReruns(rows, project, n)[d].0 < LeasedReruns(rows, project, n)[e].0
    decreases n
  {
    hide Has;
    if n > 0 {
      ReadsAll(rows, project, n - 1);
      var before, last := LeasedReruns(rows, project, n - 1), (n - 1, rows[n - 1]);
      assert LeasedReruns(rows, project, n) == if Running(rows[n - 1], project) then before + [last] else before;
      forall i | 0 <= i < n && Running(rows[i], project) ensures Has(LeasedReruns(rows, project, n), (i, rows[i])) {
        HasNext(before, last, (i, rows[i]));
      }
    }
  }

  // Rows read by their places, in rising order.
  ghost predicate ReadOf(rows: seq<Firing>, read: seq<(nat, Firing)>) {
    && (forall e :: 0 <= e < |read| ==> read[e].0 < |rows| && read[e].1 == rows[read[e].0] && read[e].1.state == Leased)
    && (forall d, e :: 0 <= d < e < |read| ==> read[d].0 < read[e].0)
  }

  predicate Expires(f: Firing, now: int) {
    f.leaseUntil.Some? && f.leaseUntil.value <= now
  }

  predicate Renewed(f: Firing, now: int) {
    Expires(f, now) && f.worker == None && f.detail.replays == 0
  }

  lemma {:induction false} DealAllIs(rows: seq<Firing>, read: seq<(nat, Firing)>, now: int, replies: seq<ReadBack>)
    requires ReadOf(rows, read) && |replies| == |read|
    ensures var (after, leased) := DealAll(rows, read, now, replies);
            && |after| == |rows|
            && (forall e :: 0 <= e < |read| ==>
                  after[read[e].0] == if Expires(read[e].1, now) then Dealt(read[e].1, now, replies[e]) else read[e].1)
            && (forall i :: 0 <= i < |rows| && (forall e :: 0 <= e < |read| ==> read[e].0 != i) ==> after[i] == rows[i])
            && (forall i :: i in leased <==> exists e :: 0 <= e < |read| && read[e].0 == i && Renewed(read[e].1, now))
            && (forall j, k :: 0 <= j < k < |leased| ==> leased[j] < leased[k])
    decreases |read|
  {
    hide Deal, Dealt;
    if read != [] {
      var n := |read| - 1;
      var (id, f) := read[n];
      DealAllIs(rows, read[..n], now, replies[..n]);
      var (before, leased) := DealAll(rows, read[..n], now, replies[..n]);
      assert before[id] == rows[id];
      DealIs(before, id, now, replies[n]);
      var after := DealAll(rows, read, now, replies).0;
      forall e | 0 <= e < n ensures read[..n][e] == read[e] && replies[..n][e] == replies[e] && read[e].0 < id {
      }
      forall i | 0 <= i < |rows| && (forall e :: 0 <= e < |read| ==> read[e].0 != i) ensures after[i] == rows[i] {
        assert i != id;
        assert forall e :: 0 <= e < n ==> read[..n][e].0 != i;
      }
      LeasedNext(before, read, now, leased, DealAll(rows, read, now, replies).1);
    }
  }

  lemma LeasedNext(before: seq<Firing>, read: seq<(nat, Firing)>, now: int, leased: seq<nat>, leased': seq<nat>)
    requires read != [] && ReadOf(before, read[|read| - 1..]) && forall d, e :: 0 <= d < e < |read| ==> read[d].0 < read[e].0
    requires var n := |read| - 1;
             && (forall i :: i in leased <==> exists e :: 0 <= e < n && read[..n][e].0 == i && Renewed(read[..n][e].1, now))
             && (forall j, k :: 0 <= j < k < |leased| ==> leased[j] < leased[k])
             && leased' == if Renews(before, read[n].0, read[n].1, now) then leased + [read[n].0] else leased
    ensures forall i :: i in leased' <==> exists e :: 0 <= e < |read| && read[e].0 == i && Renewed(read[e].1, now)
    ensures forall j, k :: 0 <= j < k < |leased'| ==> leased'[j] < leased'[k]
  {
    var n := |read| - 1;
    assert read[n..][0] == read[n];
    assert Renews(before, read[n].0, read[n].1, now) <==> Renewed(read[n].1, now);
    forall i ensures i in leased' <==> exists e :: 0 <= e < |read| && read[e].0 == i && Renewed(read[e].1, now) {
      if i in leased {
        var e :| 0 <= e < n && read[..n][e].0 == i && Renewed(read[..n][e].1, now);
        assert read[e].0 == i;
      }
      if e :| 0 <= e < n && read[e].0 == i && Renewed(read[e].1, now) { assert read[..n][e].0 == i; }
    }
    forall j | 0 <= j < |leased| ensures leased[j] < read[n].0 {
      assert leased[j] in leased;
    }
  }

  // An expiry pass deals with exactly the project's leases that ran out, each as
  // GitHub answers for it, leaves every other row, and lists exactly those it
  // leased once more, in order.
  lemma PassExactly(rows: seq<Firing>, project: nat, now: int, replies: seq<ReadBack>)
    requires |replies| == |LeasedReruns(rows, project, |rows|)|
    ensures var read := LeasedReruns(rows, project, |rows|);
            var (after, leased) := DealAll(rows, read, now, replies);
            && |after| == |rows|
            && (forall e :: 0 <= e < |read| && Due(read[e].1, project, now) ==>
                  read[e].0 < |rows| && after[read[e].0] == Dealt(rows[read[e].0], now, replies[e]))
            && (forall i :: 0 <= i < |rows| && Due(rows[i], project, now) ==>
                  exists e :: 0 <= e < |read| && read[e] == (i, rows[i]))
            && (forall i :: 0 <= i < |rows| && !Due(rows[i], project, now) ==> after[i] == rows[i])
            && (forall i :: i in leased <==>
                  0 <= i < |rows| && Due(rows[i], project, now) && rows[i].worker == None && rows[i].detail.replays == 0)
            && (forall j, k :: 0 <= j < k < |leased| ==> leased[j] < leased[k])
  {
    hide DealAll, Dealt, LeasedReruns;
    var read := LeasedReruns(rows, project, |rows|);
    ReadsAll(rows, project, |rows|);
    DealAllIs(rows, read, now, replies);
    var (after, leased) := DealAll(rows, read, now, replies);
    forall i | 0 <= i < |rows| && !Due(rows[i], project, now) ensures after[i] == rows[i] {
      if e :| 0 <= e < |read| && read[e].0 == i { assert !Expires(read[e].1, now); }
    }
    forall i: nat ensures i in leased <==>
      i < |rows| && Due(rows[i], project, now) && rows[i].worker == None && rows[i].detail.replays == 0
    {
      if i < |rows| && Due(rows[i], project, now) {
        assert Has(read, (i, rows[i]));
        var e :| 0 <= e < |read| && read[e] == (i, rows[i]);
      }
    }
    forall i | 0 <= i < |rows| && Due(rows[i], project, now)
      ensures exists e :: 0 <= e < |read| && read[e] == (i, rows[i])
    {
      assert Has(read, (i, rows[i]));
    }
  }

  // ------------------------------------------------------- what a pass finds

  // Of the failed runs a pass finds, one more is dealt with on what those before
  // it left.  When the project acts it is leased if its firing is new or proposed
  // and no limit is full, and counts; otherwise it is proposed if its firing is
  // new.
  lemma FoundExactly(
      m: Midnight, cap: nat, rows: seq<Firing>, reruns: nat, found: seq<(Key, int)>, acts: bool, now: int, until: int,
      n: nat)
    requires n < |found| && RowsOk(LeaseAll(m, cap, rows, reruns, found[..n], acts, now, until).0)
    ensures var (before, count) := LeaseAll(m, cap, rows, reruns, found[..n], acts, now, until);
            var (after, count') := LeaseAll(m, cap, rows, reruns, found[..n + 1], acts, now, until);
            var (key, attempt) := found[n];
            var full := Full(m, before, key.project, now, count, cap);
            && (acts ==>
                  && (forall id: nat :: Vacant(before, key, id) ==>
                        && after == Written(before, id,
                             if full
                             then Firing(key, Act, Refused, Detail(Some(RerunFailedJobs), true, 0, attempt, None), now,
                                         Some(now), None, None)
                             else Firing(key, Act, Leased, Detail(Some(RerunFailedJobs), false, 0, attempt, None), now,
                                         None, Some(until), None))
                        && count' == (if full then count else count + 1))
                  && ((exists i :: 0 <= i < |before| && before[i].key == key && before[i].state != Proposed) ==>
                        after == before && count' == count))
            && (!acts ==>
                  && count' == count
                  && after == if exists i :: 0 <= i < |before| && before[i].key == key then before
                              else before + [Firing(key, DryRun, Proposed, Detail(None, false, 0, 0, None), now, None, None,
                                                    None)])
    ensures LeaseAll(m, cap, rows, reruns, [], acts, now, until) == (rows, reruns)
  {
    hide Full, Limited, Count, Reserve;
    var before := LeaseAll(m, cap, rows, reruns, found[..n], acts, now, until);
    var (key, attempt) := found[n];
    assert found[..n + 1][..n] == found[..n];
    LimitedIsFull(m, before.0, key.project, now, before.1, cap);
    ProposedExactly(before.0, key, Detail(None, false, 0, 0, None), now);
    ReservedExactly(before.0, key, attempt, now, until, Limited(m, before.0, key.project, now, before.1, cap));
  }

  // A hold on a red main is placed when the project acts, and else proposed.
  lemma HeldExactly(rows: seq<Firing>, holds: seq<Hold>, key: Key, red: Option<string>, acts: bool, now: int, lease: int)
    requires RowsOk(rows)
    ensures var r := HoldOrPropose(rows, holds, key, red, acts, now, lease);
            && (red.None? ==> r == (rows, holds))
            && (red.Some? && acts ==> r == PlaceHold(rows, holds, key, red.value, now, lease))
            && (red.Some? && !acts ==>
                  r == (if exists i :: 0 <= i < |rows| && rows[i].key == key then rows
                        else rows + [Firing(key, DryRun, Proposed, Detail(Some(HoldMerges), false, 0, 0, None), now, None,
                                            None, None)], holds))
  {
    hide Reserve, PlaceHold;
    ProposedExactly(rows, key, Detail(Some(HoldMerges), false, 0, 0, None), now);
  }
}

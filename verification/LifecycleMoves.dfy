// What the store keeps through every primitive edit of its rows; an operation
// is a chain of them.  An edit changes one run or one ticket, gives a lease out
// or back, or appends an intervention, an event or a steer.  What it keeps is a
// relation between the store before and after, so that it composes: runs keep
// their identity, ended ones stay frozen, final ones stay final, and neither an
// instruction nor a steer is left behind by a run that can no longer read it.

module LifecycleMoves {
  import opened Lifecycle

  // ------------------------------------------------------------- invariants

  // `endedAt` and `outcome` are set together, and then the phase is the
  // outcome's.
  predicate RunOk(run: Run) {
    && (run.endedAt.Some? <==> run.outcome.Some?)
    && (run.outcome.Some? ==> run.phase == TerminalPhase(run.outcome.value))
    && (run.merging.Some? ==> run.phase == Merging)
  }

  ghost predicate RunsOk(runs: seq<Run>, tickets: nat) {
    forall r :: 0 <= r < |runs| ==>
      RunOk(runs[r]) && runs[r].ticket < tickets && runs[r].attempt == Attempts(runs[..r], runs[r].ticket) + 1
  }

  // A ticket's lease names one of its own runs that has not ended, and its last
  // run is its own.
  predicate LeaseOk(k: Ticket, t: nat, runs: seq<Run>) {
    && (k.active.Some? ==>
          && k.active.value < |runs| && runs[k.active.value].ticket == t && runs[k.active.value].endedAt.None?)
    && (k.last.Some? ==> k.last.value < |runs| && runs[k.last.value].ticket == t)
  }

  ghost predicate LeasesOk(tickets: seq<Ticket>, runs: seq<Run>) {
    forall t :: 0 <= t < |tickets| ==> LeaseOk(tickets[t], t, runs)
  }

  ghost predicate EventsOk(events: seq<Event>, runs: nat) {
    forall e :: 0 <= e < |events| ==> events[e].run < runs
  }

  ghost predicate Good(db: Db) {
    RunsOk(db.runs, |db.tickets|) && LeasesOk(db.tickets, db.runs) && EventsOk(db.events, |db.runs|)
  }

  // -------------------------------------------------------------- relations

  // What stays of a run that ended, until it is resumed.
  predicate Frozen(a: Run, b: Run) {
    a.endedAt.Some? ==>
      b.phase == a.phase && b.endedAt == a.endedAt && b.outcome == a.outcome && b.resumePhase == a.resumePhase
  }

  predicate RunKept(a: Run, b: Run) {
    && b.ticket == a.ticket && b.attempt == a.attempt && b.project == a.project
    && (a.phase in {Done, Phase.Killed, Phase.Rejected} ==> b.phase == a.phase)
  }

  ghost predicate RunsKept(a: seq<Run>, b: seq<Run>, resumed: Option<nat>) {
    && |a| <= |b|
    && forall r :: 0 <= r < |a| ==> RunKept(a[r], b[r]) && (resumed != Some(r) ==> Frozen(a[r], b[r]))
  }

  predicate TicketKept(a: Ticket, b: Ticket) {
    b.project == a.project && (a.status in {Status.Merged, Status.Abandoned} ==> b.status == a.status)
  }

  ghost predicate TicketsKept(a: seq<Ticket>, b: seq<Ticket>) {
    |a| <= |b| && forall t :: 0 <= t < |a| ==> TicketKept(a[t], b[t])
  }

  // The ticket's leased run is merging, let in by begin_merge.
  predicate MergesNow(db: Db, t: nat) {
    && t < |db.tickets| && db.tickets[t].active.Some? && db.tickets[t].active.value < |db.runs|
    && db.runs[db.tickets[t].active.value].merging.Some?
  }

  // No run newly merges; while one does, its ticket's pull requests stay and no
  // instruction is accepted.
  ghost predicate NotesKept(a: Db, b: Db) {
    && |a.runs| <= |b.runs| && |a.tickets| <= |b.tickets|
    && (forall t :: 0 <= t < |b.tickets| && MergesNow(b, t) ==>
          && MergesNow(a, t) && a.tickets[t].active == b.tickets[t].active
          && a.runs[a.tickets[t].active.value].merging == b.runs[b.tickets[t].active.value].merging)
    && (forall r :: 0 <= r < |a.runs| && MergesNow(b, b.runs[r].ticket) ==> b.runs[r].prUrl == a.runs[r].prUrl)
    && |a.events| <= |b.events|
    && (forall e :: 0 <= e < |a.events| ==> b.events[e] == a.events[e])
    && (forall e :: |a.events| <= e < |b.events| && b.events[e].Note? && b.events[e].run < |b.runs| ==>
          !MergesNow(b, b.runs[b.events[e].run].ticket))
  }

  // The ticket's leased run has closed its steering.
  predicate ClosedNow(db: Db, t: nat) {
    t < |db.tickets| && db.tickets[t].active.Some? && Closed(db, db.tickets[t].active.value)
  }

  // No leased run newly closes steering, and no steer newly waits for one that
  // has.
  ghost predicate SteersKept(a: Db, b: Db) {
    && (forall t :: ClosedNow(b, t) ==> ClosedNow(a, t))
    && (forall i :: 0 <= i < |b.steers| && ClosedNow(b, b.steers[i].ticket) && Waits(b.steers[i], b.steers[i].ticket) ==>
          i < |a.steers| && Waits(a.steers[i], b.steers[i].ticket))
  }

  ghost predicate Moves(a: Db, b: Db, resumed: Option<nat>) {
    && Good(b) && RunsKept(a.runs, b.runs, resumed) && TicketsKept(a.tickets, b.tickets)
    && NotesKept(a, b) && SteersKept(a, b)
  }

  // ------------------------------------------------------------ composition

  lemma {:induction false} NotesKeptThen(a: Db, b: Db, c: Db, x: Option<nat>)
    requires NotesKept(a, b) && NotesKept(b, c) && EventsOk(b.events, |b.runs|)
    requires RunsKept(a.runs, b.runs, x) && RunsKept(b.runs, c.runs, x)
    ensures NotesKept(a, c)
  {
    forall r | 0 <= r < |a.runs| && MergesNow(c, c.runs[r].ticket) ensures c.runs[r].prUrl == a.runs[r].prUrl {
      assert RunKept(b.runs[r], c.runs[r]);
      assert MergesNow(b, b.runs[r].ticket);
    }
    forall e | |a.events| <= e < |c.events| && c.events[e].Note? && c.events[e].run < |c.runs|
      ensures !MergesNow(c, c.runs[c.events[e].run].ticket)
    {
      if e < |b.events| {
        assert b.events[e] == c.events[e];
        assert RunKept(b.runs[c.events[e].run], c.runs[c.events[e].run]);
      }
    }
  }

  lemma {:induction false} Chain(a: Db, b: Db, c: Db, x: Option<nat>)
    requires Moves(a, b, x) && Moves(b, c, x)
    ensures Moves(a, c, x)
  {
    hide NotesKept, RunsOk, LeasesOk, EventsOk, SteersKept, ClosedNow, RunsKept;
    NotesKeptThen(a, b, c, x);
    SteersKeptThen(a, b, c);
    RunsKeptThen(a.runs, b.runs, c.runs, x);
  }

  lemma {:induction false} SteersKeptThen(a: Db, b: Db, c: Db)
    requires SteersKept(a, b) && SteersKept(b, c)
    ensures SteersKept(a, c)
  {
    hide ClosedNow;
  }

  lemma {:induction false} RunsKeptThen(a: seq<Run>, b: seq<Run>, c: seq<Run>, x: Option<nat>)
    requires RunsKept(a, b, x) && RunsKept(b, c, x)
    ensures RunsKept(a, c, x)
  {
    forall r | 0 <= r < |a| ensures RunKept(a[r], c[r]) && (x != Some(r) ==> Frozen(a[r], c[r])) {
      assert RunKept(a[r], b[r]) && RunKept(b[r], c[r]);
    }
  }

  lemma {:induction false} Same(db: Db, x: Option<nat>)
    requires Good(db)
    ensures Moves(db, db, x)
  {
  }

  // ------------------------------------------------------- primitive edits

  predicate Unleased(db: Db, r: nat) {
    forall t :: 0 <= t < |db.tickets| ==> db.tickets[t].active != Some(r)
  }

  // One run changes, within what a run may change.
  predicate MayBecome(db: Db, r: nat, run: Run, x: Option<nat>)
    requires r < |db.runs|
  {
    var was := db.runs[r];
    && RunKept(was, run) && RunOk(run) && (x != Some(r) ==> Frozen(was, run))
    && (run.endedAt.Some? ==> was.endedAt.Some? || Unleased(db, r))
    && (run.merging.Some? ==> run.merging == was.merging || Unleased(db, r))
    && (run.prUrl == was.prUrl || !MergesNow(db, was.ticket))
  }

  lemma {:induction false} AttemptsSame(a: seq<Run>, b: seq<Run>, t: nat)
    requires |a| == |b| && forall i :: 0 <= i < |a| ==> b[i].ticket == a[i].ticket
    ensures Attempts(a, t) == Attempts(b, t)
  {
    if a != [] { AttemptsSame(a[..|a| - 1], b[..|b| - 1], t); }
  }

  lemma {:induction false} RunsOkSame(a: seq<Run>, b: seq<Run>, n: nat)
    requires RunsOk(a, n) && |a| == |b|
    requires forall i :: 0 <= i < |a| ==> RunOk(b[i]) && b[i].ticket == a[i].ticket && b[i].attempt == a[i].attempt
    ensures RunsOk(b, n)
  {
    forall r | 0 <= r < |b| ensures b[r].attempt == Attempts(b[..r], b[r].ticket) + 1 {
      AttemptsSame(a[..r], b[..r], a[r].ticket);
    }
  }

  lemma {:induction false} PutRun(db: Db, r: nat, run: Run, x: Option<nat>)
    requires Good(db) && r < |db.runs| && MayBecome(db, r, run, x)
    ensures Moves(db, db.(runs := db.runs[r := run]), x)
  {
    var next := db.(runs := db.runs[r := run]);
    PutRunGood(db, r, run, x);
    PutRunNotes(db, r, run, x);
    forall i | 0 <= i < |db.runs|
      ensures RunKept(db.runs[i], next.runs[i]) && (x != Some(i) ==> Frozen(db.runs[i], next.runs[i]))
    {
    }
  }

  lemma {:induction false} PutRunGood(db: Db, r: nat, run: Run, x: Option<nat>)
    requires Good(db) && r < |db.runs| && MayBecome(db, r, run, x)
    ensures Good(db.(runs := db.runs[r := run]))
  {
    hide Attempts;
    var runs := db.runs[r := run];
    RunsOkSame(db.runs, runs, |db.tickets|);
    forall t | 0 <= t < |db.tickets| ensures LeaseOk(db.tickets[t], t, runs) {
      assert LeaseOk(db.tickets[t], t, db.runs);
    }
  }

  lemma {:induction false} PutRunNotes(db: Db, r: nat, run: Run, x: Option<nat>)
    requires Good(db) && r < |db.runs| && MayBecome(db, r, run, x)
    ensures NotesKept(db, db.(runs := db.runs[r := run]))
    ensures SteersKept(db, db.(runs := db.runs[r := run]))
  {
    hide RunsOk, EventsOk;
    var next := db.(runs := db.runs[r := run]);
    forall t | 0 <= t < |db.tickets| && MergesNow(next, t)
      ensures && MergesNow(db, t)
              && db.runs[db.tickets[t].active.value].merging == next.runs[next.tickets[t].active.value].merging
    {
      assert LeaseOk(db.tickets[t], t, db.runs);
    }
  }

  // One ticket changes; its lease stays or goes.
  predicate TicketMayBecome(db: Db, t: nat, k: Ticket)
    requires t < |db.tickets|
  {
    && TicketKept(db.tickets[t], k) && (k.active.Some? ==> k.active == db.tickets[t].active)
    && (k.last == db.tickets[t].last || (k.last.Some? && k.last == db.tickets[t].active))
  }

  lemma {:induction false} PutTicket(db: Db, t: nat, k: Ticket, x: Option<nat>)
    requires Good(db) && t < |db.tickets| && TicketMayBecome(db, t, k)
    ensures Moves(db, db.(tickets := db.tickets[t := k]), x)
  {
    hide RunsOk, EventsOk, Attempts;
    var next := db.(tickets := db.tickets[t := k]);
    forall u | 0 <= u < |db.tickets| ensures LeaseOk(next.tickets[u], u, db.runs) {
      assert LeaseOk(db.tickets[u], u, db.runs);
    }
  }

  lemma {:induction false} Drop(db: Db, r: nat, x: Option<nat>)
    requires Good(db) && r < |db.runs|
    ensures var d := db.(tickets := DropLease(db.tickets, db.runs[r].ticket, r));
            Moves(db, d, x) && Unleased(d, r) && (MergesNow(d, d.runs[r].ticket) ==> MergesNow(db, d.runs[r].ticket))
  {
    hide RunsOk, EventsOk, Attempts;
    var t := db.runs[r].ticket;
    var d := db.(tickets := DropLease(db.tickets, t, r));
    forall u | 0 <= u < |d.tickets| ensures d.tickets[u].active != Some(r) {
      assert LeaseOk(db.tickets[u], u, db.runs);
    }
    if t < |db.tickets| && db.tickets[t].active == Some(r) {
      PutTicket(db, t, db.tickets[t].(active := None, last := Some(r)), x);
    } else {
      Same(db, x);
    }
  }

  lemma {:induction false} Intervene(db: Db, i: Intervention, x: Option<nat>)
    requires Good(db)
    ensures Moves(db, db.(interventions := db.interventions + [i]), x)
  {
    Same(db, x);
  }

  // An event that is no instruction for a merging run and closes no leased
  // run's steering.
  lemma {:induction false} AddEvent(db: Db, e: Event, x: Option<nat>)
    requires Good(db) && e.run < |db.runs|
    requires e.Note? ==> !MergesNow(db, db.runs[e.run].ticket)
    requires e.SteerClosed? ==> Unleased(db, e.run)
    ensures Moves(db, db.(events := db.events + [e]), x)
  {
    hide RunsOk, LeasesOk, Attempts;
    var next := db.(events := db.events + [e]);
    assert NotesKept(db, next);
    forall t | ClosedNow(next, t) ensures ClosedNow(db, t) {
    }
  }

  lemma {:induction false} AddTicket(db: Db, k: Ticket, x: Option<nat>)
    requires Good(db) && k.active.None? && k.last.None?
    ensures Moves(db, db.(tickets := db.tickets + [k]), x)
  {
    hide EventsOk, Attempts;
  }

  // Steers change; none newly waits on a ticket whose leased run closed its
  // steering.
  lemma {:induction false} PutSteers(db: Db, steers: seq<SteerNote>, x: Option<nat>)
    requires Good(db)
    requires forall i :: 0 <= i < |steers| && Waits(steers[i], steers[i].ticket) ==>
               !ClosedNow(db, steers[i].ticket) || (i < |db.steers| && Waits(db.steers[i], steers[i].ticket))
    ensures Moves(db, db.(steers := steers), x)
  {
    hide RunsOk, LeasesOk, EventsOk, Attempts;
  }

  lemma {:induction false} ClearParkKindsAt(runs: seq<Run>, t: nat, r: nat)
    requires r < |runs|
    ensures ClearParkKinds(runs, t)[r] == if runs[r].ticket == t then runs[r].(parkKind := None) else runs[r]
  {
    if r < |runs| - 1 { ClearParkKindsAt(runs[..|runs| - 1], t, r); }
  }

  lemma {:induction false} ClearKinds(db: Db, t: nat, x: Option<nat>)
    requires Good(db)
    ensures Moves(db, db.(runs := ClearParkKinds(db.runs, t)), x)
  {
    hide Attempts, ClearParkKinds;
    var next := db.(runs := ClearParkKinds(db.runs, t));
    forall r | 0 <= r < |db.runs| ensures next.runs[r] == db.runs[r].(parkKind := next.runs[r].parkKind) {
      ClearParkKindsAt(db.runs, t, r);
    }
    RunsOkSame(db.runs, next.runs, |db.tickets|);
    forall u | 0 <= u < |db.tickets| ensures LeaseOk(next.tickets[u], u, next.runs) {
      assert LeaseOk(db.tickets[u], u, db.runs);
    }
  }

  lemma {:induction false} NewLease(db: Db, p: nat, t: nat, x: Option<nat>)
    requires Good(db) && t < |db.tickets| && db.tickets[t].active.None?
    ensures Moves(db, db.(runs := db.runs + [NewRun(db.runs, p, t)],
                          tickets := db.tickets[t := db.tickets[t].(active := Some(|db.runs|))]), x)
  {
    hide Attempts;
    var run := NewRun(db.runs, p, t);
    var next := db.(runs := db.runs + [run], tickets := db.tickets[t := db.tickets[t].(active := Some(|db.runs|))]);
    forall r | 0 <= r < |next.runs|
      ensures RunOk(next.runs[r]) && next.runs[r].attempt == Attempts(next.runs[..r], next.runs[r].ticket) + 1
    {
      assert next.runs[..r] == db.runs[..r];
      assert db.runs[..|db.runs|] == db.runs;
    }
    forall u | 0 <= u < |next.tickets| ensures LeaseOk(next.tickets[u], u, next.runs) {
      assert LeaseOk(db.tickets[u], u, db.runs);
    }
    forall u | ClosedNow(next, u) ensures ClosedNow(db, u) {
      assert SteerClosed(|db.runs|) !in db.events;
    }
  }
}

// When a rerun is leased and when refused, and what placing and releasing a hold
// on merges leaves, stated on the rows.

module FiringDecisions {
  import opened Firings
  import opened FiringProtocol
  import opened FiringSafety

  // ------------------------------------------------------------ the limits

  // An acted rerun of the project that no limit refused.
  predicate Acted(f: Firing, project: nat) {
    && f.key.project == project && f.mode == Act && f.detail.action == Some(RerunFailedJobs)
    && f.detail.limited == false
  }

  // Three leased, six created in the last hour, thirty today, or as many on the
  // host as its cap.
  predicate Full(m: Midnight, rows: seq<Firing>, project: nat, now: int, reruns: nat, cap: nat) {
    || |(set i | 0 <= i < |rows| && Acted(rows[i], project) && rows[i].state == Leased)| >= 3
    || |(set i | 0 <= i < |rows| && Acted(rows[i], project) && rows[i].createdAt >= now - 3600000)| >= 6
    || |(set i | 0 <= i < |rows| && Acted(rows[i], project) && rows[i].createdAt >= m(now))| >= 30
    || reruns >= cap
  }

  function Matching(m: Midnight, rows: seq<Firing>, w: Which): set<nat> {
    set i | 0 <= i < |rows| && Is(m, rows[i], w)
  }

  // The last row is one more, or none.
  lemma MatchingNext(m: Midnight, rows: seq<Firing>, w: Which)
    requires rows != []
    ensures var n := |rows| - 1;
            && n !in Matching(m, rows[..n], w)
            && Matching(m, rows, w) == Matching(m, rows[..n], w) + if Is(m, rows[n], w) then {n} else {}
  {
    hide Is;
    var n := |rows| - 1;
    forall i: nat | i < n ensures rows[..n][i] == rows[i] {
    }
  }

  lemma {:induction false} CountIs(m: Midnight, rows: seq<Firing>, w: Which)
    ensures Count(m, rows, w) == |Matching(m, rows, w)|
  {
    hide Is, Matching;
    if rows == [] {
      assert Matching(m, rows, w) == {} by { NothingMatches(m, w); }
    } else {
      CountIs(m, rows[..|rows| - 1], w);
      MatchingNext(m, rows, w);
    }
  }

  lemma NothingMatches(m: Midnight, w: Which)
    ensures Matching(m, [], w) == {}
  {
  }

  lemma LimitedIsFull(m: Midnight, rows: seq<Firing>, project: nat, now: int, reruns: nat, cap: nat)
    ensures Limited(m, rows, project, now, reruns, cap) <==> Full(m, rows, project, now, reruns, cap)
  {
    hide Count;
    CountIs(m, rows, Queued(project));
    CountIs(m, rows, CreatedSince(project, now - HOUR_MS));
    CountIs(m, rows, CreatedSince(project, m(now)));
    assert Matching(m, rows, Queued(project))
           == set i | 0 <= i < |rows| && Acted(rows[i], project) && rows[i].state == Leased;
    assert Matching(m, rows, CreatedSince(project, now - HOUR_MS))
           == set i | 0 <= i < |rows| && Acted(rows[i], project) && rows[i].createdAt >= now - 3600000;
    assert Matching(m, rows, CreatedSince(project, m(now)))
           == set i | 0 <= i < |rows| && Acted(rows[i], project) && rows[i].createdAt >= m(now);
  }

  // ---------------------------------------------------------- reservations

  // The one row a reservation may write: the key's proposal, or a new row.
  predicate Vacant(rows: seq<Firing>, key: Key, id: nat) {
    && id <= |rows|
    && (id < |rows| ==> rows[id].key == key && rows[id].state == Proposed)
    && (id == |rows| ==> forall i :: 0 <= i < |rows| ==> rows[i].key != key)
  }

  function Written(rows: seq<Firing>, id: nat, f: Firing): seq<Firing>
    requires id <= |rows|
  {
    if id == |rows| then rows + [f] else rows[id := f]
  }

  lemma IdIs(rows: seq<Firing>, key: Key, id: nat)
    requires RowsOk(rows) && id <= |rows|
    requires id < |rows| ==> rows[id].key == key
    requires id == |rows| ==> forall i :: 0 <= i < |rows| ==> rows[i].key != key
    ensures IdOf(rows, key) == id
  {
  }

  // What an acting reservation writes, whatever the limit answers.
  lemma ReservedExactly(rows: seq<Firing>, key: Key, attempt: int, now: int, until: int, limited: bool)
    requires RowsOk(rows)
    ensures var (r, made) := Reserve(rows, key, Act, Detail(Some(RerunFailedJobs), false, 0, attempt, None), now, Some(until),
                                     limited);
            && (forall id: nat :: Vacant(rows, key, id) ==>
                  && made == Some(id)
                  && r == Written(rows, id,
                       if limited
                       then Firing(key, Act, Refused, Detail(Some(RerunFailedJobs), true, 0, attempt, None), now, Some(now),
                                   None, None)
                       else Firing(key, Act, Leased, Detail(Some(RerunFailedJobs), false, 0, attempt, None), now, None,
                                   Some(until), None)))
            && ((exists i :: 0 <= i < |rows| && rows[i].key == key && rows[i].state != Proposed) ==> r == rows && made == None)
  {
    forall i | 0 <= i < |rows| ensures RowOk(rows[i]) {
    }
    forall id: nat | Vacant(rows, key, id) ensures IdOf(rows, key) == id {
      IdIs(rows, key, id);
    }
    forall i | 0 <= i < |rows| && rows[i].key == key ensures IdOf(rows, key) == i {
      IdIs(rows, key, i);
    }
  }

  // A rerun found is leased exactly when its firing is new or proposed and no
  // limit is full, and only then counts; a full limit refuses it for good, and a
  // firing that was leased or settled before is left as it is.
  lemma LeasedExactly(h: Host, s: World, p: nat, key: Key, attempt: int)
    requires Inv(s) && Live(s, p) && key.subject == Main
    ensures var pass := s.passes[p];
            var full := Full(h.midnight, s.rows, key.project, pass.now, pass.reruns, h.cap);
            var t := Apply(h, s, LeaseRerun(p, key, attempt, false));
            && (forall id: nat :: Vacant(s.rows, key, id) ==>
                  && t.rows == Written(s.rows, id,
                       if full
                       then Firing(key, Act, Refused, Detail(Some(RerunFailedJobs), true, 0, attempt, None), pass.now,
                                   Some(pass.now), None, None)
                       else Firing(key, Act, Leased, Detail(Some(RerunFailedJobs), false, 0, attempt, None), pass.now,
                                   None, Some(s.clock + 300000), None))
                  && t.passes[p].reruns == (if full then pass.reruns else pass.reruns + 1))
            && ((exists i :: 0 <= i < |s.rows| && s.rows[i].key == key && s.rows[i].state != Proposed) ==>
                  t.rows == s.rows && t.passes[p].reruns == pass.reruns)
  {
    hide Full, Limited, Count, Reserve, WorkersOk, SendsOk, PassesOk, HoldsOk;
    var pass := s.passes[p];
    LimitedIsFull(h.midnight, s.rows, key.project, pass.now, pass.reruns, h.cap);
    ReservedExactly(s.rows, key, attempt, pass.now, s.clock + 300000,
                    Limited(h.midnight, s.rows, key.project, pass.now, pass.reruns, h.cap));
  }

  // ----------------------------------------------------------------- holds

  // The holds of one project, all ended; every other stands as it did.
  predicate EndedOf(before: seq<Hold>, after: seq<Hold>, project: nat) {
    && |after| >= |before|
    && forall i :: 0 <= i < |before| ==>
         after[i] == if before[i].project == project
                     then Hold(project, before[i].red, before[i].firing, false) else before[i]
  }

  // On a red main: a hold that stands for this very red is left; otherwise the
  // project's hold ends, one for this red stands, and the firing behind it is
  // confirmed unless it was settled before.
  lemma PlacedExactly(rows: seq<Firing>, holds: seq<Hold>, key: Key, red: string, now: int, lease: int)
    requires RowsOk(rows)
    ensures var (rows', holds') := PlaceHold(rows, holds, key, red, now, lease);
            if exists i :: 0 <= i < |holds| && holds[i].open && holds[i].project == key.project && holds[i].red == red
            then rows' == rows && holds' == holds
            else
              && |holds'| == |holds| + 1 && EndedOf(holds, holds', key.project)
              && holds'[|holds|].open && holds'[|holds|].project == key.project && holds'[|holds|].red == red
              && (forall id: nat :: Vacant(rows, key, id) ==>
                    && holds'[|holds|].firing == id
                    && rows' == Written(rows, id, Firing(key, Act, Confirmed, Detail(Some(HoldMerges), false, 0, 0, None),
                                                         now, Some(now), Some(lease), None)))
              && (forall i :: 0 <= i < |rows| && rows[i].key == key && rows[i].state != Proposed ==>
                    && holds'[|holds|].firing == i
                    && rows' == if rows[i].state == Leased
                                then rows[i := rows[i].(state := Confirmed, settledAt := Some(now))] else rows)
  {
    forall i | 0 <= i < |rows| ensures RowOk(rows[i]) {
    }
    forall id: nat | Vacant(rows, key, id) ensures IdOf(rows, key) == id {
      IdIs(rows, key, id);
    }
    forall i | 0 <= i < |rows| && rows[i].key == key ensures IdOf(rows, key) == i {
      IdIs(rows, key, i);
    }
  }

  // On a green main: the project's hold ends and the firing is confirmed, unless
  // that firing was there before.
  lemma ReleasedExactly(rows: seq<Firing>, holds: seq<Hold>, key: Key, now: int, lease: int)
    requires RowsOk(rows)
    ensures var (rows', holds') := EndHold(rows, holds, key, now, lease);
            && (forall id: nat :: Vacant(rows, key, id) ==>
                  && |holds'| == |holds| && EndedOf(holds, holds', key.project)
                  && rows' == Written(rows, id, Firing(key, Act, Confirmed, Detail(Some(ReleaseHeldMerges), false, 0, 0, None),
                                                       now, Some(now), Some(lease), None)))
            && ((exists i :: 0 <= i < |rows| && rows[i].key == key && rows[i].state != Proposed) ==>
                  rows' == rows && holds' == holds)
  {
    forall i | 0 <= i < |rows| ensures RowOk(rows[i]) {
    }
    forall id: nat | Vacant(rows, key, id) ensures IdOf(rows, key) == id {
      IdIs(rows, key, id);
    }
    forall i | 0 <= i < |rows| && rows[i].key == key ensures IdOf(rows, key) == i {
      IdIs(rows, key, i);
    }
  }

  // ------------------------------------------------------------- one by one

  // A proposal is a new row, and stands beside no other row of its key.
  lemma ProposedExactly(rows: seq<Firing>, key: Key, detail: Detail, now: int)
    requires RowsOk(rows)
    ensures var (r, id) := Reserve(rows, key, DryRun, detail, now, None, false);
            if exists i :: 0 <= i < |rows| && rows[i].key == key then r == rows && id == None
            else r == rows + [Firing(key, DryRun, Proposed, detail, now, None, None, None)] && id == Some(|rows|)
  {
    forall i | 0 <= i < |rows| && rows[i].key == key ensures IdOf(rows, key) == i {
      IdIs(rows, key, i);
    }
  }

  // A waiting worker takes its firing exactly when that is leased, nobody took it
  // and its lease still lasts; else it is done.
  lemma TakenExactly(h: Host, s: World, w: nat)
    requires w < |s.workers| && s.workers[w].stage == Waiting
    ensures var t := Apply(h, s, TakeLease(w));
            var (k, i) := (s.workers[w], s.workers[w].firing);
            if i < |s.rows| && s.rows[i].state == Leased && s.rows[i].worker == None && s.rows[i].leaseUntil.Some?
               && s.rows[i].leaseUntil.value > s.clock
            then t == s.(rows := s.rows[i := s.rows[i].(worker := Some(k.pid))],
                         workers := s.workers[w := Worker(i, k.pid, Holding, true, s.rows[i].detail)])
            else t == s.(workers := s.workers[w := k.(stage := Ended)])
  {
  }

  // The row of a worker that holds its lease, settled; any other row stays.
  predicate SettledBy(s: World, t: World, w: nat, state: State, detail: Option<Detail>)
    requires w < |s.workers|
  {
    var (k, i) := (s.workers[w], s.workers[w].firing);
    t.rows == if i < |s.rows| && s.rows[i].state == Leased && s.rows[i].worker == Some(k.pid)
              then s.rows[i := s.rows[i].(state := state, settledAt := Some(s.clock),
                                          detail := match detail case Some(d) => d case None => s.rows[i].detail)]
              else s.rows
  }

  // A worker that rechecks goes on when nothing stands against its rerun.  A stop
  // settles the firing canceled, anything else refused, and the worker ends.
  lemma RecheckedExactly(h: Host, s: World, w: nat, refusal: Option<State>)
    requires w < |s.workers| && s.workers[w].stage == Holding
    ensures var t := Apply(h, s, Recheck(w, refusal));
            && t == s.(rows := t.rows, workers := t.workers)
            && t.workers == s.workers[w := s.workers[w].(stage := if refusal == None then Checked else Ended)]
            && (refusal == None ==> t.rows == s.rows)
            && (refusal == Some(Canceled) ==> SettledBy(s, t, w, Canceled, None))
            && (refusal == Some(Refused) ==> SettledBy(s, t, w, Refused, None))
  {
  }

  // A rerun is sent exactly when nothing stands against it and the row is leased
  // to this worker.  GitHub's answer settles the row, with the attempt the rerun
  // became; a crash leaves it leased.
  lemma SentExactly(h: Host, s: World, w: nat, refusal: Option<State>, reply: Reply)
    requires w < |s.workers| && s.workers[w].stage == Checked
    ensures var t := Apply(h, s, SendRerun(w, refusal, reply));
            var (k, i) := (s.workers[w], s.workers[w].firing);
            var sends := refusal == None && i < |s.rows| && s.rows[i].state == Leased && s.rows[i].worker == Some(k.pid);
            && t == s.(rows := t.rows, workers := t.workers, sends := t.sends)
            && t.workers == s.workers[w := k.(stage := Ended)]
            && t.sends == (if sends then s.sends + [Send(i, w, s.rows[i], reply)] else s.sends)
            && (refusal == Some(Canceled) ==> SettledBy(s, t, w, Canceled, None))
            && (refusal == Some(Refused) ==> SettledBy(s, t, w, Refused, None))
            && (refusal == None ==>
                  && (reply == CrashedAfterSend ==> t.rows == s.rows)
                  && (reply == Accepted ==>
                        SettledBy(s, t, w, Confirmed, Some(k.detail.(rerun := Some(k.detail.attempt + 1)))))
                  && (reply == RefusedByGitHub ==> SettledBy(s, t, w, Refused, Some(k.detail))))
  {
  }

  // The operator's answer settles an unknown firing, and no other.
  lemma AnsweredExactly(h: Host, s: World, i: nat, confirmed: bool)
    ensures Apply(h, s, AnswerUnknown(i, confirmed)) ==
            if i < |s.rows| && s.rows[i].state == Unknown
            then s.(rows := s.rows[i := s.rows[i].(state := if confirmed then Confirmed else Canceled)]) else s
  {
  }

  // A live pass holds merges as PlacedExactly says, and releases them as
  // ReleasedExactly says while a hold of the project stands.
  lemma HoldsStep(h: Host, s: World, p: nat, key: Key, red: string)
    requires Live(s, p) && key.subject == Merges
    ensures var t := Apply(h, s, HoldMerge(p, key, red));
            (t.rows, t.holds) == PlaceHold(s.rows, s.holds, key, red, s.passes[p].now, s.clock + 300000)
    ensures var t := Apply(h, s, ReleaseHold(p, key));
            if exists i :: 0 <= i < |s.holds| && s.holds[i].open && s.holds[i].project == key.project
            then (t.rows, t.holds) == EndHold(s.rows, s.holds, key, s.passes[p].now, s.clock + 300000)
            else t == s
  {
    hide PlaceHold, EndHold;
  }
}

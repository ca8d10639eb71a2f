// Runs and tickets of the state store, and the operations on them.

module Lifecycle {
  // The two transition tables and every operation that claims, moves, parks,
  // ends, resumes or requeues a run, or leaves an instruction for one.  An
  // operation is one transaction: it answers the new store, or refuses and
  // changes nothing.

  import Path = StatusPath

  datatype Option<+T> = None | Some(value: T)

  // ----------------------------------------------------------------- tables

  datatype Phase =
    | Claimed | Working | Verifying | Reviewing | Addressing | MergeGate | AwaitingMergeApproval | Merging
    | Squashing | Done | BlockedOnOperator | Failed | Killed | Rejected | Paused

  datatype Outcome = Merged | Killed | Abandoned | Failed | Rejected | Paused

  datatype Status = NeedsSpec | Ready | InFlight | BlockedOnDeps | BlockedOnOperator | Merged | Abandoned

  datatype ParkKind = Contradiction | NotReproduced | OtherPark

  const WORK_PHASES := {Working, Verifying, Reviewing, Addressing}
  const RESUMABLE_PHASES := WORK_PHASES + {Phase.Failed, Phase.BlockedOnOperator, Phase.Paused}
  const PARKED_PHASES := {Phase.BlockedOnOperator, AwaitingMergeApproval}
  const BABYSIT_PHASES := {MergeGate, Verifying, Reviewing}
  const LIVE_PHASES := {Claimed, Working, Verifying, Reviewing, Addressing}
  const GATE_PHASES := {MergeGate, Merging}

  // RUN_PHASE_TRANSITIONS, the `paused` edges included.
  function NextPhases(p: Phase): set<Phase> {
    match p
    case Claimed => {Working, MergeGate, AwaitingMergeApproval, Phase.Failed, Phase.Killed, Phase.Paused}
    case Working => {Verifying, Phase.Failed, Phase.BlockedOnOperator, Phase.Killed, Phase.Paused}
    case Verifying => {Reviewing, Phase.Failed, AwaitingMergeApproval, Phase.Killed, Phase.Paused}
    case Reviewing =>
      {Addressing, MergeGate, Verifying, AwaitingMergeApproval, Phase.Failed, Phase.Killed, Phase.Paused}
    case Addressing => {Verifying, Phase.Failed, Phase.BlockedOnOperator, Phase.Killed, Phase.Paused}
    case MergeGate =>
      {Merging, Done, Verifying, AwaitingMergeApproval, Phase.Failed, Phase.Killed, Phase.Rejected, Phase.Paused}
    case AwaitingMergeApproval => {Done, Phase.Failed, Phase.Killed, Phase.Rejected, Phase.Paused}
    case Merging =>
      {Done, Phase.Failed, Verifying, MergeGate, AwaitingMergeApproval, Phase.BlockedOnOperator, Phase.Killed,
       Phase.Paused}
    case Squashing => {Phase.Paused}
    case Done => {}
    case Failed => WORK_PHASES
    case BlockedOnOperator => {Working, Phase.Failed}
    case Killed => {}
    case Rejected => {}
    case Paused => {Working, Verifying, Reviewing, Addressing, MergeGate, Merging}
  }

  function TerminalPhase(o: Outcome): Phase {
    match o
    case Paused => Phase.Paused
    case Rejected => Phase.Rejected
    case Merged => Done
    case Killed => Phase.Killed
    case Abandoned => Phase.Failed
    case Failed => Phase.Failed
  }

  predicate Terminal(p: Phase) {
    p in {Phase.Paused, Phase.Rejected, Done, Phase.Killed, Phase.Failed}
  }

  // TICKET_TRANSITIONS, successors in the order they are tried.
  function NextStatuses(s: Status): seq<Status> {
    match s
    case NeedsSpec => [Ready]
    case Ready => [BlockedOnDeps, InFlight]
    case InFlight => [Status.Abandoned, Status.BlockedOnOperator, Status.Merged]
    case BlockedOnDeps => [Status.BlockedOnOperator, Ready]
    case BlockedOnOperator => [BlockedOnDeps]
    case Merged => []
    case Abandoned => []
  }

  const STATUSES: Path.Table<Status> := map s: Status :: NextStatuses(s)

  // ------------------------------------------------------------------- rows

  datatype Ticket = Ticket(
    project: nat, status: Status, active: Option<nat>, last: Option<nat>, revision: nat, column: string,
    board: string, gone: bool)

  // `merging` is the pull request through which begin_merge let the run enter
  // merging, kept while it stays there.
  datatype Run = Run(
    ticket: nat, project: nat, attempt: nat, phase: Phase, endedAt: Option<int>, outcome: Option<Outcome>,
    resumePhase: Option<Phase>, parkKind: Option<ParkKind>, prUrl: Option<string>, candidate: Option<string>,
    approvedAt: Option<int>, stop: Option<nat>, merging: Option<string>)

  datatype Action =
    | Requeue | Approve | Babysit | OperatorNote | Pause | Abort | AbortClose | Repoint | Resume | Steer | Other

  // `cancels` marks a request a board cancellation made.
  datatype Intervention = Intervention(run: Option<nat>, action: Action, human: bool, cancels: bool)

  // The run events the handshakes read.
  datatype Event = Note(run: nat) | Consumed(run: nat, note: nat) | SteerClosed(run: nat)

  datatype SteerNote = SteerNote(
    ticket: nat, run: Option<nat>, amendment: bool, event: Option<nat>, consumedBy: Option<nat>, withdrawn: bool)

  datatype Db = Db(
    held: set<nat>, tickets: seq<Ticket>, runs: seq<Run>, interventions: seq<Intervention>, events: seq<Event>,
    steers: seq<SteerNote>)

  datatype Why =
    | NoRun | NoTicket | RunEnded | IllegalPhase | NotParkedPhase | LeaseHeld | RevisionMoved | NotReady | AtCap
    | NotOfProject | BoardClosed | RequeueRefused | TooManyRelaunches | BlankNote | ApproveRefused | ResumeRefused
    | GuidanceNotAccepted | RepointRefused | IllegalTransition | NotNotable | SteerRefused

  datatype Result = Ok(db: Db) | Refused(why: Why)

  // -------------------------------------------------------------------- runs

  function Attempts(runs: seq<Run>, t: nat): nat {
    if runs == [] then 0 else Attempts(runs[..|runs| - 1], t) + if runs[|runs| - 1].ticket == t then 1 else 0
  }

  function NewRun(runs: seq<Run>, p: nat, t: nat): Run {
    Run(t, p, Attempts(runs, t) + 1, Claimed, None, None, None, None, None, None, None, None, None)
  }

  function Claim(db: Db, p: nat, t: nat, expected: Option<nat>, atCap: bool): Result {
    if p in db.held then Ok(db)
    else if t >= |db.tickets| then Refused(NoTicket)
    else
      var k := db.tickets[t];
      if k.active.Some? then Refused(LeaseHeld)
      else if expected.Some? && k.revision != expected.value then Refused(RevisionMoved)
      else if expected.Some? && (k.column != "ready" || k.status != Ready || k.gone) then Refused(NotReady)
      else if atCap then Refused(AtCap)
      else if k.project != p then Refused(NotOfProject)
      else Ok(db.(runs := db.runs + [NewRun(db.runs, p, t)],
                  tickets := db.tickets[t := k.(active := Some(|db.runs|))]))
  }

  function SetPhase(db: Db, r: nat, phase: Phase): Result {
    if r >= |db.runs| then Refused(NoRun)
    else
      var run := db.runs[r];
      if run.endedAt.Some? then Refused(RunEnded)
      else if phase != run.phase && phase !in NextPhases(run.phase) then Refused(IllegalPhase)
      else Ok(db.(runs := db.runs[r := run.(phase := phase,
                                            merging := if phase == run.phase then run.merging else None)]))
  }

  // The lease goes back only if this run holds it.
  function DropLease(tickets: seq<Ticket>, t: nat, r: nat): (tickets': seq<Ticket>)
    ensures |tickets'| == |tickets|
  {
    if t < |tickets| && tickets[t].active == Some(r)
    then tickets[t := tickets[t].(active := None, last := Some(r))] else tickets
  }

  function Park(db: Db, r: nat, phase: Phase, kind: ParkKind, prUrl: Option<string>, candidate: Option<string>): Result {
    if phase !in PARKED_PHASES then Refused(NotParkedPhase)
    else
      match SetPhase(db, r, phase)
      case Refused(why) => Refused(why)
      case Ok(d) =>
        var run := d.runs[r];
        var parked := run.(parkKind := Some(kind), prUrl := if prUrl.Some? then prUrl else run.prUrl,
                           candidate := if candidate.Some? then candidate else run.candidate);
        Ok(d.(runs := d.runs[r := parked], tickets := DropLease(d.tickets, run.ticket, r)))
  }

  // Where a run released from `stopped` resumes.
  function ResumePoint(outcome: Outcome, stopped: Phase, asked: Option<Phase>): Option<Phase> {
    if outcome == Outcome.Paused then asked
    else if TerminalPhase(outcome) == Phase.Failed && stopped in WORK_PHASES then Some(stopped)
    else None
  }

  function Release(db: Db, r: nat, outcome: Outcome, asked: Option<Phase>, candidate: Option<string>, now: int): Result {
    if r >= |db.runs| then Refused(NoRun)
    else if db.runs[r].endedAt.Some? && Terminal(db.runs[r].phase) then Ok(db)
    else
      match SetPhase(db, r, TerminalPhase(outcome))
      case Refused(why) => Refused(why)
      case Ok(d) =>
        var run := d.runs[r];
        var ended := run.(endedAt := Some(now), outcome := Some(outcome),
                          resumePhase := ResumePoint(outcome, db.runs[r].phase, asked),
                          candidate := if candidate.Some? then candidate else run.candidate);
        Ok(d.(runs := d.runs[r := ended], tickets := DropLease(d.tickets, run.ticket, r)))
  }

  // A run's resume target, from its phase alone.
  function ResumeTarget(run: Run): Phase {
    if run.phase in {Phase.Failed, Phase.Paused} && run.resumePhase.Some? then run.resumePhase.value
    else if run.phase in {Phase.Failed, Phase.BlockedOnOperator} then Working
    else run.phase
  }

  // `resume` consults no table and gives no lease back.
  function ResumeRun(db: Db, r: nat, guided: bool, blank: bool, human: bool): Result {
    if guided && blank then Refused(BlankNote)
    else if r >= |db.runs| then Refused(NoRun)
    else
      var run := db.runs[r];
      if guided && run.phase != Phase.BlockedOnOperator then Refused(GuidanceNotAccepted)
      else if run.phase !in RESUMABLE_PHASES then Refused(ResumeRefused)
      else
        var back := run.(phase := ResumeTarget(run), resumePhase := None, parkKind := None, stop := None,
                         merging := if ResumeTarget(run) == run.phase then run.merging else None);
        var open := if Terminal(run.phase) then back.(endedAt := None, outcome := None) else back;
        Ok(db.(runs := db.runs[r := open],
               interventions := db.interventions + [Intervention(Some(r), Resume, human, false)]))
  }

  function Record(db: Db, r: nat, action: Action, blank: bool, human: bool, cancels: bool): Result {
    if blank then Refused(BlankNote)
    else if r >= |db.runs| then Refused(NoRun)
    else Ok(db.(interventions := db.interventions + [Intervention(Some(r), action, human, cancels)]))
  }

  function PauseRun(db: Db, r: nat, blank: bool, human: bool): Result {
    if r >= |db.runs| then Refused(NoRun)
    else if db.runs[r].endedAt.Some? then Refused(RunEnded)
    else if db.runs[r].stop.Some? then Ok(db)
    else
      match Record(db, r, Pause, blank, human, false)
      case Refused(why) => Refused(why)
      case Ok(d) => Ok(d.(runs := d.runs[r := d.runs[r].(stop := Some(|db.interventions|))]))
  }

  // The request a run's stop names, if any.
  function Pending(db: Db, r: nat): Option<Intervention>
    requires r < |db.runs|
  {
    var stop := db.runs[r].stop;
    if stop.Some? && stop.value < |db.interventions| then Some(db.interventions[stop.value]) else None
  }

  function AbortRun(db: Db, r: nat, close: bool, cancels: bool, blank: bool, human: bool): Result {
    if r >= |db.runs| then Refused(NoRun)
    else if db.runs[r].endedAt.Some? then Refused(RunEnded)
    else if Phase.Failed !in NextPhases(db.runs[r].phase) then Refused(IllegalPhase)
    else
      var pending := Pending(db, r);
      var closing := pending.Some? && pending.value.action == AbortClose;
      var wanted := if close || closing then AbortClose else Abort;
      var was := pending.Some? && pending.value.cancels;
      if pending.Some? && (pending.value.action == wanted || closing) && !(cancels && !was) then Ok(db)
      else
        match Record(db, r, wanted, blank, human, cancels || was)
        case Refused(why) => Refused(why)
        case Ok(d) => Ok(d.(runs := d.runs[r := d.runs[r].(stop := Some(|db.interventions|))]))
  }

  function RepointRun(db: Db, t: nat, fullSha: bool, sha: string, blank: bool): Result {
    if !fullSha then Refused(RepointRefused)
    else if t >= |db.tickets| then Refused(NoTicket)
    else
      var k := db.tickets[t];
      if k.active.Some? || k.last.None? || k.last.value >= |db.runs| then Refused(RepointRefused)
      else
        var r := k.last.value;
        if db.runs[r].resumePhase.Some? || db.runs[r].phase != AwaitingMergeApproval then Refused(RepointRefused)
        else
          match Record(db, r, Repoint, blank, true, false)
          case Refused(why) => Refused(why)
          case Ok(d) => Ok(d.(runs := d.runs[r := d.runs[r].(candidate := Some(sha))]))
  }

  // ----------------------------------------------------------------- tickets

  function ClearParkKinds(runs: seq<Run>, t: nat): (r: seq<Run>)
    ensures |r| == |runs|
  {
    if runs == [] then []
    else
      var run := runs[|runs| - 1];
      ClearParkKinds(runs[..|runs| - 1], t) + [if run.ticket == t then run.(parkKind := None) else run]
  }

  function Transition(db: Db, t: nat, to: Status): Result {
    if t >= |db.tickets| then Refused(NoTicket)
    else
      var k := db.tickets[t];
      if to !in NextStatuses(k.status) then Refused(IllegalTransition)
      else
        Ok(db.(tickets := db.tickets[t := k.(status := to)],
               runs := if k.status == Status.BlockedOnOperator then ClearParkKinds(db.runs, t) else db.runs))
  }

  function TransitionAll(db: Db, t: nat, path: seq<Status>): Result
    decreases |path|
  {
    if path == [] then Ok(db)
    else
      match Transition(db, t, path[0])
      case Refused(why) => Refused(why)
      case Ok(d) => TransitionAll(d, t, path[1..])
  }

  function Walk(db: Db, t: nat, to: Status): Result {
    if t >= |db.tickets| then Refused(NoTicket)
    else if db.tickets[t].status == to then Ok(db)
    else
      match Path.Shortest(STATUSES, db.tickets[t].status, to)
      case None => Refused(IllegalTransition)
      case Some(path) => TransitionAll(db, t, path)
  }

  // The status part of mirroring a board issue.
  function MirrorNew(db: Db, p: nat, specced: bool, column: string, board: string, revision: nat): Result {
    Ok(db.(tickets := db.tickets + [Ticket(p, if specced then Ready else NeedsSpec, None, None, revision, column,
                                           board, false)]))
  }

  function Mirror(
      db: Db, t: nat, expected: Option<nat>, specced: bool, story: bool, column: Option<string>, board: string,
      revision: nat): Result
  {
    if t >= |db.tickets| then Refused(NoTicket)
    else
      var k := db.tickets[t];
      if expected.Some? && expected.value != k.revision then Ok(db)
      else
        var derived := if specced && !story then Ready else NeedsSpec;
        Ok(db.(tickets := db.tickets[t := k.(
          status := if k.status in {NeedsSpec, Ready} then derived else k.status,
          column := if column.Some? then column.value else k.column, board := board, revision := revision)]))
  }

  // ------------------------------------------------------ requeue and release

  const RELAUNCH_LIMIT := 2

  predicate OfTicket(db: Db, i: Intervention, t: nat) {
    i.run.Some? && i.run.value < |db.runs| && db.runs[i.run.value].ticket == t
  }

  // Requeues of this ticket's failed or rejected runs since a person last did
  // anything else on it, among the first `n` interventions.
  function Relaunches(db: Db, t: nat, n: nat): nat
    requires n <= |db.interventions|
  {
    if n == 0 then 0
    else
      var i := db.interventions[n - 1];
      if !OfTicket(db, i, t) then Relaunches(db, t, n - 1)
      else if i.human && i.action != Requeue then 0
      else
        Relaunches(db, t, n - 1)
        + if i.action == Requeue
             && db.runs[i.run.value].outcome in {Some(Outcome.Failed), Some(Outcome.Rejected)} then 1 else 0
  }

  predicate Aborted(db: Db, r: nat) {
    exists i :: 0 <= i < |db.interventions| && db.interventions[i].run == Some(r)
                && db.interventions[i].action in {Abort, AbortClose}
  }

  // `_requeue_admits`: whether a requeue is admitted and, if so, whether it
  // first has to release a parked run.
  function Admits(status: Status, run: Option<Run>, aborted: bool): Option<bool> {
    var parked := status == Status.BlockedOnOperator;
    if parked && run.Some? && run.value.phase == Phase.BlockedOnOperator
       && run.value.parkKind == Some(Contradiction) then Some(true)
    else if parked && run.Some? && run.value.phase == AwaitingMergeApproval then
      if run.value.parkKind == Some(NotReproduced) then Some(true) else None
    else if run.Some? && run.value.outcome == Some(Outcome.Abandoned) && !aborted then None
    else
      var over := run.Some? && run.value.outcome in
                  {Some(Outcome.Failed), Some(Outcome.Rejected), Some(Outcome.Abandoned)};
      if status != InFlight && !(parked && over) then None
      else if !over then None
      else Some(false)
  }

  // A ticket's last run, if it has one.
  function LastRun(db: Db, t: nat): Option<Run>
    requires t < |db.tickets|
  {
    var last := db.tickets[t].last;
    if last.Some? && last.value < |db.runs| then Some(db.runs[last.value]) else None
  }

  function RequeueTicket(db: Db, t: nat, blank: bool, human: bool, force: bool, now: int): Result {
    if t >= |db.tickets| then Refused(NoTicket)
    else
      var k := db.tickets[t];
      if k.board in {"Backlog", "Canceled", "Done"} then Refused(BoardClosed)
      else if k.active.Some? then Refused(LeaseHeld)
      else if LastRun(db, t).None? then Refused(RequeueRefused)
      else
        var r := k.last.value;
        var admitted := Admits(k.status, LastRun(db, t), Aborted(db, r));
        if admitted.None? then Refused(RequeueRefused)
        else if Relaunches(db, t, |db.interventions|) >= RELAUNCH_LIMIT && !force then Refused(TooManyRelaunches)
        else
          match Record(db, r, Requeue, blank, human, false)
          case Refused(why) => Refused(why)
          case Ok(d1) =>
            match if admitted.value then Release(d1, r, Outcome.Abandoned, None, None, now) else Ok(d1)
            case Refused(why) => Refused(why)
            case Ok(d2) => Walk(d2.(runs := d2.runs[r := d2.runs[r].(approvedAt := None)]), t, Ready)
  }

  // `_release_parked`: approve, babysit, or send back with an instruction.
  function ReleaseParked(
      db: Db, t: nat, action: Action, blank: bool, human: bool, requirePr: bool, only: Option<nat>, now: int): Result
  {
    if t >= |db.tickets| then Refused(NoTicket)
    else
      var k := db.tickets[t];
      if k.active.Some? || k.status != Status.BlockedOnOperator then Refused(ApproveRefused)
      else if only.Some? && k.last != only then Refused(ApproveRefused)
      else if LastRun(db, t).None? then Refused(ApproveRefused)
      else
        var r := k.last.value;
        if db.runs[r].phase != AwaitingMergeApproval || (requirePr && db.runs[r].prUrl.None?)
        then Refused(ApproveRefused)
        else
          match Record(db, r, action, blank, human, false)
          case Refused(why) => Refused(why)
          case Ok(d1) =>
            var d2 := if action == OperatorNote then d1.(events := d1.events + [Note(r)]) else d1;
            match Release(d2, r, Outcome.Abandoned, None, None, now)
            case Refused(why) => Refused(why)
            case Ok(d3) =>
              var back := d3.runs[r].(resumePhase := Some(MergeGate),
                                      approvedAt := if action == Approve then Some(now) else None);
              Walk(d3.(runs := d3.runs[r := back]), t, Ready)
  }

  // ------------------------------------------- instructions to a pull request

  predicate Latest(db: Db, r: nat) {
    r < |db.runs| && db.runs[r].ticket < |db.tickets| && db.tickets[db.runs[r].ticket].last == Some(r)
  }

  predicate Leased(db: Db, r: nat) {
    r < |db.runs| && db.runs[r].ticket < |db.tickets| && db.tickets[db.runs[r].ticket].active == Some(r)
  }

  function SendBack(db: Db, r: nat, blank: bool, now: int): Result {
    if blank then Refused(BlankNote)
    else if !Latest(db, r) then Refused(NotNotable)
    else ReleaseParked(db, db.runs[r].ticket, OperatorNote, false, true, true, None, now)
  }

  function AddNote(db: Db, r: nat, blank: bool): Result {
    if blank then Refused(BlankNote)
    else if !Latest(db, r) || db.tickets[db.runs[r].ticket].active.Some? || db.runs[r].prUrl.None?
            || db.runs[r].resumePhase != Some(MergeGate) then Refused(NotNotable)
    else
      Ok(db.(interventions := db.interventions + [Intervention(Some(r), OperatorNote, true, false)],
             events := db.events + [Note(r)]))
  }

  function NoteLive(db: Db, r: nat, blank: bool): Result {
    if blank then Refused(BlankNote)
    else if !Leased(db, r) || db.runs[r].endedAt.Some? || db.runs[r].phase !in BABYSIT_PHASES
            || db.runs[r].prUrl.None? then Refused(NotNotable)
    else Ok(db.(events := db.events + [Note(r)]))
  }

  function Lineage(run: Run, url: Option<string>): Option<string> {
    if run.prUrl.Some? then run.prUrl else url
  }

  // `notes(pending=True)` names event `e`: an instruction on run `r` or an
  // earlier run of its pull request that no event consumed.
  predicate PendingNote(db: Db, r: nat, url: Option<string>, e: nat)
    requires r < |db.runs|
  {
    && e < |db.events| && db.events[e].Note? && db.events[e].run <= r
    && db.runs[db.events[e].run].ticket == db.runs[r].ticket
    && (db.events[e].run == r
        || (db.runs[db.events[e].run].prUrl.Some? && db.runs[db.events[e].run].prUrl == Lineage(db.runs[r], url)))
    && !IsConsumed(db.events, e)
  }

  predicate IsConsumed(events: seq<Event>, e: nat) {
    exists c :: 0 <= c < |events| && events[c].Consumed? && events[c].note == e
  }

  predicate NonePending(db: Db, r: nat, url: Option<string>)
    requires r < |db.runs|
  {
    forall e :: 0 <= e < |db.events| ==> !PendingNote(db, r, url, e)
  }

  // With an instruction pending the run stays where it is, to carry it first.
  function BeginMerge(db: Db, r: nat, url: string): Result {
    if r >= |db.runs| then Refused(NoRun)
    else if !NonePending(db, r, Some(url)) then Ok(db)
    else
      match SetPhase(db, r, Merging)
      case Refused(why) => Refused(why)
      case Ok(d) => Ok(d.(runs := d.runs[r := d.runs[r].(merging := Some(url))]))
  }

  function ConsumeNotes(db: Db, r: nat, notes: seq<nat>): Result
    decreases |notes|
  {
    if notes == [] then Ok(db)
    else if r >= |db.runs| then Refused(NoRun)
    else ConsumeNotes(db.(events := db.events + [Consumed(r, notes[0])]), r, notes[1..])
  }

  function SetPullRequest(db: Db, r: nat, url: string, candidate: Option<string>): Result {
    if r >= |db.runs| then Ok(db)
    else
      Ok(db.(runs := db.runs[r := db.runs[r].(prUrl := Some(url),
                                               candidate := if candidate.Some? then candidate else db.runs[r].candidate)]))
  }

  // `set_question` marks the run a ticket's question is about.
  function SetQuestion(db: Db, t: nat, kind: ParkKind): Result {
    if t >= |db.tickets| then Ok(db)
    else
      var r := if db.tickets[t].active.Some? then db.tickets[t].active else db.tickets[t].last;
      if r.Some? && r.value < |db.runs| then Ok(db.(runs := db.runs[r.value := db.runs[r.value].(parkKind := Some(kind))]))
      else Ok(db)
  }

  // ------------------------------------------------------------------ steers

  predicate Waits(s: SteerNote, t: nat) {
    s.ticket == t && s.event.None? && s.consumedBy.None? && !s.withdrawn
  }

  predicate Closed(db: Db, r: nat) {
    SteerClosed(r) in db.events
  }

  // A steer on a ticket.  `bad` is a note whose criterion edits do not read, or
  // that edits criteria in a hint.
  function SteerTicket(
      db: Db, t: nat, amendment: bool, interrupt: bool, blank: bool, bad: bool, human: bool, now: int): Result
  {
    if blank then Refused(BlankNote)
    else if t >= |db.tickets| then Refused(NoTicket)
    else
      var k := db.tickets[t];
      var resume := if LastRun(db, t).Some? then LastRun(db, t).value.resumePhase else None;
      if k.active.Some? then SteerLive(db, t, k.active.value, resume, amendment, bad)
      else if interrupt || k.status in {Status.Merged, Status.Abandoned} then Refused(SteerRefused)
      else
        var last := LastRun(db, t);
        if k.status == Status.BlockedOnOperator then
          if last.None? || last.value.phase != AwaitingMergeApproval || last.value.prUrl.None?
          then Refused(SteerRefused)
          else AddSteer(SendBack(db, k.last.value, false, now), t, k.last, amendment, |db.events|, bad)
        else if last.Some? && resume == Some(MergeGate) && last.value.prUrl.Some?
                && last.value.outcome != Some(Outcome.Paused)
        then AddSteer(AddNote(db, k.last.value, false), t, k.last, amendment, |db.events|, bad)
        else if (resume.Some? && resume.value in GATE_PHASES)
                || (last.Some? && last.value.outcome == Some(Outcome.Paused)
                    && resume !in {None, Some(Working)})
        then Refused(SteerRefused)
        else if bad then Refused(SteerRefused)
        else
          Ok(db.(interventions := db.interventions + [Intervention(k.last, Steer, human, false)],
                 steers := db.steers + [SteerNote(t, k.last, amendment, None, None, false)]))
  }

  // A steer carried by the instruction event `e` it was also written as.
  function AddSteer(written: Result, t: nat, r: Option<nat>, amendment: bool, e: nat, bad: bool): Result {
    match written
    case Refused(why) => Refused(why)
    case Ok(d) =>
      if bad then Refused(SteerRefused)
      else Ok(d.(steers := d.steers + [SteerNote(t, r, amendment, Some(e), None, false)]))
  }

  // A steer on a ticket with a live run: carried as an instruction on its pull
  // request, or left for the next implementer turn while one remains.
  function SteerLive(db: Db, t: nat, r: nat, resume: Option<Phase>, amendment: bool, bad: bool): Result {
    if r >= |db.runs| then Refused(NoRun)
    else
      var run := db.runs[r];
      var noted := db.(interventions := db.interventions + [Intervention(Some(r), Steer, true, false)]);
      if run.phase in BABYSIT_PHASES && run.prUrl.Some? then
        AddSteer(NoteLive(noted, r, false), t, Some(r), amendment, |db.events|, bad)
      else if run.phase !in LIVE_PHASES || run.prUrl.Some? || Closed(db, r) then Refused(SteerRefused)
      else if run.phase == Claimed && resume.Some? && resume.value in GATE_PHASES then Refused(SteerRefused)
      else if bad then Refused(SteerRefused)
      else Ok(noted.(steers := noted.steers + [SteerNote(t, Some(r), amendment, None, None, false)]))
  }

  function WithdrawAll(steers: seq<SteerNote>, t: nat): (r: seq<SteerNote>)
    ensures |r| == |steers|
  {
    if steers == [] then []
    else
      var s := steers[|steers| - 1];
      WithdrawAll(steers[..|steers| - 1], t)
      + [if s.ticket == t && s.amendment then s.(withdrawn := true) else s]
  }

  function WithdrawSteers(db: Db, t: nat, blank: bool): Result {
    if blank then Refused(BlankNote)
    else if t >= |db.tickets| then Refused(NoTicket)
    else
      var k := db.tickets[t];
      if k.status in {Status.Merged, Status.Abandoned} || k.active.Some? then Refused(SteerRefused)
      else if !exists i :: 0 <= i < |db.steers| && db.steers[i].ticket == t && db.steers[i].amendment
                           && !db.steers[i].withdrawn then Refused(SteerRefused)
      else
        Ok(db.(interventions := db.interventions + [Intervention(k.last, Steer, true, false)],
               steers := WithdrawAll(db.steers, t)))
  }

  predicate NoneWaits(db: Db, t: nat) {
    forall i :: 0 <= i < |db.steers| ==> !Waits(db.steers[i], t)
  }

  // Steering closes only once no steer waits.
  function CloseSteers(db: Db, r: nat): Result {
    if r >= |db.runs| then Refused(NoRun)
    else if !NoneWaits(db, db.runs[r].ticket) then Ok(db)
    else Ok(db.(events := db.events + [SteerClosed(r)]))
  }

  function ConsumeSteers(db: Db, r: nat, notes: seq<nat>): Result
    decreases |notes|
  {
    if notes == [] then Ok(db)
    else
      var n := notes[0];
      var d := if n < |db.steers| && db.steers[n].consumedBy.None?
               then db.(steers := db.steers[n := db.steers[n].(consumedBy := Some(r))]) else db;
      ConsumeSteers(d, r, notes[1..])
  }

  // ------------------------------------------------------------------- steps

  datatype Step =
    | SetAdmission(project: nat, holds: bool)
    | DoClaim(project: nat, ticket: nat, expected: Option<nat>, atCap: bool)
    | DoSetPhase(run: nat, phase: Phase)
    | DoPark(run: nat, phase: Phase, kind: ParkKind, prUrl: Option<string>, candidate: Option<string>)
    | DoRelease(run: nat, outcome: Outcome, asked: Option<Phase>, candidate: Option<string>, now: int)
    | DoResume(run: nat, guided: bool, blank: bool, human: bool)
    | DoRecord(run: nat, action: Action, blank: bool, human: bool)
    | DoPause(run: nat, blank: bool, human: bool)
    | DoAbort(run: nat, close: bool, cancels: bool, blank: bool, human: bool)
    | DoRepoint(ticket: nat, fullSha: bool, sha: string, blank: bool)
    | DoTransition(ticket: nat, status: Status)
    | DoWalk(ticket: nat, status: Status)
    | DoMirrorNew(project: nat, specced: bool, column: string, board: string, revision: nat)
    | DoMirror(ticket: nat, expected: Option<nat>, specced: bool, story: bool, newColumn: Option<string>,
               board: string, revision: nat)
    | DoBoard(ticket: nat, column: string, board: string, gone: bool)
    | DoRequeue(ticket: nat, blank: bool, human: bool, force: bool, now: int)
    | DoApprove(ticket: nat, blank: bool, only: Option<nat>, now: int)
    | DoBabysit(ticket: nat, blank: bool, human: bool, now: int)
    | DoSendBack(run: nat, blank: bool, now: int)
    | DoAddNote(run: nat, blank: bool)
    | DoNoteLive(run: nat, blank: bool)
    | DoBeginMerge(run: nat, url: string)
    | DoConsume(run: nat, notes: seq<nat>)
    | DoSetPullRequest(run: nat, url: string, candidate: Option<string>)
    | DoSetQuestion(ticket: nat, kind: ParkKind)
    | DoSteer(ticket: nat, amendment: bool, interrupt: bool, blank: bool, bad: bool, human: bool, now: int)
    | DoWithdraw(ticket: nat, blank: bool)
    | DoClose(run: nat)
    | DoConsumeSteers(run: nat, notes: seq<nat>)

  function Try(db: Db, step: Step): Result {
    match step
    case SetAdmission(p, holds) => Ok(db.(held := if holds then db.held + {p} else db.held - {p}))
    case DoClaim(p, t, expected, atCap) => Claim(db, p, t, expected, atCap)
    case DoSetPhase(r, phase) => SetPhase(db, r, phase)
    case DoPark(r, phase, kind, prUrl, candidate) => Park(db, r, phase, kind, prUrl, candidate)
    case DoRelease(r, outcome, asked, candidate, now) => Release(db, r, outcome, asked, candidate, now)
    case DoResume(r, guided, blank, human) => ResumeRun(db, r, guided, blank, human)
    case DoRecord(r, action, blank, human) => Record(db, r, action, blank, human, false)
    case DoPause(r, blank, human) => PauseRun(db, r, blank, human)
    case DoAbort(r, close, cancels, blank, human) => AbortRun(db, r, close, cancels, blank, human)
    case DoRepoint(t, fullSha, sha, blank) => RepointRun(db, t, fullSha, sha, blank)
    case DoTransition(t, status) => Transition(db, t, status)
    case DoWalk(t, status) => Walk(db, t, status)
    case DoMirrorNew(p, specced, column, board, revision) => MirrorNew(db, p, specced, column, board, revision)
    case DoMirror(t, expected, specced, story, column, board, revision) =>
      Mirror(db, t, expected, specced, story, column, board, revision)
    case DoBoard(t, column, board, gone) =>
      if t < |db.tickets|
      then Ok(db.(tickets := db.tickets[t := db.tickets[t].(column := column, board := board, gone := gone)]))
      else Ok(db)
    case DoRequeue(t, blank, human, force, now) => RequeueTicket(db, t, blank, human, force, now)
    case DoApprove(t, blank, only, now) => ReleaseParked(db, t, Approve, blank, true, false, only, now)
    case DoBabysit(t, blank, human, now) => ReleaseParked(db, t, Babysit, blank, human, true, None, now)
    case DoSendBack(r, blank, now) => SendBack(db, r, blank, now)
    case DoAddNote(r, blank) => AddNote(db, r, blank)
    case DoNoteLive(r, blank) => NoteLive(db, r, blank)
    case DoBeginMerge(r, url) => BeginMerge(db, r, url)
    case DoConsume(r, notes) => ConsumeNotes(db, r, notes)
    case DoSetPullRequest(r, url, candidate) => SetPullRequest(db, r, url, candidate)
    case DoSetQuestion(t, kind) => SetQuestion(db, t, kind)
    case DoSteer(t, amendment, interrupt, blank, bad, human, now) =>
      SteerTicket(db, t, amendment, interrupt, blank, bad, human, now)
    case DoWithdraw(t, blank) => WithdrawSteers(db, t, blank)
    case DoClose(r) => CloseSteers(db, r)
    case DoConsumeSteers(r, notes) => ConsumeSteers(db, r, notes)
  }

  function Apply(db: Db, step: Step): Db {
    match Try(db, step)
    case Ok(d) => d
    case Refused(_) => db
  }

  function RunSteps(db: Db, steps: seq<Step>): Db
    decreases |steps|
  {
    if steps == [] then db else RunSteps(Apply(db, steps[0]), steps[1..])
  }

  const EMPTY := Db({}, [], [], [], [], [])
}

# Verification of holophyte

A Dafny model of the parts of holophyte whose guarantees span many functions or
whole histories, and proofs of those guarantees.  `dafny verify dfyconfig.toml`
checks everything.

What the code does step by step is an imperative method (a class where the
source keeps rows or fields, a loop where the source loops), proved equal to a
specification function; what the source promises is then proved about those
functions, over every input, run or history.

- **Secrets in TOML** (`TomlScan`, `TomlScanOrder`, `TomlScanFacts`,
  `TomlSwap`, `Redact`, `Restoring`, `TomlScanner`, `TomlTokens`, `TomlStrings`,
  `TomlTables`,
  `TomlDocument`, `TomlDocumentScan`).
  The hand-written scanner of `redact.py` over any text, malformed ones
  included.  The central lemma is that scanning commutes with swapping one
  complete value for another; `restore` after `redact` then gives the original
  text.  The TOML library is a function-valued parameter with one fact: it reads
  the quoted placeholder as the placeholder.  What the scan finds is said without
  it: `TomlDocument` is a document with its tables, arrays of tables, pairs, arrays
  and inline tables, every string form and every layout it may be written in, and
  the scan of what it is written as finds exactly its secrets, each under the path
  the document gives it.
- **Automation firings** (`Firings`, `FiringProtocol`, `FiringSafety`,
  `FiringLimits`, `FiringRenewal`, `FiringOutcomes`, `FiringDecisions`,
  `FiringHistories`, `FiringStore`, `FiringPasses`).  Sweeps, workers, the clock and the operator
  are interleaved steps over one table of rows; a worker may crash after its
  rerun was sent and before anything is committed.  At most one rerun per firing
  key, the rate limits, the host's daily cap and the single renewal are
  invariants of every interleaving, and what a settled firing says of GitHub is
  true when the attempts read back are.
- **Runs, tickets and instructions** (`StatusPath`, `Lifecycle`,
  `LifecycleMoves`, `LifecycleFacts`, `LifecycleRuns`, `LifecycleTheorems`,
  `LifecycleReleases`, `LifecycleOperations`, `LifecycleStranding`,
  `LifecycleHistories`, `LifecycleStore`).  Every operation is a transaction on the
  store's rows that answers the new store or refuses.  Each is a chain of a few
  primitive edits, and what the edits keep, every history keeps; when each is
  accepted and every row it leaves is stated on the rows alone.
- **Planning** (`Cancel`, `Criteria`, `Recordings`, `Amendments`, `Closure`,
  `Stories`, `StoryLaws`).  Rewiring a canceled
  ticket's dependents, the append-only criteria log, the two closure loops, the
  frontier of a story and the story states.
- **Text and history** (`CommitRewrite`, `NotePrivacy`, `Fingerprint`) and the
  round robin of the sweep (`Cursor`).

Facts of the code that a reader might not expect are stated as they are, each
with a history that reaches it: `set_phase` enters a terminal phase without
ending the run; `resume` consults no transition table and gives no lease back
(`LifecycleHistories`).  Two operations write a run's pull request and look at no
instruction, `set_pull_request` and a park, so either can strand one accepted
earlier; `LifecycleStranding` says exactly when each does, and exactly which
histories strand none.  A ticket that depends on itself leaves its dependents
depending on it after a cancel; `Cancel.NoneDependsOnCanceled` says exactly when
none does, and `Cancel.CycleLeavesDependent` how a board comes to it.  A criterion
whose commands alone changed keeps the witness recorded before.

The table below names the theorems, and of the methods those with loops, rollbacks
or several tables.  The other handlers of `LifecycleStore.Store` (claim, set the
phase, park, release, resume, pause, abort, repoint, one transition, the three ways
of leaving an instruction, begin merging, close steering) and of `Stories.Store`
(file, replan, park, close, abandon) are short: each is proved to do what
its function in `Lifecycle` or `Stories` says, and the theorems are about those
functions.

## Model

| member | source | states |
|---|---|---|
| TomlScanOrder.SpansInOrder | holophyte/redact.py:42-216 | for every text the scan ends and its spans lie inside the text, in increasing order, disjoint, each under a secret-named segment |
| TomlScanOrder.WalkInOrder | holophyte/redact.py:51-77 | the same from any position of the document, with any table and array counters |
| TomlScanFacts.WalkShift | holophyte/redact.py:51-77 | text moved as a whole scans alike, every span moved by the same distance |
| TomlScanFacts.ValueLocal | holophyte/redact.py:133-152 | a value that ends before a point scans alike whatever follows that point |
| TomlSwap.ValueSwap | holophyte/redact.py:133-184 | inside any value, swapping one complete value for another moves the later spans and changes no path |
| TomlSwap.SpansSwap | holophyte/redact.py:42-77 | scanning a whole document commutes with swapping one span's value for another complete value |
| Redact.RewriteCut | holophyte/redact.py:244-252 | rewriting spans keeps every byte between them and puts each new text in its span's place |
| Redact.CutWeave | holophyte/redact.py:244-252 | a text is its gaps and its spans' texts in turn |
| Redact.HiddenScan | holophyte/redact.py:284-287 | rescanning a redacted text finds the same paths in the same order, each holding the placeholder, between the same gaps |
| Redact.RedactingTwice | holophyte/redact.py:284-287 | redacting twice is redacting once, for every text |
| Redact.RestoreOfHidden | holophyte/redact.py:313-329 | for every text, restoring its redaction gives each span the last value its path has in the original |
| Redact.RestoreUndoesHiding | holophyte/redact.py:313-329 | a text whose repeated secret paths hold the same bytes comes back exactly |
| Redact.RestoreUndoesRedact | holophyte/redact.py:284-329 | whatever `redact` serves for a text with distinct secret paths, `restore` against it is exactly that text |
| Restoring.RedactedExactly | holophyte/redact.py:284-301 | `redact` serves the hidden text, and refuses exactly when a document that parses would no longer do so, or would still show a secret leaf |
| Restoring.RestoredExactly | holophyte/redact.py:313-329 | for any two texts, `restore` is refused exactly when a placeholder's path has no value in the current file; else each placeholder becomes the last value of its path and all else stays |
| TomlTokens.StringScan | holophyte/redact.py:187-216 | a string written in any of its four forms, escapes and inner quotes included, is read to its own end |
| TomlStrings.StringWritten | holophyte/redact.py:187-216 | nothing else is read as a string: what the scanner takes for one is written in one of the four forms, so an unclosed one, or a short one with a line break in it, is refused |
| TomlStrings.BareIs | holophyte/redact.py:16-18 | the characters of a bare key are the listed letters, digits, underscore and dash |
| TomlTokens.KeyScan | holophyte/redact.py:107-130 | a dotted key of bare and quoted parts, with space around its dots, is read whole as the names its parts spell |
| TomlTables.HeaderOpens | holophyte/redact.py:80-88 | a header's table is its name led through the newest element of each array of tables, elements counted among the headers before it |
| TomlTables.ElementsDiffer | holophyte/redact.py:80-88 | no two array-of-tables headers of a document open the same table |
| TomlTables.KthElement | holophyte/redact.py:80-88 | the header after k of `[[x]]` that names `x` again opens element k |
| TomlDocumentScan.ValScan | holophyte/redact.py:133-184 | a written value is scanned to its end, and the spans found are its secrets, array elements numbered from 0 at every level |
| TomlDocumentScan.WalkScan | holophyte/redact.py:51-77 | the rest of a document after any headers scans to the end of the text and finds its secrets |
| TomlDocumentScan.DocumentScan | holophyte/redact.py:42-216 | for every document and every way of writing it, the spans of its text are exactly its secrets, in order, each where it is written and under its own path |
| TomlDocumentScan.DocumentComesBack | holophyte/redact.py:284-329 | a document whose secrets have paths of their own is restored from what `redact` serves for it |
| TomlDocumentScan.TwiceIsTwo | holophyte/redact.py:80-88 | the tokens of two elements of an array of tables are two secrets, under elements 0 and 1 |
| TomlScanner.ScanString | holophyte/redact.py:187-216 | the position loop over the four string forms answers the specified end or raises |
| TomlScanner.ScanKey | holophyte/redact.py:107-130 | the loop over dotted segments reads the specified key |
| TomlScanner.ScanValue | holophyte/redact.py:133-152 | dispatch on the value's first character, appending to the caller's list what the specification finds |
| TomlScanner.ScanArray | holophyte/redact.py:155-170 | elements numbered in order, comments and commas passed, spans appended even when the scan raises |
| TomlScanner.ScanInlineTable | holophyte/redact.py:173-184 | pairs read up to the closing brace, spans appended even when the scan raises |
| TomlScanner.ScanPair | holophyte/redact.py:91-104 | a value under a secret path is one span and nothing inside it is |
| TomlScanner.ScanHeader | holophyte/redact.py:64-73 | a table header, with the array counters updated in place |
| TomlScanner.ScanDocument | holophyte/redact.py:51-77 | the document loop finds the specified spans |
| TomlScanner.FindSpans | holophyte/redact.py:42-48 | `spans`: what was found before a raise is kept |
| TomlScanner.RewriteText | holophyte/redact.py:244-252 | the splicing loop over sorted replacements |
| TomlScanner.RestoreText | holophyte/redact.py:313-329 | `restore`: the missing paths, or the text with each placeholder's bytes put back |
| FiringStore.Table.ReserveFiring | store/automations.py:158-182 | a new row, a proposal taken over, or nothing; the limit is asked inside the transaction and only of a lease |
| FiringStore.Table.TakeFiring | store/automations.py:266-272 | only an untaken lease that still lasts is taken |
| FiringStore.Table.SettleFiring | store/automations.py:275-287 | only the lease's own holder settles it |
| FiringStore.Table.ReplayFiring | store/automations.py:290-297 | an expired, untaken lease is renewed and its replays counted |
| FiringStore.Table.SettleUnknownFiring | store/automations.py:253-263 | only an unknown firing is answered |
| FiringStore.Table.PlaceMergeHold | store/automations.py:399-413 | the standing hold ends, the new one stands, and the firing is confirmed if it was leased |
| FiringStore.Table.HoldRed | holophyte/automation/main_watch.py:146-179 | nothing on a green main or when this hold stands, a proposal when the project does not act, and otherwise reserve, replace and confirm in one transaction |
| FiringStore.Table.ReleaseHolds | holophyte/automation/main_watch.py:193-235 | nothing behind a gate, without a standing hold or for a firing that exists; otherwise the hold ends and the firing is confirmed |
| FiringStore.Worker.SettledIfRefused | holophyte/automation/worker.py:60-89 | a stop cancels, a policy or a moved attempt refuses, anything else leaves the row |
| FiringStore.Worker.Rerun | holophyte/automation/worker.py:110-134 | the rerun is sent if and only if nothing stands against it and the row is leased to this worker, and then the row is settled by GitHub's answer |
| FiringStore.SettleExpired | holophyte/automation/step.py:128-141 | the pass deals in turn with each lease it read, and lists exactly those it renewed |
| FiringStore.ReadBackOne | holophyte/automation/step.py:109-125 | if its worker still holds the lease, the firing is confirmed with the attempt read back when that moved on, canceled when it did not and unknown when it cannot be read |
| FiringStore.HostReruns.constructor | holophyte/automation/limits.py:49-56 | the day's count starts at the larger of the saved and the committed one |
| FiringStore.HostReruns.CountOne | holophyte/automation/limits.py:54-60 | one more today, none on any other day |
| FiringStore.HostReruns.Limit | holophyte/automation/limits.py:34-69 | one scan decides all four limits |
| FiringStore.LeaseFound | holophyte/automation/main_watch.py:118-143 | each found run is proposed, or leased under the limits and counted; no lease exceeds the host's cap |
| FiringStore.Observe | holophyte/automation/main_watch.py:112-143 | the hold or its proposal, then the reruns or theirs |
| FiringSafety.StepKeepsInv | store/automations.py:158-297 | every transaction and crash keeps the protocol's invariant |
| FiringSafety.RerunSentAtMostOnce | holophyte/automation/worker.py:91-134 | over every interleaving at most one rerun is sent per firing key, each while the committed row was leased to that worker |
| FiringSafety.FiringsMoveForward | store/automations.py:253-297 | states only move forward, keys stay, a worker that has a firing is never replaced |
| FiringSafety.OneHoldPerProject | store/automations.py:391-413 | at most one hold per project stands |
| FiringLimits.ReserveCounts | store/automations.py:144-182 | a reservation adds at most its own row to any count, none under a limit |
| FiringLimits.ProjectLimitsHold | store/automations.py:144-182 | never more than three leased reruns, six created in any hour, thirty on any day, whatever the clock does |
| FiringLimits.HostCapHolds | holophyte/automation/step.py:200-231 | with one sweeper no day sees more leases on the host than its cap, even when passes die before saving a count |
| FiringOutcomes.SettledTruly | holophyte/automation/step.py:109-125 | over every interleaving whose read-backs are true, a firing the operator did not answer for is canceled or refused only if GitHub took no rerun of it, and confirmed only if it did, with the attempt it became |
| FiringOutcomes.PassSettlesTruly | holophyte/automation/step.py:128-141 | in every state reached, a pass with a true read-back cancels no firing GitHub took a rerun of and confirms no other |
| FiringDecisions.LeasedExactly | store/automations.py:158-182 | a rerun is leased exactly when its firing is new or proposed and no limit is full, and only then counts; a full limit refuses it, and a firing that stood before is left |
| FiringDecisions.PlacedExactly | holophyte/automation/main_watch.py:146-179 | a hold for this very red is left; otherwise the project's hold ends, one for this red stands and its firing is confirmed unless settled before |
| FiringDecisions.ReleasedExactly | holophyte/automation/main_watch.py:193-235 | the project's holds end and the firing is confirmed, unless that firing was there before |
| FiringPasses.PassExactly | holophyte/automation/step.py:128-141 | an expiry pass deals with exactly the project's leases that ran out, each as GitHub answers for it, leaves every other row and lists in order exactly those it renewed |
| FiringPasses.FoundExactly | holophyte/automation/main_watch.py:118-143 | each run found is dealt with on what those before it left: leased under the limits and counted when the project acts, else proposed once |
| FiringDecisions.TakenExactly | store/automations.py:266-272 | a worker takes its firing exactly when that is leased, untaken and its lease still lasts |
| FiringDecisions.RecheckedExactly | holophyte/automation/worker.py:83-89 | a stop settles the firing canceled, any other refusal refused, and nothing standing lets the worker go on |
| FiringDecisions.SentExactly | holophyte/automation/worker.py:110-134 | a rerun is sent exactly when nothing stands against it and the row is leased to this worker, and GitHub's answer settles that row alone |
| FiringHistories.WholeLife | holophyte/automation/step.py:128-141 | one history that meets every assumption made of them: leased, renewed, taken, sent, and confirmed by the pass that reads the attempt back |
| FiringRenewal.RenewedAtMostOnce | holophyte/automation/step.py:109-141 | with one sweeper and a clock that does not go back a lease is renewed at most once, and a firing two passes dealt with as expired is settled |
| StatusPath.ShortestPath | store/tickets.py:172-182 | over any finite table the search returns a real path of minimal length, and none exactly when the target is unreachable |
| StatusPath.Crosses | store/tickets.py:172-182 | any path to the target passes a waiting status early enough |
| StatusPath.StatusPathOf | store/tickets.py:172-182 | the frontier and seen-set loop computes that search |
| LifecycleTheorems.LeasesAndOutcomes | store/__init__.py:87-151 | in every store reached a lease names an own run that has not ended; `endedAt` and `outcome` are set together and then the phase is the outcome's |
| LifecycleTheorems.AttemptsExact | store/__init__.py:115-138 | a ticket's attempts are exactly 1 to the number of its runs, each once |
| LifecycleTheorems.FinalStaysFinal | store/tickets.py:134-159 | done, killed and rejected runs and merged and abandoned tickets are never left, in any history |
| LifecycleTheorems.EndedStaysFrozen | store/operate.py:34-83 | an ended run keeps phase, outcome and resume point until it is resumed |
| LifecycleTheorems.ResumesWhereItStopped | store/operate.py:61-82 | a run released as failed or abandoned from a work phase resumes into that phase, whatever happened in between |
| LifecycleStranding.NoneAcceptedWhileMerging | store/operator_notes.py:34-87 | while a ticket's leased run is merging no operation whatever leaves an instruction on any run of the ticket |
| LifecycleStranding.PullRequestStrands | store/writes.py:62-68 | `set_pull_request` strands an instruction exactly when it joins an unconsumed one to a merging run's pull request |
| LifecycleStranding.ParkStrands | store/__init__.py:314-345 | a park strands an instruction exactly when it is accepted on a run without the lease and the pull request it writes joins one |
| LifecycleStranding.StepStrandsExactly | store/operator_notes.py:49-115 | from a store with none stranded, an operation strands an instruction exactly when it writes a pull request that joins one |
| LifecycleStranding.HistoryStrandsExactly | store/operator_notes.py:49-115 | along a whole history no instruction is ever stranded exactly when no step of it is such a write |
| LifecycleStranding.NoInstructionStranded | store/operator_notes.py:49-115 | in every store reached without such a write, a leased run that begin_merge let into merging has no instruction pending in its pull-request lineage |
| LifecycleHistories.PullRequestCanStrand | store/writes.py:62-68 | a history after which `set_pull_request` leaves an instruction pending for a merging run |
| LifecycleHistories.ParkCanStrand | store/__init__.py:333-335 | a history after which parking a resumed run without the lease does the same |
| LifecycleHistories.TerminalWithoutEnd | store/__init__.py:180-204 | a history after which a leased run is in a terminal phase and has not ended |
| LifecycleHistories.ResumeOffTheTable | store/operate.py:446-466 | a history after which a resume enters a phase the table does not draw, and gives no lease |
| LifecycleTheorems.NoSteerStranded | store/steer_notes.py:171-306 | a leased run that closed its steering has no steer waiting on its ticket, in every store reached |
| LifecycleReleases.WalkCompletes | store/tickets.py:185-204 | a walk completes exactly when the table has a path, and then changes the status and, of runs, park kinds alone |
| LifecycleReleases.RequeueCompletes | store/operate.py:99-204 | a requeue succeeds exactly when no run is live, the last one failed, was rejected or was aborted, or is parked as a contradiction or not reproduced, it was not relaunched twice unless forced, and the note says something; then every row left is stated |
| LifecycleReleases.RelaunchesStruck | store/operate.py:154-163 | two relaunches count exactly when two requeues of failed or rejected runs follow everything else a person did on the ticket |
| LifecycleReleases.ReleaseParkedCompletes | store/operate.py:214-291 | approve, babysit and send back succeed exactly when admitted with a note; the run is abandoned, resumes at the merge gate and is approved by an approval alone, and every other row left is stated |
| LifecycleOperations.ClaimCompletes | store/__init__.py:87-177 | a claim succeeds exactly when no run holds the ticket, it is as the claimer read it and ready, no cap is reached and it is the project's; the new run holds the lease |
| LifecycleOperations.ParkCompletes | store/__init__.py:314-345 | when a park is accepted, and every row it leaves |
| LifecycleOperations.ReleaseCompletes | store/operate.py:34-83 | when a release is accepted, where the run will resume, and every row it leaves |
| LifecycleOperations.ResumeCompletes | store/operate.py:421-473 | when a resume is accepted, the phase it goes back to, and that no ticket changes |
| LifecycleOperations.AbortCompletes | store/operate.py:381-418 | an abort upgrades the request that stands and never weakens it |
| LifecycleOperations.RepointCompletes | store/operate.py:301-342 | a candidate is re-pointed exactly while the last run waits for approval and was not approved |
| LifecycleOperations.NotesComplete | store/operator_notes.py:49-87 | an instruction is added exactly to a run that waits to resume on its pull request or babysits it |
| LifecycleOperations.BeginMergeCompletes | store/operator_notes.py:66-74 | a run enters merging exactly when no instruction on its pull request is left unread |
| LifecycleOperations.SteerCompletes | store/steer_notes.py:69-121 | a steer is accepted exactly when it reads and someone will take it, with the instruction that carries it when one does, and no other run or ticket changes |
| LifecycleOperations.WithdrawCompletes | store/steer_notes.py:124-156 | a withdrawal succeeds exactly on an idle ticket with a standing amendment, and withdraws all of its amendments and nothing else |
| LifecycleOperations.StepsTaken | store/steer_notes.py:309-315 | each steer a turn took is that turn's unless taken before |
| LifecycleRuns.StepKeeps | store/operate.py:34-473 | what every operation at all keeps of runs, tickets, leases and instructions |
| LifecycleRuns.BeginMergeKeeps | store/operator_notes.py:66-74 | entering merging leaves no instruction pending |
| LifecycleRuns.CloseKeeps | store/steer_notes.py:294-306 | closing leaves no steer waiting |
| LifecycleFacts.ReleaseParkedMoves | store/operate.py:230-291 | releasing a parked run keeps every other run and ticket and strands nothing |
| LifecycleFacts.SteerMoves | store/steer_notes.py:69-121 | no steer newly waits on a ticket whose leased run closed its steering |
| LifecycleStore.Store.WalkTo | store/tickets.py:185-204 | the whole shortest path, or nothing |
| LifecycleStore.Store.CountRelaunches | store/operate.py:154-163 | requeues of failed or rejected runs since a person last did anything else |
| LifecycleStore.Store.RequeueTo | store/operate.py:99-204 | requeue with its rollback |
| LifecycleStore.Store.ReleaseParkedRun | store/operate.py:230-291 | release of a parked run with its rollback |
| LifecycleStore.Store.PendingNotes | store/operator_notes.py:90-115 | exactly the unconsumed instructions of the pull-request lineage, in order |
| LifecycleStore.Store.Consume | store/operator_notes.py:118-126 | one event per consumed instruction, or none at all |
| LifecycleStore.Store.SteerOn | store/steer_notes.py:69-121 | every branch of a steer on a ticket, with the rollback of an unreadable one |
| LifecycleStore.Store.TakeSteers | store/steer_notes.py:309-315 | each steer is consumed once |
| LifecycleStore.Store.WithdrawOn | store/steer_notes.py:124-156 | all standing amendments of an idle ticket, or a refusal |
| Cancel.InheritedIs | store/stories.py:499-505 | the rewired edges are exactly the other edges and, if the canceled one was there, its own |
| Cancel.InheritedDistinct | store/stories.py:499-505 | no rewired edge is listed twice |
| Cancel.InheritedInOrder | store/stories.py:499-505 | each entry stands where it first comes up, the inherited ones in the canceled one's place |
| Cancel.InheritedEdges | store/stories.py:499-505 | the loop that builds them |
| Cancel.CancelKeepsReachability | store/board.py:225-250 | canceling a ticket that does not depend on itself preserves who depends on whom in the end, between all others |
| Cancel.NoneDependsOnCanceled | store/board.py:225-250 | no open ticket depends on the canceled one exactly when it did not depend on itself or nothing open depended on it |
| Cancel.CycleLeavesDependent | store/board.py:225-250 | canceling one ticket of a cycle leaves the other depending on itself, and canceling that one leaves an open ticket depending on it |
| Cancel.ApprovedEdgesStayEqual | store/stories.py:484-496 | an open story's child that depended on just what was approved still does |
| Cancel.ReadyWhenMet | store/board.py:267-274 | a blocked dependent is ready exactly when it was rewired, is specced and all it now depends on has merged |
| Cancel.Project.RewireApprovedEdge | store/stories.py:484-496 | one child's approved edges rewired in place |
| Cancel.Project.Cancel | store/board.py:176-264 | the loop over the rows read before it, each open dependent rewritten once |
| Criteria.NumbersDistinct | store/criteria.py:18-45 | a recording never gives a number twice |
| Criteria.RecordedIsCurrent | store/criteria.py:25-94 | afterwards the current rows start with exactly the given texts in order, open, and every other row is retired |
| Criteria.RecordingAgainAppendsNothing | store/criteria.py:25-51 | recording the same list again appends no row, whatever the log held |
| Recordings.RecordedExactly | store/criteria.py:25-51 | a filed criterion is open in its place with its text and the witness it had there or the one read for it, and every other is retired with the text it had |
| Recordings.NumberedAs | store/criteria.py:18-21 | a criterion keeps the number its text names unless taken, else that of the oldest free row with its text, else one above all others |
| Amendments.AmendmentIs | store/criteria.py:97-133 | an amendment is accepted exactly when each edit is admitted in turn, and then the last edit about a number decides its latest row: text, witness, place and state |
| Criteria.AmendKeepsOthers | store/criteria.py:97-134 | an amendment leaves every criterion it does not name as it was |
| Criteria.WithdrawnAmendmentIsUndone | store/criteria.py:81-134 | withdrawing an amendment takes back exactly what it changed |
| Criteria.Log.Current | store/criteria.py:81-94 | the latest visible row of each criterion, once, in order |
| Criteria.Log.Record | store/criteria.py:25-51 | the recording loops, against the current rows |
| Criteria.Log.Amend | store/criteria.py:97-134 | all of an amendment's edits, or none |
| Closure.Downstream | store/stories.py:232-242 | exactly the children that reach the named one by approved edges |
| Closure.QueuedBehind | store/read.py:848-857 | the count and the set of exactly the waiting tickets that depend on this one in the end |
| Stories.FrontierRefusal | store/stories.py:174-205 | the first refusal in order, the loop over decisions asking each whom it holds back |
| StoryLaws.AdmittedChild | store/stories.py:174-205 | a child is admitted exactly when all it depends on is approved and merged, nothing drifts, and no decision is open about the story or about a child it depends on in the end |
| StoryLaws.RefusedExactly | store/stories.py:174-205 | each refusal is given exactly when its reason stands and none asked before it does, all on the plan's own lists |
| StoryLaws.StepCompletes | store/stories.py:286-535 | when each operation on a story succeeds, and every row it leaves |
| StoryLaws.OverStays | store/stories.py:319-448 | over every history a closed or abandoned story stays so and an answer stands |
| StoryLaws.OpenWasApproved | store/stories.py:286-316 | over every history an open story was last opened by an approval at the revision it had then, and names it |
| Stories.StoryHistories | store/stories.py:68-535 | over every history a parked story has an unanswered decision, a closed or abandoned one has none, and a project has one open story at most |
| Stories.SupersededAnswers | store/stories.py:529-535 | superseding answers all of a story's decisions and no other's |
| Stories.Store.ApproveStory | store/stories.py:286-316 | only a planned story at the named revision, alone open in its project |
| Stories.Store.AnswerDecision | store/stories.py:413-448 | the last answer reopens a parked story |
| CommitRewrite.RewordIs | holophyte/commit_hygiene.py:44-67 | one commit gets its parents mapped in order and the new message, keeps every other line in order less exactly its signatures, and keeps its id and all its lines exactly when neither changed |
| CommitRewrite.RewordAllIs | holophyte/commit_hygiene.py:44-67 | the same of every listed commit after the whole list, parents first |
| CommitRewrite.KeepsIdExactly | holophyte/commit_hygiene.py:44-104 | a commit keeps its id exactly when no message changes in it or in its unpublished ancestors |
| CommitRewrite.TipTreeUnchanged | holophyte/commit_hygiene.py:98-103 | the tip's tree is unchanged, so the refusal is never reached |
| CommitRewrite.SecondRewriteMovesNothing | holophyte/commit_hygiene.py:70-104 | with an idempotent transform a second rewrite leaves every object and the branch as they were |
| CommitRewrite.UnsignedKeeps | holophyte/commit_hygiene.py:57-65 | what a reword keeps of a header is an order-preserving selection: every line but a signature and what goes on from one |
| CommitRewrite.Repository.RewordOne | holophyte/commit_hygiene.py:44-67 | the loops over header lines, and the new object |
| CommitRewrite.Repository.RewriteUnpublished | holophyte/commit_hygiene.py:85-104 | the branch moves to the reworded tip, or nothing changes when no listed message does; it never refuses |
| NotePrivacy.MergedIs | holophyte/note_privacy.py:57-64 | merging sorted spans leaves separated intervals inside the text |
| NotePrivacy.MergedCovers | holophyte/note_privacy.py:57-64 | the intervals cover exactly the positions the spans covered |
| NotePrivacy.SplicedIsPlain | holophyte/note_privacy.py:65-67 | splicing from the right is one forward pass: covered positions go, the others stay in order, one marker stands for each run |
| NotePrivacy.Overlapping | holophyte/note_privacy.py:47-51 | every start at which the pattern matches, once, in order |
| NotePrivacy.Withhold | holophyte/note_privacy.py:54-67 | exactly the positions some pattern's match covers are withheld |
| Fingerprint.KeysAre | store/__init__.py:437-472 | the keys are those of the counted findings, whatever their order and repetition, or an error exactly when a finding lacks a path free of separators, one of the four severities or a positive line or none |
| Fingerprint.CanonicalIsInjective | store/__init__.py:479-484 | equal canonical texts exactly when the key sets are equal, and the empty text exactly for no key |
| Fingerprint.OneListing | store/__init__.py:479-484 | a set of keys has one sorted listing |
| Fingerprint.RecordInjective | store/__init__.py:480-483 | a record is read back because paths hold neither separator |
| Fingerprint.FingerprintsAgree | store/__init__.py:437-484 | with an injective digest two rounds agree exactly when their counted keys are equal, and the empty fingerprint means nothing was counted |
| Fingerprint.FindingKeys | store/__init__.py:437-472 | the loop, stopping at the first malformed finding |
| Fingerprint.FindingsFingerprint | store/__init__.py:479-484 | the digest of the sorted canonical form |
| Cursor.RunPass | holophyte/automation/step.py:234-263 | the projects reached from the cursor on, and where the next pass starts |
| Cursor.NextPassStarts | holophyte/automation/step.py:242-263 | a pass that stops goes on at the project it stopped before, one that does not after the last cut or failure, or one further |
| Cursor.CursorStarts | holophyte/automation/step.py:238-245 | the name a pass stores is found again at the place it was stored for, pass after pass |
| Cursor.EveryProjectReached | holophyte/automation/step.py:234-263 | over a fixed list of n distinct names and from any stored cursor, with every pass reaching a project, each project is reached in every n passes, however they are cut or fail |

## Left out

- HostCapHolds: passes of one sweeper at a time and a fixed cap; the host's stores are one table here, so every store is readable.
- SettledTruly: nobody but a worker reruns the workflow run, so an attempt past the recorded one is a rerun GitHub took; a firing the operator answered for says what was answered.
- DocumentScan: documents laid out as TOML v1.0.0 has them; of other texts SpansInOrder and SpansSwap speak.
- RenewedAtMostOnce: one sweeper and a clock that does not go back; a pass that reads a lease and never deals with it is not counted.
- NoInstructionStranded: over histories with no step that writes a pull request joining an instruction to a merging run's; HistoryStrandsExactly shows that those are exactly the histories that strand none.
- Observe: which failed runs are found, whether the project acts and what policy lets it do are given to it; the attempt of each run is read beforehand.
- HoldRed: whether main is red, the project acts and policy lets it hold are given to it.
- ReleaseHolds: the gates are given to it as one; the runs it sends back to the babysitter, and which it leaves, are not modelled.
- Cancel: the run's abort or the parked run's close, the walk to abandoned, the story's abandonment and the notes on each rewired ticket; the planning graph alone is modelled.
- TransitionTo: the story's generation, raised in the same transaction when a ticket merges.
- FileStory: the checks of witnesses, children and paths are one answer given to it, and the plan's rows are left out.
- ReplanStory: the same checks as one answer, the plan's rows and the recorded revision left out.
- ParkStory: the checks of its texts and of the child it is about are one answer given to it.
- CloseStory: whether the parent's ticket can walk to merged is given to it; unclaimed children are not sent to the backlog here.
- AbandonStory: whether the parent's ticket can walk to abandoned is given to it; unclaimed children are not sent to the backlog here.
- RestoreUndoesRedact: a text edited after redaction; RestoredExactly says what is restored into one, in terms of what its scan finds.
- SecondRewriteMovesNothing: the transforms the program uses are not shown idempotent, since they rest on regular expressions.
- WithdrawnAmendmentIsUndone: withdrawing after a refile; a criterion an amendment dropped and the refile omitted can come back.
- Whether every secret of a parsed document is hidden, and the process-wide redaction of registered values: they depend on the TOML library.
- `tomllib`, regular expressions, SHA-256, git's hash, the Pacific midnight and the witnesses read from a criterion are function-valued parameters, with injectivity or a bound required where it is used.
- Python's recursion limit on deeply nested values, and its sorting of equal keys.
- SQL, schema migration and repair, git and GitHub calls, subprocesses, file locks and agents: a reply or a crash is a choice of the step that waits for it.
- A firing's reason, result and self-pause, an automation's revision (part of its key), and which runs a released merge hold sends back.
- A run's heartbeat, branch, review rounds, outcome reason and failure kind; a ticket's body and priority; story generations, witnesses and proposals.
- The text of a steer or an instruction; whether its criterion edits read is a choice of the step.
- `_message`, `_pattern` and `_patterns`, which are regular expressions, and the fetch between the two listings of unpublished commits, which is two lists given to the method.
- The babysitter, console, scouts, launch backoff, work clock and follow-ups, and report queries.

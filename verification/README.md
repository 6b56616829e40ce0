# Omnigrex: a verified model of its control core

This project models the parts of Omnigrex that decide, rather than transport: the collaboration
conversation between humans and agent participants, the bounded views of CI evidence, the matching of
required CI and the release of a waiting review, the teardown of a Runtime Process and the settlement of
an Agent Turn, additive Git delivery, hidden markers, and the installation token cache.

## How it is built

- `Names`, `Conversation`, `Evidence`, `Steps` hold the conversation's data, its queries and, for every
  operation, the state after it. `Invariants` and `Preservation` prove what every operation keeps;
  `Guarantees`, `Permanence`, `Citations`, `CrossRound` and `Overriding` what follows for every run, and
  `SilentOverride` is a run of its own. `CollaborationState` is the
  aggregate itself: a class with the source's fields, whose methods are loops that change them in place. Its
  `Valid()` says that the fields are the result of a run of operations, so every theorem about runs
  holds of every valid object.
- `LogSearch`, `Utf8`, `Pieces`, `Diagnostics`, `RecordPages` and `EvidencePages` are the pagers. Whether
  a page fits its budget is an arbitrary predicate; the theorems hold for all of them.
- `CIMatching` and `ReviewRelease` match evidence and decide releases; the central theorems characterize
  each release reason on the raw evidence, in both directions.
- `RuntimeCleanup` and `Settlement` make external calls whose answers are arbitrary, and record every
  attempt in a trace; the barriers are theorems about the traces of all runs.
- `GitDelivery`, `Marker` and `TokenCache` are self-contained; `Basics` holds what several modules share.

`dafny verify dfyconfig.toml` checks everything.

## What the code does that its comments do not say

- A scan window without a newline is resumed at an overlap before its end. The comment on line 418 of
  `ci_logs.go` promises that a match reaching past that boundary is found again on the next page; an occurrence
  that straddles the boundary is not, because the next page starts inside it. `LogSearch.LongLineIsLost` is
  such a log, and `LogSearch.SearchPage` states when exactly a page is right.
- The guard against silent last-answer-wins looks at the resolved round and, once that is superseded, at the
  current round if it carries the question. A decision that governs the question from another historical round is
  not consulted: `SilentOverride.ReplacedWithoutRevision` is a run in which it is replaced with evidence that
  revises nothing of it, and `Overriding.ReplaceableExactly` says for every reachable state when that can happen.
  Within a round the guard holds without exception (`Guarantees.NoSilentLastAnswerWins`).
- A parsed marker comment need not be printable again: `assignment=` with nothing behind it parses
  (`Marker.EmptyFieldParses`), and is the only reason (`Marker.ParsedPrintsBack`, with `operation=` alike).

## Model

| member | source | states |
|---|---|---|
| `Permanence.NamesArePermanent` | internal/collaboration/references.go:14-36 | After any later run the i-th input is still named `A<i>` and the i-th round `R<i>`, and looking a name of either kind up gives back the id it was given to. |
| `Names.TargetInvertsName` | internal/collaboration/references.go:14-36 | For each kind, the lookup inverts the naming, also after every later allocation; different ids never share a name. |
| `Permanence.AcceptIsExactlyOnce` | internal/collaboration/model.go:259-276 | After a submission and any further run, submitting again for the same channel and source id, with whatever command, returns the first receipt and changes nothing. |
| `Permanence.AdmissionsAreInputs` | internal/collaboration/model.go:259-355 | In every reachable state the admitting receipts and the inputs correspond one to one and in order; the i-th receipt carries the i-th input's id, source and queued name. |
| `Guarantees.NoSilentLastAnswerWins` | internal/collaboration/model.go:394-496 | In every reachable state, of two consecutive live interpretations of a question in a round, the later cites a response that amends the evidence of, or is assessed as correcting, a response of the earlier; inherited and propagated interpretations included. |
| `Guarantees.InterpretationOrder` | internal/collaboration/model.go:449-481 | In every reachable state equal sequence numbers mean the same interpretation, in whichever rounds; along a question of a round they strictly increase. |
| `Guarantees.GoverningIsUnique` | internal/collaboration/model.go:499-531 | There is at most one most recently recorded interpretation of a question, whatever the order of the rounds. |
| `Guarantees.ResolvedDoesNotBlock` | internal/collaboration/model.go:394-531 | After an accepted interpretation, none of the questions it interprets keeps its participant unresolved, and the interpretation just recorded is the governing one. |
| `Guarantees.RefusedResolveChangesNothing` | internal/collaboration/model.go:394-483 | An interpretation call leaves the state as it was if and only if it is refused or empty. |
| `Overriding.ReplaceableExactly` | internal/collaboration/model.go:394-496 | In every reachable state, for every round, question and decision: some further steps that leave all rounds alone lead to an accepted live interpretation of the question in that round that revises nothing of the decision, if and only if the round is published, asks the question, has interpreted it if it is superseded, and no live decision consulted there (the round's latest or, for a superseded round, that of the current round carrying the question) rests only on responses the decision rests on too. |
| `CrossRound.ShieldedIsRevised` | internal/collaboration/model.go:418-433 | Where such a consulted decision exists, every accepted live interpretation cites a response that revises one of the decision's, whatever state it is accepted in. |
| `CrossRound.GuardedIsRevised` | internal/collaboration/model.go:418-433 | In particular a consulted decision is itself only replaced with evidence that revises it, unless one of the two marks the question obsolete. |
| `Overriding.OverriddenIsReplaced` | internal/collaboration/model.go:394-517 | An accepted interpretation that revises nothing of the governing decision governs in its place, and the earlier decision governs no longer. |
| `SilentOverride.ReplacedWithoutRevision` | internal/collaboration/model.go:394-517 | A concrete run of eleven operations after which a live decision of a historical round governs a question, and an older historical round accepts an interpretation citing another response, which revises nothing of it and governs from then on. |
| `CrossRound.OtherRoundsAreNotConsulted` | internal/collaboration/model.go:418-447 | Whether interpretations are accepted is the same whatever the rounds other than the resolved and the current one decided. |
| `Citations.RunCited` | internal/collaboration/model.go:205-481 | In every reachable state an interpretation, also an inherited or propagated one, cites only inputs of the participant of its round. |
| `Guarantees.NotSupersededIsCurrent` | internal/collaboration/model.go:227-255 | A published round is unsuperseded if and only if it is the current round. |
| `Permanence.RoundsFormOneChain` | internal/collaboration/model.go:160-255 | In every reachable state at most one round is pending; a published round is superseded by another, and named by it as superseded, if and only if that is the next one published after it; the first supersedes nothing, exactly the last is unsuperseded and current, and there is no current round before the first. |
| `Permanence.RevisionsFormOneChain` | internal/collaboration/planning.go:137-248 | In every reachable state at most one planning revision is pending; a published one names another as superseded if and only if that is the last one published before it, the first supersedes nothing, exactly the last is current, and there is no current revision before the first. |
| `Permanence.ReserveReplayChangesNothing` | internal/collaboration/planning.go:137-211 | Replaying a checkpoint reservation after any run, whether it was reserved or refused, gives the same answer and changes nothing while no revision is ready. |
| `Permanence.PrepareFreezesPending` | internal/collaboration/model.go:357-390 | The first preparation of a Turn returns, in admission order, exactly the inputs its participant had pending, and leaves none pending. |
| `Permanence.BatchLosesUnread` | internal/collaboration/model.go:368-390 | Over every run, from any state in which a Turn has been prepared, its batch loses exactly the inputs that were still to be read when a later Turn of their participant was first prepared; the others stay in order, and preparing the Turn again returns them and changes nothing. |
| `Permanence.BatchIsStable` | internal/collaboration/model.go:368-390 | So preparing the Turn again after any steps that do not freeze another Turn's batch returns the same batch. |
| `Permanence.UnassignedExactlyBy` | internal/collaboration/model.go:368-390 | A step leaves a delivered input without a Turn if and only if it prepares, under the empty Turn id, an input of that participant that is still to be read; with proper Turn ids none does. |
| `Permanence.DeliveredWasPrepared` | internal/collaboration/model.go:368-390 | In every reachable state a delivered input belongs to a Turn prepared for its own participant, and no Turn is prepared twice. |
| `Permanence.ValidationIsCurrentWhenRecorded` | internal/collaboration/planning.go:267-322 | A planning validation that is accepted is current in the state that records it. |
| `Permanence.RevocationIsPermanent` | internal/collaboration/planning.go:308-322 | Once a newer input of the participant, a replaced revision or a withdrawn confirmation revokes a recorded validation, no run of steps makes it current again. |
| `Permanence.WithdrawalIsACutoff` | internal/collaboration/assessment.go:80-106 | In every reachable state the withdrawn confirmations are, without duplicates and in admission order, exactly the confirmations of some prefix of the inputs, and they only grow. |
| `Permanence.WithdrawnNeverConfirmsAgain` | internal/collaboration/planning.go:267-304 | No validation recorded after a withdrawal rests on a confirmation it withdrew. |
| `Permanence.ReadinessIsFinal` | internal/store/collaboration.go:320-343 | Readiness is declared for the revision of a validation that holds at that moment, and no later run changes the ready revision. |
| `Evidence.RevisesGrows` | internal/collaboration/model.go:562-621 | Lineage is monotone: whatever amends the evidence of, or corrects, an input still does after more inputs and assessments. |
| `Preservation.ApplyGood` | internal/collaboration/model.go:160-649 | Every operation keeps the invariant of the conversation (unique ids, earlier amendments only, one pending publication, both chains, ordered and justified interpretations, the withdrawal cutoff) and only ever extends its history. |
| `Preservation.RunGood` | internal/collaboration/model.go:160-649 | Every run from a good state keeps the invariant and extends the history. |
| `CollaborationState.State.Request` | internal/collaboration/model.go:160-223 | A request adds one pending round that inherits the settled answers of the current one, or changes nothing; the result is as specified and the state stays reachable. |
| `CollaborationState.State.Publish` | internal/collaboration/model.go:227-255 | Publication links the round behind the current one and makes it current, or is refused without change. |
| `CollaborationState.State.FailPublication` | internal/collaboration/model.go:534-545 | A pending publication is marked failed; anything else is refused or changes nothing. |
| `CollaborationState.State.Accept` | internal/collaboration/model.go:259-355 | Admission answers a known source with its receipt, refuses with the reason the screening gives in its order, or queues the input under the next name. |
| `CollaborationState.State.Prepare` | internal/collaboration/model.go:368-390 | Preparation assigns the awaited inputs to the Turn and returns its batch. |
| `CollaborationState.State.MarkDelivered` | internal/collaboration/model.go:640-649 | Reading coverage clears the delivery-pending mark of the input of that Turn, and of no other. |
| `CollaborationState.State.Project` | internal/collaboration/projection.go:70-97 | An oversize projection marks the Turn's inputs delivery-pending; any other changes nothing. |
| `CollaborationState.State.Assess` | internal/collaboration/assessment.go:53-112 | A batch is recorded as a whole, with every confirmation it withdraws, or not at all. |
| `CollaborationState.State.Resolve` | internal/collaboration/model.go:394-483 | Interpretations are recorded as a whole, numbered in order and propagated to the current round that carries the question, or not at all. |
| `CollaborationState.State.StartPlanning` | internal/collaboration/planning.go:95-107 | Planning starts once, for one original request. |
| `CollaborationState.State.ReserveCheckpoint` | internal/collaboration/planning.go:137-211 | A reservation is replayed, refused with its recorded reason, or adds one pending revision. |
| `CollaborationState.State.ConfirmCheckpoint` | internal/collaboration/planning.go:212-236 | Confirmation publishes the revision and makes it current, or is refused without change. |
| `CollaborationState.State.FailCheckpoint` | internal/collaboration/planning.go:237-248 | A pending revision is marked failed; a published one is left alone. |
| `CollaborationState.State.ValidatePlanning` | internal/collaboration/planning.go:267-304 | A validation is recorded with the inputs considered and the confirmation it rests on, replayed, or refused. |
| `CollaborationState.State.CommitReadiness` | internal/store/collaboration.go:320-343 | The revision of a current validation of the Turn becomes the ready one, once. |
| `CollaborationState.State.EvidenceLineage` | internal/collaboration/model.go:585-609 | Terminates on every state, also with cyclic corrections, and returns exactly the ids reachable over amendments and assessed corrections. |
| `CollaborationState.State.AmendsTransitively` | internal/collaboration/model.go:562-581 | The walk along amendments terminates in every reachable state and finds the prior input if and only if it is a proper ancestor. |
| `CollaborationState.State.IsAmendmentOfEvidence` | internal/collaboration/model.go:610-621 | True if and only if an amending input shares the lineage of the prior one. |
| `CollaborationState.State.ResolutionCurrent` | internal/collaboration/model.go:622-636 | True if and only if all competing delivered evidence was considered. |
| `CollaborationState.State.EffectiveInterpretations` | internal/collaboration/model.go:499-517 | The map built round by round holds exactly the governing interpretation of each question. |
| `CollaborationState.State.IsUnresolved` | internal/collaboration/model.go:499-531 | True if and only if some question blocks the participant: its governing interpretation is out of date, or it is open in the current round. |
| `CollaborationState.State.IsValidationCurrent` | internal/collaboration/planning.go:308-322 | True if and only if the validation's revision is current, its confirmation stands, and nothing newer is pending, blocked or unresolved. |
| `CollaborationState.State.IsAssessmentBlocked` | internal/collaboration/assessment.go:114-125 | True if and only if the latest assessment of some delivered input leaves it unsettled. |
| `CollaborationState.State.ReferenceFor` | internal/collaboration/references.go:14-27 | Returns the name already given, or appends the next one of its kind. |
| `CollaborationState.State.TargetNamed` | internal/collaboration/references.go:29-36 | Finds the id a name of this kind was given to. |
| `LogSearch.SearchPage` | internal/github/ci_logs.go:391-471 | For every log, query, context, offset and budget: the page is refused exactly for an invalid query; it reports a prefix of the remaining matching lines and resumes exactly behind it if and only if the window can be resumed; without a newline in the window it shows the line exactly if its last occurrence there ends by the overlap, where the next page begins; the cursor always advances and stays in the log; at most 20 matches. |
| `LogSearch.FollowingIsAFullScan` | internal/github/ci_logs.go:391-471 | Following the cursors to the end reports every matching line of the log exactly once and in order, in a bounded number of pages. |
| `LogSearch.SearchFrom` | internal/github/ci_logs.go:391-471 | Requesting page after page, each from the cursor of the one before, ends; the pages are right, and so report exactly the matching lines of the log in order, if and only if every offset a page was requested at can be resumed. |
| `LogSearch.ShortLinesAreResumable` | internal/github/ci_logs.go:402-428 | A log none of whose lines is longer than a scan can be resumed at every offset. |
| `LogSearch.UnbrokenPage` | internal/github/ci_logs.go:407-428 | In a window without a newline the page is right if and only if the line has no occurrence behind the overlap and its last one in the window ends before it. |
| `LogSearch.LongLineIsLost` | internal/github/ci_logs.go:407-428 | A concrete log with one long line whose only occurrence lies across the overlap: the full scan finds it, every first page shows nothing and resumes at the overlap, and all pages from there report nothing. |
| `LogSearch.SearchLogText` | internal/github/ci_logs.go:474-511 | The matches are the first 21 matching lines of the window, in order, each with exact line numbers and offsets and all the context asked for. |
| `LogSearch.KeepDecided` | internal/github/ci_logs.go:418-429 | Exactly the matches whose last occurrence ends by the boundary are kept; they are the first ones. |
| `LogSearch.KeptAreDecided` | internal/github/ci_logs.go:418-429 | What is kept of a truncated window are exactly the hits of its complete lines. |
| `LogSearch.Resume` | internal/github/ci_logs.go:430-447 | Resuming at the start of a decided line leaves exactly the hits from that line on. |
| `LogSearch.FitSearchPage` | internal/github/ci_logs.go:568-591 | The page is the longest prefix of the matches that fits, or the first match shrunk; it is never empty, and the resume offset is the next match's line. |
| `LogSearch.ShrinkSearchMatch` | internal/github/ci_logs.go:621-659 | A match with line numbers out of range is returned as it is; otherwise trailing context lines are dropped before leading ones, no more than needed to fit, the query line and exact offsets are kept, and only the match without context may not fit. |
| `LogSearch.LastOccurrenceEnd` | internal/github/ci_logs.go:665-680 | The end of the last occurrence on the match's trimmed line, or -1 when there is none or no such line. |
| `LogSearch.QueryLineByteOffset` | internal/github/ci_logs.go:684-697 | The sum of the lengths of the lines before, or the base for a number out of range. |
| `Diagnostics.ChunkDiagnosticText` | internal/github/ci.go:329-345 | For every text and offset: a rest within the limit is handed out whole, repaired if it is not valid UTF-8, a longer one as its longest valid beginning within the limit; from a character boundary the chunk is the next piece of the text, ends at the last boundary within the limit, and is never empty while content remains. |
| `Diagnostics.PageCheckAnnotations` | internal/github/ci.go:379-416 | Every page has at most 20 chunks, each as long as it may be, at least one while annotations remain, and fits the budget; it fails only when a single chunk does not fit. For messages of valid text the chunks continue them exactly where the position stands, and a page that stops early stops because the next chunk does not fit. |
| `Diagnostics.GetCheckRunDiagnostics` | internal/github/ci.go:222-324 | The request is stale exactly when its offsets are not in the content or nothing is left; otherwise, for messages of valid text, the page shows what comes next in summary, text and annotations, and the cursor behind it. It is too large exactly when an accepted request finds that the next of summary and text together with the next piece of one message do not fit; there is only one such smallest page. |
| `Diagnostics.DiagnosticsAreComplete` | internal/github/ci.go:326-416 | Following the cursors, the chunks add up to the whole summary, the whole text and every annotation's whole message, each annotation in order and an empty one exactly once. |
| `Diagnostics.ReadDiagnostics` | internal/github/ci.go:222-324 | Requesting page after page from the issued cursors ends and gives pages that follow each other to the end, unless at the last cursor even the smallest page is too large; only the first request can be stale, exactly when it is not accepted. |
| `Diagnostics.FollowingEnds` | internal/github/ci.go:222-324 | The number of pages is bounded by what is left to hand out. |
| `Diagnostics.IssuedIsAccepted` | internal/github/ci.go:252-300 | A continuation that was issued is accepted over unchanged content. |
| `Pieces.WalkIsLossless` | internal/github/ci.go:379-416 | Pieces handed out position by position to the end join up to exactly what was left of every text. |
| `Utf8.BoundaryLater` | internal/github/ci.go:349-354 | Character boundaries compose: cutting a valid text at a boundary of the rest leaves both sides valid. |
| `RecordPages.PageRecord` | internal/collaboration/projection.go:110-131 | One page of a record: at most 4096 characters, full unless it is the last, with the next offset or the next index; invalid exactly for an index or offset out of range. |
| `RecordPages.RecordsAreComplete` | internal/collaboration/projection.go:110-131 | Following the pages reads every record completely and in order, each in exactly the rounded-up number of pages. |
| `RecordPages.ReadRecords` | internal/collaboration/projection.go:110-131 | Reading page after page along the offsets and indexes ends and gives all pages, unless it comes to an empty record, which has none. |
| `EvidencePages.PageCIEvidence` | internal/github/ci_evidence_page.go:45-113 | The page shows the largest number of items, from 20 down, that fits; stale exactly behind every collection, too large exactly when not even one item fits. |
| `EvidencePages.InventoryIsComplete` | internal/github/ci_evidence_page.go:78-111 | Over pages of whatever sizes, every collection of the inventory appears exactly once and in order, in no more pages than the longest collection has items. |
| `EvidencePages.TargetsAreComplete` | internal/github/ci_evidence_page.go:94-103 | So do the checks, statuses, failures and required results of each commit. |
| `EvidencePages.PagesAreFollowed` | internal/github/ci_evidence_page.go:78-113 | A page, followed by the pages from its cursor on, is a followed sequence of pages: what the two theorems above assume is what the pages are. |
| `EvidencePages.ReadEvidence` | internal/github/ci_evidence_page.go:45-113 | Requesting page after page ends and gives a followed sequence of pages, unless one item of each collection is too large; stale exactly for an offset behind everything. |
| `CIMatching.MatchRequiredCI` | internal/github/ci_evidence.go:394-481 | For each requirement: the latest check of every matching producer in ascending order, the latest status, the unidentified and unobserved sources, and `missing` only alone. |
| `CIMatching.LatestCheckIsHighest` | internal/github/ci_evidence.go:408-426 | The selected check is one of the producer's, none of which has a higher id; there is one exactly for a producer that reported. |
| `CIMatching.MatchedIsNewest` | internal/github/ci_evidence.go:394-481 | The results block nothing if and only if every newest matching result is final, identified and observed; one is terminal if and only if some producer's newest result is. |
| `CIMatching.MatchedIgnoresOrder` | internal/github/ci_evidence.go:394-481 | The results, and their order, do not depend on the order in which checks, statuses and failures are listed. |
| `ReviewRelease.EvaluateReviewCI` | internal/agentturn/review_admission.go:174-269 | The reason is the specified decision, is never `waiting` at or after the deadline, and the targets hold the matched results of every commit. |
| `ReviewRelease.Select` | internal/agentturn/review_admission.go:206-232 | An explicit selector sees only its own source, and only the failures that concern it. |
| `ReviewRelease.ReleasedExactly` | internal/agentturn/review_admission.go:174-269 | `completed_ci` if and only if policy and target are usable, everything is observed, and for every requirement the newest evidence on every commit is final and some commit has some; in the fallback also after the grace. |
| `ReviewRelease.NoCIExactly` | internal/agentturn/review_admission.go:180-264 | `no_ci_after_grace` if and only if nothing is required, every commit is fully observed and bare, and the grace is over. |
| `ReviewRelease.NewerRunKeepsWaiting` | internal/agentturn/review_admission.go:238-268 | An unfinished newest check on any commit keeps the review waiting until the deadline. |
| `ReviewRelease.NewerStatusKeepsWaiting` | internal/agentturn/review_admission.go:238-268 | So does a newest status that is pending, or one where the requirement names an application that a status cannot show. |
| `ReviewRelease.DecisionIgnoresOrder` | internal/agentturn/review_admission.go:174-269 | The reason is the same however commits, checks, statuses and failures are ordered. |
| `ReviewRelease.NeverWaitsPastDeadline` | internal/agentturn/review_admission.go:265-267 | Corollary about the decision of EvaluateReviewCI: at or after the deadline it is never `waiting`. |
| `ReviewRelease.NeverWaitsAgain` | internal/agentturn/review_admission.go:258-268 | With fixed evidence, time never turns a release back into waiting, and a release by CI keeps its reason. |
| `RuntimeCleanup.RuntimeHandle.Cleanup` | internal/agentturn/runtime.go:621-747 | One Cleanup, whatever the external calls answer: the new state and the faults are as specified, the barriers are kept, without fault everything is released, and if all calls succeed there is no fault. |
| `RuntimeCleanup.RuntimeHandle.CloseMCP` | internal/agentturn/runtime.go:563-584 | The drain is attempted until it ends, resolved or not. |
| `RuntimeCleanup.RuntimeHandle.ObserveOOM` | internal/agentturn/runtime.go:521-547 | The exit is observed until it is conclusive, and an OOM is recorded once. |
| `RuntimeCleanup.RemovalBarrier` | internal/agentturn/runtime.go:652-701 | Over every sequence of calls: a removal is only attempted behind a confirmed stop, an ended drain (or none registered), a sealed capture or the recorded unprompted proof, and the record of an observed OOM; evidence is only gathered behind the stop and the drain. |
| `RuntimeCleanup.ReleaseBarrier` | internal/agentturn/runtime.go:719-746 | Scratch, workspace and engine are released only after removal or proven absence. |
| `RuntimeCleanup.AmbiguousCreationReleasesNothing` | internal/agentturn/runtime.go:703-708 | After an ambiguous creation no run of calls removes or releases anything. |
| `RuntimeCleanup.AmbiguousCreationIsReported` | internal/agentturn/runtime.go:703-708 | Every Cleanup of such a handle reports it. |
| `RuntimeCleanup.SuccessIsNotRepeated` | internal/agentturn/runtime.go:621-747 | A step guarded by a success flag is not attempted again after it succeeded. |
| `RuntimeCleanup.CleanupCompletes` | internal/agentturn/runtime.go:621-747 | A Cleanup without fault has released everything; from any state, one whose external calls all succeed has no fault. |
| `RuntimeCleanup.ReleasedIsFinal` | internal/agentturn/runtime.go:621-747 | After that Cleanup makes no external call, changes nothing and reports nothing. |
| `RuntimeCleanup.RunGood` | internal/agentturn/runtime.go:521-747 | In every run the handle's flags are exactly what its calls achieved, and every call was allowed where it was made. |
| `Settlement.Finalizer.Finalize` | internal/agentturn/execution_worker.go:497-659 | For every script of answers: the barriers are kept, calls are bounded, a turn is only released by completion, recovery or an attempted settlement, it is left alone only for a lost lease, an unclosed admission or a failed drain, a corroboration checkpoint is attempted exactly when it is due and before any settlement, recovery begins only behind closed admission and only its own retries follow it, and the turn is settled when all answers are good. |
| `Settlement.Finalizer.DrainRuntime` | internal/agentturn/execution_worker.go:776-796 | Only drain calls; resolved, unresolved or failed as the last one says. |
| `Settlement.Finalizer.WaitForRecoverableMutations` | internal/agentturn/execution_worker.go:833-862 | Returns nothing unsettled only after an empty listing or a repair, and otherwise only recoverable mutations. |
| `Settlement.Finalizer.RepairResidualMutations` | internal/agentturn/execution_worker.go:864-890 | Fails exactly the reserved and gives up exactly the in-flight mutations, in order; without error what is left is exactly what is recoverable. |
| `Settlement.RepairedAreRecoverable` | internal/agentturn/execution_worker.go:864-890 | A repair leaves only unknown or reconciling mutations, and loses none that was started. |
| `Settlement.Finalizer.RetryBounded` | internal/agentturn/execution_worker.go:817-831 | At most three attempts, only the last of which may succeed. |
| `Settlement.Finalizer.CleanupWithRetry` | internal/agentturn/execution_worker.go:754-774 | At most two cleanups. |
| `Settlement.SettlementBarrier` | internal/agentturn/execution_worker.go:497-642 | Before any attempt to settle, in this order: admission closed, drain resolved, an empty last listing of unsettled mutations, a successful cleanup, a successful reconciliation; and no recovery. |
| `Settlement.CompletedIsNotRecovered` | internal/agentturn/execution_worker.go:615-653 | A run whose settlement or corroboration checkpoint succeeds ends there, is released, and never also begins recovery. |
| `Settlement.RecoveryIsLast` | internal/agentturn/execution_worker.go:540-547 | Corollary of the barriers of Finalize: recovery begins only once admission is closed, and nothing of an earlier phase follows it. |
| `GitDelivery.ComputeDelta` | internal/gitdelivery/delivery.go:65-189 | The archive is refused exactly when it is unsafe; otherwise the delta is additive, without repetition, parents first, exact, minimal and owned like `.git`. |
| `GitDelivery.ReadArchive` | internal/gitdelivery/delivery.go:72-152 | Accepts an archive exactly when each entry is acceptable and no path below `.git` repeats; remembers what it saw and which files match. |
| `GitDelivery.DeliveredTree` | internal/gitdelivery/delivery.go:164-188 | Applying the delta leaves every existing entry unchanged, yields the three snapshot files with exact contents, and every new entry has a directory as parent. |
| `GitDelivery.DeliveredOnce` | internal/gitdelivery/delivery.go:65-189 | The workspace after delivery, listed in any order, is safe again, and its delta is empty. |
| `GitDelivery.FilesApart` | internal/gitdelivery/delivery.go:39-52 | The snapshot's three paths differ, and none is an ancestor of another. |
| `Marker.RenderMarker` | internal/github/marker.go:28-47 | Renders exactly the valid markers, in the printed form. |
| `Marker.InspectMarkers` | internal/github/marker.go:58-91 | The scan terminates and finds what the comment-by-comment specification finds. |
| `Marker.EnsureMarker` | internal/github/marker.go:93-117 | Refuses an invalid marker and an untrusted text; keeps a text that has the marker; otherwise appends it after an empty line. |
| `Marker.InspectRendered` | internal/github/marker.go:28-91 | Inspecting a printed valid marker finds exactly that marker and trusts the text. |
| `Marker.InspectAppend` | internal/github/marker.go:58-91 | Texts put together at a line break are inspected one after the other, if the first is trusted. |
| `Marker.EnsureAdds` | internal/github/marker.go:93-117 | A trusted text keeps its markers, gains the one it lacked, and stays trusted. |
| `Marker.EnsureIsIdempotent` | internal/github/marker.go:93-117 | Ensuring twice is ensuring once. |
| `Marker.ParsedPrintsBack` | internal/github/marker.go:119-149 | A parsed comment is the printed form of its marker if and only if it has no empty `assignment=` or `operation=` field. |
| `Marker.EmptyFieldParses` | internal/github/marker.go:119-149 | For every valid workflow token the comment with an empty `assignment=` parses, to the marker without assignment: such comments exist for each workflow. |
| `Marker.InspectedAreValid` | internal/github/marker.go:145-148 | Every marker found is valid. |
| `TokenCache.InstallationTokenCache.FindOrJoin` | internal/github/token_cache.go:67-78 | The critical section of a call: a cached token with more than the refresh window left, the flight in the map, or a new one. |
| `TokenCache.InstallationTokenCache.Finish` | internal/github/token_cache.go:100-108 | The critical section of a refresh: publishes the result, takes the flight out of the map and wakes its waiters. |
| `TokenCache.SingleFlight` | internal/github/token_cache.go:72-77 | In every interleaving there is at most one unfinished flight, and so one outstanding token request, per installation. |
| `TokenCache.InMapWhileUnfinished` | internal/github/token_cache.go:72-107 | A flight is in the map exactly while it is unfinished. |
| `TokenCache.ReturnedRightly` | internal/github/token_cache.go:59-86 | A caller returns a cached token that was fresh at the locked read, the result of the finished flight of its own installation, or a refusal for cause. |
| `TokenCache.WaiterGetsItsFlight` | internal/github/token_cache.go:80-86 | A caller that waits for a flight is, after any further steps, still waiting for it, has returned the result of that very flight, or was refused because it was cancelled. |
| `TokenCache.CachedIsNewest` | internal/github/token_cache.go:100-104 | The cache holds exactly the token of the latest successful flight of each installation. |
| `TokenCache.WaiterIsNotForgotten` | internal/github/token_cache.go:80-85 | Whoever waits can return, or its flight has a step to take. |
| `TokenCache.FlightsAdvance` | internal/github/token_cache.go:88-109 | Every flight only moves towards its end, and a finished one keeps its result. |

## Left out

- Identifiers of rounds, inputs, operations, participants, Turns and revisions are opaque numbers with 0 for the empty string; only short references are texts.
- Interpretation sequence numbers and sizes are unbounded; wrap-around of the 64-bit counter is not modelled.
- A Turn without an id: theorems about batches assume the Turn has one, as its callers do.
- `Resolve` in the source clears and refills the caller's own slice of considered responses even when it then refuses; the model works on values and does not capture that aliasing.
- Whether a projection is oversize is a parameter of `Project`; its JSON, its instruction text and the collections it lists are not modelled.
- Conversation artifacts, introductions, the waiting flag, non-publications recorded by store recovery, and lease fencing belong to the store; of its steps only the commitment of readiness is modelled.
- LogSearch.SearchPage: the excerpt text of a match, its truncation mark and the download itself are not modelled; the log is taken to be valid UTF-8, so the replacement of characters cut by a window is not modelled either.
- Diagnostics.GetCheckRunDiagnostics: what a page shows is only stated for messages of valid UTF-8, as decoded JSON is; the fingerprint and the identity fields of a cursor are represented by unchanged content.
- EvidencePages.PageCIEvidence: cursors are represented by their offset over unchanged evidence.
- The last serialized-size check of each page is not modelled: the probe it repeats already reserves room for the largest cursor.
- ReviewRelease.EvaluateReviewCI: request identity, generation, observation times and the compaction of the stored context are not modelled; times are integers.
- RuntimeCleanup.RuntimeHandle.Cleanup: calls on one handle are taken one after the other; a `CloseMCP` running during a `Cleanup` is not modelled, nor are timeouts, error texts and the redaction of secrets.
- Settlement.Finalizer.Finalize: what is reconciled and settled, telemetry and the text of errors are not modelled; a lease that ends is one that ends during some call.
- The publication-conflict path and the workers' loops around `finalize` are not modelled.
- GitDelivery.ComputeDelta: limits on the archive's size and number of entries, the verification of the pack and index checksums, and the syntax of `.git/config` and packed references are abstract; hashes are replaced by equality of contents.
- TokenCache: the refresh timeout is one of the ways a request fails; JWT creation is a step with two outcomes.
- HTTP, GraphQL, PostgreSQL, containers, Git commands, configuration, the CLI, label and Markdown rendering are not part of this model.

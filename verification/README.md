# PaperPilot: verified models

This project models the parts of PaperPilot whose correctness depends on the order in which things
happen, or on one piece of text being read exactly as another printed it, and proves what they
promise. `dafny verify dfyconfig.toml` checks all of it.

| modules | what they model |
|---|---|
| `Attachments`, `QuietRotation`, `Register`, `RegisterRuns`, `RegisterChain`, `RegisterShown`, `RegisterFairness`, `RegisterStarvation` | the paged attachment register under concurrent reloads, load-more, quiet polls, forced refreshes, imports and filter changes |
| `PollScheduler` | its visibility-aware poll timer |
| `CrawlerClient`, `CrawlerRetry`, `CrawlerGuarantees`, `CrawlerProvenance` | exact retry of crawler queueing and custody deletion against a server with one receipt per operation |
| `WebMcpApproval`, `WebMcpRuns` | two-phase approval of agent proposals |
| `Decimal`, `JsonText`, `JsonShortest`, `CanonicalJson` | the canonical JSON printer and a parser for it |
| `Paragraphs`, `ExtractionProtocol`, `ReaderPages` | the validator of extraction results and the Reader's page grouping |
| `FileTransfer`, `LeaseStore`, `LeaseWorker`, `LeaseOutcomes` | the extraction worker: hashing, streaming, leases and heartbeats |
| `Utf16`, `Utf8`, `FileNames` | UTF-16 well-formedness, UTF-8 lengths, and the file names of form and parser |
| `MentorResponse`, `MentorNote`, `MentorContract`, `MentorRuns` | freezing, reading, staging and saving on the mentor page, and the checks on what is staged |
| `DemoWorkspace`, `DemoInvariant`, `DemoSeed`, `DemoRuns`, `DemoPapers`, `DemoFacts`, `DemoEffects` | the browser demo's workspace aggregate |
| `FormUrl`, `AuthLinks` | invitation links |

## How the models are built

An `async` function is cut at each `await`. Each piece is a step function on the state it reads and
writes, with the locals it captured as a separate value; a class holds the source's own fields and
its methods carry the pieces out in place, each proved equal to its step function. A run is any
sequence of enabled steps; answers arrive in any order, or never. React state updates are atomic, and
`disabled` buttons and early returns are the conditions under which a step is enabled. An invariant
is proved of every step and so of every run, and the guarantees follow from it.

Where the code does not meet a property in general, the property is given with the exact condition
under which it holds, and usually a concrete run or value that shows it failing:

- an import acknowledged during a reload leaves the register "ready" and empty (`RegisterChain.EmptyReadyArisesExactly`), and one that fails then leaves it loading with nothing pending (`RegisterChain.StuckExactly`);
- an import acknowledged over an error hides the cursor of a list that goes on, until the next answer (`RegisterShown.CursorShownExactly`);
- forced refreshes advance the rotation they do not use, so alternating them starves pages (`QuietRotation.MixedScheduleVisits`, `RegisterStarvation.AlternatingFailuresStarve`);
- a crawler request frozen while a deletion is in flight is preserved but offered nowhere; the form's busy flag prevents this until the user leaves the sources view and comes back (`CrawlerGuarantees.StrandedArisesExactly`, `MountedCardIsBusy`);
- a crawler command that was refused and forgotten can still take effect through a delayed copy (`CrawlerGuarantees.LeftBehindAppliesExactly`);
- discarding a review is safe only because of the button's guard (`WebMcpRuns.DiscardIsSafeExactly`);
- chunk pages are bounded by the configured limit, not by the result's page count (`ReaderPages.PagesWithinCountExactly`);
- the parser accepts a file name with leading white space that the form refuses (`FileNames.FormAgreesWithParser`);
- a frozen source is bound to its PDF only if no other PDF loads meanwhile (`MentorRuns.FreezeBindsExactly`), and a staged explanation agrees with the source only if that did not change before the commit (`MentorRuns.CommitIsCoherentExactly`);
- a staged proposal can be replaced exactly while an earlier stage call waits for its digest (`MentorRuns.ProposalIsReplaceableExactly`);
- an external address can be stored longer than its limit (`MentorResponse.RevalidatesExactly`).

Demo commands look at the rendered workspace and change the current one. Runs apply each to the latest
rendering, as the views' own guards see to (src/components/notes-view.tsx:252-271); what a command decided
on an older rendering would do is stated beside them (`DemoRuns.StaleFilingExactly`, `StaleImportExactly`,
`StaleListingExactly`, `DemoFacts.StaleProjectLosesEveryCommand`).

A paper that a collection lists stays showable as long as search results are named after their records.
The demo's are: the gateway makes the paper's identifier from the record's
(src/lib/integrations/openalex-adapter.ts:735-740), and the bundled results use it as the record's
(src/components/discover-view.tsx:45-50); so `DemoPapers.EveryCollectedPaperResolves` holds of every run.

The tool description of the mentor page calls a staged proposal immutable
(public/webmcp/paperpilot.js:628); the code lets a second call replace it,
exactly if that call was validated before the first was committed
(`MentorRuns.ProposalIsReplaceableExactly`, `ReplacedProposalRun`), and the model follows the code.

Assumptions are parameters or stated preconditions, never axioms: Unicode tables and normalisation,
SHA-256 as a function (with injectivity only at the two values where a lemma says so), the URL parser
on paths of unreserved characters, the provider's cursors in `RegisterChain.ProviderFresh`, and a server
that keeps one receipt per operation and compares versions as README.md:396-406 describes.

## Model

| member | source | states |
|---|---|---|
| `Attachments.FlattenPages` | src/components/zotero-attachment-register.tsx:260-267 | The two nested loops with their set of seen identities compute `Flatten`, whose meaning the next two rows give |
| `Attachments.FirstOccurrencesArePositions` | src/components/zotero-attachment-register.tsx:260-267 | The flattened list is the subsequence standing at the positions where an identity occurs for the first time, in order |
| `Attachments.FlattenHasEachIdOnce` | src/components/zotero-attachment-register.tsx:260-267 | The flattened list has no identity twice and loses none of those on the pages |
| `Attachments.MapCommutesWithFlatten` | src/components/zotero-attachment-register.tsx:621-633 | An update that keeps identities may be applied to list and pages separately: flattening the updated pages gives the updated list |
| `Attachments.Acknowledge` | src/components/zotero-attachment-register.tsx:623-632 | The update an import acknowledgement makes keeps every identity |
| `QuietRotation.PassIsBounded` | src/components/zotero-attachment-register.tsx:365-380 | A quiet pass asks for at most five pages, all different, page 0 among them and the rest active |
| `QuietRotation.SelectedIsWindow` | src/components/zotero-attachment-register.tsx:365-372 | An active page is chosen exactly when it lies in the window of four that starts at the offset, counted modulo the number of active pages |
| `QuietRotation.PassVisits` | src/components/zotero-attachment-register.tsx:365-380 | For any starting offset and pass number, a closed form of which passes visit which page |
| `QuietRotation.EveryActivePageIsVisited` | src/components/zotero-attachment-register.tsx:365-380 | Fairness: with the active set fixed, every active page is visited within any ceil(n/4) consecutive unforced passes |
| `QuietRotation.MixedScheduleVisits` | src/components/zotero-attachment-register.tsx:373-380 | With forced refreshes mixed in, which advance the offset without using their window: exactly when a schedule visits a page |
| `QuietRotation.AlternatingForcedPassesStarve` | src/components/zotero-attachment-register.tsx:373-380 | A schedule that breaks fairness: if every other pass is forced and eight pages are active, one of them is never visited |
| `Register.QuietTargetsAreBounded` | src/components/zotero-attachment-register.tsx:350-380 | The pages a pass asks for exist, are different and are at most five; page 0 is one unless a single page is forced |
| `Register.Register.BeginLoad` | src/components/zotero-attachment-register.tsx:434-445 | A reload or load-more up to its await: the new fields and the captured locals are those of the step function |
| `Register.Register.FinishLoad` | src/components/zotero-attachment-register.tsx:454-481 | The rest of a load after its answer, including the stale answer that is dropped and the failure that keeps the list |
| `Register.Register.BeginQuiet` | src/components/zotero-attachment-register.tsx:343-385 | A quiet or forced pass up to its first await |
| `Register.Register.FinishQuiet` | src/components/zotero-attachment-register.tsx:392-430 | One quiet answer: the fences, the cursor test, the page replaced, later pages cut off when the cursor changed, and the next page of the pass |
| `Register.Register.AcknowledgeImport` | src/components/zotero-attachment-register.tsx:620-633 | The acknowledgement bumps the counter and updates list and pages |
| `RegisterRuns.StepKeepsInv` | src/components/zotero-attachment-register.tsx:335-482 | Every step of every handler, in any order, keeps the invariant that ties pages, list, counters and pending handlers together |
| `RegisterRuns.EveryRunIsSound` | src/components/zotero-attachment-register.tsx:335-482 | In every state of every interleaving: the shown list is the flattening of the loaded pages, no two pages share an `after`, and all pages were fetched under the current filter |
| `RegisterChain.EveryFreshRunIsGapless` | src/components/zotero-attachment-register.tsx:397-416 | If the provider never returns a cursor already in use, the pages are at all times a gap-free cursor chain from the first page on |
| `RegisterChain.AppendKeepsChainExactly` | src/components/zotero-attachment-register.tsx:460-462 | Without that proviso: appending keeps the chain exactly when no page before the last has the repeated cursor as its `after` |
| `RegisterChain.StepKeepsChainExactly` | src/components/zotero-attachment-register.tsx:335-482 | Over all steps: a chain of pages is broken exactly by a load-more that counts, answered under a cursor that a page before the last already has; no other step breaks it |
| `RegisterChain.CountersDecide` | src/components/zotero-attachment-register.tsx:392-398 | In reachable states the two request counters alone decide whether a quiet answer counts: the manual-load and cursor tests after them never reject what they let through |
| `RegisterChain.EmptyReadyArisesExactly` | src/components/zotero-attachment-register.tsx:620-627 | The register shows "ready" without holding any page exactly when an import is acknowledged while no page is loaded |
| `RegisterChain.OvertakenReloadIsDropped` | src/components/zotero-attachment-register.tsx:454-454 | A reload overtaken by an acknowledgement has its answer dropped, whatever it holds |
| `RegisterChain.OvertakenReloadRun` | src/components/zotero-attachment-register.tsx:601-633 | A concrete run that ends empty and "ready", with nothing pending |
| `RegisterChain.StuckChangesExactly` | src/components/zotero-attachment-register.tsx:642-656 | The register gets stuck, loading with no pending answer that counts, exactly when an import fails while it is loading, and unstuck exactly by a changed filter or authority |
| `RegisterChain.StuckExactly` | src/components/zotero-attachment-register.tsx:438-445 | Over whole runs: it is stuck exactly if the first page has not been asked for since the beginning, or since an import failed while it was loading; the Refresh button is disabled meanwhile |
| `RegisterChain.StuckRun` | src/components/zotero-attachment-register.tsx:642-650 | A concrete run that ends so with nothing pending: the libraries change while an import is being submitted, the import fails, and the reload's answer is dropped, whatever it is |
| `RegisterShown.CursorChangesExactly` | src/components/zotero-attachment-register.tsx:463-468 | The cursor of the last page, from which the list is continued, is lost from the display exactly by an acknowledgement over an error, and found again exactly by a list begun afresh or an answer that counts |
| `RegisterShown.CursorShownExactly` | src/components/zotero-attachment-register.tsx:623-629 | Over whole runs: a register that is ready and holds pages shows the cursor of the last one, exactly unless it was lost so and not found again |
| `RegisterShown.AnswerOffersMoreExactly` | src/components/zotero-attachment-register.tsx:456-468 | After a load that counts, more can be loaded exactly if the provider gave a cursor that is not empty, and is loaded from that cursor |
| `RegisterShown.QuietAnswerOffersMoreExactly` | src/components/zotero-attachment-register.tsx:397-416 | After a quiet answer that counts, its page shows what was answered, and more can be loaded exactly if the page that is then the last has such a cursor |
| `RegisterShown.LostCursorRun` | src/components/zotero-attachment-register.tsx:623-629 | A concrete run that loses it: a quiet refresh fails while an import is being submitted, which is then acknowledged |
| `RegisterShown.AcknowledgementUpdatesExactly` | src/components/zotero-attachment-register.tsx:623-638 | After an acknowledgement exactly the records of that identity, in the list and on every page, show the new import; all else about records and pages is as before |
| `RegisterShown.AcknowledgedIsActiveExactly` | src/components/zotero-attachment-register.tsx:499-503 | An acknowledged import keeps the register polling exactly if it is of this very file and not at an end |
| `RegisterShown.CancelledPassesAreDropped` | src/components/zotero-attachment-register.tsx:560-566 | A cancelled poll takes every quiet pass under way out of account, whatever its answer |
| `RegisterShown.ImportIsReleasedExactly` | src/components/zotero-attachment-register.tsx:642-654 | The button of a failed import is released exactly when the pass it waits for has ended |
| `RegisterFairness.CompletedPassRefreshes` | src/components/zotero-attachment-register.tsx:382-416 | In any run, a pass that completes has itself, between its start and its last answer, fetched and replaced the first page and every page of its window, whatever happens in between |
| `RegisterFairness.OffsetOfPass` | src/components/zotero-attachment-register.tsx:350-380 | In any stretch without reloads and failed imports, the offset a pass finds is that of the closed rotation after as many passes |
| `RegisterFairness.EveryActivePageIsRefreshed` | src/components/zotero-attachment-register.tsx:335-482 | Fairness of the register: while the active pages stay the same, for every one of them one of ceil(n/4) completed passes has fetched it anew |
| `RegisterFairness.RotationStartsOver` | src/components/zotero-attachment-register.tsx:438-441 | After a list was begun afresh the rotation starts over: pass p visits the p-th window of four, whatever went before |
| `RegisterStarvation.UnaskedIsNotRefreshed` | src/components/zotero-attachment-register.tsx:350-416 | In any run, a page that no starting pass asks for is never refreshed |
| `RegisterStarvation.AlternatingFailuresStarve` | src/components/zotero-attachment-register.tsx:642-650 | Starvation of the register: while polls and failed imports take turns on eight active pages, the page four places on from the first window is never refreshed |
| `RegisterStarvation.StarvingRun` | src/components/zotero-attachment-register.tsx:642-650 | Such runs exist for any number of passes, all of them answered and completed |
| `PollScheduler.Poller.Arm` | src/components/zotero-attachment-register.tsx:516-524 | Arming: nothing when cancelled or hidden, a resume mark during a flight, else the one timer of this epoch |
| `PollScheduler.Poller.OnTimer` | src/components/zotero-attachment-register.tsx:524-528 | The timer callback up to the refresh it starts |
| `PollScheduler.Poller.OnFlightEnd` | src/components/zotero-attachment-register.tsx:528-540 | The end of a refresh: back off and rearm, or resume after a visibility change |
| `PollScheduler.Poller.OnVisibilityChange` | src/components/zotero-attachment-register.tsx:543-557 | The visibility handler, which may run later than the change it handles |
| `PollScheduler.Poller.Dispose` | src/components/zotero-attachment-register.tsx:560-566 | Cleanup of the effect |
| `PollScheduler.EveryRunKeepsInv` | src/components/zotero-attachment-register.tsx:505-567 | For every sequence of hide, show, fire, finish, handle and cleanup events: timers carry the current epoch, a timer excludes a flight, no wakeup is lost, delays stay in range |
| `PollScheduler.FlightsDoNotOverlap` | src/components/zotero-attachment-register.tsx:524-541 | A timer that starts a refresh never finds one in progress |
| `PollScheduler.NextRefreshIsReached` | src/components/zotero-attachment-register.tsx:516-557 | A live poller on a visible page always reaches its next refresh by finishing and firing |
| `PollScheduler.CleanupIsFinal` | src/components/zotero-attachment-register.tsx:560-566 | After cleanup no event arms or starts anything |
| `PollScheduler.BackOffDoubles` | src/components/zotero-attachment-register.tsx:514-539 | The delay after n undisturbed refreshes in closed form: doubled n times and capped at 60 seconds |
| `PollScheduler.FirstRefreshIsDue` | src/components/zotero-attachment-register.tsx:512-559 | The first refresh is due after five seconds and the stagger, unless the page is hidden |
| `PollScheduler.HiddenStartsNothing` | src/components/zotero-attachment-register.tsx:516-533 | While the page is hidden no timer starts a refresh, and one that ends arms nothing and leaves the delay |
| `PollScheduler.ShownIsDueSoon` | src/components/zotero-attachment-register.tsx:543-557 | When the page is shown again the back-off starts over and a refresh is due after half a second and the stagger, from now or from the end of the one in progress |
| `CrawlerClient.Crawler.SubmitFrozen` | src/components/live-paper-pilot-app.tsx:3144-3152 | A frozen command goes out only when none is in flight |
| `CrawlerClient.Crawler.OnQueue` | src/components/live-paper-pilot-app.tsx:3308-3371 | A queue click resends the preserved command of its ID, refuses while another is preserved, or freezes and sends a new one |
| `CrawlerClient.Crawler.OnRetry` | src/components/live-paper-pilot-app.tsx:3373-3386 | The retry sends the preserved command, or drops an offer that has nothing behind it |
| `CrawlerClient.Crawler.OnDelete` | src/components/live-paper-pilot-app.tsx:2953-3060 | A deletion click reuses the preserved command of its target whatever ID it brings, and sends at most one |
| `CrawlerClient.Crawler.RowsAccept` | src/components/live-paper-pilot-app.tsx:3232-3247 | The loop over the displayed ledger lets a queued row in exactly when the displayed rows identify their requests and none contradicts the new one |
| `CrawlerClient.Crawler.OnReply` | src/components/live-paper-pilot-app.tsx:3217-3286 | An answer is resolved if it is a definitive refusal, or if the operation, outcome, version and returned row fit the command and the displayed ledger; else it counts as unknown |
| `CrawlerClient.Crawler.OnUnknown` | src/components/live-paper-pilot-app.tsx:3287-3305 | A lost or unacceptable answer keeps the command and offers the retry |
| `CrawlerClient.Crawler.OnLedger` | src/components/live-paper-pilot-app.tsx:970-994 | The reconciliation loop over the preserved deletions |
| `CrawlerRetry.StepKeepsInv` | src/components/live-paper-pilot-app.tsx:3144-3386 | Every step of browser, network and server keeps the invariant |
| `CrawlerGuarantees.EveryRunIsExact` | src/components/live-paper-pilot-app.tsx:3144-3386 | In every run: at most one command of each kind is unresolved, every POST under an operation ID carries the identical body, and each operation takes effect at most once, with that body |
| `CrawlerProvenance.EveryPostWasEntered` | src/components/live-paper-pilot-app.tsx:3331-3357 | In every run each POST is what the user entered in an earlier click: address, file name, policy and limit of a queue request, target of a deletion, each under that click's operation ID and the version shown then |
| `CrawlerProvenance.EveryEffectWasEntered` | src/components/live-paper-pilot-app.tsx:3331-3357 | So is every command that took effect, and the ledger row of a request repeats what was entered |
| `CrawlerProvenance.EveryPreservedWasEntered` | src/components/live-paper-pilot-app.tsx:3348-3366 | So is whatever the browser preserves, in memory and in its storage |
| `CrawlerProvenance.SuccessIsBelievedExactly` | src/components/live-paper-pilot-app.tsx:3217-3247 | A success, honest or not, settles its command exactly if its version follows, its row repeats the request and no row on display contradicts it; else the command stays preserved and nothing of the reply is shown |
| `CrawlerGuarantees.HonestRepliesResolve` | src/components/live-paper-pilot-app.tsx:3200-3277 | An answer of a one-receipt-per-key server always passes the browser's tests, that against the displayed ledger included, and resolves its command; a success means the command took effect |
| `CrawlerGuarantees.SuccessIsShown` | src/components/live-paper-pilot-app.tsx:3249-3277 | A success moves the browser to the version it reports unless it has seen a later one, shows a queued request first and keeps all other rows, and takes a deleted one off those that can be deleted |
| `CrawlerGuarantees.ForgottenOnlyWhenSettled` | src/components/live-paper-pilot-app.tsx:3267-3277 | A preserved command disappears only on an answer to it, a ledger row showing its deletion, a reload with recovery storage denied, or sign-out |
| `CrawlerGuarantees.ReconciledDeletionIsReal` | src/components/live-paper-pilot-app.tsx:970-989 | A deletion dropped by reconciliation really has been accepted by the server |
| `CrawlerGuarantees.ReloadRestores` | src/components/live-paper-pilot-app.tsx:1025-1059 | While storage refuses nothing, a reload restores exactly the preserved commands and offers the retry |
| `CrawlerGuarantees.ReloadHidesLedger` | src/components/live-paper-pilot-app.tsx:1025-1059 | After a reload no row is shown and nothing can be deleted until the ledger is read again |
| `CrawlerGuarantees.DeletionResendIsExact` | src/components/live-paper-pilot-app.tsx:2953-3060 | While a deletion is preserved every click that sends, sends that very command, whatever operation ID the page supplies |
| `CrawlerGuarantees.RetryResolves` | src/components/live-paper-pilot-app.tsx:3373-3386 | Retrying, being handled and hearing the answer resolves a pending request |
| `CrawlerGuarantees.ConflictIsFinal` | README.md:398-406 | Once a version conflict has been answered, no delayed copy of that command can ever take effect |
| `CrawlerGuarantees.RefusalLeavesBehind` | src/components/sources-view.tsx:1168-1171 | A refusal leaves its command nowhere on the page or in its storage; it has had no effect, or another copy was applied before the answer came and that effect stays |
| `CrawlerGuarantees.LeftBehindAppliesExactly` | src/components/sources-view.tsx:1168-1171 | Contrary to the remark there, such a command can still take effect: in some run exactly when an unhandled copy of it remains, the version still matches and, for a deletion, its target is not gone |
| `CrawlerGuarantees.SpentForGood` | src/components/sources-view.tsx:1168-1171 | Once that is not so, it never takes effect in any run |
| `CrawlerGuarantees.LateCopyRun` | src/components/live-paper-pilot-app.tsx:3373-3386 | A concrete run: a lost reply, a retry that is denied and forgotten, and then the delayed first copy is applied |
| `CrawlerGuarantees.StrandedArisesExactly` | src/components/live-paper-pilot-app.tsx:3313-3370 | A request ends up preserved but neither in flight nor offered for retry exactly when it is newly frozen while a deletion is in flight, which a card that is not busy lets happen |
| `CrawlerGuarantees.MountedCardIsBusy` | src/components/sources-view.tsx:1032-1070 | While the sources card stays mounted its busy flag covers every flight, and no request is stranded |
| `CrawlerGuarantees.StrandedBlocksEveryClick` | src/components/live-paper-pilot-app.tsx:3313-3318 | From there no retry is offered, no deletion click sends anything, and a queue click sends exactly if it brings the stranded operation ID, which the form has forgotten (src/components/sources-view.tsx:1074-1107) |
| `CrawlerGuarantees.StrandedRun` | src/components/live-paper-pilot-app.tsx:4076-4086 | A concrete run that leads there: the user leaves the sources view during a deletion, which unmounts its card, comes back, and queues a request |
| `WebMcpApproval.KeyIsInjective` | src/components/live-paper-pilot-app.tsx:251-261 | On NUL-free identifiers equal selection keys mean equal selections |
| `WebMcpApproval.Approvals.ClearReview` | src/components/live-paper-pilot-app.tsx:1902-1911 | Clearing removes the review and the stored submission of one entry |
| `WebMcpApproval.Approvals.DiscardReview` | src/components/live-paper-pilot-app.tsx:1912-1922 | Discarding is refused while the outcome is unknown, and does not look at the flight |
| `WebMcpApproval.Approvals.BeginPrepare` | src/components/live-paper-pilot-app.tsx:1932-1960 | Which click asks for a challenge, and what it locks |
| `WebMcpApproval.Approvals.FinishPrepare` | src/components/live-paper-pilot-app.tsx:1989-2012 | What the answer to a challenge request stores |
| `WebMcpApproval.Approvals.BeginApprove` | src/components/live-paper-pilot-app.tsx:2014-2100 | Which click sends an approval, and whether it is the stored submission or a fresh one |
| `WebMcpApproval.Approvals.FinishApprove` | src/components/live-paper-pilot-app.tsx:2101-2198 | What a closed and an unknown outcome do to review, submission and lock |
| `WebMcpRuns.StepKeepsInv` | src/components/live-paper-pilot-app.tsx:1902-2198 | Every step keeps: a stored submission is exactly what the stored review's challenge authorises |
| `WebMcpRuns.StoredSubmissionsAreReviewed` | src/components/live-paper-pilot-app.tsx:2014-2198 | In every run a stored submission has a stored review with the same selection key |
| `WebMcpRuns.UnknownIsFrozen` | src/components/live-paper-pilot-app.tsx:2014-2198 | While an outcome is unknown nothing but a closed answer changes the entry's evidence or submission, no evidence is requested for it, and what is sent for it is that submission |
| `WebMcpRuns.UnknownRunSendsOneSubmission` | src/components/live-paper-pilot-app.tsx:2014-2198 | The same over any stretch of a run without a closed answer |
| `WebMcpRuns.RetrySendsTheSame` | src/components/live-paper-pilot-app.tsx:2014-2100 | The retry is always open and sends the stored submission even if intent or evidence has changed |
| `WebMcpRuns.FirstSendIsConsented` | src/components/live-paper-pilot-app.tsx:2014-2100 | A first send happens only under a displayed, unexpired dossier for this workspace version and binds exactly it |
| `WebMcpRuns.PreparedCanBeApproved` | src/components/live-paper-pilot-app.tsx:1932-2100 | From the first click to the send: the challenge is asked for, its answer put on display, and the approval sends a submission of exactly this operation, selection, version and evidence |
| `WebMcpRuns.ClosedAnswerEndsApproval` | src/components/live-paper-pilot-app.tsx:2101-2198 | A closed answer ends the approval of its entry and touches no other |
| `WebMcpRuns.SentOnlyForDossierOnDisplay` | src/components/live-paper-pilot-app.tsx:2014-2060 | A submission goes out only for the dossier on display, in all its parts |
| `WebMcpRuns.OutdatedDossierIsPutAway` | src/components/live-paper-pilot-app.tsx:2014-2060 | An approval for another dossier sends nothing and, unless its outcome is unknown, puts the entry away |
| `WebMcpRuns.ExpiredDossierIsRenewed` | src/components/live-paper-pilot-app.tsx:2014-2075 | A first approval of a dossier that has expired or is of another version asks for a new one instead |
| `WebMcpRuns.UnresolvedPrepareIsPutAway` | src/components/live-paper-pilot-app.tsx:1932-1960 | A prepare click for what no longer resolves asks for nothing and, unless its outcome is unknown, puts the entry away |
| `WebMcpRuns.DiscardIsSafeExactly` | src/components/inbox-view.tsx:837-841 | Without the button's guard a discard keeps the invariant exactly when the entry's first approval is not in flight |
| `WebMcpRuns.UnguardedDiscardSplitsTheOperation` | src/components/live-paper-pilot-app.tsx:1912-1922 | Unguarded, a discard in flight followed by a lost answer lets the retry go out under a second operation ID |
| `JsonText.ParseOfStringify` | public/webmcp/paperpilot.js:91-97 | Printed text of any value, followed by any delimiter, parses back to the value and leaves the rest |
| `JsonText.ParseInvertsStringify` | public/webmcp/paperpilot.js:91-97 | The RFC 8259 parser is a left inverse of `JSON.stringify` on values with integer numbers, lone surrogates included |
| `JsonShortest.StandsAsItIsExactly` | public/webmcp/paperpilot.js:96-96 | A string is printed as it stands exactly if it has no quotation mark, backslash, control unit or lone surrogate |
| `JsonShortest.NoTextIsShorter` | public/webmcp/paperpilot.js:96-96 | No text that parses to a value without lone surrogates is shorter than what is printed for it |
| `JsonShortest.EscapeAddsNoUpperHex` | public/webmcp/paperpilot.js:96-96 | The hexadecimal digits of escapes are lower case: escaping brings in no letter from A to F |
| `CanonicalJson.LessExactly` | public/webmcp/paperpilot.js:94-94 | Keys are ordered by UTF-16 code units, ascending, a prefix before what extends it |
| `CanonicalJson.SortedIsUnique` | public/webmcp/paperpilot.js:94-94 | A list of keys has only one sorted arrangement, so the result does not depend on the sorting algorithm |
| `CanonicalJson.CanonicalJsonPrintsCanon` | public/webmcp/paperpilot.js:91-97 | The canonical text is the ordinary text of the value with the keys of every object sorted |
| `CanonicalJson.CanonicalTextParses` | public/webmcp/paperpilot.js:91-97 | Canonical text parses, to the key-sorted value |
| `CanonicalJson.EqualTextMeansSame` | public/webmcp/paperpilot.js:91-97 | Two values print to one canonical text exactly when they are equal up to the order of object keys at every level |
| `CanonicalJson.ReprintingIsIdentity` | public/webmcp/paperpilot.js:91-97 | Printing what was parsed from canonical text gives the text again, and what was parsed is the same value up to key order |
| `Paragraphs.MatchedExactly` | services/document-extractor/src/command-protocol.ts:15-15 | The identifier pattern accepts exactly the printed forms of a positive page and a positive paragraph number, and yields them |
| `Paragraphs.NeighbourTestDecides` | services/document-extractor/src/command-protocol.ts:177-189 | The loop's test of neighbours holds exactly when pages are in order and the paragraph numbers of each page never go down, start at 1 and leave none out |
| `Paragraphs.PageHoldsOneToK` | services/document-extractor/src/command-protocol.ts:177-189 | On every page that has entries the numbers present are exactly 1 to some k |
| `ExtractionProtocol.ExactKeys` | services/document-extractor/src/command-protocol.ts:69-74 | Counting the keys and looking for each expected one decides that the keys are exactly the expected ones |
| `ExtractionProtocol.BoundedInteger` | services/document-extractor/src/command-protocol.ts:76-86 | The value is accepted exactly when it is a safe integer within the bounds, and is that integer |
| `ExtractionProtocol.HasUnsafeUnicode` | services/document-extractor/src/command-protocol.ts:99-113 | The loop finds an unsafe character exactly when there is a surrogate, a control or format character, or one of the 66 noncharacters |
| `ExtractionProtocol.RemovingSpaces` | services/document-extractor/src/command-protocol.ts:137-137 | Taking the spaces out of well-formed text leaves exactly its other characters |
| `ExtractionProtocol.AcceptsText` | services/document-extractor/src/command-protocol.ts:130-141 | Text passes exactly when it is non-empty, trimmed, normal, well-formed, free of unsafe characters, single-spaced with ordinary spaces, and short enough in UTF-8 |
| `ExtractionProtocol.ValidateChunk` | services/document-extractor/src/command-protocol.ts:115-142 | A chunk is accepted exactly when its value meets the chunk contract, and is then the one chunk the value denotes |
| `ExtractionProtocol.ValidateChunks` | services/document-extractor/src/command-protocol.ts:173-175 | All chunks are returned, or one of them meets no chunk contract |
| `ExtractionProtocol.CheckOrder` | services/document-extractor/src/command-protocol.ts:177-196 | The loop with its three running values succeeds exactly on gapless numberings and returns the byte total |
| `ExtractionProtocol.ShortIds` | services/document-extractor/src/command-protocol.ts:127-129 | On a well-numbered result the length limit of identifiers never bites |
| `ExtractionProtocol.ReadHeader` | services/document-extractor/src/command-protocol.ts:148-172 | The checks before the chunks pass exactly when the header contract can be met, and fix all of it but the engine version |
| `ExtractionProtocol.CheckTotals` | services/document-extractor/src/command-protocol.ts:177-203 | The loop and the comparisons after it decide order, byte total, engine and outcome |
| `ExtractionProtocol.ValidateExtractionResult` | services/document-extractor/src/command-protocol.ts:144-214 | A value is accepted exactly when it meets the declarative contract: sequences 0 to n-1, pages ascending, gapless paragraph identifiers, exact totals within limits, `no_text` exactly without chunks; and it is returned unchanged |
| `ReaderPages.ChunksByPage` | src/components/live-reader-view.tsx:78-90 | The loop over the insertion-ordered map computes `Grouped` |
| `ReaderPages.GroupedIsStablePartition` | src/components/live-reader-view.tsx:78-90 | One non-empty group for each page, holding all its chunks in their order, groups in order of first appearance |
| `ReaderPages.AcceptedChunksGroupByPage` | src/components/live-reader-view.tsx:78-90 | On an accepted result, joining the groups gives back the chunk list, and pages strictly increase within the limit |
| `ReaderPages.AcceptedPageIsComplete` | services/document-extractor/src/command-protocol.ts:177-189 | On each page of an accepted result the identifiers run through 1 to k with none missing |
| `ReaderPages.PagesWithinCountExactly` | services/document-extractor/src/command-protocol.ts:123-123 | All pages are within the result's page count exactly when the last chunk's page is; the validator does not check it |
| `ReaderPages.PageBeyondCountIsAccepted` | services/document-extractor/src/command-protocol.ts:123-123 | A concrete accepted result with a chunk beyond its page count |
| `FileTransfer.HashOpenFile` | src/workers/document-extraction-worker.ts:119-148 | The digest is that of exactly the first n bytes in order, each as it was when read, in reads of at most 256 KiB; reached exactly when every read is whole, and otherwise the failure is that of the first read that is not |
| `FileTransfer.CheckInput` | src/workers/document-extraction-worker.ts:268-280 | A body can be asked for exactly when the size fits, every read was whole and the digest is the expected one |
| `FileTransfer.BodyStream.Pull` | src/workers/document-extraction-worker.ts:157-188 | One pull: abort, close, fail on a short read, or send the next part |
| `FileTransfer.BodyFactory.Create` | src/workers/document-extraction-worker.ts:287-293 | Only the first request for a body gets one |
| `FileTransfer.BodyEndsExactly` | src/workers/document-extraction-worker.ts:150-190 | The body ends normally exactly when each read is whole and the pull after the last is not aborted; it never stays open longer, and it sends n bytes, each once and in order |
| `FileTransfer.ReadsAre256KiB` | src/workers/document-extraction-worker.ts:119-148 | A file takes at most n reads exactly if it has at most n times 256 KiB |
| `FileTransfer.FailureIsTold` | src/workers/document-extraction-worker.ts:119-148 | A failure says what happened at the first read that was not whole: aborted, thrown, or short |
| `FileTransfer.SentIsHashedExactly` | src/workers/document-extraction-worker.ts:272-293 | The bytes sent are the bytes whose digest was checked exactly when no byte changed between its two reads |
| `FileTransfer.UnchangedFileSendsCheckedBytes` | src/workers/document-extraction-worker.ts:272-293 | On an unchanged file what is sent is the first n bytes and has the expected digest |
| `LeaseStore.ClaimsBalance` | src/server/documents/extraction-jobs.ts:711-735 | In every consistent store a job's claims are its attempts plus its deferrals, and attempts stay within the budget |
| `LeaseStore.ClaimKeepsInv` | src/server/documents/extraction-jobs.ts:624-775 | Claiming, also over an expired lease, keeps the books and leaves one open lease |
| `LeaseStore.SettlingKeepsInv` | src/server/documents/extraction-jobs.ts:822-925 | Completing, deferring and failing keep the books |
| `LeaseStore.CancelKeepsInv` | src/server/integrations/web-source/crawler-custody-deletion.ts:429-453 | So does the cancellation of jobs and running attempts by a custody deletion |
| `LeaseStore.DeferUndoesClaim` | src/server/documents/extraction-jobs.ts:822-925 | A deferral gives the attempt back: the job is as claimable as before the claim |
| `LeaseWorker.Heartbeat.OnInterval` | src/workers/document-extraction-worker.ts:313-318 | The interval starts a call only if none runs and nothing is aborted |
| `LeaseWorker.Heartbeat.OnAnswer` | src/workers/document-extraction-worker.ts:319-327 | A lease that is not retained, or a call that throws, aborts the work |
| `LeaseWorker.Heartbeat.Clear` | src/workers/document-extraction-worker.ts:331-331 | The interval is cleared |
| `LeaseWorker.StepKeepsInv` | src/workers/document-extraction-worker.ts:304-425 | Every step of worker, store, clock and other workers keeps the invariant |
| `LeaseWorker.ProbesBeforeClaims` | src/workers/document-extraction-worker.ts:343-362 | Every claim follows a successful readiness probe that no earlier claim used |
| `LeaseWorker.SettlesWithoutHeartbeat` | src/workers/document-extraction-worker.ts:328-333 | At most one heartbeat is ever outstanding, and none when a settle call is made |
| `LeaseWorker.EveryLeaseIsSettled` | src/workers/document-extraction-worker.ts:368-425 | Every lease handed to the worker has had a settle call, at most two, unless it is in hand or the process died |
| `LeaseWorker.OneEffectPerLease` | src/workers/document-extraction-worker.ts:381-405 | Once a lease has an effect nothing changes it: at most one settle call ever takes effect |
| `LeaseWorker.LateSettleChangesNothing` | src/server/documents/extraction-jobs.ts:1470-1506 | A settle call on a lease that is settled, taken over or expired leaves the store as it is |
| `LeaseOutcomes.EveryEffectIsTold` | src/workers/document-extraction-worker.ts:368-405 | In every run a lease of this worker is completed only after its work ended in an attestation, deferred only after it was busy, and failed only after another error or a completion that threw |
| `LeaseOutcomes.OutcomesAgree` | src/workers/document-extraction-worker.ts:368-376 | The outcome of the work on a lease is one and the same throughout a run |
| `LeaseOutcomes.SettleFollowsOutcome` | src/server/documents/extraction-jobs.ts:822-925 | A settle call that reaches the store while the lease is open and unexpired leaves the job succeeded after an attestation, retrying with its attempt given back after busy, and after an error retrying exactly if it may be retried and budget is left, else dead; no other job changes |
| `LeaseOutcomes.HaltsExactly` | src/workers/document-extraction-worker.ts:343-425 | The worker's loop ends exactly on a probe error that may not be retried, a claim or settle call without answer, other than a completion, the caller's signal, or a crash |
| `LeaseOutcomes.HeartbeatAbortsExactly` | src/workers/document-extraction-worker.ts:319-327 | A heartbeat aborts the work exactly if it finds the lease settled, taken over or expired, or has no answer |
| `LeaseOutcomes.AbortedBeatsNoMore` | src/workers/document-extraction-worker.ts:313-318 | Once the work is aborted no further heartbeat starts for it |
| `LeaseOutcomes.SignalAbortsWork` | src/workers/document-extraction-worker.ts:304-312 | In every run, after the caller's signal all work is aborted, also work that begins after it |
| `LeaseOutcomes.FourClaims` | src/server/documents/extraction-jobs.ts:711-735 | In every run a job is claimed at most four times, deferrals not counted, by all workers together |
| `LeaseOutcomes.NoTakeoverBeforeExpiry` | src/server/documents/extraction-jobs.ts:624-700 | No lease is taken over, nor its job closed over it, before it has expired |
| `LeaseOutcomes.ExpiryReopens` | src/server/documents/extraction-jobs.ts:624-700 | When a lease expires its job can be claimed again if budget is left, and the lease settles nothing any more |
| `LeaseWorker.BooksBalance` | src/workers/document-extraction-worker.ts:404-410 | In every run, per job: claims are attempts used plus deferrals, within the budget |
| `LeaseWorker.OverIsFinal` | src/server/documents/extraction-jobs.ts:822-925 | In every run, a job that has succeeded, died or been cancelled is never changed again, by whatever late worker |
| `LeaseWorker.CustodyDeletionFences` | src/server/integrations/web-source/crawler-custody-deletion.ts:429-453 | After a custody deletion the job is over, and no settle call on any of its leases changes the store |
| `Utf16.CodePointsOfEncode` | src/components/live-paper-pilot-app.tsx:401-414 | Decoding inverts UTF-16 encoding of scalar values (RFC 2781, section 2) |
| `Utf16.HasUnpairedSurrogate` | src/components/sources-view.tsx:479-492 | The index loop returns false exactly when the units are the UTF-16 encoding of some scalar sequence |
| `Utf16.UnitsAndBytes` | src/components/sources-view.tsx:529-529 | A text has no more UTF-16 units than UTF-8 bytes, and at most three bytes a unit (RFC 3629, section 3) |
| `Utf8.DecodeOfEncodeText` | src/components/sources-view.tsx:529-529 | The UTF-8 encoder of RFC 3629, section 3, is inverted by a decoder that refuses overlong forms and surrogates; a well-formed text is recovered |
| `Utf8.Utf8LengthIsEncodedLength` | services/document-extractor/src/command-protocol.ts:194-199 | The byte count that every limit is checked against is the length of that encoding, lone surrogates sent as U+FFFD |
| `Utf16.WhiteSpaceExactly` | src/components/sources-view.tsx:518-523 | The 25 units that trimming strips, one by one |
| `FileNames.FormAccepts` | src/components/sources-view.tsx:518-534 | The file name part of the form's validation decides `AcceptedByForm` |
| `FileNames.ParserAccepts` | src/components/live-paper-pilot-app.tsx:416-440 | The response parser decides `AcceptedByParser` |
| `FileNames.FormAgreesWithParser` | src/components/sources-view.tsx:518-534 | The form accepts a name exactly when it is well formed and its normal form is accepted by the parser and does not begin with white space |
| `FileNames.AcceptedNamesParse` | src/components/live-paper-pilot-app.tsx:416-440 | Whatever the form accepts, the parser accepts in normal form |
| `FileNames.ParserAcceptsMore` | src/components/live-paper-pilot-app.tsx:416-440 | The converse fails for a name with a leading space |
| `FileNames.ReservedExactly` | src/components/sources-view.tsx:519-528 | A name is reserved exactly if it is that of a device in any case, then any spaces, then nothing or a dot and anything |
| `FileNames.ForbiddenExactly` | src/components/sources-view.tsx:518-534 | The forbidden units are the controls, the two separators and nine characters |
| `MentorNote.MentorPage.FinishRender` | public/webmcp/paperpilot.js:289-295 | A new PDF drops source, receipt and proposal and keeps the saved note |
| `MentorNote.MentorPage.AfterQuoteHash` | public/webmcp/paperpilot.js:349-359 | What a freeze takes from the page after its first await |
| `MentorNote.MentorPage.AfterSourceHash` | public/webmcp/paperpilot.js:360-379 | What it takes and writes after its second |
| `MentorNote.MentorPage.ClearFrozenSource` | public/webmcp/paperpilot.js:399-409 | Clearing drops source, receipt and proposal |
| `MentorNote.MentorPage.ReadTool` | public/webmcp/paperpilot.js:558-588 | The read tool shares the frozen source and records its digest, and changes only the receipt |
| `MentorNote.MentorPage.BeginStage` | public/webmcp/paperpilot.js:432-492 | Validation: the response with its texts and lists in normal form, or the first error in the source's order |
| `MentorNote.CleanInputIsValid` | public/webmcp/paperpilot.js:432-492 | An explanation already in normal form, for the source frozen and read, is accepted as it stands |
| `MentorResponse.CleanTextIsItsWords` | public/webmcp/paperpilot.js:72-77 | Collapsing and trimming white space leaves exactly the words of the text, joined by single spaces |
| `MentorResponse.CleanTextExactly` | public/webmcp/paperpilot.js:72-77 | What comes out is in normal form and has the words that went in; what is in normal form comes out unchanged |
| `MentorResponse.AcceptedIsClean` | public/webmcp/paperpilot.js:448-492 | Whatever is accepted has all its texts in normal form and within their limits, and its lists within theirs |
| `MentorContract.AcceptedExactly` | public/webmcp/paperpilot.js:448-492 | An explanation is accepted exactly as the content its parts denote: the words of each text within its limit, one to eight terms and steps with no other keys, at most five sources that are secure and name no user |
| `MentorContract.RefusedExactly` | public/webmcp/paperpilot.js:453-492 | A refusal names the first part, in the source's order, that denotes nothing |
| `MentorContract.ValidExactly` | public/webmcp/paperpilot.js:432-492 | A stage call passes exactly if it has no other arguments, names the source that is frozen and was read, nothing is staged, and its parts denote an explanation |
| `MentorResponse.RevalidatesExactly` | public/webmcp/paperpilot.js:411-430 | Submitting an accepted explanation again, as it was stored, is accepted unchanged exactly when no address outgrew the limit when the URL parser rewrote it |
| `MentorResponse.StoredAddressCanOutgrow` | public/webmcp/paperpilot.js:419-428 | With 339 to 2028 characters U+00E9 in its path an address is within the limit, its percent-encoded form is not, and yet is stored, and refused if submitted again |
| `MentorNote.MentorPage.AfterResponseHash` | public/webmcp/paperpilot.js:684-695 | The commit of a validated response writes the proposal and nothing else |
| `MentorNote.MentorPage.SaveCurrentNote` | public/webmcp/paperpilot.js:761-789 | Saving keeps source, receipt and proposal as they are now; it needs a proposal and a source |
| `MentorNote.MentorPage.DiscardCurrentProposal` | public/webmcp/paperpilot.js:804-814 | Discarding drops the proposal only |
| `MentorRuns.EveryRunKeepsInv` | public/webmcp/paperpilot.js:346-397 | With any number of freezes and stage calls under way, a read receipt always names the frozen source, and its quote digest is that of its text |
| `MentorRuns.ProposalWasFrozenAndRead` | public/webmcp/paperpilot.js:681-695 | Every proposal's digest was the frozen source's and the receipt's when it was validated, and its texts and lists are in normal form |
| `MentorRuns.OnlySavingSaves` | public/webmcp/paperpilot.js:761-789 | Over any stretch without a save the saved note stays |
| `MentorRuns.AgentLeavesSourceAndNote` | public/webmcp/paperpilot.js:558-715 | Agent steps change neither the saved note nor the frozen source nor the file |
| `MentorRuns.CommitIsCoherentExactly` | public/webmcp/paperpilot.js:683-695 | A commit leaves proposal, receipt and source in agreement exactly when the validated source is still frozen and read |
| `MentorRuns.OnlyCommitsBreakCoherence` | public/webmcp/paperpilot.js:683-695 | No other step breaks the agreement |
| `MentorRuns.AtomicStagingIsCoherent` | public/webmcp/paperpilot.js:681-715 | If validation and commit are not separated, proposal, receipt and source always agree |
| `MentorRuns.AtomicNotesAreCoherent` | public/webmcp/paperpilot.js:761-789 | Then what is saved is one source, its receipt and its explanation |
| `MentorRuns.AtomicProposalsAreNotReplaced` | public/webmcp/paperpilot.js:451-451 | Then a staged proposal is never replaced, only withdrawn |
| `MentorRuns.OnlyCommitsReplace` | public/webmcp/paperpilot.js:681-695 | In general, only the commit of an earlier stage call puts another proposal in the place of a staged one; every other step keeps or withdraws it |
| `MentorRuns.ProposalIsReplaceableExactly` | public/webmcp/paperpilot.js:451-451 | From a state with a proposal staged, some continuation replaces it without its being withdrawn first exactly when a stage call validated before still waits for its digest |
| `MentorRuns.FreezeBindsExactly` | public/webmcp/paperpilot.js:352-379 | The digest of a frozen source covers the PDF digest shown with it exactly when the page's PDF has the same digest on both sides of the second await |
| `MentorRuns.UndisturbedFreezesAreBound` | public/webmcp/paperpilot.js:346-397 | If no PDF finishes loading during a freeze, every frozen source is so bound and belongs to the PDF on the page |
| `MentorRuns.UndisturbedFreezeTakes` | public/webmcp/paperpilot.js:346-379 | An undisturbed freeze takes passage, context, name and digest from the one PDF on the page, and ends what was read and staged |
| `MentorRuns.DiscardReopensStaging` | public/webmcp/paperpilot.js:804-814 | While an explanation is staged every other is refused; discarding it, and nothing else, makes room for one |
| `MentorRuns.ClearingWithdraws` | public/webmcp/paperpilot.js:399-409 | Clearing withdraws what was read and staged, and nothing can be read or staged until a passage is frozen |
| `MentorRuns.SwappedFileRun` | public/webmcp/paperpilot.js:354-367 | A run in which the text of one PDF is frozen under the name and digest of another |
| `MentorRuns.IncoherentNoteRun` | public/webmcp/paperpilot.js:683-695 | A run in which the user saves an explanation of one passage under another |
| `MentorRuns.ReplacedProposalRun` | public/webmcp/paperpilot.js:683-695 | A run in which a second stage call replaces a staged proposal |
| `DemoWorkspace.DemoDesk.ImportHit` | src/components/paper-pilot-app.tsx:560-616 | The import: Inbox entry new or replaced, paper imported and listed in the destination if there is one |
| `DemoWorkspace.DemoDesk.FileEntry` | src/components/paper-pilot-app.tsx:618-648 | Filing an Inbox entry in a project |
| `DemoWorkspace.DemoDesk.NewCollection` | src/components/paper-pilot-app.tsx:707-750 | The search for the name, and the new collection in list and project |
| `DemoWorkspace.DemoDesk.CollectPaper` | src/components/paper-pilot-app.tsx:752-775 | A resolvable paper is listed in the collection, once |
| `DemoWorkspace.DemoDesk.SaveNote` | src/components/paper-pilot-app.tsx:777-797 | The loops over collections and projects index the new note in each it names |
| `DemoWorkspace.DemoDesk.FileNote` | src/components/paper-pilot-app.tsx:799-829 | The loops that add the collection to the note and the note to the collection, if the rendered note is not in it |
| `DemoInvariant.AddNoteKeepsIndexed` | src/components/paper-pilot-app.tsx:777-797 | A new note keeps two-way membership and both counters |
| `DemoInvariant.FileNoteKeepsIndexed` | src/components/paper-pilot-app.tsx:799-829 | So does filing an existing one |
| `DemoInvariant.AddPaperListsOnce` | src/components/paper-pilot-app.tsx:752-775 | Adding a paper never lists it twice in a collection |
| `DemoInvariant.ImportKeepsInbox` | src/components/paper-pilot-app.tsx:565-590 | An import keeps one Inbox entry for each provider and source |
| `DemoInvariant.NewCollectionKeepsShelves` | src/components/paper-pilot-app.tsx:707-740 | Collection names stay different within every project |
| `DemoSeed.SeedIsConsistent` | src/lib/workspace-store.ts:246-335 | The workspace the demo starts from meets the whole invariant: its notes, collections, counters, projects and Inbox entries agree |
| `DemoRuns.EveryRunKeepsInv` | src/components/paper-pilot-app.tsx:560-829 | In every run from the seed, of commands with fresh identifiers: membership agrees both ways, counters are the filed notes, project papers are listed once and known, project notes concern project papers, collections list papers once, names differ within a project, Inbox entries are unique |
| `DemoRuns.ProjectPapersResolve` | src/components/paper-pilot-app.tsx:238-246 | All papers of all projects can be shown in every workspace reachable from the seed |
| `DemoEffects.ImportSays` | src/components/paper-pilot-app.tsx:560-616 | Exactly what an import adds: an Inbox entry for a new record, and with a destination the paper found as its duplicate, or else itself, to imports and that project |
| `DemoEffects.ImportedEntryIs` | src/components/paper-pilot-app.tsx:565-590 | After an import the record has one entry, with this paper, the status and duplicate that follow, and the identifier it had; all other entries are as before |
| `DemoEffects.FilingSays` | src/components/paper-pilot-app.tsx:618-648 | Exactly what filing an entry adds: the paper it stands for, to imports and that project |
| `DemoEffects.FiledEntryIs` | src/components/paper-pilot-app.tsx:631-636 | Filing makes the entry ready with its destination and leaves its paper and all other entries alone |
| `DemoEffects.NewCollectionSays` | src/components/paper-pilot-app.tsx:707-750 | Exactly what a new collection adds, to the list and to its project, and that it adds nothing where the project has one of the name |
| `DemoEffects.ListingSays` | src/components/paper-pilot-app.tsx:752-775 | Exactly what listing adds: the paper, if it can be shown, to the one collection |
| `DemoEffects.NewNoteSays` | src/components/paper-pilot-app.tsx:777-797 | Exactly what a new note adds: itself, to the collections it names and to every project with its paper |
| `DemoEffects.NoteFilingSays` | src/components/paper-pilot-app.tsx:799-829 | Exactly what filing a note adds: the collection to the note and the note to the collection |
| `DemoRuns.StaleFilingExactly` | src/components/paper-pilot-app.tsx:800-822 | A filing decided on an older rendering keeps the counters right exactly when the note is not yet filed there, or counts towards neither counter |
| `DemoRuns.StaleImportExactly` | src/components/paper-pilot-app.tsx:565-590 | An import decided on an older rendering keeps one Inbox entry for each record exactly when that rendering showed the record's entry or there still is none |
| `DemoRuns.StaleListingExactly` | src/components/paper-pilot-app.tsx:752-775 | A paper listed on the strength of an older rendering stays listed once exactly when it is not listed yet |
| `DemoRuns.AddProjectKeepsInv` | src/components/paper-pilot-app.tsx:650-675 | A new project keeps the whole invariant |
| `DemoFacts.StaleProjectSays` | src/components/paper-pilot-app.tsx:665-670 | A project created on an older rendering leaves a workspace that says what the rendering said, and that the project exists |
| `DemoFacts.StaleProjectLosesEveryCommand` | src/components/paper-pilot-app.tsx:665-670 | So whatever any command committed between the rendering and the click has added is lost, though it would have lasted |
| `DemoPapers.ImportSparesExactly` | src/components/paper-pilot-app.tsx:565-590 | A paper that can be shown can still be shown after an import exactly when the record has no Inbox entry yet, or its entry shows another paper, or the imported paper has the same identifier, or a seed, an imported paper or another entry has it |
| `DemoPapers.CollectedPapersResolve` | src/components/paper-pilot-app.tsx:752-775 | In every run from the seed whose search results are named after their records, all papers of all collections can be shown |
| `DemoPapers.EveryCollectedPaperResolves` | src/lib/integrations/openalex-adapter.ts:735-740 | The results of the gateway and the bundled ones are so named, so in the demo all papers of all collections can be shown at all times |
| `DemoPapers.RenamedRecordRun` | src/components/paper-pilot-app.tsx:565-590 | The naming is needed: a run from the seed in which one record comes under two paper identifiers leaves a listed paper that cannot be shown |
| `FormUrl.FormRoundTrips` | src/lib/auth-flow.ts:22-24 | Parsing a form-urlencoded list of byte-string pairs after serializing it gives the list back |
| `FormUrl.EncodedByteExactly` | src/lib/auth-flow.ts:22-24 | Which bytes are written as themselves, and that a space becomes a plus sign and all else a percent sign and two upper-case digits |
| `AuthLinks.AuthLinksRoundTrip` | src/lib/auth-flow.ts:75-83 | Reading back a printed sign-in or sign-up link gives the normalised identifier, or none if there was none |
| `AuthLinks.ApplicationLinksRoundTrip` | src/lib/auth-flow.ts:85-90 | So does reading back an application link |
| `AuthLinks.PrintedAuthLink` | src/lib/auth-flow.ts:72-83 | The sign-in and sign-up links, as text |
| `AuthLinks.PrintedApplicationLink` | src/lib/auth-flow.ts:85-90 | The application link, as text |
| `AuthLinks.ReadExactly` | src/lib/auth-flow.ts:50-70 | An identifier is read exactly from an address of the application's own that carries one invitation and no other |
| `AuthLinks.NormalizedExactly` | src/lib/auth-flow.ts:9-16 | A value gives an identifier exactly if it is one with white space around it |
| `AuthLinks.VerificationPathsExactly` | src/lib/auth-flow.ts:27-53 | The recogniser of verification callback paths accepts exactly what their printer prints |

## Left out

- Rendering, focus, scrolling, toasts, copy strings, dates and formatting: no state worth proving.
- Network, clocks, PDF.js, storage and file handles: nondeterministic answers, ticks or a map stand for them.
- The register's attachment policy (load and change) and unmounting with continuations still pending.
- When within a render the register's list reference catches up with its state: a separate step brings it up to date at any time.
- The connection's libraries changing is one reload step; its effect dependencies are not modelled.
- Crawler request bodies: a frozen command stands for the exact bytes that `JSON.stringify` makes of its fields, and the recovery codecs of session storage for the identity.
- The row a crawler answer returns: its identity and what it repeats of the request; its custody stages only as under way or not.
- Crawler continuations that run on after sign-out; workspace switching.
- WebMCP wire formats and the assertion that one challenge answer is well formed; a challenge is a value or absent.
- Numbers with a fraction or an exponent in canonical JSON, and values that are not JSON.
- JSON parsing in the extraction protocol, the failure envelope, process exit checks and `command`'s placeholder count: straight-line checks.
- The extraction validator's error code, which is the same for every failed check.
- The further fields of Reader chunks: only page and order matter to the grouping.
- Feeding the hash piece by piece: it is taken of the bytes read, joined.
- In the worker: polling delays, signal listeners, the mapping of error codes and retry delays; a lease that is not due yet is a job nobody picks.
- A custody deletion's jobs are cancelled one at a time, and its other effects are not modelled.
- In the lease store: the rows a settle transaction writes beside job and attempt, and the refusal of a projection, which leaves the store unchanged like a lost lease.
- The URL and byte-cap parts of the crawler form.
- The parsing of URLs: a parser gives each address its serialization and says whether it is `https:` and free of credentials.
- On the mentor page: the activity log, and reading PDFs up to the step that puts the result on the page.
- In the demo: titles, timestamps, provenance and the active project; a workspace restored from browser storage: runs start from the seed.
- UTF-8 decoding of query values: names and values are byte strings, which for printed links is the same.
- Password reset links, and URLs outside the paths the application prints.
- `aggregateVersion` of the live app as a monotone value: several paths overwrite it, so it is not one.

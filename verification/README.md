# Model of the component knowledge base's editor

The knowledge base lets several people edit component cards in browsers that save by themselves, lose
connections and crash. This project models that editor and the parts of the system whose correctness
rests on an argument rather than on a single function, and proves the argument.

**The editor protocol.** `Client` is the synchronisation controller of one page as a state machine:
an event is one entry into the controller, and the code between two awaits is one step.
`SyncController` is the same controller as a class that updates its fields and its local storage in
place; every method is proved to follow `Client`. `EditTokens`, `Server` and `Database` are the server's
rows, the trigger that advances edit tokens, the locked transactions and idempotent creation, again as
functions and as a class refining them. `Protocol` puts any number of pages, the server, other writers, a
network that delays and loses answers, crashes and a shared local storage together; `ClientInvariants` and
`ProtocolInvariant` prove what every step keeps, and `SyncTheorems` what follows for every run: no lost
update, what "saved" means, crash safety, exclusion, progress, one component per creation key.
`SyncEndToEnd` follows a page that is left alone from its last edit until the server holds its text.
`SyncOutcomes` says what the page's operations, edit, command, discard, retry and recovery among them, come
to over the steps and runs that follow them. `SyncFailures` builds the runs in which a guarantee ends.
`Creations` takes idempotent creation apart into its statements under an advisory lock, and proves that they
amount to the server's one atomic step. `Recovery` is the bounded store of crash drafts.

**Numeric parts.** `Spring` proves that the login display's animation always stops, with a logarithmic
bound. `Contrast` proves the contrast guarantees (success criteria 1.4.3 and 1.4.11 of WCAG 2.2) of every
accent colour, and `Hsv` that the colour picker's conversions are inverse to each other, both ways.

**Data.** `Admission`, `AdmissionRuns`, `AdmissionTheorems` and `ImportHandlers` treat import jobs: the
advisory lock, quotas, the sliding rate window and idempotency, while workers, retries, cancellations and
the dispatch sweep change rows concurrently. `SpecificationKeys`, `SpecificationNumbers` and
`SpecificationTable` treat the technical specifications a card carries, `EditorForm` the round trip of a card
through the form, `Images` the image list, and `ImageMigration` the migration that first orders it.

## Where the code does less than one might expect

Each of these is stated with its exact condition; the first, second, fourth and fifth also with a concrete run.

- A command started while a conflict is showing replaces the conflict by a plain error, and the next save
  overwrites a version the text does not descend from (`SyncTheorems.CommandDefeatsConflict`, and a run in
  `SyncFailures.CommandOverwritesVersion`; `ClientInvariants.BasedKeptExactly` shows that nothing else
  does). The theorems about runs therefore require that no command starts in such a conflict, and no recovery
  is accepted during a command
  (`ClientInvariants.RecoveryTakesExactly`): the predicate `ProtocolInvariant.Considerate`.
- Two pages on one local-storage entry can lose each other's drafts (`SyncTheorems.SharedEntryLosesTheDraft`,
  and a run in `SyncFailures.SharedDraftIsLost`).
- After one autosave, revision-only clients can never write a component again
  (`EditTokens.AutosaveLocksOutLegacy`).
- The transient failure of an import attempt whose job has meanwhile failed makes the job active again
  without admission, so the active-job limits can be passed, by exactly such jobs and manual retries
  (`AdmissionTheorems.QuotasHold`, `RevivesExactly`, `LimitCanBePassed`).
- A succeeded import can be marked failed by a slower attempt (`AdmissionTheorems.SuccessUndoneExactly`, and a
  run in `SuccessCanBeUndone`).
- The idempotency comparison alone would take a repository's own address for a page of it
  (`Admission.MatchesExactly`); what keeps them apart is that no repository is on an approved page host
  (`Admission.AddressesAreSeparate`).
- A card whose list entries contain commas, or whose values contain runs of white space, does not survive the
  form unchanged (`EditorForm.FormRoundTrip`, `SpecificationTable.RowsRoundTrip`). The server accepts entries with
  commas (`EditorForm.CommaEntryIsSplit`).

## Model

| member | source | states |
|---|---|---|
| SyncTheorems.NoLostUpdate | frontend/src/editor/sync-controller.ts:100-142 | over every run of pages, server and network, each accepted save replaced exactly the version its text descends from, and the accepted versions of a component follow one another without overlap |
| SyncTheorems.AcceptedSucceedsOrigin | src/arduino_component_kb/api/component_sync.py:80-101 | at the moment of acceptance the row replaced is the one the text came from, its token rises, and the row then holds the accepted document |
| SyncTheorems.ServerOnlyGrows | migrations/versions/20260910_30_editor_sync.py:20-30 | over every run tokens only rise, components stay and no committed version is rewritten |
| SyncTheorems.SavedMeansSaved | frontend/src/editor/sync-controller.ts:139-141 | whenever the status is saved after editing, the last document the server accepted from this page is the one on screen, none of its older saves can still be accepted, and the server holds it unless someone else wrote since |
| SyncTheorems.DirtyIsHonest | frontend/src/editor/sync-controller.ts:71-83 | acknowledged never exceeds generation, dirty holds exactly when they differ, saved is never shown over unsaved work, and a page in status dirty that is not disposed has a timer or a drain |
| SyncTheorems.OneOperationAtATime | frontend/src/editor/sync-controller.ts:88-99 | a page sends a request only when none of its own is outstanding, and then waits for that one |
| SyncTheorems.CommandRunsAlone | frontend/src/editor/sync-controller.ts:177-197 | while a command's operation is outstanding nothing is unacknowledged, its card holds every local edit, and no edit changes the text |
| SyncTheorems.OneComponentPerKey | migrations/versions/20260910_30_editor_sync.py:31-39 | one creation key names at most one component, whatever was lost, retried, crashed or recovered |
| SyncTheorems.OneAnswerPerKey | src/arduino_component_kb/catalog/synchronization.py:39-66 | every successful answer to one creation key is about the same component |
| SyncTheorems.CrashOffersTheDraft | frontend/src/editor/sync-controller.ts:47-70 | if a page dies dirty and locally stored, and nobody else has touched the entry since the page last wrote it, the next page opened on the entry, however much later, is offered exactly its last state, creation key and base token |
| SyncTheorems.CrashKeepsTheOffer | frontend/src/editor/sync-controller.ts:47-70 | the same from an undisturbed entry on, whatever happens between the death and the reopening short of touching the entry, answers to the dead page's requests included |
| SyncTheorems.WorkWasWritten | frontend/src/editor/sync-controller.ts:64-70 | work a page reports as unsaved but stored was written by an earlier event of that page |
| SyncTheorems.OfferIsTheLastTouch | frontend/src/editor/sync-controller.ts:47-70 | in general the next page opened on an entry is offered what the last step that touched the entry left there: the acting page's state, key and base, or nothing if that step removed it |
| SyncTheorems.LastTouch | frontend/src/editor/sync-controller.ts:64-70 | what a step that writes or removes an entry leaves there: the acting page's present draft, or nothing |
| SyncTheorems.EntryStays | frontend/src/editor/recovery.ts:34-59 | over any run an entry nobody touches stays as it is |
| SyncTheorems.RecoverRestores | frontend/src/editor/sync-controller.ts:143-166 | accepting an offer, at once or when its card has come, makes the draft current and ends in a conflict without timer and drain exactly when the card is not at the draft's base token |
| SyncTheorems.StaleDraftSendsNothing | frontend/src/editor/sync-controller.ts:143-176 | from the event that takes a stale draft on, the conflict stays, no timer is set and no request is sent, up to a discard or the start of a command |
| SyncTheorems.SharedEntryLosesTheDraft | frontend/src/editor/sync-controller.ts:139-140 | from every state, another page on the same entry that finishes its save removes a draft its owner still reports as stored |
| SyncTheorems.ConflictEndsExactly | frontend/src/editor/sync-controller.ts:88-99 | in a conflict no event sends anything, and only a discard that goes through or the start of a command ends it |
| SyncTheorems.ConflictSendsNothing | frontend/src/editor/sync-controller.ts:167-176 | over any sequence of events without discard and command start, a conflict stays and no request is sent |
| SyncTheorems.SuccessProgresses | frontend/src/editor/sync-controller.ts:100-142 | each successful answer uses up one of the requests a drain still needs; the last one leaves the page saved and clean |
| SyncTheorems.StartProgresses | frontend/src/editor/sync-controller.ts:97-110 | a scheduled drain with valid fields starts by sending, and needs no more requests than before |
| SyncTheorems.CalmStep | frontend/src/editor/sync-controller.ts:88-142 | once edits stop, every event keeps the page saving, and the number of requests still needed drops by one with each answer and never otherwise |
| SyncTheorems.DrainEndsSaved | frontend/src/editor/sync-controller.ts:100-142 | once edits stop, from any scheduled or running drain whose requests succeed and whatever timers, flushes and commands come in between, exactly the requests needed, at most two, are answered, and with the last one the page is saved |
| SyncTheorems.SaveReachesServer | src/arduino_component_kb/catalog/synchronization.py:68-142 | an undenied save of a page nobody has overtaken is accepted, its answer leaves the page saved, and the server holds the text on screen |
| SyncTheorems.CommandDefeatsConflict | frontend/src/editor/sync-controller.ts:192-195 | from every dirty page in a stale conflict, a command's failed flush lets the next save through under a token the text does not descend from, and the server accepts it |
| SyncEndToEnd.TextReachesServer | frontend/src/editor/sync-controller.ts:100-142 | end to end: from any drain of a page with valid fields, created already or not, that the server is current with, over any stretch of a run in which nobody edits, closes or overtakes the page, denies its requests or loses its answers, exactly the answers needed, at most two, arrive before it says saved, and then the server holds the text on screen |
| SyncEndToEnd.NeverStuck | frontend/src/editor/sync-controller.ts:88-142 | until then a next step is always possible, leaves the page alone, and leaves fewer of at most six to take |
| SyncEndToEnd.StaysHeld | src/arduino_component_kb/catalog/synchronization.py:33-37 | a page left alone stays one the server is current with and whose answers are successes: acceptance is proved, not assumed |
| SyncEndToEnd.OwnAccepted | src/arduino_component_kb/catalog/synchronization.py:33-142 | the server accepts the outstanding create, save or command of a page it is current with, and is at the version it answers |
| SyncEndToEnd.StaysOnItsWay | frontend/src/editor/sync-controller.ts:111-141 | every step of such a run keeps the page on its way, and only an answer uses up a needed request |
| SyncEndToEnd.ThereNow | frontend/src/editor/sync-controller.ts:139-141 | a page with its drain done that the server is current with has its text on the server, also while a command's answer is on its way |
| SyncOutcomes.EditIsTaken | frontend/src/editor/sync-controller.ts:71-83 | an edit of a page neither disposed, in a command, nor offering a draft becomes the text, one generation on and unsaved; it is stored exactly if the write succeeds, and scheduled exactly if it has no errors and no conflict is showing |
| SyncOutcomes.EditIsIgnored | frontend/src/editor/sync-controller.ts:72 | any other page ignores it altogether |
| SyncOutcomes.EditIsSent | frontend/src/editor/sync-controller.ts:71-114 | after an edit without errors the timer can fire, the drain it schedules can start, and what leaves is that text, under the card's id and token or else under the creation key |
| SyncOutcomes.NothingInvalidIsSent | frontend/src/editor/sync-controller.ts:92-107 | over any sequence of events no create and no save carries a text the validator rejects |
| SyncOutcomes.CallIsTaken | frontend/src/editor/sync-controller.ts:177-182 | a command call is taken exactly by a page neither disposed, busy, nor in a command |
| SyncOutcomes.CleanCommandIsSent | frontend/src/editor/sync-controller.ts:182-186 | with nothing to save a called command is sent at once, on the card shown; without a card it fails |
| SyncOutcomes.CommandFollowsSave | frontend/src/editor/sync-controller.ts:182-195 | with unsaved work the work is saved first and the command follows on the card that answers; a refusal ends it, showing a conflict exactly if it was one |
| SyncOutcomes.BlockedCommandFails | frontend/src/editor/sync-controller.ts:88-93 | where nothing can be sent a command fails at once and sends nothing |
| SyncOutcomes.CommandEnds | frontend/src/editor/sync-controller.ts:186-197 | however a command ends, the page shows what the answer says, and the next edit and the next call are taken |
| SyncOutcomes.CommandsAreCalls | frontend/src/editor/sync-controller.ts:177-198 | over every run a page's command requests number at most the calls it has taken |
| SyncOutcomes.EventSteady | frontend/src/editor/sync-controller.ts:71-201 | over every event: a command leaves only for a call, busy is as last told, a disposed page stays silent, work that stops being unsaved takes its local entry with it, and the creation key is the page's own or that of an offer it took |
| SyncOutcomes.FlushStarts | frontend/src/editor/sync-controller.ts:88-99 | a flush stops the timer and starts a drain exactly on unsaved work that may be sent and is not being sent |
| SyncOutcomes.DisposedKeepsItsText | frontend/src/editor/sync-controller.ts:114 | disposing stops the timer, and no answer changes a disposed page's text or card |
| SyncOutcomes.DisposedIsSilent | frontend/src/editor/sync-controller.ts:199 | a disposed page never sends again, whatever still settles |
| SyncOutcomes.DiscardShows | frontend/src/editor/sync-controller.ts:167-176 | a discard with nothing under way shows the replacement, or else what the page was opened with, saved, with nothing offered and no local entry |
| SyncOutcomes.DiscardWaits | frontend/src/editor/sync-controller.ts:168 | while a drain or a command is under way a discard changes nothing |
| SyncOutcomes.DiscardBringsBack | frontend/src/editor/sync-controller.ts:167-176 | over every run: however long a page has been open, a discard that goes through brings back what it was opened with, or the replacement it is given, and removes the entry |
| SyncOutcomes.SavedShowsTheCard | frontend/src/editor/sync-controller.ts:47-53 | over every run in which pages are opened with their card's document and replacements bring theirs, a page that says saved and shows a card shows that card's document, edited before or not, discarded or not |
| SyncOutcomes.OpenShows | frontend/src/editor/sync-controller.ts:47-53 | a page opens on what it is given, nothing unsaved and nothing under way, and says recovery exactly if it finds a draft, which it then offers |
| SyncOutcomes.KeyStays | frontend/src/editor/sync-controller.ts:41 | over every run a page that has accepted no offer keeps the creation key it was opened with |
| SyncOutcomes.CreatesUnderItsKey | frontend/src/editor/sync-controller.ts:112-113 | and sends every create, repeated ones included, under that key |
| SyncOutcomes.OneOwnerPerKey | src/arduino_component_kb/catalog/synchronization.py:43-46 | over every run one creation key is only ever answered to one actor |
| SyncOutcomes.CreateIsFollowedBySave | frontend/src/editor/sync-controller.ts:115-128 | a created card is shown with the merged text, and that text is saved next, at the first token |
| SyncOutcomes.EditedCreateConflicts | frontend/src/editor/sync-controller.ts:119-121 | a create answered with a card already edited ends in a conflict, and nothing is sent |
| SyncOutcomes.SaveIsAcknowledged | frontend/src/editor/sync-controller.ts:115-140 | an answered save leaves the text alone; if it was the latest the page is saved and its entry gone, else the newer text is saved next under the new token |
| SyncOutcomes.InvalidEndsTheDrain | frontend/src/editor/sync-controller.ts:103-106 | a text edited into errors while its drain runs is not sent: the drain ends and the page says invalid |
| SyncOutcomes.RefusalIsShown | frontend/src/editor/sync-controller.ts:130-136 | a refusal keeps the text unsaved and its draft, ends the drain, and shows a conflict exactly if it is one |
| SyncOutcomes.RetryRepeats | frontend/src/editor/sync-controller.ts:88-114 | after any other failure the next flush sends the text again under the same key or token: unless it was edited, exactly the request that failed |
| SyncOutcomes.StaleSaveConflicts | src/arduino_component_kb/catalog/synchronization.py:33-37 | over every run the save of an overtaken page is turned away as a conflict; delivered, the conflict is shown, the text stays, and its draft is stored |
| SyncOutcomes.RecoverAsksForTheCard | frontend/src/editor/sync-controller.ts:143-156 | a page without a card that offers a draft of a component asks for its card, and goes on offering if that fails |
| SyncOutcomes.SavedWorkIsForgotten | frontend/src/editor/sync-controller.ts:139-140 | over every run work that stops being unsaved leaves no entry: until somebody writes it again, the next page opened on it is offered nothing |
| SyncFailures.CommandOverwritesVersion | frontend/src/editor/sync-controller.ts:192-195 | a run from a stored stale draft, inconsiderate only in the command's start: recover, command, flush; the server accepts, over version two, a text that descends from version one |
| SyncFailures.SharedDraftIsLost | frontend/src/editor/sync-controller.ts:139-140 | a considerate run with two pages on one entry, in which one dies reporting its work as stored and the next page opened on the entry is offered nothing |
| ClientInvariants.SoundStep | frontend/src/editor/sync-controller.ts:71-199 | every controller event keeps the bookkeeping invariant, at most one outstanding request (the last one sent), and local storage told the present draft |
| ClientInvariants.SoundEdit | frontend/src/editor/sync-controller.ts:71-83 | an edit keeps the three promises, whether or not it is ignored, invalid or in a conflict |
| ClientInvariants.SoundDelivered | frontend/src/editor/sync-controller.ts:111-141 | the settling of a save or create keeps them on every path: disposed, refused, token other than 1, acknowledged, overtaken by edits |
| ClientInvariants.DeliveredLands | frontend/src/editor/sync-controller.ts:115-137 | where a settled request leaves text, storage and status before the drain goes on or ends |
| ClientInvariants.DrainedHead | frontend/src/editor/sync-controller.ts:100-110 | the head of the drain loop keeps the text and sends exactly what becomes outstanding |
| ClientInvariants.SoundStartCommand | frontend/src/editor/sync-controller.ts:182-191 | a command that starts, waits for its flush or fails keeps the three promises |
| ClientInvariants.SoundCommandDelivered | frontend/src/editor/sync-controller.ts:186-196 | so does the end of a command |
| ClientInvariants.SoundRecover | frontend/src/editor/sync-controller.ts:143-166 | so does accepting an offered draft |
| ClientInvariants.SoundLoaded | frontend/src/editor/sync-controller.ts:146-156 | so does the arrival of the card a draft belongs to |
| ClientInvariants.SoundDiscard | frontend/src/editor/sync-controller.ts:167-176 | so does discarding |
| ClientInvariants.BasedKeptExactly | frontend/src/editor/sync-controller.ts:192-195 | the token a page will send is the one its text is based on, kept by every event except exactly a command started in a stale conflict |
| ClientInvariants.OriginKept | frontend/src/editor/sync-controller.ts:123-128 | the base token keeps naming the version the text descends from |
| ClientInvariants.TakesDraftExactly | frontend/src/editor/sync-controller.ts:143-160 | an offered draft is taken exactly by a page neither disposed nor in a command, at once where it needs no card and else when its card has come |
| ClientInvariants.RecoveryTakesExactly | frontend/src/editor/sync-controller.ts:157-165 | a recovery makes the offered draft the text exactly when no command is in flight |
| ClientInvariants.ContentedKept | frontend/src/editor/sync-controller.ts:116-128 | with everything acknowledged, the card's document stays the text on screen |
| ClientInvariants.CardKept | frontend/src/editor/sync-controller.ts:111-117 | a page's card only ever comes from an answer, a load or a discard |
| ClientInvariants.AcksStep | frontend/src/editor/sync-controller.ts:126-129 | everything is acknowledged only if it was, or a save of the present text has just been answered |
| ProtocolInvariant.StepKeeps | frontend/src/editor/sync-controller.ts:100-142 | every considerate step of any page, the server, another writer or the environment keeps the invariant of the whole system |
| ProtocolInvariant.HandleSpends | src/arduino_component_kb/api/component_sync.py:80-101 | an accepted save is the last its page can get accepted for that component |
| ProtocolInvariant.HandleLog | src/arduino_component_kb/api/component_sync.py:88-98 | the log of accepted saves stays a chain of successive versions |
| ProtocolInvariant.HandleKeeps | src/arduino_component_kb/api/component_sync.py:88-101 | one server transaction keeps the invariant and only moves the server forward |
| ProtocolInvariant.ActPage | frontend/src/editor/sync-controller.ts:71-199 | one page event keeps the page's text based on, and descended from, a committed version |
| ProtocolInvariant.ActSends | frontend/src/editor/sync-controller.ts:112-114 | what a page sends cites the version its text descends from |
| ProtocolInvariant.ActDisk | frontend/src/editor/sync-controller.ts:64-70 | unless someone else touched it, the local entry is the page's present draft |
| ProtocolInvariant.ActSaved | frontend/src/editor/sync-controller.ts:139-141 | a page with everything acknowledged has no older save left that could be accepted |
| ProtocolInvariant.ActKeeps | frontend/src/editor/sync-controller.ts:71-199 | one page event keeps the invariant for all pages, also those sharing its local entry |
| ProtocolInvariant.CrashKeeps | frontend/src/editor/sync-controller.ts:64-70 | a page's death keeps the invariant and its stored draft |
| SyncController.StashIsOffered | frontend/src/editor/recovery.ts:16-47 | a draft one controller stores is offered to the next one on its entry exactly for seven days, its key, token and form being in order |
| SyncController.Controller.constructor | frontend/src/editor/sync-controller.ts:47-53 | a new controller is the specified initial state, offering what local storage holds in the form's shape, field errors or not |
| SyncController.Controller.Persist | frontend/src/editor/sync-controller.ts:64-70 | writes the present draft to local storage and shows whether that worked |
| SyncController.Controller.Edit | frontend/src/editor/sync-controller.ts:71-83 | the fields after an edit are those of the specified step, and storage holds its draft |
| SyncController.Controller.Flush | frontend/src/editor/sync-controller.ts:88-99 | the fields and the outcome of a flush are those of the specified step |
| SyncController.Controller.Drain | frontend/src/editor/sync-controller.ts:100-110 | the head of the drain loop follows the specification, request and removal of the local entry included |
| SyncController.Controller.Take | frontend/src/editor/sync-controller.ts:116-142 | the continuation after a card has come shows it, acknowledges what was sent or refuses a created card already edited, and writes the draft that leaves |
| SyncController.Controller.Deliver | frontend/src/editor/sync-controller.ts:111-142 | the continuation after a save or create follows it on every path |
| SyncController.Controller.StartCommand | frontend/src/editor/sync-controller.ts:182-186 | the deferred start of a command follows it |
| SyncController.Controller.DeliverCommand | frontend/src/editor/sync-controller.ts:186-196 | the end of a command follows it |
| SyncController.Controller.Recover | frontend/src/editor/sync-controller.ts:143-166 | recovery follows it, the request for a missing card included, and storage then holds the recovered draft, or is untouched where nothing was recovered |
| SyncController.Controller.DeliverLoad | frontend/src/editor/sync-controller.ts:147-165 | the continuation after that card arrives follows it, in the fields and in storage |
| SyncController.Controller.Discard | frontend/src/editor/sync-controller.ts:167-176 | discarding follows it, and removes the local entry exactly when it goes through |
| SyncController.Controller.CallCommand | frontend/src/editor/sync-controller.ts:177-182 | a command call is accepted or ignored as specified |
| SyncController.Controller.Dispose | frontend/src/editor/sync-controller.ts:199 | disposing follows it |
| EditTokens.Updated | migrations/versions/20260910_30_editor_sync.py:20-30 | a transaction raises the token by the number of its UPDATEs and the revision by the number of those that record history, and leaves the last document |
| EditTokens.LifeCounts | migrations/versions/20260910_30_editor_sync.py:20-30 | over any sequence of UPDATEs the token counts them and the gap to the revision never shrinks |
| EditTokens.RevisionBelowToken | migrations/versions/20260910_30_editor_sync.py:19-30 | from the backfill on no revision exceeds its token |
| EditTokens.LegacyGuardExact | src/arduino_component_kb/api/catalog.py:1072-1085 | a revision-only request passes the guard exactly when the row has not been updated since it was read and was in step with its token then |
| EditTokens.AutosaveLocksOutLegacy | src/arduino_component_kb/api/catalog.py:1072-1085 | after one autosave no revision the row ever had or will have passes the guard again |
| Server.AcceptedExactly | src/arduino_component_kb/catalog/synchronization.py:33-37 | a write is accepted exactly when nothing denies it and it carries the stored token; a refusal leaves the tables as they were; the new token counts the UPDATEs |
| Server.RefusedExactly | src/arduino_component_kb/catalog/synchronization.py:33-37 | a refusal is a conflict exactly on another stored token, whatever else would deny the write, and any other refusal exactly on a missing row or a denial |
| Server.CreateRefusedExactly | src/arduino_component_kb/catalog/synchronization.py:39-47 | a create is refused exactly on a denial or a key whose component is another owner's or gone, and then changes nothing |
| Server.OthersUntouched | src/arduino_component_kb/catalog/synchronization.py:68-165 | a request changes no row but the one it answers with |
| Server.CreateIsIdempotent | src/arduino_component_kb/catalog/synchronization.py:39-66 | a new key gets a new component with the document sent, at first token and revision; repeating the request changes nothing, answers the owner with the same card and refuses anybody else |
| Server.OnlyOwnerIsAnswered | src/arduino_component_kb/catalog/synchronization.py:43-46 | a key answers nobody but its owner, whatever happened to its component since |
| Server.ServeKeeps | src/arduino_component_kb/api/component_sync.py:58-155 | every transaction keeps the tables consistent, only moves them forward, and answers what the request asked |
| Server.ServeCreateKeeps | src/arduino_component_kb/catalog/synchronization.py:39-66 | creation answers with a committed card of the component recorded for the key |
| Server.ServeLockedKeeps | src/arduino_component_kb/catalog/synchronization.py:68-165 | a locked change cites a committed version and commits the next one |
| Database.Tables.Migrate | migrations/versions/20260910_30_editor_sync.py:19 | the backfill sets every row's token to its revision and changes nothing else |
| Database.Tables.Update | migrations/versions/20260910_30_editor_sync.py:20-30 | one UPDATE, whatever token it would write, stores the trigger's |
| Database.Tables.LegacyTokenGuard | src/arduino_component_kb/api/catalog.py:1072-1085 | returns the row exactly when the expected token is the stored one, and tells a missing row from a conflict |
| Database.Tables.ChangeLocked | src/arduino_component_kb/catalog/synchronization.py:33-37 | a save or command on the locked row does its UPDATEs one by one and is the specified transaction, undone completely when it is denied |
| Database.Tables.Create | src/arduino_component_kb/catalog/synchronization.py:39-66 | idempotent creation is the specified transaction |
| Database.Tables.Handle | src/arduino_component_kb/api/component_sync.py:58-155 | every request's handler is the specified transaction |
| Creations.CreationsAreAtomic | src/arduino_component_kb/catalog/synchronization.py:39-66 | however creations interleave statement by statement, each changes the committed tables and answers exactly as one atomic creation at the moment of its answer |
| Creations.KeyStillFree | migrations/versions/20260910_30_editor_sync.py:31-39 | under the advisory lock on part of the key, the primary key never turns a creation away |
| Creations.OneAtATime | src/arduino_component_kb/catalog/synchronization.py:41-42 | two transactions on one key are never past the lock together |
| Creations.StepKeeps | src/arduino_component_kb/catalog/synchronization.py:39-66 | every statement, commit and abort, and every unrelated commit, keeps the lock discipline and what each transaction has seen |
| Creations.OneComponentPerKey | src/arduino_component_kb/catalog/synchronization.py:49-56 | in every such run one key has one component |
| Recovery.LocalStorage.ReadRecovery | frontend/src/editor/recovery.ts:16-32 | returns the stored draft exactly when it is present, small enough, well-formed and in time |
| Recovery.LocalStorage.WriteRecovery | frontend/src/editor/recovery.ts:34-47 | the eviction loop removes exactly the oldest other editor entries needed, then writes; an oversized or failing write reports it |
| Recovery.LocalStorage.RemoveRecovery | frontend/src/editor/recovery.ts:49-51 | removes one key and nothing else |
| Recovery.LocalStorage.ClearEditorRecovery | frontend/src/editor/recovery.ts:53-59 | removes every editor entry and nothing else |
| Recovery.StoreStaysBounded | frontend/src/editor/recovery.ts:34-59 | over any sequence of uses, failing writes included, at most eight editor entries stay and no other key changes |
| Recovery.WriteBounds | frontend/src/editor/recovery.ts:38-45 | a successful write leaves at most eight editor entries, however many there were |
| Recovery.EvictsFirstListed | frontend/src/editor/recovery.ts:38-43 | what a write evicts stands first in the listing: wherever an entry is gone, so is every other editor entry listed before it |
| Recovery.ReadExactly | frontend/src/editor/recovery.ts:16-32 | an entry is read exactly if it is present, of 1 to 512,000 characters, version 1, saved no more than seven days ago and at most a minute ahead, with key, token and document in order |
| Recovery.WriteLeavesSeven | frontend/src/editor/recovery.ts:38-43 | a write keeps all other editor entries below eight and exactly seven from eight on |
| Recovery.WriteSparesOthers | frontend/src/editor/recovery.ts:38-43 | below eight others, a write leaves every other key of the storage as it was |
| Recovery.WrittenIsReadBack | frontend/src/editor/recovery.ts:16-47 | a successful write is read back equal exactly while the record is in time and valid |
| Recovery.SparedStays | frontend/src/editor/recovery.ts:34-59 | over any sequence of uses that neither name a key nor evict it, its entry stays |
| Recovery.SparedIsReadBack | frontend/src/editor/recovery.ts:16-59 | a draft successfully written is read back after any such sequence of uses exactly while it is in time and valid, and never replaced by another |
| Spring.PositionFollowsVelocity | frontend/src/components/OledLoginDisplay.tsx:77-79 | in a frame the position moves by exactly the new velocity |
| Spring.PullAndCoast | frontend/src/components/OledLoginDisplay.tsx:77-79 | from rest a coordinate goes 0.0656 of the way towards its target, on either side; on its target it coasts at 0.82 of its velocity |
| Spring.Superposition | frontend/src/components/OledLoginDisplay.tsx:77-79 | over any number of frames a sum of two motions moves as the two do separately |
| Spring.UnsettledExactly | frontend/src/components/OledLoginDisplay.tsx:80 | a coordinate is unsettled exactly if it was more than 0.001 away or now moves by more than that |
| Spring.EnergyShrinks | frontend/src/components/OledLoginDisplay.tsx:77-79 | the quadratic form of distance and velocity shrinks by exactly 0.82 per frame |
| Spring.EnergyAfter | frontend/src/components/OledLoginDisplay.tsx:77-79 | after n frames it is exactly 0.82 to the n of the start |
| Spring.EnergyBounds | frontend/src/components/OledLoginDisplay.tsx:77-79 | the form is positive semidefinite and bounds distance and velocity |
| Spring.EnergyVanishes | frontend/src/components/OledLoginDisplay.tsx:77-79 | it vanishes only at rest on the target |
| Spring.RestsAfter | frontend/src/components/OledLoginDisplay.tsx:80 | four frames for each doubling of the starting energy bring a coordinate to rest |
| Spring.AlwaysStops | frontend/src/components/OledLoginDisplay.tsx:80-83 | from any start there is a frame from which on the stop test always passes |
| Spring.StillMoving | frontend/src/components/OledLoginDisplay.tsx:80-83 | a frame is requested only before the logarithmic bound |
| Spring.Display.Animate | frontend/src/components/OledLoginDisplay.tsx:72-84 | one call moves all four coordinates by the recurrence, each by its new velocity, and requests a frame exactly if one of them was unsettled |
| Spring.Display.RunToRest | frontend/src/components/OledLoginDisplay.tsx:72-84 | with a fixed target the chain of requested frames ends within four frames per doubling plus one, every coordinate within 0.002 of its target |
| Contrast.LinearGrows | frontend/src/theme/colors.ts:47-50 | the sRGB curve rises from each channel value to the next, also where its two pieces meet |
| Contrast.LuminanceWeighs | frontend/src/theme/colors.ts:45-52 | luminance adds up over the channels, whose weights are 0.2126, 0.7152 and 0.0722 |
| Contrast.LuminanceGrows | frontend/src/theme/colors.ts:45-52 | and rises with each channel |
| Contrast.ContrastRange | frontend/src/theme/colors.ts:53-56 | contrast is symmetric and lies between 1 and 21 |
| Contrast.BlackTimesWhite | frontend/src/theme/colors.ts:53-56 | an accent's contrasts with black and with white multiply to 21 |
| Contrast.OnAccentReadable | frontend/src/theme/colors.ts:57-59 | the chosen text colour reaches the square root of 21, so 4.5:1, on every accent |
| Contrast.BackgroundsAreTinted | frontend/src/theme/colors.ts:69-71 | the backgrounds are the four surfaces and the nearest colours 0.18, in the light theme 0.14, of the way from each to the accent |
| Contrast.CandidateOnTheWay | frontend/src/theme/colors.ts:60-63 | a candidate is the nearest colour so many hundredths of the way from the accent to white or black, and the only one |
| Contrast.BetweenEnds | frontend/src/theme/colors.ts:60-63 | what lies on the way lies, channel by channel, between the accent and the end of the way |
| Contrast.BackgroundsShaded | frontend/src/theme/colors.ts:69-71 | all eight backgrounds stay dark in the dark theme and light in the light one, whatever the accent |
| Contrast.LastStepMeets | frontend/src/theme/colors.ts:72-78 | step 100 is pure white or black and reaches 4.5:1 on all eight backgrounds, so the fallback is never needed |
| Contrast.Readable | frontend/src/theme/colors.ts:72-78 | returns the nearest colour at the first hundredth of the way that reaches the minimum on every background, the accent itself wherever that does, and reaches every minimum up to 4.5 |
| Contrast.AccentTokens | frontend/src/theme/colors.ts:83-85 | border, text and on-accent colours reach 3:1, 4.5:1 and 4.5:1 in both themes for every accent; border and text are the accent itself where that does, and else the first colour on the way that does |
| Hsv.RoundTrip | frontend/src/theme/colors.ts:28-44 | RGB to HSV and back is the identity on all of [0,1] cubed, boundaries, greys and black included |
| Hsv.RoundTripHsv | frontend/src/theme/colors.ts:28-44 | HSV to RGB and back is the identity for every hue in [0,360) with positive saturation and value |
| Hsv.HueIsCyclic | frontend/src/theme/colors.ts:29 | whole turns of the hue, negative ones too, change nothing |
| Hsv.TurnRange | frontend/src/theme/colors.ts:29 | the hue normalises into [0,360) by whole turns |
| Hsv.RemSpec | frontend/src/theme/colors.ts:41-43 | the remainder keeps the dividend's side and stays within one turn |
| Hsv.Corners | frontend/src/theme/colors.ts:37-44 | red, yellow, green, cyan, blue and magenta stand at 0, 60, 120, 180, 240 and 300 degrees |
| Hsv.ChannelIsNearest | frontend/src/theme/colors.ts:25-27 | a channel is written as the nearest of the levels 0 to 255 |
| Hsv.BeyondTheRange | frontend/src/theme/colors.ts:30-32 | saturation and value beyond their range count as its ends |
| Hsv.GreyHasNoHue | frontend/src/theme/colors.ts:41-43 | a grey has no hue and no saturation |
| Hsv.HexRoundTrip | frontend/src/theme/colors.ts:25-44 | every six-digit hex colour survives the round trip, rounding included |
| Admission.MatchesExactly | src/arduino_component_kb/api/imports.py:443-445 | a stored job answers for another request exactly when the comparison cannot see the difference: the page of its own repository, or the same entry of another source |
| Admission.OwnRequestOnly | src/arduino_component_kb/api/imports.py:623-636 | among requests the endpoints let through, a stored job answers for its own alone, if no repository's address is an approved page |
| Admission.AddressesAreSeparate | src/arduino_component_kb/imports/urls.py:13-44 | under any URL policy that approves nothing off the approved hosts, as the deployed one does, and with the two seeded repositories, none is |
| AdmissionRuns.StepKeeps | src/arduino_component_kb/api/imports.py:311-354 | every statement of a submission, and every worker, sweep, cancellation and retry step between them, keeps the admission invariant |
| AdmissionRuns.IndexNeverViolated | src/arduino_component_kb/api/imports.py:426-442 | under the advisory lock the unique index can never reject the insert |
| AdmissionRuns.AddKeepsQuotas | src/arduino_component_kb/api/imports.py:325-335 | the counts taken earlier under the lock still leave room when the row is added |
| AdmissionRuns.AddKeepsRates | src/arduino_component_kb/api/imports.py:321-328 | the new job fits the window its admission measured |
| AdmissionRuns.UpdateKeepsQuotas | src/arduino_component_kb/imports/processor.py:55-76 | nothing that happens to one job raises the number of active jobs that never failed |
| AdmissionRuns.JobKeeps | src/arduino_component_kb/imports/repository.py:464-483 | no step exceeds a job's attempts, and none changes its ticket: what a finished repository import writes over the identity columns is what they hold |
| AdmissionTheorems.QuotasHold | src/arduino_component_kb/api/imports.py:330-334 | in every run, active jobs exceed the per-actor and global limits by no more than the active ones that had failed and come back |
| AdmissionTheorems.RevivesExactly | src/arduino_component_kb/imports/processor.py:283-296 | a job returns from failure exactly by a manual retry or by the transient failure of an attempt that outlived it with attempts left |
| AdmissionTheorems.LimitsHoldWithoutRevival | src/arduino_component_kb/api/imports.py:330-334 | in runs without such a return both limits hold throughout |
| AdmissionTheorems.RevivalRaises | src/arduino_component_kb/imports/processor.py:283-296 | each such return raises its actor's active count by one, unchecked |
| AdmissionTheorems.LimitCanBePassed | src/arduino_component_kb/imports/processor.py:283-296 | a run in which two jobs are active under a limit of one |
| AdmissionTheorems.EveryWindowHolds | src/arduino_component_kb/api/imports.py:321-329 | no window of the configured length, both ends included, ever holds more new jobs of an actor than the rate limit |
| AdmissionTheorems.NewJobIsItsRequests | src/arduino_component_kb/imports/repository.py:186-250 | a new job is queued, without attempts, for its own request and no other the endpoints admit, under the source it names |
| AdmissionTheorems.OneJobOneRequest | src/arduino_component_kb/api/imports.py:318-320 | in every run, two accepted answers under one actor and key name the same job and answer the same request |
| AdmissionTheorems.OneJobOneRequestDeployed | src/arduino_component_kb/imports/urls.py:13-48 | the same with the deployed sources and approved hosts, where it needs no further hypothesis |
| AdmissionTheorems.CancelledIsFinal | src/arduino_component_kb/imports/repository.py:151-160 | a cancelled job stays cancelled in every run, whatever its workers still report |
| AdmissionTheorems.SuccessUndoneExactly | src/arduino_component_kb/imports/processor.py:299-307 | a succeeded job is undone exactly by the lasting failure of another attempt |
| AdmissionTheorems.AttemptKeepsItsLease | src/arduino_component_kb/imports/processor.py:53-76 | an attempt counts at once; the next one starts, and a manual retry requeues the job, exactly when its lease is over |
| AdmissionTheorems.AttemptsRunOut | src/arduino_component_kb/imports/processor.py:55-65 | no attempt starts on a job that ended or has none left, and one whose source is inactive fails without counting |
| AdmissionTheorems.TransientWaits | src/arduino_component_kb/imports/processor.py:283-296 | a transient failure ends in a retry while attempts are left and else in failure; the waiting job can be requeued by hand once its backoff and then the lease are over, the failed one at once |
| AdmissionTheorems.EndsDecideRetry | src/arduino_component_kb/imports/repository.py:121-150 | a job that ended can be requeued by hand exactly if it failed |
| AdmissionTheorems.EndedStays | src/arduino_component_kb/imports/repository.py:151-160 | sweep and cancellation leave an ended job alone, and so does any late report to a cancelled one |
| AdmissionTheorems.SuccessCanBeUndone | src/arduino_component_kb/imports/processor.py:299-307 | a run in which the second attempt starts when the first one's lease is over, one succeeds, and the other's failure then marks the job failed |
| ImportHandlers.Table.AdmitSubmission | src/arduino_component_kb/api/imports.py:311-354 | returns the existing job, or leave to add one with every quota satisfied, or the first quota that is exhausted |
| ImportHandlers.Table.CreateImport | src/arduino_component_kb/api/imports.py:407-453 | turns away what is not allowed, answers with the one job of the actor and key, adds it exactly where there was none and every limit leaves room, else names the first limit that does not, refuses another request under the key, and leaves the table alone on refusal |
| ImportHandlers.Table.CancelImport | src/arduino_component_kb/api/imports.py:747-772 | cancels exactly an active job the caller may see, changes that row alone and to the specified cancelled one, and distinguishes the two refusals |
| ImportHandlers.Table.RetryImport | src/arduino_component_kb/api/imports.py:710-744 | requeues exactly a failed or stale job, changes that row alone and to the specified requeued one with no attempts used; a queued one is left alone |
| SpecificationKeys.KeySatisfiesServer | frontend/src/editor/technical-specifications.ts:38-50 | for every label, in all three branches, the key is 1 to 100 characters of the server's pattern |
| SpecificationKeys.MatchesIsSlug | src/arduino_component_kb/api/catalog.py:100-101 | the pattern, as words joined by single hyphens, and its character-wise reading accept the same texts |
| SpecificationKeys.StableHash | frontend/src/editor/technical-specifications.ts:29-36 | the 32-bit loop computes the specified hash, always eight hexadecimal digits |
| SpecificationKeys.SlugIsItsWords | frontend/src/editor/technical-specifications.ts:38-46 | a slug is the words of the spelt-out label with one hyphen between each two |
| SpecificationKeys.PolarityIsKept | frontend/src/editor/technical-specifications.ts:42-44 | a final sign is the slug's last word, plus or, however the minus is written, minus: labels that differ in it alone have different slugs |
| SpecificationKeys.CyrillicLetters | frontend/src/editor/technical-specifications.ts:5-10 | transliteration as in the table, а to й |
| SpecificationKeys.MoreCyrillicLetters | frontend/src/editor/technical-specifications.ts:5-10 | к to ф |
| SpecificationKeys.LongCyrillicLetters | frontend/src/editor/technical-specifications.ts:5-10 | х to щ, which become several letters |
| SpecificationKeys.LastCyrillicLetters | frontend/src/editor/technical-specifications.ts:5-10 | ъ to я, of which two are dropped |
| SpecificationKeys.OtherLetters | frontend/src/editor/technical-specifications.ts:40-41 | combining marks are dropped and every other character stays |
| SpecificationKeys.HashVectors | frontend/src/editor/technical-specifications.ts:29-36 | two published vectors of the 32-bit FNV-1a hash |
| SpecificationKeys.NamelessKeys | frontend/src/editor/technical-specifications.ts:47 | labels without any slug get the same key exactly if their canonical texts have the same hash |
| SpecificationKeys.LongKeys | frontend/src/editor/technical-specifications.ts:49 | labels with long slugs get the same key exactly if the slugs have the same hash and begin alike |
| SpecificationKeys.KeyIsStable | frontend/src/editor/technical-specifications.ts:38-50 | generating a key from a generated key changes nothing |
| SpecificationNumbers.ScanExact | frontend/src/editor/technical-specifications.ts:61 | a single left-to-right scan finds exactly the number and unit of the only reading the expression allows |
| SpecificationNumbers.MetadataExact | frontend/src/editor/technical-specifications.ts:57-69 | a value has a number and a unit exactly if the expression reads them there, with a point for a comma, and the unit is no size |
| SpecificationNumbers.WholeLimit | frontend/src/editor/technical-specifications.ts:61 | up to sixteen digits are read |
| SpecificationNumbers.DecimalLimit | frontend/src/editor/technical-specifications.ts:61 | and up to eight behind the point |
| SpecificationNumbers.UnitSigns | frontend/src/editor/technical-specifications.ts:61 | which single characters are units |
| SpecificationNumbers.NumbersAreStored | frontend/src/editor/technical-specifications.ts:57-69 | every number taken from a value, as written and as the server's decimal reads it, is a multiple of 10^-8 below 10^16, within the request's length limits |
| SpecificationNumbers.FitsNumericStorage | src/arduino_component_kb/catalog/units.py:97-113 | the server's loop over trailing zeros accepts exactly the decimals NUMERIC(24,8) holds without overflow or rounding |
| SpecificationNumbers.FitsOnly | src/arduino_component_kb/catalog/units.py:103-113 | a representable decimal passes both of its tests |
| SpecificationTable.TrailingExact | frontend/src/editor/technical-specifications.ts:20-27 | the table with its trailing row is filled rows and one blank, or exactly fifty, and such tables are exactly the fixed points |
| SpecificationTable.TrailingFilled | frontend/src/editor/technical-specifications.ts:20-27 | the filled rows stay in order, and only what exceeds fifty is dropped, from the end |
| SpecificationTable.EmptyExactly | frontend/src/editor/technical-specifications.ts:16-18 | a row is empty exactly if its name and value hold nothing but white space |
| SpecificationTable.PastePlace | frontend/src/editor/technical-specifications.ts:155-172 | first the filled rows above the row pasted into, with that row itself if it holds something, then the pasted ones, then the filled rows of the rest |
| SpecificationTable.PasteKeepsRows | frontend/src/editor/technical-specifications.ts:155-172 | a paste keeps all filled rows in order, inserts a prefix contiguously at its place, drops only what exceeds fifty, and leaves a tidy table |
| SpecificationTable.PasteAtInside | frontend/src/editor/technical-specifications.ts:161-165 | the place is behind the row pasted into when that holds something, behind the filled rows above it when it is blank, and behind all at or past the end of the table |
| SpecificationTable.InsertPasted | frontend/src/editor/technical-specifications.ts:155-172 | the splice is the specified merge: filled rows above, pasted rows, filled rows below |
| SpecificationTable.DuplicateKeys | frontend/src/editor/technical-specifications.ts:122-132 | returns exactly the keys that occur at two places |
| SpecificationTable.NormalisedIsItsWords | frontend/src/editor/technical-specifications.ts:71-73 | normalisation keeps the words of a text, a single blank between each two |
| SpecificationTable.InputIsReadAgain | frontend/src/editor/technical-specifications.ts:84-110 | a changed row is sent with trimmed name and normalised value, its own key or one made from its name, and a number and unit exactly if the value reads as such |
| SpecificationTable.NormalisedExact | frontend/src/editor/technical-specifications.ts:71-73 | normalisation leaves exactly trimmed, single-spaced texts alone |
| SpecificationTable.RowsRoundTrip | frontend/src/editor/technical-specifications.ts:84-110 | a card's rows come back from the table with their stored numbers and units exactly when there are at most fifty, none blank, all normalised |
| EditorForm.CommaEntryIsSplit | src/arduino_component_kb/catalog/service.py:1104-1112 | an entry of two parts joined by a comma passes the server's test of lists and comes back from the form as two entries |
| EditorForm.ListIsReadByPieces | frontend/src/pages/ComponentEditorPage.tsx:170-171 | what is typed is read piece by piece between the commas, each trimmed, blank ones left out |
| EditorForm.NoteIsRead | frontend/src/pages/ComponentEditorPage.tsx:169 | a blank note is no note, any other is kept but for the white space at its ends |
| EditorForm.ListRoundTrip | frontend/src/pages/ComponentEditorPage.tsx:170-171 | splitting a joined list gives the list back exactly when its entries are trimmed, non-empty and free of commas |
| EditorForm.NoteRoundTrip | frontend/src/pages/ComponentEditorPage.tsx:169 | an optional text comes back exactly when it is absent, or trimmed and not empty |
| EditorForm.LanguageRoundTrip | frontend/src/pages/ComponentEditorPage.tsx:202 | a language comes back exactly when it is trimmed and lower-case |
| EditorForm.ExampleRoundTrip | frontend/src/pages/ComponentEditorPage.tsx:200-209 | the same for a code example |
| EditorForm.FormRoundTrip | frontend/src/pages/ComponentEditorPage.tsx:123-211 | the form sends an unedited card's own fields exactly when the card is in the form's normal shape |
| Images.EditsKeep | frontend/src/components/ComponentImagesEditor.tsx:277-301 | every sequence of uploads, changes, moves and removals keeps display order equal to index and exactly one primary image |
| Images.Normalised | frontend/src/components/ComponentImagesEditor.tsx:30-39 | normalising distinct images keeps them and gives a valid list with the first marked image, or the first of all, as primary |
| Images.UploadKeeps | frontend/src/pages/ComponentEditorPage.tsx:627-630 | an upload keeps the list valid and becomes primary exactly when it is the first |
| Images.UploadAppends | frontend/src/pages/ComponentEditorPage.tsx:627-630 | an upload comes last, and no image changes its details |
| Images.ChangePrimary | frontend/src/components/ComponentImagesEditor.tsx:277-285 | editing details keeps the primary image; choosing one makes it that one |
| Images.ChangeDetails | frontend/src/components/ComponentImagesEditor.tsx:277-285 | an edit changes its own image's details and no other's |
| Images.UnmarkedPrimary | frontend/src/components/ComponentImagesEditor.tsx:277-285 | unmarking the primary image makes the first one primary |
| Images.MoveUp | frontend/src/components/ComponentImagesEditor.tsx:286-296 | a move up exchanges an image with the one before it; the first one stays |
| Images.MoveDown | frontend/src/components/ComponentImagesEditor.tsx:286-296 | a move down exchanges it with the one behind; the last one stays |
| Images.RemoveTakesOut | frontend/src/components/ComponentImagesEditor.tsx:297-301 | a removal takes out that image and no other |
| Images.OrderedSorts | frontend/src/components/ComponentImagesEditor.tsx:205-207 | sorting keeps the images and puts them in order |
| Images.MoveKeeps | frontend/src/components/ComponentImagesEditor.tsx:286-296 | a move exchanges two neighbours and nothing else, and the same image stays primary |
| Images.MoveImage | frontend/src/components/ComponentImagesEditor.tsx:286-296 | the exchange on a copied array is that move |
| Images.RemoveKeeps | frontend/src/components/ComponentImagesEditor.tsx:297-301 | a removal keeps the others in order, and the primary image unless it was removed, when the first of the rest takes over |
| ImageMigration.MediaAssets.Upgrade | migrations/versions/20260723_19_component_multiple_images.py:23-81 | after the statements every row keeps its data, orders in each component and kind are 0 to n-1 by creation time and id, each component's primary image is its earliest one not rejected, and the new constraints hold |
| ImageMigration.OrdersAreFilled | migrations/versions/20260723_19_component_multiple_images.py:27-43 | orders follow creation and have no gaps |
| ImageMigration.OrdersWithinKind | migrations/versions/20260723_19_component_multiple_images.py:29-33 | the orders of a component's rows of one kind stay below their number, whatever else it has |
| ImageMigration.RanksFill | migrations/versions/20260723_19_component_multiple_images.py:29-33 | every number below a partition's size is some row's number |
| ImageMigration.FirstIsEarliest | migrations/versions/20260723_19_component_multiple_images.py:49-62 | selecting by the new display order selects the earliest image |
| ImageMigration.PrimariesAreEarliest | migrations/versions/20260723_19_component_multiple_images.py:45-62 | there is a primary image wherever there is a candidate, and it is the earliest |
| ImageMigration.ConstraintsHold | migrations/versions/20260723_19_component_multiple_images.py:63-81 | the NOT NULL, check and unique constraints are satisfied by the rewritten rows |

## Left out

- Message texts, `view.error`, listeners and `onCard`/`onSettled` callbacks: no modelled decision depends on them, and listeners are taken not to re-enter the controller.
- Microtask order inside one turn: a finished drain's `finally` and the continuation of a command waiting for it are one step, as nothing can come between them; `resume` is not modelled, disposing is final.
- `commandPending` is not a field of its own: it holds exactly while a command is in flight.
- The document's inner structure, validation, `acceptMetadata`, JSON text, UUIDs and the clock are parameters of the protocol; documents are compared as wholes.
- How many UPDATE statements a transaction issues is a parameter (at least one), as are the permission, lifecycle and validation errors that can end it: their tables and rules are not part of this model.
- Catalog.history, Row.bornOf and the origins, log and accepted maps of Protocol are history: they record what happened and no step reads them.
- Another page's eviction of a local-storage entry is the protocol's `Lose` step; `Recovery` says exactly when a write evicts.
- SyncTheorems.CrashOffersTheDraft: requires that nobody else touches the page's entry, because `SyncFailures.SharedDraftIsLost` shows the guarantee ends there; the flag `readable` of the protocol's `Open` stands for the condition of `Recovery.SparedIsReadBack`, which is about the store alone.
- The order in which `Object.keys` lists local storage is a parameter; "oldest" is what that order says.
- IEEE rounding: colours and the spring use exact reals; the power 2.4 of the sRGB curve is any function with y^5 = x^12 on [0, 1].
- Hexadecimal parsing and printing of colours, preset names, and the theme's style variables: direct conversions.
- The pointer handling around the animation, and reduced motion: they only choose targets and when to start.
- Unicode normalisation and locale lower-casing come before `SpecificationKeys.Key`, and \p{L} is a parameter of `SpecificationNumbers`, disjoint from digits, separators and white space; values reach `Metadata` already trimmed and single-spaced.
- The paste parser's three expressions: the merge takes the rows they return, whose names are not blank.
- Unit conversion and definition conflicts on the server: numbers are followed as far as the storage test.
- Lower-casing of a code example's language is a parameter of `EditorForm`, known to be idempotent and to add no white space at the ends.
- The form's error messages and its focus handling; images are treated in `Images`, not in the form's round trip.
- Dispatch rows and queues: the sweep may fail an active job at any time, which includes when it does; parsers, audit entries and metrics of imports are not modelled, the two sources keep their seeded addresses, an accepted repository path is its own normal form, and a job's maximum attempts are the configuration's.
- `ImportHandlers` runs each handler alone; interleavings are in `AdmissionRuns`, where a submission is one statement at a time.
- Upload, processing and previews of images: an upload enters the list as an asset it does not contain.
- SQL execution, locks' queues and deadlocks: a transaction on a locked row is one atomic step, and so is each statement of `Creations` and `AdmissionRuns`.
- Other migrations, authentication, search, duplicates and media processing.

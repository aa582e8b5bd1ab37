# Classroom learning loop: a verified model

The project models the parts of a classroom web application in which state, retries and untrusted
answers meet, and proves what they are for.

* **The submission protocol.** Any number of pages (tabs, devices, reloads) edit one learner's
  submission: a draft panel with autosave, a queue of images with a recovery store, and a seal with
  an idempotency key. The server is the application's own database store. The network loses,
  delays, repeats and reorders requests; any request ever sent may be served at any time, any
  number of times, and an answer may arrive at any later moment or never. `SubmissionServer` is
  the store, `PracticePanel`, `ImageQueue` and `PracticeClient` are the page between two awaited
  calls, and `SubmissionProtocol` is the transition system. `PanelCell` and `PendingImages` hold
  the same steps as classes that update their fields in place, each method proved equal to the
  function the protocol uses.
  `SubmissionWrites` says of every request when it is accepted and what a reader sees afterwards;
  `SubmissionSteps` and `SubmissionImageSteps` say what every click, timer and answer does to what
  the page shows, stores and sends; `SubmissionFiles` and `SubmissionRemovals` follow every file
  from its choice to its removal.
* **The header's course activity.** Validation of untrusted catalogs, the latest published version
  of each activity, the calendar over all courses in batches of four, approval counts and the
  student scope check (`HeaderCatalog`, `HeaderStudents`, `HeaderDeadlines`, `HeaderCalendar`).
* **Two small state machines.** Joining by invite (`InviteJoin`) and narration completion over
  visits and tabs (`Narration`).
* **Text cores.** Percent-encoding with its round trip (`UriComponent`), download targets
  (`DownloadTarget`), recovery keys and copies (`DraftRecovery`), course ids (`CourseId`),
  idempotency keys (`IdempotencyKey`) and the membership join (`Memberships`).

What a `(version, revision)` pair means is fixed in `SubmissionHistory`: revision `n` of a version
names the state after its `n`-th accepted write, and revision 0 of a sealed version stands for its
sealed text. The server stores a text with its line breaks folded and its ends trimmed, so "the
text the page holds" is always compared in that form.

Several promises are not kept by the code in every run. For each there is a run from the empty
system or an input in which it falls short, and the exact condition, for all inputs, under which
the step at fault keeps it:

* **A conflict without its text.** A stale answer to a seal carries no text and the panel puts ""
  in its place; resolving loses the server's text (`SubmissionFindings.SealConflictLosesText`).
* **A conflict about another version** may be resolved after the page has moved on
  (`SubmissionConflicts.ResolveAboutAnotherVersion`). Resolving is right in every history exactly
  when something the page holds vouches for the text at the resolved pair; for a conflict that
  brings news, exactly when it was quoted and is about the version still held
  (`SubmissionConflicts.ResolveIff`, `FreshResolveIff`).
* **An upload answered late**, or answered by the store's replay branch for an image that the page
  already saw listed, is adopted with the old text (`SubmissionSharedStore.ReplayLosesText`). It
  may be adopted exactly when it names the revision read, or the next one and the file was not
  listed (`SubmissionFindings.UploadAnswerIff`).
  These are the careless steps that `SubmissionTexts.Careful` excludes; without them no update is
  lost in any run.
* **One image in two tabs.** Tabs of a browser share the recovery store, and a page does not look
  at the attachments again before it posts; without the store's replay branch an image is attached
  twice (`SubmissionSharedStore.SharedStoreAttachesTwice`). A post is safe in every history exactly
  when its reading does not list the image or is full (`SubmissionPosting.PostIff`).
* **Two open seal keys** of one browser: after a reload when storage refused the intent
  (`SubmissionFindings.ReloadOpensSecondKey`), or from a second tab that had loaded before
  (`SecondTabOpensSecondKey`). In every run two keys are open exactly if a click made one on a page
  without an intent while another could still take effect (`SubmissionKeys.TwoKeysIff`). What the
  page can test before the click, exactly: writing a new intent keeps every open seal in the slot,
  in every possible history, if and only if the slot is empty or its intent is for an earlier
  revision or version than the pair on screen, and opens no second key if and only if the slot's
  intent is not for that very pair (`SubmissionClicks.ClickIff`). With that guard there is never
  more than one open key in any browser, shared or not (`SubmissionSlots.OneOpenKeyIfGuarded`).
* "Retry save" ignores an open seal intent (`SubmissionFindings.RetrySaveBesideOpenIntent`);
  whatever the run, it and a running image job are the only writes beside an open intent
  (`SubmissionKeys.OpenIntentWrites`).
* **A queued image is lost** when its queue goes with the editor (a reload, a sign-out, a lost
  activity) while its record is not stored, and a stored one when all its copies are older than
  seven days at a recovery read and no page queues it; exactly then
  (`SubmissionImages.LosingLoses`, `NoImageLost`).
* The read-back before an image upload compares the raw text with the stored form, so a draft with
  outer white space or carriage returns conflicts with itself
  (`SubmissionFindings.ReadbackAfterSaveIff`).
* The scope keys of the student dashboard are joined with `:` unencoded; the check is right for all
  dashboards exactly when no approved key splits at another `:` into valid ids
  (`HeaderStudents.ChecksRightlyIff`). The narration storage key is a deck's own exactly when no
  part contains `:` (`Narration.OwnKeyIff`).
* An actor recognises provisional course ids by a prefix; between segments without dashes that is
  exact, but an actor whose segment goes on in another's after a dash takes the other's ids for
  their own (`CourseId.RecognisedIff`, `OwnersApart`, `DashesConfuseOwners`).
* The narration session set survives a change of learner within one course and locale
  (`Narration.LearnerSwitchReportsEarly`); a change of deck is harmless exactly when it keeps the
  key or changes course or locale (`Narration.ShowKeepsHonestIff`).

## Model

| member | source | states |
|---|---|---|
| `JsText.NormalizeIdempotent` | src/lib/learning-loop/domain.ts:109-114 | A stored text is not changed by storing it again |
| `JsText.NormalizeFoldsBreaks` | src/lib/learning-loop/domain.ts:113 | A line break spelt "\r\n" or "\r" is stored as if it were spelt "\n", wherever it stands |
| `JsText.OneFolding` | src/lib/learning-loop/domain.ts:113 | These rules say what every text is folded to: any function that keeps texts without "\r" and reads the three spellings alike is the folding |
| `SubmissionServer.ServeKeeps` | src/lib/learning-loop/postgres-store.ts:967-1388 | Every request keeps the store's invariant; revisions are only appended, a sealed version never changes again, receipts stay |
| `SubmissionServer.NewVersionOk` | src/lib/learning-loop/postgres-store.ts:1075-1112 | The first save of a requested revision opens a version whose only snapshot has the normalised text and the sealed version's attachments, same client ids and files under the new version; the sealed one stays as it was |
| `SubmissionServer.DecideKeeps` | src/lib/learning-loop/postgres-store.ts:1781-1800 | A teacher's decision changes no version, attachment or receipt, only the stage of sealed work that waits for it |
| `SubmissionHistory.OneAcceptedWritePerPair` | src/lib/learning-loop/submission-image-store.ts:145-156 | Compare-and-swap: after one write with a pair is accepted, no save, upload or removal with that pair is ever accepted again |
| `SubmissionHistory.AcceptedSaveReplaces` | src/lib/learning-loop/postgres-store.ts:1028-1125 | An accepted save replaces exactly the text its pair names, with the normalised new text |
| `SubmissionHistory.SaveFoldsBreaks` | src/lib/learning-loop/postgres-store.ts:977 | How a text spells its line breaks makes no difference to a save: same answer, same stored text |
| `SubmissionHistory.SavedIsTrue` | src/lib/learning-loop/postgres-store.ts:1060-1138 | The pair in a save's answer names the saved text in normal form |
| `SubmissionHistory.StaleSaveIsTrue` | src/lib/learning-loop/postgres-store.ts:2635-2650 | A stale answer to a save quotes the text that its revision names |
| `SubmissionHistory.UploadedIsTrue` | src/lib/learning-loop/submission-image-store.ts:28-65 | An upload answer names a later revision; only the very next one is known to hold the text the upload was based on |
| `SubmissionHistory.UploadedOnTop` | src/lib/learning-loop/submission-image-store.ts:36-60 | After an acknowledged upload, fresh or replayed, the named revision is the version's last and holds the image |
| `SubmissionHistory.RemovedIsTrue` | src/lib/learning-loop/submission-image-store.ts:67-85 | A removal's answer names a revision with the unchanged text |
| `SubmissionHistory.ServeKeepsAttachedOnce` | src/lib/learning-loop/submission-image-store.ts:36-51 | No request attaches a client id twice, by the replay branch or by an upload's own pair naming a snapshot without it |
| `SubmissionHistory.ServeAttachesOnlyUploads` | src/lib/learning-loop/submission-image-store.ts:52-60 | Only an upload brings a client id into the history |
| `SubmissionWrites.SaveIff` | src/lib/learning-loop/postgres-store.ts:1028-1125 | A save is accepted exactly if the records are open, the work is editable, and its pair is the one a load at this moment would give |
| `SubmissionWrites.SavedReads` | src/lib/learning-loop/postgres-store.ts:1060-1138 | After an accepted save a reader sees the normalised text and the same files under the answered pair: the next revision, or revision 1 of a new version |
| `SubmissionWrites.RefusedSave` | src/lib/learning-loop/postgres-store.ts:2635-2650 | Every other save is answered with what a load would say: the current text and the revision to go on from, and whether the version changed |
| `SubmissionWrites.UploadIff` | src/lib/learning-loop/submission-image-store.ts:28-60 | An upload is accepted exactly for the open draft and revision a reader sees, with room for it, unless its client id is listed and the store replays |
| `SubmissionWrites.UploadedReads` | src/lib/learning-loop/submission-image-store.ts:52-65 | The file is attached behind the others under its client id, by a revision of its own with unchanged text, under an id that nothing was attached with before |
| `SubmissionWrites.RemovedReads` | src/lib/learning-loop/submission-image-store.ts:67-85 | A removal takes exactly the attachment with this id, by a revision of its own; the others stay, in order, and so does the text |
| `SubmissionWrites.SealIff` | src/lib/learning-loop/postgres-store.ts:1234-1285 | A seal takes effect exactly for the open draft and revision a reader sees, under a new key, unless there is neither text nor image |
| `SubmissionWrites.RefusedSeal` | src/lib/learning-loop/postgres-store.ts:1238-1262 | What any other seal under a new key is answered; unlike a save's, its stale revision comes without the text |
| `SubmissionStructure.NextOk` | src/components/pages/learning-practice-panel.tsx:154-501 | Every step of the whole system keeps its structure and takes nothing out of the server's history |
| `SubmissionTexts.PagesHoldServerText` | src/components/pages/learning-practice-panel.tsx:154-383 | No lost update, for pages: over every careful run of any number of pages, each page's pair names a server state whose text is the page's persisted text |
| `SubmissionTexts.AcceptedSaveReplacesHeldText` | src/components/pages/learning-practice-panel.tsx:278-320 | No lost update, for the server: whenever a save is accepted, however late, it replaces the text its sender held when it was sent |
| `SubmissionTexts.NextTrue` | src/components/pages/learning-practice-panel.tsx:486-501 | Load, save, image update and conflict resolution each keep what the pages, slots and requests hold true |
| `SubmissionTexts.ImageUpdateTrue` | src/components/pages/learning-practice-panel.tsx:367-373 | An image step adopts a snapshot's tokens exactly with the page's own text; otherwise pair and texts stay and a conflict quotes the snapshot's true text |
| `SubmissionSteps.DraftStays` | src/components/pages/learning-practice-panel.tsx:601 | In every state, no step but typing, resolving a conflict, opening the page and an answer to a read of the unit changes the draft on screen; the saved text changes besides only to the text of an accepted save |
| `SubmissionSteps.EverySaveIsTheDraft` | src/components/pages/learning-practice-panel.tsx:278-301 | Whatever step sends a save, it carries the draft on screen with the page's own pair, and no other save of the page is open |
| `SubmissionSteps.SaveRoundTrip` | src/components/pages/learning-practice-panel.tsx:278-338 | From any state in which the page is up to date and may save: timer, server and answer in a row leave the server with the draft in stored form and the page with its pair, shown as saved, with nothing more to save |
| `SubmissionSteps.StaleSaveShows` | src/components/pages/learning-practice-panel.tsx:309-320 | After a stale save the page keeps draft, saved text and pair, shows what the answer quotes, and starts no save or seal |
| `SubmissionSteps.FailedSaveShows` | src/components/pages/learning-practice-panel.tsx:302-338 | After any other failure nothing is lost and the learner can try again, unless the records are closed |
| `SubmissionSteps.ResolveShows` | src/components/pages/learning-practice-panel.tsx:486-501 | Resolving without merging puts exactly the quoted text on screen, as the saved one; with merging the quoted text, a rule and the old draft, all spelt out; nothing is sent or stored |
| `SubmissionSteps.ResolvedSaves` | src/components/pages/learning-practice-panel.tsx:486-501 | After a resolve without merging neither the timer nor "Retry save" does anything; after a merge the timer saves if nothing else forbids it |
| `SubmissionSteps.LoadShows` | src/components/pages/learning-practice-panel.tsx:176-197 | After a load the page shows the state, the last snapshot's text and attachments, and the pair to go on with, as the server had them when it served the read |
| `SubmissionSteps.LoadTakes` | src/components/pages/learning-practice-panel.tsx:198-232 | The draft after a load is the server's text or the usable local copy, with a conflict exactly if the copy has another base |
| `SubmissionUploads.AttachedOnceByReplay` | src/lib/learning-loop/submission-image-store.ts:36-45 | With the deployed store, no snapshot ever holds a client id twice, in any run |
| `SubmissionUploads.AttachedOnceByRevision` | src/components/pages/submission-image-editor.tsx:162-317 | At most once by the revision check and the read before a retry alone, with no server de-duplication, under loss, delay, duplication, reordering, reloads and crashes of pages on their own devices |
| `SubmissionPosting.PostIff` | src/components/pages/submission-image-editor.tsx:228-270 | A post based on an unsealed reading keeps every possible history free of double attachments exactly when the reading does not list the image, or is full |
| `SubmissionPosting.AttachedOnceIfGuarded` | src/components/pages/submission-image-editor.tsx:180-275 | At most once without the store's help on any devices, tabs sharing a recovery store included, in every run in which no page posts an image its reading lists |
| `SubmissionPosting.OwnDevicesAreGuarded` | src/components/pages/submission-image-editor.tsx:180-275 | Pages on their own devices never post an image their reading lists |
| `SubmissionSharedStore.SharedStoreAttachesTwice` | src/components/pages/submission-image-editor.tsx:185-228 | A careful run of two tabs of one browser in which, without the store's replay branch, one image is attached twice |
| `SubmissionSharedStore.ReplayLosesText` | src/components/pages/submission-image-editor.tsx:287-303 | With the deployed store the same tabs lose an update: a replayed answer at the next revision is taken for the tab's own text, and its next save replaces text it never held |
| `ImageQueue.AdvanceFrame` | src/components/pages/submission-image-editor.tsx:121-161 | The rebase changes the tokens of exactly the records at the acknowledged baseline and gives them the time of the rebase, and keeps ids, files, order, count and notes |
| `ImageQueue.StoreAdvanceKeepsIds` | src/lib/learning-loop/client-submission-recovery.ts:121-157 | The store transaction of a rebase loses no id, whatever is stored |
| `ImageQueue.MergeFrame` | src/components/pages/submission-image-editor.tsx:69-94 | A slow recovery read is put in front of the queue; everything chosen meanwhile stays, and every recovered image is queued or attached |
| `SubmissionFiles.ChooseShows` | src/components/pages/submission-image-editor.tsx:340-352 | Choosing files appends one item for each, in order: a new id, this very file, the pair on screen; the same records are stored as far as their saves succeed, and everything else stays |
| `SubmissionFiles.RightFile` | src/components/pages/submission-image-editor.tsx:342-349 | In every run, whatever is attached on the server, posted, queued or stored under a client id is the file that was chosen under that id |
| `SubmissionImageSteps.ReadBackPosts` | src/components/pages/submission-image-editor.tsx:235-279 | A read-back that is what the page holds is followed by exactly one request: the queued file under its client id, with the pair read |
| `SubmissionImageSteps.UploadShows` | src/components/pages/submission-image-editor.tsx:287-306 | An acknowledged upload leaves the queue and, if the deletion succeeds, the store; the other items keep their files and places, the batch goes on, and the page lists the image behind what it had read |
| `SubmissionImageSteps.RetryFindsAttached` | src/components/pages/submission-image-editor.tsx:184-211 | A retry whose image is listed already is settled without another post |
| `SubmissionImageSteps.RetryFindsMoved` | src/components/pages/submission-image-editor.tsx:213-226 | A retry of a record whose version or revision is no longer current sends nothing, shows a banner that quotes the reading, and keeps the item as out of date |
| `SubmissionImageSteps.CopyIsRemoved` | src/components/pages/submission-image-editor.tsx:377-411 | After a requested revision was opened, it is the copy of the same file in the new version that is removed |
| `SubmissionImageSteps.RemovalShows` | src/components/pages/submission-image-editor.tsx:428-455 | An acknowledged removal takes exactly this attachment from what the page had read, and the page takes over the answered revision |
| `SubmissionImageSteps.DiscardShows` | src/components/pages/submission-image-editor.tsx:113-120 | Discarding takes exactly this item out of the queue and, if the deletion succeeds, exactly its record out of the store |
| `SubmissionImageSteps.RecoveryReads` | src/lib/learning-loop/client-submission-recovery.ts:44-73 | A recovery read brings a newest copy of every stored image that is at most seven days old and at most a minute from the future |
| `SubmissionImageSteps.EndRecoveryShows` | src/components/pages/submission-image-editor.tsx:69-97 | The end of a recovery puts exactly the records read that are neither attached nor queued in front of the queue, as they were stored, and takes exactly the attached ones out of the store |
| `SubmissionRemovals.OnlyAskedIsRemoved` | src/components/pages/submission-image-editor.tsx:377-455 | In every run, whatever an accepted removal takes off the current version was asked for by a click on "remove", as the very attachment or as a copy of the file |
| `SubmissionQueue.UploadCarriesQueuedTokens` | src/components/pages/submission-image-editor.tsx:235-275 | In every run a page queues no id twice, and the record being uploaded carries exactly the tokens its request sends |
| `SubmissionImages.NoImageLost` | src/components/pages/submission-image-editor.tsx:62-366 | Whatever a page queues or its browser stores is, after any further run, still there, attached to the current version, removed by an accepted removal, or discarded from the queue of a page of the browser by an allowed click, unless an event lost it: its queue went while it was not stored, or its last copy expired while it was not queued |
| `SubmissionImages.LosingLoses` | src/components/pages/learning-practice-panel.tsx:506-530 | The condition is exact: such an event leaves the image neither in the page nor in the browser |
| `SubmissionImages.SurvivesClosingIff` | src/components/pages/learning-practice-panel.tsx:166-170 | A queued image survives a reload, a sign-out or a lost activity exactly when its record is stored |
| `SubmissionImages.SurvivesReadIff` | src/lib/learning-loop/client-submission-recovery.ts:176-183 | A stored image survives a recovery read exactly while one of its copies is within the age limit |
| `SubmissionImages.AttachedOrRemoved` | src/lib/learning-loop/submission-image-store.ts:67-85 | In every run, what was ever attached is attached to the current version unless an accepted removal took it away |
| `SubmissionImages.NoQueuedImageLost` | src/components/pages/submission-image-editor.tsx:162-366 | In every run in which its page stays on screen, a queued image ends up queued, attached to the current version, removed by an accepted removal, or discarded from that page's queue by an allowed click |
| `SubmissionImages.NoStoredImageLost` | src/components/pages/submission-image-editor.tsx:62-120 | In every run, reloads, sign-outs and crashes included, a stored image stays stored, ends up attached to the current version, removed by an accepted removal, or discarded from the queue of a page of the browser, until all its copies have expired at a recovery read |
| `SubmissionImages.ChosenIsQueuedAndStored` | src/components/pages/submission-image-editor.tsx:340-352 | Choosing files queues every one, stores every one whose save succeeds, and keeps what was there |
| `SubmissionImages.RecoveryRestores` | src/components/pages/submission-image-editor.tsx:62-101 | Recovery brings back every image its store read returned unless it was seen attached, and erases nothing chosen since |
| `PendingSelection.SelectPendingSelects` | src/lib/learning-loop/client-submission-recovery.ts:64-73 | From the kept records, in any order, the sort and the map select for every id one stored copy and never an older one |
| `PendingSelection.ReadSelects` | src/lib/learning-loop/client-submission-recovery.ts:44-73 | Whatever else the database holds (other scopes, malformed values), the read selects exactly one record for every id of the scope with a copy neither expired nor from the future |
| `SubmissionRecovery.CopiesCarryTheSavePair` | src/components/pages/learning-practice-panel.tsx:249-269 | In every run a page without a conflict stores its recovery copies with the pair it will save with |
| `SubmissionRecovery.StoredOverHeldText` | src/components/pages/learning-practice-panel.tsx:256-267 | In every careful run a page without a conflict stores its unsaved draft with the pair it will save with, over the text it holds for that pair |
| `SubmissionRecovery.CopiesNameTheirText` | src/components/pages/learning-practice-panel.tsx:256-267 | In every careful run the base of every stored copy names the text its draft was written over |
| `SubmissionSteps.SavedCopyGoesIff` | src/components/pages/learning-practice-panel.tsx:249-255 | Once the draft is saved its local copy goes if and only if it is still the one the page last read or wrote; nothing else goes |
| `SubmissionRecovery.TakenUp` | src/components/pages/learning-practice-panel.tsx:218-232 | A usable stored copy becomes the draft on a load, without a conflict exactly when it was stored with the pair just loaded |
| `SubmissionRecovery.RecoveredSaveReplaces` | src/components/pages/learning-practice-panel.tsx:198-232 | After a silent recovery in a careful run, an accepted save with the loaded pair, however late, replaces exactly the text the recovered draft was written over |
| `SubmissionRecovery.OtherCopyConflicts` | src/components/pages/learning-practice-panel.tsx:683-690 | A copy with another base, or of unknown origin, is never saved by the autosave timer after the load |
| `SubmissionRecovery.NoCopyForSealedWork` | src/components/pages/learning-practice-panel.tsx:198-204 | A load of sealed work, or one the learner asked the server's text with, shows that text without a conflict and leaves the stored copy alone |
| `SubmissionSeals.SealTakesEffect` | src/lib/learning-loop/postgres-store.ts:1234-1285 | A seal that takes effect seals its own version at its own revision with unchanged text and images, and no other version |
| `SubmissionSeals.DeadSealIsHarmless` | src/lib/learning-loop/postgres-store.ts:1238-1255 | Once its version is sealed or has moved on, a seal request changes nothing, however often and late it is served |
| `SubmissionSeals.SealSealsWhatWasHeld` | src/components/pages/learning-practice-panel.tsx:422-454 | In every careful run a performed seal, delayed duplicates included, seals exactly the version, revision and text its page held when it was sent |
| `SubmissionSeals.MovedIsDead` | src/components/pages/learning-practice-panel.tsx:430-439 | An intent dropped because the read-back moved on can never be performed any more |
| `SubmissionSeals.SettledIsDead` | src/components/pages/learning-practice-panel.tsx:456-473 | Every answer that ends an intent shows that its seal can never be performed again |
| `SubmissionSeals.OneOpenKey` | src/components/pages/learning-practice-panel.tsx:213-217 | While any seal a page ever sent can still take effect, its intent is stored, every other such seal is the same request with the same key, and no image job runs |
| `SubmissionSeals.OnlyRetrySaveWrites` | src/components/pages/learning-practice-panel.tsx:340-383 | While an intent is open the page starts no write except by "Retry save", and no other seal |
| `SubmissionSteps.NewSealSends` | src/components/pages/learning-practice-panel.tsx:440-454 | A seal click without an intent asks for exactly the page's own pair under a new key, with nothing unsaved and no image waiting |
| `SubmissionSteps.SealAcceptedShows` | src/components/pages/learning-practice-panel.tsx:472-475 | An accepted seal ends the intent on the page and in the slot, loads the unit again, and drops the local copy exactly if it is still the one seen at the click |
| `SubmissionSteps.SealUnclearShows` | src/components/pages/learning-practice-panel.tsx:456-484 | An unclear answer to a seal, or none, leaves intent, slot and copy as they are |
| `SubmissionSteps.RecheckFindsMoved` | src/components/pages/learning-practice-panel.tsx:436-439 | A read-back that moved on ends the intent and shows a banner that quotes what is there now |
| `SubmissionSteps.RecheckAsksAgain` | src/components/pages/learning-practice-panel.tsx:430-454 | A read-back that finds the intent open asks for the same seal again under the same key |
| `SubmissionKeys.TwoKeysIff` | src/components/pages/learning-practice-panel.tsx:428-446 | In every run of any tabs, with any storage failures and expiries, two seal keys of one browser are open at some moment exactly if a click made one on a page without an intent while another could still take effect |
| `SubmissionSlots.OneOpenKeyIfGuarded` | src/components/pages/learning-practice-panel.tsx:428-446 | In every careful run of any pages and tabs, shared browsers included, whose storage is reliable and in which no click writes a new intent over a slot unless it is empty or its intent is behind the pair on screen: at every moment no browser has two open seal keys, and every seal that can still take effect is the one in its browser's slot |
| `SubmissionSlots.OwnSlotsAreGuarded` | src/components/pages/learning-practice-panel.tsx:440-446 | Pages on their own devices whose storage takes the intent need no guard: their clicks never meet another intent in the slot |
| `SubmissionClicks.ClickIff` | src/components/pages/learning-practice-panel.tsx:440-446 | For every page and slot that can occur: a new intent keeps every open seal in the slot in all histories exactly when the slot is empty or behind the pair on screen, and leaves no two open keys in all histories exactly when the slot's intent is not for that very pair |
| `SubmissionKeys.OpenIntentWrites` | src/components/pages/learning-practice-panel.tsx:340-383 | In every state, a page with an intent starts a write only by "Retry save" or by the read of a running image job, and a seal only for the intent it rechecks |
| `SubmissionFindings.RetrySaveBesideOpenIntent` | src/components/pages/learning-practice-panel.tsx:604-610 | A run in which the exception happens: a save the server would accept beside an unanswered seal |
| `SubmissionFindings.SealConflictLosesText` | src/components/pages/learning-practice-panel.tsx:463-468 | A run, careful up to the last click, in which resolving a stale seal answer leaves tokens for "b" with persisted text "", and every later save replaces "b" |
| `SubmissionFindings.BlindResolveIff` | src/lib/learning-loop/postgres-store.ts:1249-1255 | After a stale answer to a seal, resolving is right exactly when the server's text is empty |
| `SubmissionConflicts.ResolveIff` | src/components/pages/learning-practice-panel.tsx:486-501 | For every panel that can occur, resolving gives true tokens in all histories exactly when something the page holds vouches for the conflict's text at the resolved pair |
| `SubmissionConflicts.FreshResolveIff` | src/components/pages/learning-practice-panel.tsx:486-501 | For a conflict whose revision is news to the page: exactly when its text was quoted, for the version still held |
| `SubmissionConflicts.CarefulResolveIff` | src/components/pages/learning-practice-panel.tsx:486-501 | In every careful run, for every page and every conflict of the held version, the guard on a resolve click is exact |
| `SubmissionConflicts.ResolveAboutAnotherVersion` | src/components/pages/learning-practice-panel.tsx:497 | A careful run of two pages in two browsers after which a quoted conflict about the version before resolves to a pair that names nothing, and every later save is refused |
| `SubmissionFindings.ReloadOpensSecondKey` | src/components/pages/learning-practice-panel.tsx:440-446 | A careful run of one page whose intent storage refused: after a reload the next click opens a second key beside the first |
| `SubmissionFindings.SecondTabOpensSecondKey` | src/components/pages/learning-practice-panel.tsx:440-446 | A careful run of two tabs of one browser, every intent stored and found, that ends with two open keys |
| `SubmissionFindings.ReadbackAfterSaveIff` | src/components/pages/learning-practice-panel.tsx:374-383 | With nobody else writing, the read-back after a save is accepted exactly when the text was already in stored form |
| `SubmissionFindings.UploadAnswerIff` | src/components/pages/submission-image-editor.tsx:287-299 | For every reading a post was based on, an answered revision may be adopted in every possible history exactly when it is the revision read, or the next one and the reading did not list that file |
| `SubmissionFindings.SecondTabKeepsSlotIff` | src/components/pages/learning-practice-panel.tsx:440-446 | A click keeps another tab's stored intent exactly when the tab has its own intent or cannot write |
| `SubmissionFindings.MergedSaveContainsBoth` | src/components/pages/learning-practice-panel.tsx:492 | The saved merge contains the server's text and the learner's draft in stored form, for all texts |
| `PanelCell.PracticePanelCell.ReconcileSeal` | src/components/pages/learning-practice-panel.tsx:213-217 | A stored intent seen sealed leaves page and slot; any other stored one is taken up |
| `PanelCell.PracticePanelCell.TakeText` | src/components/pages/learning-practice-panel.tsx:199-232 | Recovery copy or server text, with the conflict exactly when the copy's base is not the loaded pair |
| `PanelCell.PracticePanelCell.FinishLoad` | src/components/pages/learning-practice-panel.tsx:176-234 | The load's whole new state is the protocol's load step |
| `PanelCell.PracticePanelCell.FinishSave` | src/components/pages/learning-practice-panel.tsx:302-338 | The save's answer, stale, refused or accepted, is the protocol's save step |
| `PanelCell.PracticePanelCell.ShowImageConflict` | src/components/pages/learning-practice-panel.tsx:367 | The banner of an image step leaves pair, texts, base, intent and attachments; no save or seal starts while it is shown, and resolving it for the page's own unsealed version gives the snapshot's text and pair |
| `PanelCell.PracticePanelCell.UpdateImageSnapshot` | src/components/pages/learning-practice-panel.tsx:368-373 | Tokens are taken over only with equal text; a sealed snapshot reloads |
| `PanelCell.PracticePanelCell.AcceptReadback` | src/components/pages/learning-practice-panel.tsx:380-382 | A read-back is accepted exactly when it equals what the panel holds, and then changes no text, pair or conflict |
| `PanelCell.PracticePanelCell.ResolveDraftConflict` | src/components/pages/learning-practice-panel.tsx:486-501 | A changed version is reloaded with no state change; otherwise the protocol's resolve step: draft, saved text, pair and banner are spelt out |
| `PanelCell.PracticePanelCell.BeginSubmit` | src/components/pages/learning-practice-panel.tsx:428-454 | A read when an intent is open; otherwise a new intent, stored if possible, and its seal |
| `PanelCell.PracticePanelCell.FinishRecheck` | src/components/pages/learning-practice-panel.tsx:430-439 | After the read of an open intent: sealed, moved, unreadable or asked again with the same key |
| `PanelCell.PracticePanelCell.FinishSeal` | src/components/pages/learning-practice-panel.tsx:456-484 | An unclear answer keeps intent and slot; every other one drops both and says why |
| `PendingImages.ReplacedIsAdvance` | src/lib/learning-loop/client-submission-recovery.ts:133-141 | The transaction over collected changes is the store's rebase |
| `PendingImages.ByIdMeans` | src/components/pages/submission-image-editor.tsx:151-160 | With distinct ids the replacement map holds exactly the records at the baseline, each with its own copy |
| `PendingImages.ImageStore.ReplacePendingImages` | src/lib/learning-loop/client-submission-recovery.ts:121-157 | Put every next record, delete every key that changed |
| `PendingImages.ImageStore.ReadPendingImages` | src/lib/learning-loop/client-submission-recovery.ts:168-188 | The recovery read deletes exactly the scope's expired records one by one and returns one newest recoverable record for every id |
| `PendingImages.PendingQueue.AdvanceAcknowledgedQueue` | src/components/pages/submission-image-editor.tsx:121-161 | Filter, map and replacement map give exactly the rebased queue and store |
| `PendingImages.PendingQueue.BindForUpload` | src/components/pages/submission-image-editor.tsx:235-270 | The bound record carries exactly the tokens of the snapshot the request will name, in queue and store |
| `PendingImages.PendingQueue.Clear` | src/components/pages/submission-image-editor.tsx:113-120 | Exactly the settled image leaves queue and store |
| `PendingImages.PendingQueue.QueueChosen` | src/components/pages/submission-image-editor.tsx:342-352 | Chosen files are appended in order and saved one by one, failures skipped |
| `PendingImages.PendingQueue.Recover` | src/components/pages/submission-image-editor.tsx:69-94 | The recovery loop and the final merge give exactly the merged queue and cleaned store |
| `DraftRecovery.KeysInjective` | src/components/pages/learning-practice-panel.tsx:653-663 | No two scopes share a draft key or a seal key, whatever characters their parts contain |
| `DraftRecovery.ImageKeyInjective` | src/lib/learning-loop/client-submission-recovery.ts:41-43 | Pending images of different scopes, versions or ids never share a key |
| `DraftRecovery.LegacyKeyIsOther` | src/components/pages/learning-practice-panel.tsx:191 | Clearing the legacy copy hits the current copy of a scope exactly when the activity id is spelt like the rest of its key; never when it has no colon |
| `DraftRecovery.OnlyOwnCopiesRemoved` | src/components/pages/learning-practice-panel.tsx:698-704 | In every interleaving of tabs a value disappears only through a tab that read or wrote this very copy, as unusable on a load of its scope, or as the legacy copy a load clears |
| `DraftRecovery.DraftCopiesStay` | src/components/pages/learning-practice-panel.tsx:191-210 | With colon-free activity ids a draft copy disappears only through a tab that read or wrote it, or as unusable on a load of this very scope |
| `DraftRecovery.OnlyWritesReplace` | src/components/pages/learning-practice-panel.tsx:249-269 | Only a tab's own write puts another value in place of a copy |
| `DraftRecovery.SettledIffUnchanged` | src/components/pages/learning-practice-panel.tsx:249-255 | In every interleaving of tabs, settling a saved draft removes its copy if and only if storage holds exactly what this tab last read or wrote; every other entry stays |
| `DraftRecovery.SubmittedIffUnchanged` | src/components/pages/learning-practice-panel.tsx:472-475 | An accepted submission removes the copy if and only if storage holds exactly what the tab had seen at its submit click |
| `DraftRecovery.LoadedIff` | src/components/pages/learning-practice-panel.tsx:190-211 | A load removes the legacy copy of its activity and the wanted copy if it is unusable, and nothing else |
| `DraftRecovery.DraftTab.Read` | src/components/pages/learning-practice-panel.tsx:665-696 | An unusable copy is deleted, a usable one becomes the snapshot |
| `DraftRecovery.DraftTab.Load` | src/components/pages/learning-practice-panel.tsx:190-211 | A load clears the legacy copy first and then reads the draft copy, if it is wanted |
| `DraftRecovery.DraftTab.RemoveUnchangedCopy` | src/components/pages/learning-practice-panel.tsx:698-704 | The entry goes exactly if it holds the snapshot that was seen under this key; every other entry stays |
| `DraftRecovery.DraftTab.Persist` | src/components/pages/learning-practice-panel.tsx:249-269 | The recovery effect stores an unsaved draft, or deletes its entry exactly if it still holds the tab's snapshot; every other entry stays |
| `UriComponent.RoundTrip` | src/components/pages/learning-practice-panel.tsx:661 | Decoding the percent-encoding of any string gives the string back (UTF-8, section 2.1 of RFC 3986) |
| `UriComponent.EncodeInjective` | src/lib/learning-loop/client-submission-recovery.ts:26-30 | No two strings share an encoding |
| `UriComponent.EncodeAlphabet` | src/lib/learning-loop/client-submission-recovery.ts:26-30 | An encoding contains no separator |
| `HeaderCatalog.AcceptedCatalogIsValid` | src/lib/header-course-activity.ts:104-137 | Every accepted catalog has unique ids and no dangling course or class |
| `HeaderCatalog.ReadCatalogIff` | src/lib/header-course-activity.ts:104-137 | The accepted answers are exactly those about this user with owned rows, good ids and texts, known statuses, unique ids and nothing dangling; and every row is taken over, in order and field by field |
| `HeaderCatalog.ItemsCount` | src/lib/header-course-activity.ts:199-213 | Each approval item names a course and class of the catalog and counts exactly the memberships that wait for that class |
| `HeaderCatalog.ApprovalsConserved` | src/lib/header-course-activity.ts:199-213 | For every accepted catalog the counts of the approval items add up to the number of pending memberships, and no scope lookup fails |
| `HeaderCatalog.OneItemPerWaitingClass` | src/lib/header-course-activity.ts:201-212 | Exactly the classes with a pending membership have an item, each one |
| `HeaderCatalog.ScopeIsInCatalog` | src/lib/header-course-activity.ts:139-144 | A scope names a course and a class of the catalog that belong together |
| `HeaderStudents.CheckScopesIff` | src/lib/header-course-activity.ts:163-170 | The sorted-array check passes exactly when no key repeats and both key sets are equal; a repeated key is the 502 |
| `HeaderStudents.ApprovedPairsAre` | src/lib/header-course-activity.ts:167-169 | A pair is compared exactly if some membership with status approved has it |
| `HeaderStudents.CheckScopesDecidesPairs` | src/lib/header-course-activity.ts:165-170 | For course ids without colon the check passes exactly if the dashboard lists the approved pairs, each once |
| `HeaderStudents.ColonDefeatsCheck` | src/lib/header-course-activity.ts:59-63 | With colons in valid ids it can accept a pair nobody approved |
| `HeaderStudents.ChecksRightlyIff` | src/lib/header-course-activity.ts:163-170 | The check decides every dashboard of valid ids rightly exactly when no approved key splits at another colon into two valid ids |
| `HeaderDeadlines.SelectLatest` | src/lib/header-course-activity.ts:231-245 | The loop succeeds exactly when every row is valid and none meets its equal, and then holds the selected rows in map order |
| `HeaderDeadlines.ChosenIsLatest` | src/lib/header-course-activity.ts:240-245 | Without a clash each key keeps the published row of strictly greatest version |
| `HeaderDeadlines.MeetsIff` | src/lib/header-course-activity.ts:242-243 | A row fails exactly when its version is the running greatest of its key |
| `HeaderDeadlines.SelectionIgnoresOrder` | src/lib/header-course-activity.ts:231-245 | Two orders of the same rows that both pass select the same rows |
| `HeaderDeadlines.RepeatedGreatestClashes` | src/lib/header-course-activity.ts:243 | A repeated greatest version fails in every order |
| `HeaderDeadlines.RepeatedLowerDependsOnOrder` | src/lib/header-course-activity.ts:242-244 | A repeated lower version passes in one order and fails in another |
| `HeaderDeadlines.DeadlinesProject` | src/lib/header-course-activity.ts:246-261 | The items of a course show, field by field, exactly its latest rows that have a due time, each once, in the order in which their keys first appear |
| `HeaderDeadlines.AcceptedRows` | src/lib/header-course-activity.ts:229-239 | Every row of an accepted answer has good ids, a safe positive version, a class of the course, a known status and no broken due time, and no id twice |
| `HeaderDeadlines.CheckIds` | src/lib/header-course-activity.ts:230 | Row ids are all valid and distinct |
| `HeaderDeadlines.CollectItems` | src/lib/header-course-activity.ts:246-261 | The items show the chosen rows that have a due time, field by field and in map order; it fails exactly on a missing title |
| `HeaderDeadlines.TeacherDeadlines` | src/lib/header-course-activity.ts:227-262 | The answer of one course: accepted exactly under all its guards, then the items show, field by field, exactly the latest rows with a due time; 409 exactly for another course's answer, 502 otherwise |
| `HeaderCalendar.ReadAll` | src/lib/header-course-activity.ts:284-295 | The loop in batches of four equals the sequential projection and fails exactly when a course fails |
| `HeaderCalendar.ReadTeacherCalendar` | src/lib/header-course-activity.ts:297-304 | Success exactly when not aborted, all courses succeed and ids are distinct; the result is a permutation of the sequential projection, earliest due time first, then by course name and id, and lists exactly the latest rows of all courses with a due time, with catalog pairs only |
| `HeaderCalendar.ByDueIsPreorder` | src/lib/header-course-activity.ts:299-303 | The three-level comparator is a total preorder whenever string comparison is |
| `Sorting.SortedUnique` | src/lib/header-course-activity.ts:170 | Under an antisymmetric order two sorted arrangements of the same elements are equal |
| `InviteJoin.SingleFlight` | src/components/pages/course-plaza-page.tsx:204-230 | Over all runs at most one join request is open across link and box, a stored pending status belongs to it, and a shown result is the answer for that invite |
| `InviteJoin.NothingFrozen` | src/components/pages/course-plaza-page.tsx:317-337 | Without an open request nothing is pending and a click on a valid link starts one |
| `InviteJoin.AnswerWrites` | src/components/pages/course-plaza-page.tsx:322-337 | An answer writes only its own line, its result only while its invite is current, and otherwise resets only its own entry |
| `InviteJoin.AnswerShows` | src/components/pages/course-plaza-page.tsx:322-337 | A link answer shows what it said under its own invite while that is current, and nothing under another one |
| `InviteJoin.ClickShows` | src/components/pages/course-plaza-page.tsx:398-417 | A click joins with the trimmed code of the link exactly if it is valid and nothing is in flight, and shows that it does |
| `InviteJoin.TypeInShows` | src/components/pages/course-plaza-page.tsx:419-450 | The box joins with the trimmed code, refuses an invalid one at once with its message, and does nothing while a join is in flight |
| `InviteJoin.PlazaPage.SubmitInviteJoin` | src/components/pages/course-plaza-page.tsx:398-417 | A link click: a request exactly when the code is valid and nothing is in flight |
| `InviteJoin.PlazaPage.SubmitManualInviteJoin` | src/components/pages/course-plaza-page.tsx:426-453 | A typed code: refused, blocked or sent |
| `InviteJoin.PlazaPage.FinishInviteJoin` | src/components/pages/course-plaza-page.tsx:414-421 | The end of a link submission |
| `InviteJoin.PlazaPage.FinishManualInviteJoin` | src/components/pages/course-plaza-page.tsx:452-461 | The end of a typed submission |
| `Narration.NeverEarly` | src/components/pages/learning-page.tsx:535-542 | Completion is never reported before every manifest slide has ended, whatever the storage does and tabs interleave |
| `Narration.ReportsIff` | src/components/pages/learning-page.tsx:459-483 | With working storage it is reported exactly when every manifest slide has ended in some visit |
| `Narration.StoredGrowsIff` | src/components/pages/learning-page.tsx:471-481 | A step takes nothing out of storage exactly when it read, did not write, or knew everything stored |
| `Narration.StoredNeverShrinks` | src/components/pages/learning-page.tsx:471-481 | Stored ids never shrink under any interleaving as long as reads work |
| `Narration.LearnerSwitchReportsEarly` | src/components/pages/learning-page.tsx:423-427 | A run with a change of learner that reports early |
| `Narration.ShowKeepsHonestIff` | src/components/pages/learning-page.tsx:423-427 | A change of deck leaves every honest world honest exactly when it keeps the storage key or changes course or locale |
| `Narration.KeysSeparate` | src/components/pages/learning-page-helpers.ts:332-342 | Learners and courses without colon never share a storage key |
| `Narration.KeysCollide` | src/components/pages/learning-page-helpers.ts:341 | With a colon two learners can |
| `Narration.OwnKeyIff` | src/components/pages/learning-page-helpers.ts:332-342 | A storage key belongs to no other learner, course or manifest exactly when none of its parts contains a colon |
| `Narration.CompletionStore.ReadCompleted` | src/components/pages/learning-page-helpers.ts:344-363 | The strings of the stored array, nothing else, and nothing if it cannot be read |
| `Narration.CompletionStore.MergeCompleted` | src/components/pages/learning-page.tsx:466-482 | Session set, stored ids and the slide, written back under this key only |
| `DownloadTarget.ParseIff` | src/components/pages/teacher-ppt-narration-workflow.tsx:1316-1384 | A path parses to a target exactly when the URL parser keeps it and it spells that safe target, escaped or not |
| `DownloadTarget.PrintParse` | src/components/pages/teacher-ppt-narration-workflow.tsx:1349-1375 | Every safe target printed as a path parses back to itself |
| `DownloadTarget.ReparseIsSame` | src/components/pages/teacher-ppt-narration-workflow.tsx:1343-1375 | Parsing the download path of any accepted input gives the same target |
| `DownloadTarget.PrintInjective` | src/components/pages/teacher-ppt-narration-workflow.tsx:1352-1374 | Different safe targets have different paths |
| `CourseId.CourseIdBounds` | src/lib/teaching-course-id.ts:1-4 | At most 103 characters for years 0 to 9999 and every name; safe exactly up to the year 9999 |
| `CourseId.OwnProvisionalIff` | src/lib/teaching-course-id.ts:6-25 | An own provisional id is recognised exactly when the actor has a segment, the year is at most 9999 and the parts fit |
| `CourseId.OwnProvisionalBound` | src/lib/teaching-course-id.ts:18-25 | For years 0 to 9999 the bound is 82 characters for both segments |
| `CourseId.SegmentIs` | src/lib/teaching-course-id.ts:38-47 | A name contributes its folding with every run of other characters as one dash, without dashes at the ends, cut at 72 characters; or the word "course" |
| `CourseId.RecognisedIff` | src/lib/teaching-course-id.ts:18-25 | An actor takes a provisional id for their own exactly if it is safe and goes on, after its head, with the actor's segment and a dash, whoever it was made for |
| `CourseId.OwnersApart` | src/lib/teaching-course-id.ts:18-25 | Between actors whose segments have no dash, a safe provisional id is recognised exactly by the one it was made for |
| `CourseId.DashesConfuseOwners` | src/lib/teaching-course-id.ts:24 | An actor whose segment is the beginning of another's up to a dash recognises every safe provisional id of the other |
| `CourseId.StampLength` | src/lib/teaching-course-id.ts:49-51 | Length and alphabet of the time stamp for every year |
| `CourseId.StampShape` | src/lib/teaching-course-id.ts:49-51 | The three replacements leave date, dash, time |
| `Slugs.SqueezeGap` | src/lib/teaching-course-id.ts:42-44 | Every run of characters outside the class becomes one dash, and what stands on either side is treated on its own |
| `IdempotencyKey.KeyShape` | src/lib/teaching-operation-idempotency.ts:10-32 | At most 120 key characters, the head in front, the whole nonce at the end, the fallback unreachable |
| `IdempotencyKey.PlainKey` | src/lib/teaching-operation-idempotency.ts:10-32 | An operation whose parts are in key form has the key that names them all in order, as long as it fits |
| `IdempotencyKey.NoncesSeparate` | src/lib/teaching-operation-idempotency.ts:13-31 | Distinct nonces of one length give distinct keys for all inputs |
| `IdempotencyKey.LongNonceOverflows` | src/lib/teaching-operation-idempotency.ts:28-31 | At 119 nonce characters the fallback is reached and the key too long |
| `IdempotencyKey.SanitizeSafe` | src/lib/teaching-operation-idempotency.ts:34-41 | A sanitised part has 1 to 64 key characters and starts with a letter or digit |
| `Memberships.CreateItemsIff` | src/components/pages/student-membership-helpers.ts:52-133 | The join through maps is, in order, the scan for the last usable class and course row by trimmed id, with every field of the item given by those rows |
| `Memberships.ApprovedIsGiven` | src/components/pages/student-membership-helpers.ts:135-142 | Every item comes from a membership row and is approved exactly when that row says so |

## Left out

- The text box is disabled until the formative check was attempted, and a save of more than 20,000 characters is refused; the model lets the learner type at any time the other guards allow.
- A unit read is one step here. The store reads the version row and its attachments in two statements, so a real answer can list attachments newer than its revision; text and revision come from one row.
- Requests that fail for reasons outside the protocol (authentication, archived activities, forbidden or overlong text, image validation, an unreachable database) are one refusal that changes nothing; a purge of closed records is not modelled, closing is.
- A read answered with an error inside `prepareImageDraft` and a read whose response is lost are the same event; a sign-in notice or an empty state takes the editor off the screen (`Unmounts`), and what it shows is not modelled.
- React state and its mirror ref are one field. What a handler captured from an older render is modelled where the code depends on it (the conflict and editability that `prepareImageDraft` was started with, the invite of a join); other stale closures are not.
- The server and the run-level system are values, not objects; classes cover the panel, the seal slot, the image queue and store, the invite page, the narration store and the draft tabs. The methods of a class meet the run-level results through the functions they are proved equal to, not by sharing one heap.
- Whether a stored draft copy or seal intent is expired or malformed is a parameter of the load that reads it; only stored images carry their stamps. The clock is a parameter of every step and need not advance.
- An upload still running when its editor leaves the screen ends there in the model; its request may be served all the same.
- `SubmissionTexts.PagesHoldServerText`: for careful runs only; the four careless steps (a text-free conflict, a conflict about another version, an upload answered later than the next revision, a listed image answered at the next revision) have their exact conditions in `SubmissionConflicts.ResolveIff` and `SubmissionFindings.UploadAnswerIff`.
- `SubmissionSeals.OneOpenKey`: for careful runs of pages that do not share a browser and whose storage accepts the intent; `SubmissionSlots.OneOpenKeyIfGuarded` has the condition for pages that share one, which `SubmissionClicks.ClickIff` shows exact on the slot and the pair on screen; `SubmissionKeys.TwoKeysIff` says for every run when two keys are open.
- `SubmissionUploads.AttachedOnceByRevision`: for pages that do not share a recovery store; `SubmissionPosting.AttachedOnceIfGuarded` has the condition for those that do, and with the deployed store `SubmissionUploads.AttachedOnceByReplay` needs none.
- `InviteJoin.SingleFlight`: about one mounted component; leaving the page and returning makes a new in-flight flag while the first request may still be open.
- `SubmissionImages.NoImageLost`: safety only; that a failed image is ever uploaded is left to the learner's retry.
- `IdempotencyKey.KeyShape`: for nonces of up to 101 key characters; the nonce itself is a parameter.
- The units of the student dashboard (positions, feedback states, links) after the scope check; they add only field-by-field validation.
- Fetching, timeouts and abort signals of the header read; each course's answer or failure is an input, and which error of a batch is reported is open.
- `localeCompare`, date parsing, Unicode decomposition and lower-casing, UUIDs and the URL parser are parameters with the laws named in the contracts. Strings are Unicode scalar values; lone surrogates are not part of the model.
- Session, attestation and proxy code, the narration wizard, the AI guide, human review, and all presentation.

/**
 * What the clicks, timers and answers of the draft panel do, told by what the page then shows,
 * stores and sends. Every statement is about all states, so about every moment of every run.
 */
module SubmissionSteps {
  import opened Prelude
  import opened JsText
  import opened SubmissionServer
  import opened SubmissionHistory
  import opened SubmissionWrites
  import opened PracticePanel
  import opened ImageQueue
  import opened PracticeClient
  import opened SubmissionProtocol
  import opened SubmissionStructure

  /** The event happens on this page, and the page's code allows it. */
  ghost predicate Takes(s: System, e: Event, page: nat) {
    Live(s, page) && EventPage(s, e) == Some(page) && !e.Open? && Allowed(s.clients[page], s.devices[s.clients[page].device], e)
  }

  function PanelOf(s: System, page: nat): Panel
    requires page in s.clients
  {
    s.clients[page].panel
  }

  function DeviceOf(s: System, page: nat): Device
    requires Live(s, page)
  {
    s.devices[s.clients[page].device]
  }

  /** The page sends this one request. */
  ghost predicate Requests(s: System, t: System, page: nat, q: Request) {
    |t.calls| == |s.calls| + 1 && t.calls[..|s.calls|] == s.calls && t.calls[|s.calls|].client == page && t.calls[|s.calls|].request == q
  }

  /** The answer to the page's call `k` arrives, and it says `reply`. */
  ghost predicate Answers(s: System, e: Event, page: nat, k: nat, reply: Reply) {
    && e.Deliver? && Live(s, page) && e.answer < |s.answers| && s.answers[e.answer].call == k < |s.calls|
    && s.calls[k].client == page && ReplyTo(s, s.answers[e.answer]) == reply
  }

  /** The next state is the page's with this effect. */
  ghost predicate Moves(s: System, t: System, page: nat, eff: Effect) {
    && page in s.clients && eff.client.device == s.clients[page].device && t.server == s.server
    && t.clients == s.clients[page := eff.client] && t.devices == s.devices[eff.client.device := eff.device] && t.calls == SentCalls(s, page, eff)
  }

  lemma StepMoves(s: System, e: Event, page: nat) returns (eff: Effect)
    requires Takes(s, e, page)
    ensures eff == Act(s, s.clients[page], DeviceOf(s, page), e) && Moves(s, Next(s, e), page, eff)
  {
    LiveNext(s, e, page);
    eff := Act(s, s.clients[page], DeviceOf(s, page), e);
  }

  lemma AnswerMoves(s: System, e: Event, page: nat, k: nat, reply: Reply) returns (eff: Effect)
    requires Answers(s, e, page, k, reply)
    ensures eff == Arrive(s.clients[page], DeviceOf(s, page), k, reply, e.found, e.disk, e.now, |s.calls|)
    ensures Moves(s, Next(s, e), page, eff)
  {
    DeliverAct(s, s.clients[page], DeviceOf(s, page), e);
    eff := StepMoves(s, e, page);
  }

  // ---------------------------------------------------------------- what the page accepts

  /** The learner may write: the unit is there, the records are open, and the work is a draft or under revision. */
  predicate MayWrite(p: Panel) {
    p.loaded && !p.readOnly && (p.stage == Draft || p.stage == RevisionRequested)
  }

  /** When typing, the timer, "Retry save" and the seal click are accepted; an image job excludes them all. */
  lemma PanelGuards(cl: Client, d: Device, page: nat, text: string, written: bool)
    ensures var p := cl.panel; var free := cl.editor.job == Idle;
      && (Allowed(cl, d, Typing(page, text)) <==> (MayWrite(p) && free && p.intent == None && p.submit == NotSubmitting))
      && (Allowed(cl, d, AutosaveTimer(page)) <==>
            (MayWrite(p) && free && p.intent == None && p.conflict == None && p.saving == None && p.draft != p.persisted))
      && (Allowed(cl, d, RetrySaveClick(page)) <==>
            (MayWrite(p) && free && p.submit == NotSubmitting && p.conflict == None && p.saving == None && p.status == PracticePanel.Failed))
      && (Allowed(cl, d, Submit(page, written)) <==>
            (MayWrite(p) && free && p.submit == NotSubmitting && p.conflict == None && p.saving == None && SealsAll(cl)))
  {
  }

  /** Everything the learner has is on the server, and there is something: no unsaved text, no image still waiting. */
  predicate SealsAll(cl: Client) {
    && cl.editor.ready && cl.editor.queue == [] && cl.panel.draft == cl.panel.persisted
    && cl.panel.pair.version.Some? && cl.panel.pair.revision >= 1 && (Trim(cl.panel.draft) != "" || cl.panel.images != [])
  }

  /** When the image editor accepts a click. */
  predicate ImagesFree(cl: Client) {
    && MayWrite(cl.panel) && cl.editor.ready && cl.editor.job == Idle && cl.panel.submit == NotSubmitting
    && cl.panel.status != Saving && cl.panel.conflict == None && cl.panel.intent == None
  }

  /** At most three images, attached and waiting together; an item that is out of date is not tried again. */
  lemma ImageGuards(cl: Client, d: Device, page: nat, digests: seq<nat>, failed: set<nat>, now: nat, x: nat, target: Image)
    ensures Allowed(cl, d, ChooseFiles(page, digests, failed, now)) <==>
      (ImagesFree(cl) && 1 <= |digests| && |digests| + |cl.panel.images| + |cl.editor.queue| <= 3)
    ensures Allowed(cl, d, RetryImage(page, x)) <==>
      (ImagesFree(cl) && exists i :: 0 <= i < |cl.editor.queue| && cl.editor.queue[i].record.client == x && cl.editor.queue[i].note != Outdated)
    ensures Allowed(cl, d, RemoveAttached(page, target)) <==> ImagesFree(cl)
  {
  }

  // ---------------------------------------------------------------- typing and saving

  /** What was typed is on screen; nothing else changes, and the timer can save it exactly if it is not the saved text. */
  lemma TypingShows(s: System, e: Event, page: nat)
    requires Takes(s, e, page) && e.Typing?
    ensures var t := Next(s, e);
      && page in t.clients && t.calls == s.calls && t.devices == s.devices
      && var p, q := PanelOf(s, page), PanelOf(t, page);
      && q.draft == e.text && q.persisted == p.persisted && q.pair == p.pair && q.conflict == p.conflict && q.images == p.images
      && (CanAutosave(q, false) <==> (e.text != p.persisted && p.conflict == None && p.saving == None))
  {
    var eff := StepMoves(s, e, page);
  }

  /** The autosave timer and "Retry save" send the draft on screen with the page's pair, and nothing starts beside it. */
  lemma SaveSends(s: System, e: Event, page: nat)
    requires Takes(s, e, page) && (e.AutosaveTimer? || e.RetrySaveClick?)
    ensures var t := Next(s, e);
      && page in t.clients && t.devices == s.devices
      && var p, q := PanelOf(s, page), PanelOf(t, page);
      && Requests(s, t, page, Save(p.draft, p.pair)) && q.saving == Some(SaveCall(|s.calls|, p.draft, p.pair))
      && q.draft == p.draft && q.persisted == p.persisted && q.pair == p.pair
      && !CanAutosave(q, false) && !CanRetrySave(q, false) && !CanSubmit(q, true, false, 0)
  {
    var eff := StepMoves(s, e, page);
  }

  /** The answer to the page's save. */
  ghost predicate AnswersSave(s: System, e: Event, page: nat, reply: Reply) {
    page in s.clients && PanelOf(s, page).saving.Some? && Answers(s, e, page, PanelOf(s, page).saving.value.call, reply)
  }

  /** An accepted save: the page holds the answered pair with the text it sent, and what was typed since is still there. */
  lemma SavedShows(s: System, e: Event, page: nat, version: nat, revision: nat)
    requires AnswersSave(s, e, page, Saved(version, revision))
    ensures var t := Next(s, e);
      && page in t.clients
      && var p, q := PanelOf(s, page), PanelOf(t, page);
      && q.saving == None && q.pair == Pair(Some(version), revision) && q.persisted == p.saving.value.text
      && q.base == Some(q.pair) && q.draft == p.draft && q.conflict == p.conflict && q.status == SavedStatus
      && (q.draft == q.persisted <==> p.draft == p.saving.value.text)
  {
    var eff := AnswerMoves(s, e, page, PanelOf(s, page).saving.value.call, Saved(version, revision));
  }

  /** A stale save: the page keeps draft, saved text and pair, and shows what the answer quotes; nothing is saved or sealed until it is resolved. */
  lemma StaleSaveShows(s: System, e: Event, page: nat, reply: Reply)
    requires AnswersSave(s, e, page, reply) && (reply.StaleVersion? || reply.StaleRevision?)
    ensures var t := Next(s, e);
      && page in t.clients && t.calls == s.calls
      && var p, q := PanelOf(s, page), PanelOf(t, page);
      && q.saving == None && q.pair == p.pair && q.persisted == p.persisted && q.draft == p.draft && q.status == Conflicted
      && q.conflict.Some? && q.conflict.value.latestRevision == reply.latestRevision
      && q.conflict.value.latestText == (if reply.latestText.Some? then reply.latestText.value else "")
      && (q.conflict.value.versionChanged <==> reply.StaleVersion?)
      && !CanAutosave(q, false) && !CanRetrySave(q, false) && !CanSubmit(q, true, false, 0)
  {
    var eff := AnswerMoves(s, e, page, PanelOf(s, page).saving.value.call, reply);
  }

  /** Any other answer, or none: nothing is lost, and the learner can try again unless the records are closed. */
  lemma FailedSaveShows(s: System, e: Event, page: nat, reply: Reply)
    requires AnswersSave(s, e, page, reply) && !reply.Saved? && !reply.StaleVersion? && !reply.StaleRevision?
    ensures var t := Next(s, e);
      && page in t.clients && t.calls == s.calls
      && var p, q := PanelOf(s, page), PanelOf(t, page);
      && q.saving == None && q.pair == p.pair && q.persisted == p.persisted && q.draft == p.draft && q.conflict == p.conflict
      && q.readOnly == (p.readOnly || reply == Closed) && q.status == (if p.status == Conflicted then Conflicted else PracticePanel.Failed)
      && (Editable(p) && reply != Closed && p.conflict == None && p.submit == NotSubmitting && p.status != Conflicted ==> CanRetrySave(q, false))
  {
    var eff := AnswerMoves(s, e, page, PanelOf(s, page).saving.value.call, reply);
  }

  // ---------------------------------------------------------------- nothing else touches the texts

  /**
   * What an image step, or an answer to it, does to the panel: both texts and the state stay, and a
   * save it starts is the draft on screen with the page's pair, when no other save runs.
   */
  ghost predicate TextsKept(p: Panel, q: Panel, next: nat, send: Option<Request>) {
    && q.draft == p.draft && q.persisted == p.persisted && q.loaded == p.loaded && q.stage == p.stage && (p.readOnly ==> q.readOnly)
    && (q.saving == p.saving || (p.saving == None && q.saving == Some(SaveCall(next, p.draft, p.pair)) && send == Some(Save(p.draft, p.pair))))
    && (send.Some? && send.value.Save? ==> p.saving == None && q.saving == Some(SaveCall(next, p.draft, p.pair)) && send == Some(Save(p.draft, p.pair)))
  }

  lemma PrepareKeeps(cl: Client, d: Device, purpose: Purpose, next: nat)
    ensures var e := StartPrepare(cl, d, purpose, next); TextsKept(cl.panel, e.client.panel, next, e.send)
  {
  }

  lemma PostKeeps(cl: Client, d: Device, r: Record, current: Reading, disk: Disk, now: nat, next: nat)
    ensures var e := Post(cl, d, r, current, disk, now, next); e.client.panel == cl.panel && (e.send.Some? ==> e.send.value.Upload?)
  {
  }

  lemma DeleteKeeps(cl: Client, d: Device, target: Image, r: Reading, check: Option<nat>, next: nat)
    ensures var e := Delete(cl, d, target, r, check, next); TextsKept(cl.panel, e.client.panel, next, e.send)
  {
  }

  lemma PreparedKeeps(cl: Client, d: Device, r: Reading, purpose: Purpose, disk: Disk, now: nat, next: nat)
    ensures var e := Prepared(cl, d, r, purpose, disk, now, next); TextsKept(cl.panel, e.client.panel, next, e.send)
  {
    if ReadbackMatches(cl.panel, r) {
      var c1 := cl.(panel := ImageUpdate(cl.panel, r));
      match purpose
      case Fresh(rec) => PostKeeps(c1, d, rec, r, disk, now, next);
      case Again(rec) => PostKeeps(c1, d, rec, r, disk, now, next);
      case Removal(image, seen) => PreparedRemovalKeeps(cl, d, r, image, seen, disk, now, next);
    }
  }

  lemma PreparedRemovalKeeps(cl: Client, d: Device, r: Reading, image: Image, seen: nat, disk: Disk, now: nat, next: nat)
    ensures var e := Prepared(cl, d, r, Removal(image, seen), disk, now, next); TextsKept(cl.panel, e.client.panel, next, e.send)
  {
  }

  lemma CheckedAgainKeeps(cl: Client, d: Device, r: Reading, rec: Record, disk: Disk, now: nat, next: nat)
    ensures var e := CheckedAgain(cl, d, r, rec, disk, now, next); TextsKept(cl.panel, e.client.panel, next, e.send)
  {
    if AttachedIn(r.images, rec) {
      AttachedAgainKeeps(cl, d, r, rec, disk, now, next);
    } else if r.version != rec.version || r.isSealed || (rec.revision.Some? && rec.revision.value != r.revision) {
    } else if r.version == None {
      PrepareKeeps(cl, d, Again(rec), next);
    } else {
      PostKeeps(cl, d, rec, r, disk, now, next);
    }
  }

  lemma AttachedAgainKeeps(cl: Client, d: Device, r: Reading, rec: Record, disk: Disk, now: nat, next: nat)
    requires AttachedIn(r.images, rec)
    ensures var e := CheckedAgain(cl, d, r, rec, disk, now, next); TextsKept(cl.panel, e.client.panel, next, e.send)
  {
    var e := CheckedAgain(cl, d, r, rec, disk, now, next);
    assert e.client.panel == ImageUpdate(cl.panel, r) && (e.send.Some? ==> e.send.value == Read);
  }

  lemma PostedKeeps(cl: Client, d: Device, reply: Reply, rec: Record, current: Reading, disk: Disk, now: nat)
    ensures var e := Posted(cl, d, reply, rec, current, disk, now); TextsKept(cl.panel, e.client.panel, 0, e.send) && e.send == None
  {
  }

  lemma DeletedKeeps(cl: Client, d: Device, reply: Reply, target: Image, current: Reading, disk: Disk, now: nat)
    ensures var e := Deleted(cl, d, reply, target, current, disk, now); TextsKept(cl.panel, e.client.panel, 0, e.send) && e.send == None
  {
  }

  lemma CheckedKeeps(cl: Client, d: Device, reply: Reply, disk: Disk, now: nat, next: nat)
    requires cl.editor.job.Checking?
    ensures var e := ImageDone(cl, d, reply, disk, now, next); TextsKept(cl.panel, e.client.panel, next, e.send)
  {
    var purpose := cl.editor.job.purpose;
    if reply.Snapshot? && !reply.reading.closed {
      if purpose.Removal? {
        PrepareKeeps(cl, d, purpose, next);
        DeleteKeeps(cl, d, purpose.image, reply.reading, Some(purpose.seen), next);
      } else {
        CheckedAgainKeeps(cl, d, reply.reading, purpose.record, disk, now, next);
      }
    }
  }

  lemma ImageDoneKeeps(cl: Client, d: Device, reply: Reply, disk: Disk, now: nat, next: nat)
    ensures var e := ImageDone(cl, d, reply, disk, now, next); TextsKept(cl.panel, e.client.panel, next, e.send)
  {
    match cl.editor.job
    case Preparing(_, purpose) =>
      if reply.Snapshot? && !reply.reading.closed {
        PreparedKeeps(cl, d, reply.reading, purpose, disk, now, next);
      }
    case Checking(_, _) => CheckedKeeps(cl, d, reply, disk, now, next);
    case Posting(_, rec, current) => PostedKeeps(cl, d, reply, rec, current, disk, now);
    case Deleting(_, target, current) => DeletedKeeps(cl, d, reply, target, current, disk, now);
    case _ =>
  }

  /** The awaited call `k` of the page is the read of a load, or of a click with an open intent. */
  predicate AwaitsUnit(cl: Client, k: nat) {
    k in cl.loads || (cl.panel.submit.Rechecking? && cl.panel.submit.call == k)
  }

  /** Both texts stay, except for the saved text of an accepted save; and a save is started only with the draft on screen. */
  ghost predicate DraftKept(p: Panel, e: Effect, next: nat) {
    && e.client.panel.draft == p.draft
    && (e.client.panel.persisted == p.persisted || (p.saving.Some? && e.client.panel.persisted == p.saving.value.text && e.client.panel.saving == None))
    && (e.send.Some? && e.send.value.Save? ==>
          p.saving == None && e.send == Some(Save(p.draft, p.pair)) && e.client.panel.saving == Some(SaveCall(next, p.draft, p.pair)))
  }

  lemma SaveDoneKeeps(cl: Client, d: Device, reply: Reply, next: nat)
    requires cl.panel.saving.Some?
    ensures DraftKept(cl.panel, SaveDone(cl, d, reply, next), next)
  {
  }

  lemma SealDoneKeeps(cl: Client, d: Device, reply: Reply, next: nat)
    requires cl.panel.submit.Sealing?
    ensures DraftKept(cl.panel, SealDone(cl, d, reply, next), next)
  {
  }

  lemma ArriveKeeps(cl: Client, d: Device, k: nat, reply: Reply, found: Found, disk: Disk, now: nat, next: nat)
    requires !AwaitsUnit(cl, k)
    ensures DraftKept(cl.panel, Arrive(cl, d, k, reply, found, disk, now, next), next)
  {
    if cl.panel.saving.Some? && cl.panel.saving.value.call == k {
      SaveDoneKeeps(cl, d, reply, next);
    } else if cl.panel.submit.Sealing? && cl.panel.submit.call == k {
      SealDoneKeeps(cl, d, reply, next);
    } else if JobCall(cl.editor.job) == Some(k) {
      ImageDoneKeeps(cl, d, reply, disk, now, next);
    }
  }

  /** Without an answer nothing is loaded. */
  lemma FailureKeeps(cl: Client, d: Device, k: nat, now: nat, next: nat)
    ensures DraftKept(cl.panel, Failure(cl, d, k, now, next), next) && Failure(cl, d, k, now, next).send == None
  {
    if cl.panel.saving.Some? && cl.panel.saving.value.call == k {
      SaveDoneKeeps(cl, d, Refused, next);
    } else if JobCall(cl.editor.job) == Some(k) && !AwaitsUnit(cl, k) {
      ArriveKeeps(cl, d, k, Refused, Found(true, true), Disk(true, true, true), now, next);
    }
    FailureDevice(cl, d, k, now, next);
  }

  lemma DeliverKeeps(s: System, cl: Client, d: Device, e: Event)
    requires e.Deliver? && (e.answer < |s.answers| ==> !AwaitsUnit(cl, s.answers[e.answer].call))
    ensures DraftKept(cl.panel, Act(s, cl, d, e), |s.calls|)
  {
    if e.answer < |s.answers| && s.answers[e.answer].call < |s.calls| {
      DeliverAct(s, cl, d, e);
      var a := s.answers[e.answer];
      ArriveKeeps(cl, d, a.call, ReplyTo(s, a), e.found, e.disk, e.now, |s.calls|);
    } else {
      DeliverNothing(s, cl, d, e);
    }
  }

  lemma LoseKeeps(s: System, cl: Client, d: Device, e: Event)
    requires e.Lose? || e.Unmounts?
    ensures DraftKept(cl.panel, Act(s, cl, d, e), |s.calls|)
  {
    FailureKeeps(cl, d, e.call, e.now, |s.calls|);
  }

  lemma ProceedKeeps(s: System, cl: Client, d: Device, e: Event)
    requires e.Proceed? && Allowed(cl, d, e)
    ensures DraftKept(cl.panel, Act(s, cl, d, e), |s.calls|)
  {
    PrepareKeeps(cl, d, cl.editor.job.purpose, |s.calls|);
  }

  lemma ClickKeeps(s: System, cl: Client, d: Device, e: Event)
    requires Allowed(cl, d, e) && !e.Deliver? && !e.Lose? && !e.Unmounts? && !e.Typing? && !e.ResolveClick? && !e.Proceed?
    ensures DraftKept(cl.panel, Act(s, cl, d, e), |s.calls|)
  {
  }

  /** The event may put another text on screen: typing, resolving, opening the page, and the answer to a read of the unit. */
  ghost predicate Rewrites(s: System, e: Event, page: nat) {
    || e.Typing? || e.ResolveClick? || (e.Open? && e.page == page)
    || (e.Deliver? && page in s.clients && e.answer < |s.answers| && AwaitsUnit(s.clients[page], s.answers[e.answer].call))
  }

  lemma ActKeeps(s: System, page: nat, e: Event)
    requires Takes(s, e, page) && !Rewrites(s, e, page)
    ensures DraftKept(PanelOf(s, page), Act(s, s.clients[page], DeviceOf(s, page), e), |s.calls|)
  {
    var cl, d := s.clients[page], DeviceOf(s, page);
    if e.Deliver? {
      DeliverKeeps(s, cl, d, e);
    } else if e.Lose? || e.Unmounts? {
      LoseKeeps(s, cl, d, e);
    } else if e.Proceed? {
      ProceedKeeps(s, cl, d, e);
    } else {
      ClickKeeps(s, cl, d, e);
    }
  }

  /**
   * What the learner typed stays: no step but typing, resolving a conflict, opening the page and an
   * answer to a read of the unit changes the draft on screen, and the saved text changes besides
   * only to the text of an accepted save.
   */
  lemma DraftStays(s: System, e: Event, page: nat)
    requires Live(s, page) && !Rewrites(s, e, page)
    ensures page in Next(s, e).clients
    ensures var p, q := PanelOf(s, page), PanelOf(Next(s, e), page);
      && q.draft == p.draft
      && (q.persisted == p.persisted || (p.saving.Some? && q.persisted == p.saving.value.text && q.saving == None))
  {
    if Takes(s, e, page) {
      var eff := StepMoves(s, e, page);
      ActKeeps(s, page, e);
    } else if EventPage(s, e) == Some(page) && !e.Open? {
      LiveNext(s, e, page);
    } else {
      OthersKeep(s, e, page);
    }
  }

  lemma OthersKeep(s: System, e: Event, page: nat)
    requires Live(s, page) && EventPage(s, e) != Some(page)
    ensures page in Next(s, e).clients && Next(s, e).clients[page] == s.clients[page]
  {
    var who := EventPage(s, e);
    if e.Open? {
      OpenNext(s, e);
    } else if who == None {
      ServerFields(s, e);
    } else if Live(s, who.value) {
      LiveNext(s, e, who.value);
    } else {
      DeadStays(s, e, who.value);
    }
  }

  lemma DeadStays(s: System, e: Event, page: nat)
    requires EventPage(s, e) == Some(page) && !e.Open? && !Live(s, page)
    ensures Next(s, e) == s
  {
    NextIsPageStep(s, e, page);
  }

  /**
   * Every save is the learner's draft: whatever step sends one, it carries the text on screen with
   * the page's own pair, no other save of the page is open, and the page waits for its answer.
   */
  lemma EverySaveIsTheDraft(s: System, e: Event, page: nat, q: Request)
    requires Live(s, page) && !e.Open? && Requests(s, Next(s, e), page, q) && q.Save?
    ensures var p := PanelOf(s, page);
      && page in Next(s, e).clients && p.saving == None && q == Save(p.draft, p.pair)
      && PanelOf(Next(s, e), page).saving == Some(SaveCall(|s.calls|, p.draft, p.pair))
  {
    SenderTakes(s, e, page, q);
    var eff := StepMoves(s, e, page);
    if Rewrites(s, e, page) {
      RewritesSendNoSave(s, e, page);
    } else {
      ActKeeps(s, page, e);
    }
  }

  lemma SenderTakes(s: System, e: Event, page: nat, q: Request)
    requires Live(s, page) && !e.Open? && Requests(s, Next(s, e), page, q)
    ensures Takes(s, e, page)
  {
    var who := EventPage(s, e);
    if who == None {
      ServerFields(s, e);
    } else if Live(s, who.value) {
      LiveNext(s, e, who.value);
    } else {
      DeadStays(s, e, who.value);
    }
  }

  lemma RewritesSendNoSave(s: System, e: Event, page: nat)
    requires Takes(s, e, page) && Rewrites(s, e, page)
    ensures var eff := Act(s, s.clients[page], DeviceOf(s, page), e);
      eff.send.Some? && eff.send.value.Save? ==> DraftKept(PanelOf(s, page), eff, |s.calls|)
  {
    if e.Deliver? {
      UnitAnswerSends(s, s.clients[page], DeviceOf(s, page), e);
    }
  }

  lemma UnitAnswerSends(s: System, cl: Client, d: Device, e: Event)
    requires e.Deliver? && e.answer < |s.answers| && AwaitsUnit(cl, s.answers[e.answer].call)
    ensures var eff := Act(s, cl, d, e);
      eff.send.Some? && eff.send.value.Save? ==> DraftKept(cl.panel, eff, |s.calls|)
  {
    if s.answers[e.answer].call < |s.calls| {
      DeliverAct(s, cl, d, e);
      var k := s.answers[e.answer].call;
      if cl.panel.saving.Some? && cl.panel.saving.value.call == k {
        SaveDoneKeeps(cl, d, ReplyTo(s, s.answers[e.answer]), |s.calls|);
      } else if cl.panel.submit.Sealing? && cl.panel.submit.call == k {
        SealDoneKeeps(cl, d, ReplyTo(s, s.answers[e.answer]), |s.calls|);
      }
    } else {
      DeliverNothing(s, cl, d, e);
    }
  }

  // ---------------------------------------------------------------- resolving a conflict

  /**
   * Resolving a conflict of the page's version. Without merging, the learner gets exactly the
   * quoted text, as the saved one, and no save can start before they type; with merging, the quoted
   * text, a rule and their own draft, which is not saved yet. Nothing is sent or stored.
   */
  lemma ResolveShows(s: System, e: Event, page: nat)
    requires Takes(s, e, page) && e.ResolveClick? && !PanelOf(s, page).conflict.value.versionChanged
    ensures var t := Next(s, e);
      && page in t.clients && t.calls == s.calls && t.devices == s.devices && t.clients[page].editor == s.clients[page].editor
      && var p, q := PanelOf(s, page), PanelOf(t, page);
      && q.persisted == p.conflict.value.latestText && q.pair == Pair(p.pair.version, p.conflict.value.latestRevision)
      && q.base == Some(q.pair) && q.conflict == None
    ensures var t := Next(s, e);
      var p, q := PanelOf(s, page), PanelOf(t, page);
      && (!e.merge ==> q.draft == p.conflict.value.latestText && q.draft == q.persisted)
      && (e.merge ==> q.draft == p.conflict.value.latestText + "\n\n---\n\n" + p.draft)
  {
    var eff := StepMoves(s, e, page);
  }

  /** Afterwards the timer saves exactly the merged draft, and never the server's own text; the same holds of "Retry save". */
  lemma ResolvedSaves(s: System, e: Event, page: nat)
    requires Takes(s, e, page) && e.ResolveClick? && !PanelOf(s, page).conflict.value.versionChanged
    ensures var t := Next(s, e);
      && page in t.clients
      && var p, q := PanelOf(s, page), PanelOf(t, page);
      && (!e.merge ==> Next(t, AutosaveTimer(page)) == t && Next(t, RetrySaveClick(page)) == t)
      && (e.merge ==> (CanAutosave(q, false) <==> (Editable(p) && p.intent == None && p.saving == None)))
  {
    var eff := StepMoves(s, e, page);
    var t := Next(s, e);
    assert Live(t, page);
    if e.merge {
      var c := PanelOf(s, page).conflict.value;
      assert |PanelOf(t, page).draft| > |c.latestText|;
    } else {
      LiveNext(t, AutosaveTimer(page), page);
      LiveNext(t, RetrySaveClick(page), page);
    }
  }

  /** A conflict about a changed version is not resolved on the page: the unit is loaded again, with the server's text. */
  lemma ResolveReloads(s: System, e: Event, page: nat)
    requires Takes(s, e, page) && e.ResolveClick? && PanelOf(s, page).conflict.value.versionChanged
    ensures var t := Next(s, e);
      && page in t.clients && Requests(s, t, page, Read) && t.devices == s.devices
      && PanelOf(t, page) == PanelOf(s, page) && t.clients[page].loads == s.clients[page].loads[|s.calls| := true]
  {
    var eff := StepMoves(s, e, page);
  }

  // ---------------------------------------------------------------- loading

  /** The read of a load is answered; `at` is the server's state when it was served. */
  ghost predicate AnswersLoad(s: System, e: Event, page: nat, at: Server) {
    && e.Deliver? && Live(s, page) && e.answer < |s.answers| && s.answers[e.answer].at == at && s.answers[e.answer].call < |s.calls|
    && var k := s.answers[e.answer].call;
    && s.calls[k].client == page && s.calls[k].request == Read && k in s.clients[page].loads
    && (PanelOf(s, page).saving.Some? ==> PanelOf(s, page).saving.value.call != k)
    && (!PanelOf(s, page).submit.NotSubmitting? ==> PanelOf(s, page).submit.call != k)
  }

  /** The copy a load reads becomes the one the page has last seen; one that is wanted but unusable is deleted. */
  lemma LoadReadsCopy(s: System, e: Event, page: nat, at: Server)
    requires AnswersLoad(s, e, page, at)
    ensures var t := Next(s, e);
      && Live(t, page) && DeviceOf(t, page).store == DeviceOf(s, page).store
      && var wanted := (at.stage == Draft || at.stage == RevisionRequested) && !s.clients[page].loads[s.answers[e.answer].call];
      var copy := DeviceOf(s, page).copy;
      && t.clients[page].snapshot == (if wanted && e.found.copy && copy.Some? then copy else s.clients[page].snapshot)
      && DeviceOf(t, page).copy == (if wanted && !e.found.copy then None else copy)
  {
    var eff := LoadMoves(s, e, page, at);
  }

  /** The local copy that a load with this answer finds and may use. */
  function LocalCopy(s: System, e: Event, page: nat, at: Server): Option<Envelope>
    requires e.Deliver? && Live(s, page) && e.answer < |s.answers| && s.answers[e.answer].call in s.clients[page].loads
  {
    var copy := DeviceOf(s, page).copy;
    if (at.stage == Draft || at.stage == RevisionRequested) && !s.clients[page].loads[s.answers[e.answer].call] && e.found.copy &&
       copy.Some? && copy.value.text != ReadCurrent(at).text
    then copy else None
  }

  lemma LoadMoves(s: System, e: Event, page: nat, at: Server) returns (eff: Effect)
    requires AnswersLoad(s, e, page, at)
    ensures eff == LoadDone(s.clients[page], DeviceOf(s, page), s.answers[e.answer].call, Snapshot(ReadCurrent(at)), e.found)
    ensures Moves(s, Next(s, e), page, eff)
  {
    eff := AnswerMoves(s, e, page, s.answers[e.answer].call, Snapshot(ReadCurrent(at)));
  }

  /** After a load the page shows the server's state, its last snapshot's attachments and text, and the pair to go on with. */
  lemma LoadShows(s: System, e: Event, page: nat, at: Server)
    requires AnswersLoad(s, e, page, at) && ServerOk(at)
    ensures var t := Next(s, e);
      && page in t.clients && t.calls == s.calls
      && var q := PanelOf(t, page);
      && q.loaded && q.stage == at.stage && q.readOnly == at.recordsClosed && q.saving == PanelOf(s, page).saving
      && (at.versions == [] ==> q.pair == Pair(None, 0) && q.images == [] && q.persisted == "")
      && (at.versions != [] ==>
            var v := |at.versions| - 1;
            var n := |at.versions[v].snaps|;
            && n >= 1 && q.pair == Pair(Some(v), if at.stage == RevisionRequested then 0 else n)
            && Snap(q.persisted, q.images) == at.versions[v].snaps[n - 1])
  {
    var eff := LoadMoves(s, e, page, at);
    ReadShowsLast(at);
  }

  /**
   * The draft after a load is the server's text, or the local copy if there is one to use; and there
   * is a conflict exactly if that copy was written over another pair, quoting the server's text.
   */
  lemma LoadTakes(s: System, e: Event, page: nat, at: Server)
    requires AnswersLoad(s, e, page, at)
    ensures var t := Next(s, e);
      && page in t.clients
      && var q := PanelOf(t, page);
      match LocalCopy(s, e, page, at) {
        case None => q.draft == q.persisted && q.conflict == None && q.base == Some(q.pair) && q.status == Quiet
        case Some(copy) =>
          && q.draft == copy.text && q.base == copy.base && (q.conflict == None <==> copy.base == Some(q.pair))
          && q.status == (if q.conflict == None then Recovered else Conflicted)
          && (q.conflict.Some? ==> q.conflict.value.latestText == q.persisted && q.conflict.value.latestRevision == q.pair.revision)
          && (q.conflict.Some? ==> (q.conflict.value.versionChanged <==> copy.base == None || copy.base.value.version != q.pair.version))
      }
  {
    var eff := LoadMoves(s, e, page, at);
  }

  // ---------------------------------------------------------------- the recovery copy

  /** An unsaved draft is stored as it is, with its base; that is then the copy the page has last seen. */
  lemma UnsavedIsStored(s: System, e: Event, page: nat)
    requires Takes(s, e, page) && e.StoreCopy? && PanelOf(s, page).draft != PanelOf(s, page).persisted
    ensures var t := Next(s, e);
      && Live(t, page) && t.calls == s.calls && PanelOf(t, page) == PanelOf(s, page)
      && var copy := DeviceOf(t, page).copy;
      && copy.Some? && copy.value.text == PanelOf(s, page).draft && copy.value.base == PanelOf(s, page).base && copy.value.stamp == e.now
      && t.clients[page].snapshot == copy
      && DeviceOf(t, page).slot == DeviceOf(s, page).slot && DeviceOf(t, page).store == DeviceOf(s, page).store
  {
    var eff := StepMoves(s, e, page);
  }

  /** Once the draft is saved its copy goes, if and only if it is still the one the page has last seen; nothing else goes. */
  lemma SavedCopyGoesIff(s: System, e: Event, page: nat)
    requires Takes(s, e, page) && e.StoreCopy? && PanelOf(s, page).draft == PanelOf(s, page).persisted
    ensures var t := Next(s, e);
      && Live(t, page) && t.calls == s.calls && t.clients[page] == s.clients[page]
      && DeviceOf(t, page) == DeviceOf(s, page).(copy := DeviceOf(t, page).copy)
      && (DeviceOf(s, page).copy.Some? && DeviceOf(s, page).copy == s.clients[page].snapshot ==> DeviceOf(t, page).copy == None)
      && (DeviceOf(s, page).copy != s.clients[page].snapshot ==> DeviceOf(t, page).copy == DeviceOf(s, page).copy)
      && (DeviceOf(s, page).copy == None ==> DeviceOf(t, page).copy == None)
  {
    var eff := StepMoves(s, e, page);
  }

  // ---------------------------------------------------------------- sealing

  /** The answer to the page's seal. */
  ghost predicate AnswersSeal(s: System, e: Event, page: nat, reply: Reply) {
    && page in s.clients && PanelOf(s, page).submit.Sealing? && Answers(s, e, page, PanelOf(s, page).submit.call, reply)
    && (PanelOf(s, page).saving.Some? ==> PanelOf(s, page).saving.value.call != PanelOf(s, page).submit.call)
  }

  lemma SealMoves(s: System, e: Event, page: nat, reply: Reply) returns (eff: Effect)
    requires AnswersSeal(s, e, page, reply)
    ensures eff == SealDone(s.clients[page], DeviceOf(s, page), reply, |s.calls|) && Moves(s, Next(s, e), page, eff)
  {
    eff := AnswerMoves(s, e, page, PanelOf(s, page).submit.call, reply);
  }

  /** The slot no longer holds the intent, and an intent of another key is still there. */
  predicate Dropped(before: Option<Intent>, after: Option<Intent>, key: nat) {
    after == if before.Some? && before.value.key == key then None else before
  }

  /** The click: a new intent for the page's own pair is kept, stored if storage takes it, and its seal is sent under a new key. */
  lemma NewSealSends(s: System, e: Event, page: nat)
    requires Takes(s, e, page) && e.Submit? && PanelOf(s, page).intent == None
    ensures var t := Next(s, e);
      && Live(t, page) && t.nextKey == s.nextKey + 1
      && var p, q := PanelOf(s, page), PanelOf(t, page);
      && SealsAll(s.clients[page]) && Requests(s, t, page, Seal(s.nextKey, p.pair.version.value, p.pair.revision))
      && q.intent.Some? && q.intent.value.key == s.nextKey && Pair(Some(q.intent.value.version), q.intent.value.revision) == p.pair
      && q.submit == Sealing(|s.calls|, q.intent.value)
      && DeviceOf(t, page).slot == (if e.written then q.intent else DeviceOf(s, page).slot) && t.clients[page].submitted == s.clients[page].snapshot
      && q.draft == p.draft && q.persisted == p.persisted && q.pair == p.pair && q.conflict == p.conflict
  {
    var eff := StepMoves(s, e, page);
  }

  /** With an open intent the click only reads, to see what became of it. */
  lemma OpenSealReads(s: System, e: Event, page: nat)
    requires Takes(s, e, page) && e.Submit? && PanelOf(s, page).intent.Some?
    ensures var t := Next(s, e);
      && Live(t, page) && t.devices == s.devices && Requests(s, t, page, Read)
      && var p, q := PanelOf(s, page), PanelOf(t, page);
      && q == p.(submit := Rechecking(|s.calls|, p.intent.value)) && t.clients[page].submitted == s.clients[page].snapshot
  {
    var eff := StepMoves(s, e, page);
  }

  /**
   * An accepted seal: the intent is over on the page and in the slot, the unit is loaded again, and
   * the local copy goes exactly if it is still the one the page had seen at the click.
   */
  lemma SealAcceptedShows(s: System, e: Event, page: nat)
    requires AnswersSeal(s, e, page, SealAccepted)
    ensures var t := Next(s, e);
      && Live(t, page) && Requests(s, t, page, Read) && t.clients[page].loads == s.clients[page].loads[|s.calls| := false]
      && var p, q := PanelOf(s, page), PanelOf(t, page);
      && q == p.(intent := None, submit := NotSubmitting)
      && Dropped(DeviceOf(s, page).slot, DeviceOf(t, page).slot, p.submit.intent.key)
      && (DeviceOf(s, page).copy.Some? && DeviceOf(s, page).copy == s.clients[page].submitted ==> DeviceOf(t, page).copy == None)
      && (DeviceOf(s, page).copy != s.clients[page].submitted ==> DeviceOf(t, page).copy == DeviceOf(s, page).copy)
  {
    var eff := SealMoves(s, e, page, SealAccepted);
  }

  /** A refusal for good ends the intent too, and says why; texts and copy stay. */
  lemma SealRefusedShows(s: System, e: Event, page: nat, reply: Reply)
    requires AnswersSeal(s, e, page, reply) && (reply == Closed || reply.StaleVersion? || reply.StaleRevision?)
    ensures var t := Next(s, e);
      && Live(t, page) && t.calls == s.calls && DeviceOf(t, page).copy == DeviceOf(s, page).copy
      && var p, q := PanelOf(s, page), PanelOf(t, page);
      && q.intent == None && q.submit == NotSubmitting && q.draft == p.draft && q.persisted == p.persisted && q.pair == p.pair
      && Dropped(DeviceOf(s, page).slot, DeviceOf(t, page).slot, p.submit.intent.key)
      && (reply == Closed ==> q.readOnly && q.conflict == p.conflict)
      && (reply != Closed ==> q.conflict.Some? && q.conflict.value.latestRevision == reply.latestRevision && !q.conflict.value.quoted == (reply.latestText == None))
      && (reply != Closed ==> (q.conflict.value.versionChanged <==> reply.StaleVersion?))
  {
    var eff := SealMoves(s, e, page, reply);
  }

  /** Any other answer, or none, leaves the intent open: page and slot keep it, and the next click asks again. */
  lemma SealUnclearShows(s: System, e: Event, page: nat, reply: Reply)
    requires AnswersSeal(s, e, page, reply) && reply != SealAccepted && reply != Closed && !reply.StaleVersion? && !reply.StaleRevision?
    ensures var t := Next(s, e);
      && Live(t, page) && t.calls == s.calls && DeviceOf(t, page) == DeviceOf(s, page)
      && PanelOf(t, page) == PanelOf(s, page).(submit := NotSubmitting)
  {
    var eff := SealMoves(s, e, page, reply);
  }

  /** The read of a click with an open intent is answered; `at` is the server's state when it was served. */
  ghost predicate AnswersRecheck(s: System, e: Event, page: nat, at: Server) {
    && e.Deliver? && Live(s, page) && PanelOf(s, page).submit.Rechecking?
    && e.answer < |s.answers| && s.answers[e.answer].at == at && s.answers[e.answer].call == PanelOf(s, page).submit.call < |s.calls|
    && s.calls[s.answers[e.answer].call].client == page && s.calls[s.answers[e.answer].call].request == Read
    && (PanelOf(s, page).saving.Some? ==> PanelOf(s, page).saving.value.call != PanelOf(s, page).submit.call)
  }

  lemma RecheckMoves(s: System, e: Event, page: nat, at: Server) returns (eff: Effect)
    requires AnswersRecheck(s, e, page, at)
    ensures eff == RecheckDone(s.clients[page], DeviceOf(s, page), Snapshot(ReadCurrent(at)), e.found, PanelOf(s, page).submit.intent, |s.calls|)
    ensures Moves(s, Next(s, e), page, eff)
  {
    eff := AnswerMoves(s, e, page, PanelOf(s, page).submit.call, Snapshot(ReadCurrent(at)));
  }

  /** The page shows what it read, as after a load. */
  lemma RecheckLoads(s: System, e: Event, page: nat, at: Server)
    requires AnswersRecheck(s, e, page, at)
    ensures var t := Next(s, e);
      && Live(t, page)
      && var r, q := ReadCurrent(at), PanelOf(t, page);
      q.loaded && q.stage == r.stage && q.readOnly == r.closed && q.pair == LoadedPair(r) && q.images == r.images && q.persisted == r.text
  {
    var eff := RecheckMoves(s, e, page, at);
  }

  /** Sealed already: the intent is over on the page and in the slot. */
  lemma RecheckFindsSealed(s: System, e: Event, page: nat, at: Server)
    requires AnswersRecheck(s, e, page, at)
    requires var i := PanelOf(s, page).submit.intent; ReadCurrent(at).version == Some(i.version) && ReadCurrent(at).isSealed
    ensures var t := Next(s, e);
      && Live(t, page) && t.calls == s.calls && PanelOf(t, page).intent == None && PanelOf(t, page).submit == NotSubmitting
      && (DeviceOf(t, page).slot.Some? ==> DeviceOf(t, page).slot.value.key != PanelOf(s, page).submit.intent.key)
  {
    var eff := RecheckMoves(s, e, page, at);
  }

  /** Moved on: the intent is over too, and a banner quotes what is there now. */
  lemma RecheckFindsMoved(s: System, e: Event, page: nat, at: Server)
    requires AnswersRecheck(s, e, page, at)
    requires var i := PanelOf(s, page).submit.intent;
      var r := ReadCurrent(at);
      r.version.Some? && (r.version != Some(i.version) || (!r.isSealed && r.revision != i.revision))
    ensures var t := Next(s, e);
      var r, q := ReadCurrent(at), PanelOf(t, page);
      && Live(t, page) && t.calls == s.calls && q.intent == None && q.submit == NotSubmitting && q.status == Conflicted
      && q.conflict.Some? && q.conflict.value.latestText == r.text && q.conflict.value.latestRevision == r.revision
      && (q.conflict.value.versionChanged <==> r.version != Some(PanelOf(s, page).submit.intent.version))
      && (DeviceOf(t, page).slot.Some? ==> DeviceOf(t, page).slot.value.key != PanelOf(s, page).submit.intent.key)
  {
    var eff := RecheckMoves(s, e, page, at);
  }

  /** Still open: the same seal is asked for again, under the same key. */
  lemma RecheckAsksAgain(s: System, e: Event, page: nat, at: Server)
    requires AnswersRecheck(s, e, page, at)
    requires var i := PanelOf(s, page).submit.intent;
      var r := ReadCurrent(at); r.version == Some(i.version) && !r.isSealed && r.revision == i.revision
    ensures var t := Next(s, e);
      var i := PanelOf(s, page).submit.intent;
      Live(t, page) && Requests(s, t, page, Seal(i.key, i.version, i.revision)) && PanelOf(t, page).submit == Sealing(|s.calls|, i)
  {
    var eff := RecheckMoves(s, e, page, at);
  }

  // ---------------------------------------------------------------- a whole save

  /** The page's pair is the one a load would give, and the server would take its save. */
  ghost predicate UpToDate(s: System, page: nat) {
    && page in s.clients && PanelOf(s, page).pair == LoadedPair(ReadCurrent(s.server))
    && !s.server.recordsClosed && CanRecover(ReadCurrent(s.server))
  }

  /** The timer, the server and the answer, one after the other. */
  ghost function SaveCycle(s: System, page: nat, found: Found, disk: Disk, now: nat): System {
    Next(Next(Next(s, AutosaveTimer(page)), ServeCall(|s.calls|)), Deliver(|s.answers|, found, disk, now))
  }

  /**
   * From any state in which the page is up to date and the timer may save: when the save is served
   * and answered undisturbed, the server's text is the draft in stored form, the page holds its pair
   * and shows it as saved, and there is nothing more to save.
   */
  lemma SaveRoundTrip(s: System, page: nat, found: Found, disk: Disk, now: nat)
    requires SystemOk(s) && Takes(s, AutosaveTimer(page), page) && UpToDate(s, page)
    ensures var t := SaveCycle(s, page, found, disk, now);
      && page in t.clients && CurrentText(t.server) == Normalize(PanelOf(s, page).draft)
      && PanelOf(t, page).pair == LoadedPair(ReadCurrent(t.server))
      && PanelOf(t, page).draft == PanelOf(t, page).persisted == PanelOf(s, page).draft
      && PanelOf(t, page).status == SavedStatus && !CanAutosave(PanelOf(t, page), false)
  {
    var p := PanelOf(s, page);
    var s1 := Next(s, AutosaveTimer(page));
    SaveSends(s, AutosaveTimer(page), page);
    StartedSave(s, page);
    SaveServed(s.server, s1, page, p.draft, p.pair);
    var s2 := Next(s1, ServeCall(|s.calls|));
    var q := ReadCurrent(s2.server);
    SavedShows(s2, Deliver(|s.answers|, found, disk, now), page, q.version.value, q.revision);
    var e := Deliver(|s.answers|, found, disk, now);
    var eff := AnswerMoves(s2, e, page, |s.calls|, Saved(q.version.value, q.revision));
  }

  lemma StartedSave(s: System, page: nat)
    requires Takes(s, AutosaveTimer(page), page)
    ensures var t := Next(s, AutosaveTimer(page));
      t.server == s.server && t.answers == s.answers && Live(t, page)
  {
    LiveNext(s, AutosaveTimer(page), page);
  }

  lemma SaveServed(server: Server, s: System, page: nat, text: string, base: Pair)
    requires ServerOk(server) && s.server == server && s.calls != [] && Live(s, page)
    requires s.calls[|s.calls| - 1].client == page && s.calls[|s.calls| - 1].request == Save(text, base)
    requires base == LoadedPair(ReadCurrent(server)) && !server.recordsClosed && CanRecover(ReadCurrent(server))
    ensures var t := Next(s, ServeCall(|s.calls| - 1));
      var q := ReadCurrent(t.server);
      && t.clients == s.clients && t.devices == s.devices && t.calls == s.calls && t.answers == s.answers + [Answer(|s.calls| - 1, server)]
      && q.version.Some? && q.text == Normalize(text) && q.stage == Draft
      && ReplyTo(t, t.answers[|s.answers|]) == Saved(q.version.value, q.revision)
  {
    ServedNext(s, |s.calls| - 1);
    SaveIff(server, text, base);
    SavedReads(server, text, base);
  }

  /** A request is served: the server moves, and its answer is on its way. */
  lemma ServedNext(s: System, k: nat)
    requires k < |s.calls|
    ensures var t := Next(s, ServeCall(k));
      && t.server == Serve(s.server, s.calls[k].request).0 && t.clients == s.clients && t.devices == s.devices && t.calls == s.calls
      && t.answers == s.answers + [Answer(k, s.server)] && ReplyTo(t, t.answers[|s.answers|]) == Serve(s.server, s.calls[k].request).1
  {
  }
}

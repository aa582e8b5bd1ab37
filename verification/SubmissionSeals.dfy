/**
 * Seal safety. What a seal seals, when an intent may be dropped, how many keys can be open at a
 * time, and which writes a page can start while its intent is open.
 */
module SubmissionSeals {
  import opened Prelude
  import opened JsText
  import opened SubmissionServer
  import opened SubmissionHistory
  import opened PracticePanel
  import opened ImageQueue
  import opened PracticeClient
  import opened SubmissionProtocol
  import opened SubmissionStructure
  import opened SubmissionTexts

  /** The pair of a seal is behind the server: its version is sealed or has a later revision. */
  ghost predicate SealDead(s: Server, v: nat, r: nat) {
    s.recordsClosed || (v < |s.versions| && (s.versions[v].isSealed || |s.versions[v].snaps| > r))
  }

  lemma SealDeadForever(s: Server, t: Server, v: nat, r: nat)
    requires Extends(s, t) && SealDead(s, v, r)
    ensures SealDead(t, v, r)
  {
    if !s.recordsClosed {
      assert VersionGrows(s.versions[v], t.versions[v]);
    }
  }

  /** A dead seal request changes nothing any more, however often and late it is served. */
  lemma DeadSealIsHarmless(s: Server, key: nat, v: nat, r: nat)
    requires ServerOk(s) && SealDead(s, v, r)
    ensures Serve(s, Seal(key, v, r)).0 == s
  {
  }

  /** A seal that takes effect seals its own version at its own revision, and no other version changes. */
  lemma SealTakesEffect(s: Server, key: nat, v: nat, r: nat)
    requires ServerOk(s) && Serve(s, Seal(key, v, r)).0 != s
    ensures var t := Serve(s, Seal(key, v, r)).0;
      && Current(s) == Some(v) && |s.versions[v].snaps| == r && !s.versions[v].isSealed
      && t.versions == s.versions[v := s.versions[v].(isSealed := true)]
      && ReadCurrent(t).isSealed && ReadCurrent(t).text == ReadCurrent(s).text && ReadCurrent(t).images == ReadCurrent(s).images
      && SealDead(t, v, r)
  {
  }

  /**
   * In every careful run, a seal that the server performs, at once or as a delayed duplicate,
   * seals exactly the version, revision and text that its page held when it was sent.
   */
  lemma SealSealsWhatWasHeld(replays: bool, events: seq<Event>, k: nat)
    requires CarefulRun(Init(replays), events)
    requires k < |Exec(Init(replays), events).calls| && Exec(Init(replays), events).calls[k].request.Seal?
    requires Next(Exec(Init(replays), events), ServeCall(k)).server != Exec(Init(replays), events).server
    ensures var s := Exec(Init(replays), events);
      var q := s.calls[k].request;
      var after := ReadCurrent(Next(s, ServeCall(k)).server);
      && after.version == Some(q.version) && after.revision == q.revision && after.isSealed
      && after.text == Normalize(s.calls[k].held)
  {
    InitOk(replays);
    CarefulRunTrue(Init(replays), events);
    SealedText(Exec(Init(replays), events), k);
  }

  lemma SealedText(s: System, k: nat)
    requires SystemOk(s) && k < |s.calls| && s.calls[k].request.Seal? && CallTrue(s.server, s.calls[k])
    requires Serve(s.server, s.calls[k].request).0 != s.server
    ensures var q := s.calls[k].request;
      var after := ReadCurrent(Serve(s.server, q).0);
      && after.version == Some(q.version) && after.revision == q.revision && after.isSealed
      && after.text == Normalize(s.calls[k].held)
  {
    var q := s.calls[k].request;
    SealTakesEffect(s.server, q.key, q.version, q.revision);
  }

  // ---------------------------------------------------------------- one key at a time

  /** The seal request names a revision that existed when it was sent. */
  ghost predicate SealShape(c: Call) {
    c.request.Seal? ==> Existed(c.floor, c.request.version, c.request.revision)
  }

  ghost predicate Existed(s: Server, v: nat, r: nat) {
    v < |s.versions| && 1 <= r <= |s.versions[v].snaps|
  }

  /** The submission in progress is for the intent in the slot, or for one that is settled for good. */
  ghost predicate SubmitAccounted(s: Server, calls: seq<Call>, submit: Submit, slot: Option<Intent>) {
    submit.NotSubmitting? ||
    (&& (slot == Some(submit.intent) || (slot == None && SealDead(s, submit.intent.version, submit.intent.revision)))
     && submit.call < |calls|
     && Existed(calls[submit.call].floor, submit.intent.version, submit.intent.revision))
  }

  /** A page on its own device whose slot could be written holds the same intent in both places. */
  ghost predicate SlotAgrees(s: Server, calls: seq<Call>, cl: Client, d: Device) {
    && (cl.panel.loaded ==> cl.panel.intent == d.slot)
    && (!cl.panel.loaded ==> cl.panel.intent == None && cl.panel.submit.NotSubmitting? && cl.editor.job.Idle?)
    && SubmitAccounted(s, calls, cl.panel.submit, d.slot)
    && (d.slot.Some? ==> cl.editor.job.Idle?)
  }

  /** The key of a seal request is settled for good or still in its page's slot. */
  ghost predicate KeyAccounted(s: System, c: Call) {
    c.request.Seal? ==>
      SealDead(s.server, c.request.version, c.request.revision) ||
      (c.client in s.devices && s.devices[c.client].slot.Some? && SealRequest(s.devices[c.client].slot.value) == c.request)
  }

  ghost predicate OwnSlot(s: System, page: nat) {
    page in s.clients && page in s.devices && s.clients[page].device == page &&
    SlotAgrees(s.server, s.calls, s.clients[page], s.devices[page])
  }

  ghost predicate SealInv(s: System) {
    && (forall c :: c in s.clients ==> OwnSlot(s, c))
    && (forall k :: 0 <= k < |s.calls| ==> s.calls[k].client in s.clients && SealShape(s.calls[k]) && KeyAccounted(s, s.calls[k]))
  }

  /** A step takes an intent out of the slot only when its seal can never be performed any more. */
  ghost predicate SlotStep(s: Server, d: Device, after: Device) {
    d.slot.Some? && after.slot != d.slot ==> SealDead(s, d.slot.value.version, d.slot.value.revision)
  }

  /** A seal request that leaves the page is for an existing revision, and settled or in the slot. */
  ghost predicate SealSent(s: Server, e: Effect) {
    e.send.Some? && e.send.value.Seal? ==>
      Existed(s, e.send.value.version, e.send.value.revision) &&
      (SealDead(s, e.send.value.version, e.send.value.revision) ||
       (e.device.slot.Some? && SealRequest(e.device.slot.value) == e.send.value))
  }

  ghost predicate SealStep(s: System, page: nat, d: Device, e: Effect) {
    SlotAgrees(s.server, SentCalls(s, page, e), e.client, e.device) && SlotStep(s.server, d, e.device) && SealSent(s.server, e)
  }

  lemma ObservedIsDead(s: Server, r: Reading, i: Intent)
    requires ReadingTrue(s, r) && r.version == Some(i.version) && r.isSealed
    ensures SealDead(s, i.version, i.revision)
  {
  }

  /** A read-back that differs from the intent was taken later, so the intent can never be performed. */
  lemma MovedIsDead(floor: Server, at: Server, now: Server, i: Intent)
    requires ServerOk(at) && Extends(floor, at) && Extends(at, now) && Existed(floor, i.version, i.revision)
    requires RecheckOutcome(ReadCurrent(at), i) == Moved
    ensures SealDead(now, i.version, i.revision)
  {
    assert VersionGrows(floor.versions[i.version], at.versions[i.version]);
    assert VersionOk(at, i.version);
    SealDeadForever(at, now, i.version, i.revision);
  }

  /** Every answer that ends an intent shows that the intent can never be performed again. */
  lemma SettledIsDead(floor: Server, at: Server, now: Server, i: Intent)
    requires ServerOk(at) && Extends(floor, at) && Existed(floor, i.version, i.revision)
    requires Extends(Serve(at, SealRequest(i)).0, now) && SealSettles(Serve(at, SealRequest(i)).1)
    ensures SealDead(now, i.version, i.revision)
  {
    assert VersionGrows(floor.versions[i.version], at.versions[i.version]);
    assert VersionOk(at, i.version);
    ServeKeeps(at, SealRequest(i));
    SealDeadForever(Serve(at, SealRequest(i)).0, now, i.version, i.revision);
  }

  // ---------------------------------------------------------------- one page, one step

  ghost predicate SealBefore(s: System, cl: Client, d: Device) {
    SlotAgrees(s.server, s.calls, cl, d) && PanelTrue(s.server, cl.panel) && DeviceTrue(s.server, d)
  }

  lemma AgreesGrows(s: Server, t: Server, calls: seq<Call>, more: seq<Call>, cl: Client, d: Device)
    requires SlotAgrees(s, calls, cl, d) && Extends(s, t) && calls <= more
    ensures SlotAgrees(t, more, cl, d)
  {
    if !cl.panel.submit.NotSubmitting? && d.slot == None {
      SealDeadForever(s, t, cl.panel.submit.intent.version, cl.panel.submit.intent.revision);
    }
  }

  /** A step that leaves intent, slot and submission alone, and starts an image job only with an empty slot. */
  lemma CalmStep(s: System, page: nat, cl: Client, d: Device, e: Effect)
    requires SlotAgrees(s.server, s.calls, cl, d)
    requires e.device.slot == d.slot && e.client.panel.intent == cl.panel.intent && e.client.panel.submit == cl.panel.submit
    requires e.client.panel.loaded == cl.panel.loaded
    requires e.client.editor.job.Idle? || (d.slot == None && cl.panel.loaded)
    requires e.send.Some? ==> !e.send.value.Seal?
    ensures SealStep(s, page, d, e)
  {
    ExtendsReflexive(s.server);
    AgreesGrows(s.server, s.server, s.calls, SentCalls(s, page, e), cl, d);
  }

  lemma LoadSeal(s: System, cl: Client, d: Device, r: Reading, useServer: bool, found: Found)
    requires SlotAgrees(s.server, s.calls, cl, d) && ReadingTrue(s.server, r) && found.intent
    ensures SlotAgrees(s.server, s.calls, LoadClient(cl, d, r, useServer, found), LoadDevice(d, r, useServer, found))
    ensures SlotStep(s.server, d, LoadDevice(d, r, useServer, found))
  {
    if SealObserved(r, d.slot) {
      ObservedIsDead(s.server, r, d.slot.value);
    }
  }

  /** The reply to call `k` was computed in state `at`, after the call and before now; `Refused` may come at any time. */
  ghost predicate Genuine(s: System, k: nat, reply: Reply, at: Server) {
    reply == Refused ||
    (&& k < |s.calls| && ServerOk(at) && reply == Serve(at, s.calls[k].request).1
     && Extends(s.calls[k].floor, at) && Extends(Serve(at, s.calls[k].request).0, s.server))
  }

  lemma RecheckSeal(s: System, page: nat, cl: Client, d: Device, reply: Reply, at: Server, found: Found)
    requires SealBefore(s, cl, d) && cl.panel.submit.Rechecking? && ReplyShape(s.server, reply) && found.intent
    requires Asks(s.calls, cl.panel.submit.call, Read) && Genuine(s, cl.panel.submit.call, reply, at)
    ensures SealStep(s, page, d, RecheckDone(cl, d, reply, found, cl.panel.submit.intent, |s.calls|))
  {
    var i := cl.panel.submit.intent;
    if reply.Snapshot? {
      var r := reply.reading;
      match RecheckOutcome(r, i)
      case Unreadable => RecheckOpenSeal(s, page, cl, d, r, found);
      case AlreadySealed =>
        ObservedIsDead(s.server, r, i);
        RecheckDeadSeal(s, page, cl, d, r, found);
      case Moved =>
        MovedIsDead(s.calls[cl.panel.submit.call].floor, at, s.server, i);
        RecheckDeadSeal(s, page, cl, d, r, found);
      case StillOpen => RecheckOpenSeal(s, page, cl, d, r, found);
    }
  }

  /** The read-back shows that the intent is over. */
  lemma RecheckDeadSeal(s: System, page: nat, cl: Client, d: Device, r: Reading, found: Found)
    requires SealBefore(s, cl, d) && cl.panel.submit.Rechecking? && ReadingTrue(s.server, r) && found.intent
    requires RecheckOutcome(r, cl.panel.submit.intent) == AlreadySealed || RecheckOutcome(r, cl.panel.submit.intent) == Moved
    requires SealDead(s.server, cl.panel.submit.intent.version, cl.panel.submit.intent.revision)
    ensures SealStep(s, page, d, RecheckDone(cl, d, Snapshot(r), found, cl.panel.submit.intent, |s.calls|))
  {
    LoadSeal(s, cl, d, r, false, found);
  }

  /** The read-back says nothing, or that the intent is still open. */
  lemma RecheckOpenSeal(s: System, page: nat, cl: Client, d: Device, r: Reading, found: Found)
    requires SealBefore(s, cl, d) && cl.panel.submit.Rechecking? && ReadingTrue(s.server, r) && found.intent
    requires RecheckOutcome(r, cl.panel.submit.intent) == Unreadable || RecheckOutcome(r, cl.panel.submit.intent) == StillOpen
    ensures SealStep(s, page, d, RecheckDone(cl, d, Snapshot(r), found, cl.panel.submit.intent, |s.calls|))
  {
    LoadSeal(s, cl, d, r, false, found);
  }

  lemma SealDoneSeal(s: System, page: nat, cl: Client, d: Device, reply: Reply, at: Server)
    requires SealBefore(s, cl, d) && cl.panel.submit.Sealing?
    requires Asks(s.calls, cl.panel.submit.call, SealRequest(cl.panel.submit.intent))
    requires Genuine(s, cl.panel.submit.call, reply, at)
    ensures SealStep(s, page, d, SealDone(cl, d, reply, |s.calls|))
  {
    if SealSettles(reply) {
      SettledIsDead(s.calls[cl.panel.submit.call].floor, at, s.server, cl.panel.submit.intent);
    }
  }

  lemma LoadDoneSeal(s: System, page: nat, cl: Client, d: Device, k: nat, reply: Reply, found: Found)
    requires SealBefore(s, cl, d) && ReplyShape(s.server, reply) && k in cl.loads && found.intent
    ensures SealStep(s, page, d, LoadDone(cl, d, k, reply, found))
  {
    if reply.Snapshot? {
      LoadSeal(s, cl.(loads := cl.loads - {k}), d, reply.reading, cl.loads[k], found);
    }
  }

  lemma SaveDoneCalm(cl: Client, d: Device, reply: Reply, next: nat)
    requires cl.panel.saving.Some?
    ensures var e := SaveDone(cl, d, reply, next);
      ImageCalm(cl, d, e) && (e.client.editor.job == cl.editor.job || !cl.editor.job.Idle?)
  {
  }

  lemma SaveDoneSeal(s: System, page: nat, cl: Client, d: Device, reply: Reply)
    requires SealBefore(s, cl, d) && cl.panel.saving.Some?
    ensures SealStep(s, page, d, SaveDone(cl, d, reply, |s.calls|))
  {
    SaveDoneCalm(cl, d, reply, |s.calls|);
    CalmStep(s, page, cl, d, SaveDone(cl, d, reply, |s.calls|));
  }

  /** An image step never touches intent, slot or submission, and sends no seal. */
  ghost predicate ImageCalm(cl: Client, d: Device, e: Effect) {
    && e.device.slot == d.slot && e.client.panel.intent == cl.panel.intent && e.client.panel.submit == cl.panel.submit
    && e.client.panel.loaded == cl.panel.loaded
    && (e.send.Some? ==> !e.send.value.Seal?)
  }

  lemma PreparedCalm(cl: Client, d: Device, r: Reading, purpose: Purpose, disk: Disk, now: nat, next: nat)
    ensures ImageCalm(cl, d, Prepared(cl, d, r, purpose, disk, now, next))
  {
  }

  lemma CheckedAgainCalm(cl: Client, d: Device, r: Reading, rec: Record, disk: Disk, now: nat, next: nat)
    ensures ImageCalm(cl, d, CheckedAgain(cl, d, r, rec, disk, now, next))
  {
  }

  lemma CheckedRemovalCalm(cl: Client, d: Device, r: Reading, image: Image, seen: nat, next: nat)
    ensures ImageCalm(cl, d, CheckedRemoval(cl, d, r, image, seen, next))
  {
  }

  lemma PostedCalm(cl: Client, d: Device, reply: Reply, rec: Record, current: Reading, disk: Disk, now: nat)
    ensures ImageCalm(cl, d, Posted(cl, d, reply, rec, current, disk, now))
  {
  }

  lemma DeletedCalm(cl: Client, d: Device, reply: Reply, target: Image, current: Reading, disk: Disk, now: nat)
    ensures ImageCalm(cl, d, Deleted(cl, d, reply, target, current, disk, now))
  {
  }

  lemma FailCalm(cl: Client, d: Device, x: Option<nat>, readOnly: bool)
    ensures ImageCalm(cl, d, Stay(FailImage(cl.(panel := cl.panel.(readOnly := readOnly)), x, ImageQueue.Failed), d))
    ensures ImageCalm(cl, d, Stay(FailImage(cl, x, ImageQueue.Failed), d))
  {
  }

  lemma ImageDoneCalm(cl: Client, d: Device, reply: Reply, disk: Disk, now: nat, next: nat)
    ensures ImageCalm(cl, d, ImageDone(cl, d, reply, disk, now, next))
  {
    match cl.editor.job
    case Preparing(_, purpose) =>
      if reply.Snapshot? && !reply.reading.closed {
        PreparedCalm(cl, d, reply.reading, purpose, disk, now, next);
      } else {
        FailCalm(cl, d, PurposeId(purpose), true);
      }
    case Checking(_, purpose) =>
      if reply.Snapshot? && !reply.reading.closed {
        if purpose.Removal? {
          CheckedRemovalCalm(cl, d, reply.reading, purpose.image, purpose.seen, next);
        } else {
          CheckedAgainCalm(cl, d, reply.reading, purpose.record, disk, now, next);
        }
      } else {
        FailCalm(cl, d, PurposeId(purpose), true);
      }
    case Posting(_, rec, current) => PostedCalm(cl, d, reply, rec, current, disk, now);
    case Deleting(_, target, current) => DeletedCalm(cl, d, reply, target, current, disk, now);
    case _ =>
  }

  lemma ArriveSeal(s: System, page: nat, cl: Client, d: Device, k: nat, reply: Reply, at: Server, found: Found, disk: Disk, now: nat)
    requires SealBefore(s, cl, d) && ReplyShape(s.server, reply) && Genuine(s, k, reply, at) && found.intent
    requires cl.panel.submit.Rechecking? ==> Asks(s.calls, cl.panel.submit.call, Read)
    requires cl.panel.submit.Sealing? ==> Asks(s.calls, cl.panel.submit.call, SealRequest(cl.panel.submit.intent))
    ensures SealStep(s, page, d, Arrive(cl, d, k, reply, found, disk, now, |s.calls|))
  {
    if cl.panel.saving.Some? && cl.panel.saving.value.call == k {
      SaveDoneSeal(s, page, cl, d, reply);
    } else if cl.panel.submit.Rechecking? && cl.panel.submit.call == k {
      RecheckSeal(s, page, cl, d, reply, at, found);
    } else if cl.panel.submit.Sealing? && cl.panel.submit.call == k {
      SealDoneSeal(s, page, cl, d, reply, at);
    } else {
      ArriveElsewhereSeal(s, page, cl, d, k, reply, found, disk, now);
    }
  }

  lemma ArriveElsewhereSeal(s: System, page: nat, cl: Client, d: Device, k: nat, reply: Reply, found: Found, disk: Disk, now: nat)
    requires SealBefore(s, cl, d) && ReplyShape(s.server, reply) && found.intent
    requires (cl.panel.saving.Some? ==> cl.panel.saving.value.call != k) && (!cl.panel.submit.NotSubmitting? ==> cl.panel.submit.call != k)
    ensures SealStep(s, page, d, Arrive(cl, d, k, reply, found, disk, now, |s.calls|))
  {
    if k in cl.loads {
      LoadDoneSeal(s, page, cl, d, k, reply, found);
    } else if JobCall(cl.editor.job) == Some(k) {
      ImageDoneSeal(s, page, cl, d, reply, disk, now);
    } else {
      CalmStep(s, page, cl, d, Stay(cl, d));
    }
  }

  lemma ImageDoneSeal(s: System, page: nat, cl: Client, d: Device, reply: Reply, disk: Disk, now: nat)
    requires SealBefore(s, cl, d) && JobCall(cl.editor.job).Some?
    ensures SealStep(s, page, d, ImageDone(cl, d, reply, disk, now, |s.calls|))
  {
    ImageDoneCalm(cl, d, reply, disk, now, |s.calls|);
    CalmStep(s, page, cl, d, ImageDone(cl, d, reply, disk, now, |s.calls|));
  }

  lemma SubmitSeal(s: System, page: nat, cl: Client, d: Device, key: nat)
    requires SealBefore(s, cl, d) && CanSubmit(cl.panel, cl.editor.ready, ImageBusy(cl), |cl.editor.queue|)
    ensures SealStep(s, page, d, SubmitClick(cl, d, key, true, |s.calls|))
  {
    var e := SubmitClick(cl, d, key, true, |s.calls|);
    var calls := SentCalls(s, page, e);
    assert calls[|s.calls|].floor == s.server;
    if cl.panel.intent.Some? {
      assert IntentTrue(s.server, cl.panel.intent.value);
    } else {
      assert Names(s.server, cl.panel.pair, cl.panel.persisted);
    }
  }

  lemma AnswerSeal(s: System, page: nat, cl: Client, d: Device, a: Answer, found: Found, disk: Disk, now: nat)
    requires SystemOk(s) && SealBefore(s, cl, d) && PanelShape(s.server, s.calls, cl.panel) && AnswerShape(s, a) && found.intent
    ensures SealStep(s, page, d, Arrive(cl, d, a.call, ReplyTo(s, a), found, disk, now, |s.calls|))
  {
    ReplyIsTrue(s, a);
    ArriveSeal(s, page, cl, d, a.call, ReplyTo(s, a), a.at, found, disk, now);
  }

  lemma FailureSeal(s: System, page: nat, cl: Client, d: Device, k: nat, now: nat)
    requires SystemOk(s) && SealBefore(s, cl, d) && PanelShape(s.server, s.calls, cl.panel)
    ensures SealStep(s, page, d, Failure(cl, d, k, now, |s.calls|))
  {
    ArriveSeal(s, page, cl, d, k, Refused, s.server, Found(true, true), Disk(true, true, true), now);
  }

  lemma UnmountSeal(s: System, page: nat, cl: Client, d: Device, e: Effect)
    requires SealStep(s, page, d, e) && e.send == None
    ensures SealStep(s, page, d, e.(client := Unmount(e.client)))
  {
  }

  lemma DeliverSeal(s: System, page: nat, cl: Client, d: Device, e: Event)
    requires SystemOk(s) && SealBefore(s, cl, d) && PanelShape(s.server, s.calls, cl.panel)
    requires e.Deliver? && e.found.intent
    ensures SealStep(s, page, d, Act(s, cl, d, e))
  {
    if e.answer < |s.answers| && s.answers[e.answer].call < |s.calls| {
      DeliverAct(s, cl, d, e);
      assert AnswerShape(s, s.answers[e.answer]);
      AnswerSeal(s, page, cl, d, s.answers[e.answer], e.found, e.disk, e.now);
    } else {
      DeliverNothing(s, cl, d, e);
      CalmStep(s, page, cl, d, Stay(cl, d));
    }
  }

  lemma LoseSeal(s: System, page: nat, cl: Client, d: Device, e: Event)
    requires SystemOk(s) && SealBefore(s, cl, d) && PanelShape(s.server, s.calls, cl.panel) && (e.Lose? || e.Unmounts?)
    ensures SealStep(s, page, d, Act(s, cl, d, e))
  {
    var lost := Failure(cl, d, e.call, e.now, |s.calls|);
    FailureSeal(s, page, cl, d, e.call, e.now);
    FailureDevice(cl, d, e.call, e.now, |s.calls|);
    UnmountSeal(s, page, cl, d, lost);
    assert Act(s, cl, d, e) == if e.Unmounts? then lost.(client := Unmount(lost.client)) else lost;
  }

  /** Every click but a seal click leaves intent, submission and slot alone, and sends no seal. */
  lemma ClickCalm(s: System, cl: Client, d: Device, e: Event)
    requires Allowed(cl, d, e) && !e.Deliver? && !e.Lose? && !e.Unmounts? && !e.Submit?
    ensures var eff := Act(s, cl, d, e);
      && eff.device.slot == d.slot && eff.client.panel.intent == cl.panel.intent && eff.client.panel.submit == cl.panel.submit
      && eff.client.panel.loaded == cl.panel.loaded && (eff.send.Some? ==> !eff.send.value.Seal?)
  {
  }

  /** An image job runs afterwards only if one ran before, or the page holds no intent. */
  lemma ClickJob(s: System, cl: Client, d: Device, e: Event)
    requires Allowed(cl, d, e) && !e.Deliver? && !e.Lose? && !e.Unmounts? && !e.Submit?
    ensures Act(s, cl, d, e).client.editor.job.Idle? || !cl.editor.job.Idle? || (cl.panel.loaded && cl.panel.intent == None)
  {
  }

  lemma ClickSeal(s: System, page: nat, cl: Client, d: Device, e: Event)
    requires SealBefore(s, cl, d) && Allowed(cl, d, e) && !e.Deliver? && !e.Lose? && !e.Unmounts? && !e.Submit?
    ensures SealStep(s, page, d, Act(s, cl, d, e))
  {
    ClickCalm(s, cl, d, e);
    ClickJob(s, cl, d, e);
    CalmStep(s, page, cl, d, Act(s, cl, d, e));
  }

  /** The storage takes a new intent and a load does not find a stored one too old. */
  ghost predicate Reliable(e: Event) {
    (e.Submit? ==> e.written) && (e.Deliver? ==> e.found.intent)
  }

  lemma ActSeal(s: System, page: nat, e: Event)
    requires SystemOk(s) && TextsTrue(s) && SealInv(s) && page in s.clients && !e.Open?
    requires Allowed(s.clients[page], s.devices[page], e) && Reliable(e)
    ensures SealStep(s, page, s.devices[page], Act(s, s.clients[page], s.devices[page], e))
  {
    var cl := s.clients[page];
    var d := s.devices[page];
    assert OwnSlot(s, page) && ClientShape(s.server, s.calls, cl);
    if e.Deliver? {
      DeliverSeal(s, page, cl, d, e);
    } else if e.Lose? || e.Unmounts? {
      LoseSeal(s, page, cl, d, e);
    } else if e.Submit? {
      SubmitSeal(s, page, cl, d, s.nextKey);
    } else {
      ClickSeal(s, page, cl, d, e);
    }
  }

  // ---------------------------------------------------------------- the whole system

  lemma SlotsStayAgreed(s: System, t: System, page: nat, eff: Effect)
    requires SealInv(s) && page in s.clients && eff.client.device == page && SealStep(s, page, s.devices[page], eff)
    requires t.server == s.server && t.clients == s.clients[page := eff.client] && t.devices == s.devices[page := eff.device]
    requires t.calls == SentCalls(s, page, eff)
    ensures forall c :: c in t.clients ==> OwnSlot(t, c)
  {
    ExtendsReflexive(s.server);
    forall c | c in t.clients ensures OwnSlot(t, c) {
      assert OwnSlot(s, c);
      if c != page {
        AgreesGrows(s.server, s.server, s.calls, t.calls, s.clients[c], s.devices[c]);
      }
    }
  }

  lemma PageKeepsSlots(s: System, e: Event, page: nat)
    requires SystemOk(s) && TextsTrue(s) && SealInv(s) && page in s.clients && EventPage(s, e) == Some(page) && !e.Open?
    requires Reliable(e)
    ensures forall c :: c in Next(s, e).clients ==> OwnSlot(Next(s, e), c)
  {
    PageNext(s, e, page);
    assert OwnSlot(s, page);
    if Allowed(s.clients[page], s.devices[page], e) {
      ActSeal(s, page, e);
      SlotsStayAgreed(s, Next(s, e), page, Act(s, s.clients[page], s.devices[page], e));
    }
  }

  /** An old key stays accounted for when its page takes a step, and a step of another page does not touch it. */
  lemma OldKeyAccounted(s: System, t: System, page: nat, c: Call, eff: Effect)
    requires KeyAccounted(s, c) && OwnSlot(s, page) && SlotStep(s.server, s.devices[page], eff.device)
    requires t.server == s.server && t.devices == s.devices[page := eff.device]
    ensures KeyAccounted(t, c)
  {
  }

  lemma NewKeyAccounted(s: System, t: System, page: nat, eff: Effect)
    requires SealSent(s.server, eff) && eff.send.Some?
    requires t.server == s.server && page in t.devices && t.devices[page] == eff.device
    ensures var c := Call(page, eff.send.value, eff.client.panel.persisted, s.server); SealShape(c) && KeyAccounted(t, c)
  {
  }

  lemma KeysStayAccounted(s: System, t: System, page: nat, eff: Effect)
    requires SealInv(s) && page in s.clients && SealStep(s, page, s.devices[page], eff)
    requires t.server == s.server && t.clients == s.clients[page := eff.client] && t.devices == s.devices[page := eff.device]
    requires t.calls == SentCalls(s, page, eff)
    ensures forall k :: 0 <= k < |t.calls| ==> t.calls[k].client in t.clients && SealShape(t.calls[k]) && KeyAccounted(t, t.calls[k])
  {
    assert OwnSlot(s, page);
    forall k | 0 <= k < |t.calls|
      ensures t.calls[k].client in t.clients && SealShape(t.calls[k]) && KeyAccounted(t, t.calls[k])
    {
      if k < |s.calls| {
        OldKeyAccounted(s, t, page, s.calls[k], eff);
      } else {
        NewKeyAccounted(s, t, page, eff);
      }
    }
  }

  lemma PageKeepsKeys(s: System, e: Event, page: nat)
    requires SystemOk(s) && TextsTrue(s) && SealInv(s) && page in s.clients && EventPage(s, e) == Some(page) && !e.Open?
    requires Reliable(e)
    ensures var t := Next(s, e);
      forall k :: 0 <= k < |t.calls| ==> t.calls[k].client in t.clients && SealShape(t.calls[k]) && KeyAccounted(t, t.calls[k])
  {
    PageNext(s, e, page);
    assert OwnSlot(s, page);
    if Allowed(s.clients[page], s.devices[page], e) {
      ActSeal(s, page, e);
      KeysStayAccounted(s, Next(s, e), page, Act(s, s.clients[page], s.devices[page], e));
    }
  }

  lemma ServerKeepsSeals(s: System, e: Event)
    requires SystemOk(s) && SealInv(s) && (e.ServeCall? || e.TeacherDecides? || e.RecordsClose?)
    ensures SealInv(Next(s, e))
  {
    NextOk(s, e);
    var t := Next(s, e);
    forall c | c in t.clients ensures OwnSlot(t, c) {
      assert OwnSlot(s, c);
      AgreesGrows(s.server, t.server, s.calls, t.calls, s.clients[c], s.devices[c]);
    }
    forall k | 0 <= k < |t.calls|
      ensures t.calls[k].client in t.clients && SealShape(t.calls[k]) && KeyAccounted(t, t.calls[k])
    {
      var c := s.calls[k];
      assert KeyAccounted(s, c) && SealShape(c);
      if c.request.Seal? && SealDead(s.server, c.request.version, c.request.revision) {
        SealDeadForever(s.server, t.server, c.request.version, c.request.revision);
      }
    }
  }

  lemma OpenKeepsSeals(s: System, e: Event)
    requires SystemOk(s) && SealInv(s) && e.Open? && e.device == e.page
    ensures SealInv(Next(s, e))
  {
    var t := Next(s, e);
    forall c | c in t.clients ensures OwnSlot(t, c) {
      assert c in s.clients ==> OwnSlot(s, c);
    }
    forall k | 0 <= k < |t.calls|
      ensures t.calls[k].client in t.clients && SealShape(t.calls[k]) && KeyAccounted(t, t.calls[k])
    {
      assert KeyAccounted(s, s.calls[k]) && SealShape(s.calls[k]);
    }
  }

  /** No two tabs share a local storage, and every intent is written to it and found in date. */
  ghost predicate IntentsWritten(events: seq<Event>) {
    OwnDevices(events) && forall i :: 0 <= i < |events| ==> Reliable(events[i])
  }

  lemma NobodyKeepsSeals(s: System, e: Event)
    requires SealInv(s) && !e.Open? && !e.ServeCall? && !e.TeacherDecides? && !e.RecordsClose?
    requires EventPage(s, e).Some? ==> EventPage(s, e).value !in s.clients
    ensures SealInv(Next(s, e))
  {
    if EventPage(s, e).Some? {
      NobodyStays(s, e);
    }
  }

  lemma NextSealInv(s: System, e: Event)
    requires SystemOk(s) && TextsTrue(s) && SealInv(s)
    requires (e.Open? ==> e.device == e.page) && Reliable(e)
    ensures SealInv(Next(s, e))
  {
    if e.ServeCall? || e.TeacherDecides? || e.RecordsClose? {
      ServerKeepsSeals(s, e);
    } else if e.Open? {
      OpenKeepsSeals(s, e);
    } else if EventPage(s, e).Some? && EventPage(s, e).value in s.clients {
      PageKeepsSlots(s, e, EventPage(s, e).value);
      PageKeepsKeys(s, e, EventPage(s, e).value);
    } else {
      NobodyKeepsSeals(s, e);
    }
  }

  lemma {:induction false} ExecSealInv(s: System, events: seq<Event>)
    requires SystemOk(s) && TextsTrue(s) && SealInv(s) && CarefulRun(s, events) && IntentsWritten(events)
    ensures SealInv(Exec(s, events))
  {
    if events != [] {
      ExecSealInv(s, events[..|events| - 1]);
      CarefulRunTrue(s, events[..|events| - 1]);
      NextSealInv(Exec(s, events[..|events| - 1]), events[|events| - 1]);
    }
  }

  /** The call is a seal whose version may still be sealed by it. */
  ghost predicate OpenSeal(s: System, page: nat, k: nat) {
    k < |s.calls| && s.calls[k].client == page && s.calls[k].request.Seal? &&
    !SealDead(s.server, s.calls[k].request.version, s.calls[k].request.revision)
  }

  /**
   * Seal safety over reloads, lost answers and delayed duplicates: as long as any seal request a
   * page ever sent can still take effect, its intent is in the page's storage, every other seal
   * request of that page that can still take effect is the same request with the same key, and
   * the page, once loaded, holds that intent and runs no image job.
   */
  lemma OneOpenKey(replays: bool, events: seq<Event>, page: nat, j: nat, k: nat)
    requires CarefulRun(Init(replays), events) && IntentsWritten(events)
    requires OpenSeal(Exec(Init(replays), events), page, j) && OpenSeal(Exec(Init(replays), events), page, k)
    ensures var s := Exec(Init(replays), events);
      && s.calls[j].request == s.calls[k].request
      && page in s.clients && page in s.devices
      && s.devices[page].slot.Some? && SealRequest(s.devices[page].slot.value) == s.calls[j].request
      && (s.clients[page].panel.loaded ==>
            s.clients[page].panel.intent == s.devices[page].slot && s.clients[page].editor.job.Idle?)
  {
    InitOk(replays);
    ExecSealInv(Init(replays), events);
    var s := Exec(Init(replays), events);
    assert KeyAccounted(s, s.calls[j]) && KeyAccounted(s, s.calls[k]);
    assert OwnSlot(s, page);
  }

  /** What an event of the page sends. */
  ghost predicate Sends(s: System, e: Event, q: Request) {
    |Next(s, e).calls| == |s.calls| + 1 && Next(s, e).calls[|s.calls|].request == q
  }

  /**
   * While an intent is open, the page starts no write except a click on "Retry save", and no seal
   * other than the one it already asked for.
   */
  lemma OnlyRetrySaveWrites(replays: bool, events: seq<Event>, page: nat, e: Event, q: Request)
    requires CarefulRun(Init(replays), events) && IntentsWritten(events)
    requires var s := Exec(Init(replays), events);
      && page in s.clients && EventPage(s, e) == Some(page) && !e.Open?
      && s.clients[page].panel.loaded && s.clients[page].panel.intent.Some?
      && Sends(s, e, q)
    ensures var s := Exec(Init(replays), events);
      && (WritePair(q).Some? ==> e == RetrySaveClick(page) && q == Save(s.clients[page].panel.draft, s.clients[page].panel.pair))
      && (q.Seal? ==> q == SealRequest(s.clients[page].panel.intent.value))
  {
    InitOk(replays);
    ExecSealInv(Init(replays), events);
    CarefulRunTrue(Init(replays), events);
    OneWrite(Exec(Init(replays), events), page, e, q);
  }

  lemma OneWrite(s: System, page: nat, e: Event, q: Request)
    requires SystemOk(s) && SealInv(s) && page in s.clients && EventPage(s, e) == Some(page) && !e.Open?
    requires s.clients[page].panel.loaded && s.clients[page].panel.intent.Some? && Sends(s, e, q)
    ensures WritePair(q).Some? ==> e == RetrySaveClick(page) && q == Save(s.clients[page].panel.draft, s.clients[page].panel.pair)
    ensures q.Seal? ==> q == SealRequest(s.clients[page].panel.intent.value)
  {
    assert OwnSlot(s, page);
    PageNext(s, e, page);
    OpenIntentSends(s, page, e, q);
  }

  lemma OpenIntentSends(s: System, page: nat, e: Event, q: Request)
    requires OwnSlot(s, page) && Allowed(s.clients[page], s.devices[page], e) && !e.Open?
    requires s.clients[page].panel.loaded && s.clients[page].panel.intent.Some?
    requires Act(s, s.clients[page], s.devices[page], e).send == Some(q) && EventPage(s, e) == Some(page)
    ensures WritePair(q).Some? ==> e == RetrySaveClick(page) && q == Save(s.clients[page].panel.draft, s.clients[page].panel.pair)
    ensures q.Seal? ==> q == SealRequest(s.clients[page].panel.intent.value)
  {
  }
}

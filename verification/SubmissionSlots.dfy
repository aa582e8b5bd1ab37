/**
 * One seal key at a time, in shared browsers too. Tabs of one browser share the seal slot, and a
 * click writes a new intent into it without looking. As long as no click replaces an intent that
 * may still be open, every seal of a browser that can still take effect is the one its slot holds;
 * and which intents a page may replace is decided by the slot and the pair on its screen.
 */
module SubmissionSlots {
  import opened Prelude
  import opened SubmissionServer
  import opened PracticePanel
  import opened PracticeClient
  import opened SubmissionProtocol
  import opened SubmissionStructure
  import opened SubmissionTexts
  import opened SubmissionSeals
  import opened SubmissionKeys

  // ---------------------------------------------------------------- what a slot accounts for

  /** The intent is settled for good, or it is the one in the slot. */
  ghost predicate Accounted(s: Server, slot: Option<Intent>, i: Intent) {
    SealDead(s, i.version, i.revision) || slot == Some(i)
  }

  /** The request of a submission in progress was sent when its revision existed. */
  ghost predicate SubmitExisted(calls: seq<Call>, submit: Submit) {
    !submit.NotSubmitting? ==>
      submit.call < |calls| && Existed(calls[submit.call].floor, submit.intent.version, submit.intent.revision)
  }

  ghost predicate PageAccounted(s: Server, calls: seq<Call>, cl: Client, slot: Option<Intent>) {
    && (cl.panel.intent.Some? ==> Accounted(s, slot, cl.panel.intent.value))
    && (!cl.panel.submit.NotSubmitting? ==> Accounted(s, slot, cl.panel.submit.intent))
    && SubmitExisted(calls, cl.panel.submit)
  }

  ghost predicate SlotIs(slot: Option<Intent>, q: Request) {
    slot.Some? && SealRequest(slot.value) == q
  }

  ghost predicate RequestAccounted(s: Server, slot: Option<Intent>, q: Request) {
    q.Seal? ==> SealDead(s, q.version, q.revision) || SlotIs(slot, q)
  }

  ghost predicate SameKey(a: Request, b: Request) {
    a.Seal? && b.Seal? && a.key == b.key
  }

  /** Requests with the same key are the same request. */
  ghost predicate KeysAgree(calls: seq<Call>) {
    forall j, k :: 0 <= j < |calls| && 0 <= k < |calls| && SameKey(calls[j].request, calls[k].request) ==>
      calls[j].request == calls[k].request
  }

  ghost predicate CallAccounted(s: System, k: nat)
    requires k < |s.calls|
  {
    && s.calls[k].client in s.clients && s.clients[s.calls[k].client].device in s.devices
    && RequestAccounted(s.server, s.devices[s.clients[s.calls[k].client].device].slot, s.calls[k].request)
  }

  ghost predicate ClientAccounted(s: System, c: nat)
    requires c in s.clients
  {
    s.clients[c].device in s.devices && PageAccounted(s.server, s.calls, s.clients[c], s.devices[s.clients[c].device].slot)
  }

  ghost predicate SlotsInv(s: System) {
    && KeysKnown(s) && KeysAgree(s.calls)
    && (forall c :: c in s.clients ==> ClientAccounted(s, c))
    && (forall k :: 0 <= k < |s.calls| ==> CallAccounted(s, k))
  }

  // ---------------------------------------------------------------- which intent a click may replace

  /** The intent is for an earlier revision, or an earlier version, than the pair. */
  predicate Behind(i: Intent, pair: Pair) {
    pair.version.Some? &&
    (i.version < pair.version.value || (i.version == pair.version.value && i.revision < pair.revision))
  }

  /** A click with this pair on screen may write its intent over the slot. */
  predicate Replaceable(slot: Option<Intent>, pair: Pair) {
    slot.Some? ==> Behind(slot.value, pair)
  }

  lemma NamedExists(s: Server, v: nat, r: nat, text: string)
    requires Names(s, Pair(Some(v), r), text) && r >= 1
    ensures Existed(s, v, r)
  {
  }

  /** What is behind an existing revision can never be sealed any more. */
  lemma BehindIsDead(s: Server, i: Intent, pair: Pair)
    requires ServerOk(s) && Behind(i, pair) && Existed(s, pair.version.value, pair.revision) && i.version < |s.versions|
    ensures SealDead(s, i.version, i.revision)
  {
    assert VersionOk(s, i.version);
  }

  // ---------------------------------------------------------------- one page, one step

  /** A step takes an intent out of the slot only when it is settled, and accounts for what it holds and sends. */
  ghost predicate SlotsStep(s: System, page: nat, d: Device, e: Effect) {
    && PageAccounted(s.server, SentCalls(s, page, e), e.client, e.device.slot)
    && SlotStep(s.server, d, e.device)
    && (e.send.Some? ==> RequestAccounted(s.server, e.device.slot, e.send.value))
  }

  /** An intent with the slot's key is the slot's. */
  ghost predicate SameKeySame(slot: Option<Intent>, submit: Submit) {
    slot.Some? && !submit.NotSubmitting? && slot.value.key == submit.intent.key ==>
      slot.value.version == submit.intent.version && slot.value.revision == submit.intent.revision
  }

  ghost predicate SlotsBefore(s: System, cl: Client, d: Device) {
    && PageAccounted(s.server, s.calls, cl, d.slot) && SameKeySame(d.slot, cl.panel.submit)
    && PanelTrue(s.server, cl.panel) && DeviceTrue(s.server, d)
  }

  /** Intent, submission and slot stay, and no seal is sent. */
  lemma CalmSlots(s: System, page: nat, cl: Client, d: Device, e: Effect)
    requires SlotsBefore(s, cl, d)
    requires e.device.slot == d.slot && e.client.panel.intent == cl.panel.intent && e.client.panel.submit == cl.panel.submit
    requires e.send.Some? ==> !e.send.value.Seal?
    ensures SlotsStep(s, page, d, e)
  {
  }

  lemma AccountedStays(s: Server, d: Device, after: Device, i: Intent)
    requires Accounted(s, d.slot, i) && SlotStep(s, d, after)
    ensures Accounted(s, after.slot, i)
  {
  }

  lemma LoadSlots(s: System, cl: Client, d: Device, r: Reading, useServer: bool, found: Found)
    requires SlotsBefore(s, cl, d) && ReadingTrue(s.server, r) && found.intent
    ensures var c1, d1 := LoadClient(cl, d, r, useServer, found), LoadDevice(d, r, useServer, found);
      PageAccounted(s.server, s.calls, c1, d1.slot) && SlotStep(s.server, d, d1) && c1.panel.submit == cl.panel.submit
  {
    if SealObserved(r, d.slot) {
      ObservedIsDead(s.server, r, d.slot.value);
    }
  }

  lemma LoadDoneSlots(s: System, page: nat, cl: Client, d: Device, k: nat, reply: Reply, found: Found)
    requires SlotsBefore(s, cl, d) && ReplyShape(s.server, reply) && k in cl.loads && found.intent
    ensures SlotsStep(s, page, d, LoadDone(cl, d, k, reply, found))
  {
    if reply.Snapshot? {
      LoadSlots(s, cl.(loads := cl.loads - {k}), d, reply.reading, cl.loads[k], found);
    }
  }

  /** Dropping a settled intent never takes an open one out of the slot. */
  lemma DropSettled(s: System, cl: Client, d: Device, d1: Device)
    requires SlotsBefore(s, cl, d) && !cl.panel.submit.NotSubmitting?
    requires SlotStep(s.server, d, d1) && (d1.slot == d.slot || d1.slot == None)
    requires SealDead(s.server, cl.panel.submit.intent.version, cl.panel.submit.intent.revision)
    ensures SlotStep(s.server, d, DropSlot(d1, cl.panel.submit.intent))
  {
  }

  lemma SealDoneSlots(s: System, page: nat, cl: Client, d: Device, reply: Reply, at: Server)
    requires SlotsBefore(s, cl, d) && cl.panel.submit.Sealing?
    requires Asks(s.calls, cl.panel.submit.call, SealRequest(cl.panel.submit.intent))
    requires Genuine(s, cl.panel.submit.call, reply, at)
    ensures SlotsStep(s, page, d, SealDone(cl, d, reply, |s.calls|))
  {
    if SealSettles(reply) {
      SettledIsDead(s.calls[cl.panel.submit.call].floor, at, s.server, cl.panel.submit.intent);
      DropSettled(s, cl, d, d);
    }
  }

  /** The read-back shows that the intent is over. */
  lemma RecheckDeadSlots(s: System, page: nat, cl: Client, d: Device, r: Reading, found: Found)
    requires SlotsBefore(s, cl, d) && cl.panel.submit.Rechecking? && ReadingTrue(s.server, r) && found.intent
    requires RecheckOutcome(r, cl.panel.submit.intent) == AlreadySealed || RecheckOutcome(r, cl.panel.submit.intent) == Moved
    requires SealDead(s.server, cl.panel.submit.intent.version, cl.panel.submit.intent.revision)
    ensures SlotsStep(s, page, d, RecheckDone(cl, d, Snapshot(r), found, cl.panel.submit.intent, |s.calls|))
  {
    LoadSlots(s, cl, d, r, false, found);
    DropSettled(s, cl, d, LoadDevice(d, r, false, found));
  }

  lemma RecheckUnreadableSlots(s: System, page: nat, cl: Client, d: Device, r: Reading, found: Found)
    requires SlotsBefore(s, cl, d) && cl.panel.submit.Rechecking? && ReadingTrue(s.server, r) && found.intent
    requires RecheckOutcome(r, cl.panel.submit.intent) == Unreadable
    ensures SlotsStep(s, page, d, RecheckDone(cl, d, Snapshot(r), found, cl.panel.submit.intent, |s.calls|))
  {
    LoadSlots(s, cl, d, r, false, found);
  }

  /** The intent is still open: its request is sent again. */
  lemma RecheckOpenSlots(s: System, page: nat, cl: Client, d: Device, r: Reading, found: Found)
    requires SlotsBefore(s, cl, d) && cl.panel.submit.Rechecking? && ReadingTrue(s.server, r) && found.intent
    requires RecheckOutcome(r, cl.panel.submit.intent) == StillOpen
    ensures SlotsStep(s, page, d, RecheckDone(cl, d, Snapshot(r), found, cl.panel.submit.intent, |s.calls|))
  {
    var i := cl.panel.submit.intent;
    LoadSlots(s, cl, d, r, false, found);
    AccountedStays(s.server, d, LoadDevice(d, r, false, found), i);
    NamedExists(s.server, i.version, i.revision, i.text);
  }

  lemma RecheckSlots(s: System, page: nat, cl: Client, d: Device, reply: Reply, at: Server, found: Found)
    requires SlotsBefore(s, cl, d) && cl.panel.submit.Rechecking? && ReplyShape(s.server, reply) && found.intent
    requires Asks(s.calls, cl.panel.submit.call, Read) && Genuine(s, cl.panel.submit.call, reply, at)
    ensures SlotsStep(s, page, d, RecheckDone(cl, d, reply, found, cl.panel.submit.intent, |s.calls|))
  {
    var i := cl.panel.submit.intent;
    if reply.Snapshot? {
      var r := reply.reading;
      match RecheckOutcome(r, i)
      case Unreadable => RecheckUnreadableSlots(s, page, cl, d, r, found);
      case AlreadySealed =>
        ObservedIsDead(s.server, r, i);
        RecheckDeadSlots(s, page, cl, d, r, found);
      case Moved =>
        MovedIsDead(s.calls[cl.panel.submit.call].floor, at, s.server, i);
        RecheckDeadSlots(s, page, cl, d, r, found);
      case StillOpen => RecheckOpenSlots(s, page, cl, d, r, found);
    }
  }

  lemma ImageDoneSlots(s: System, page: nat, cl: Client, d: Device, reply: Reply, disk: Disk, now: nat)
    requires SlotsBefore(s, cl, d)
    ensures SlotsStep(s, page, d, ImageDone(cl, d, reply, disk, now, |s.calls|))
  {
    ImageDoneCalm(cl, d, reply, disk, now, |s.calls|);
    CalmSlots(s, page, cl, d, ImageDone(cl, d, reply, disk, now, |s.calls|));
  }

  lemma SaveDoneSlots(s: System, page: nat, cl: Client, d: Device, reply: Reply)
    requires SlotsBefore(s, cl, d) && cl.panel.saving.Some?
    ensures SlotsStep(s, page, d, SaveDone(cl, d, reply, |s.calls|))
  {
    SaveDoneCalm(cl, d, reply, |s.calls|);
    CalmSlots(s, page, cl, d, SaveDone(cl, d, reply, |s.calls|));
  }

  lemma ArriveSlots(s: System, page: nat, cl: Client, d: Device, k: nat, reply: Reply, at: Server, found: Found, disk: Disk, now: nat)
    requires SlotsBefore(s, cl, d) && ReplyShape(s.server, reply) && Genuine(s, k, reply, at) && found.intent
    requires cl.panel.submit.Rechecking? ==> Asks(s.calls, cl.panel.submit.call, Read)
    requires cl.panel.submit.Sealing? ==> Asks(s.calls, cl.panel.submit.call, SealRequest(cl.panel.submit.intent))
    ensures SlotsStep(s, page, d, Arrive(cl, d, k, reply, found, disk, now, |s.calls|))
  {
    if cl.panel.saving.Some? && cl.panel.saving.value.call == k {
      SaveDoneSlots(s, page, cl, d, reply);
    } else if cl.panel.submit.Rechecking? && cl.panel.submit.call == k {
      RecheckSlots(s, page, cl, d, reply, at, found);
    } else if cl.panel.submit.Sealing? && cl.panel.submit.call == k {
      SealDoneSlots(s, page, cl, d, reply, at);
    } else if k in cl.loads {
      LoadDoneSlots(s, page, cl, d, k, reply, found);
    } else if JobCall(cl.editor.job) == Some(k) {
      ImageDoneSlots(s, page, cl, d, reply, disk, now);
    } else {
      CalmSlots(s, page, cl, d, Stay(cl, d));
    }
  }

  lemma AnsweredSlots(s: System, page: nat, cl: Client, d: Device, a: Answer, found: Found, disk: Disk, now: nat)
    requires SystemOk(s) && SlotsBefore(s, cl, d) && PanelShape(s.server, s.calls, cl.panel) && AnswerShape(s, a) && found.intent
    ensures SlotsStep(s, page, d, Arrive(cl, d, a.call, ReplyTo(s, a), found, disk, now, |s.calls|))
  {
    ReplyIsTrue(s, a);
    ArriveSlots(s, page, cl, d, a.call, ReplyTo(s, a), a.at, found, disk, now);
  }

  lemma DeliverSlots(s: System, page: nat, cl: Client, d: Device, e: Event)
    requires SystemOk(s) && SlotsBefore(s, cl, d) && PanelShape(s.server, s.calls, cl.panel) && e.Deliver? && e.found.intent
    ensures SlotsStep(s, page, d, Act(s, cl, d, e))
  {
    if e.answer < |s.answers| && s.answers[e.answer].call < |s.calls| {
      DeliverAct(s, cl, d, e);
      assert AnswerShape(s, s.answers[e.answer]);
      AnsweredSlots(s, page, cl, d, s.answers[e.answer], e.found, e.disk, e.now);
    } else {
      DeliverNothing(s, cl, d, e);
      CalmSlots(s, page, cl, d, Stay(cl, d));
    }
  }

  lemma FailureSlots(s: System, page: nat, cl: Client, d: Device, k: nat, now: nat)
    requires SystemOk(s) && SlotsBefore(s, cl, d) && PanelShape(s.server, s.calls, cl.panel)
    ensures SlotsStep(s, page, d, Failure(cl, d, k, now, |s.calls|))
  {
    ArriveSlots(s, page, cl, d, k, Refused, s.server, Found(true, true), Disk(true, true, true), now);
  }

  lemma UnmountSlots(s: System, page: nat, d: Device, e: Effect)
    requires SlotsStep(s, page, d, e) && e.send == None
    ensures SlotsStep(s, page, d, e.(client := Unmount(e.client)))
  {
  }

  lemma LoseSlots(s: System, page: nat, cl: Client, d: Device, e: Event)
    requires SystemOk(s) && SlotsBefore(s, cl, d) && PanelShape(s.server, s.calls, cl.panel) && (e.Lose? || e.Unmounts?)
    ensures SlotsStep(s, page, d, Act(s, cl, d, e))
  {
    var lost := Failure(cl, d, e.call, e.now, |s.calls|);
    FailureSlots(s, page, cl, d, e.call, e.now);
    FailureDevice(cl, d, e.call, e.now, |s.calls|);
    UnmountSlots(s, page, d, lost);
    assert Act(s, cl, d, e) == if e.Unmounts? then lost.(client := Unmount(lost.client)) else lost;
  }

  /** A click with an intent asks for it again. */
  lemma AgainSlots(s: System, page: nat, cl: Client, d: Device, key: nat, written: bool)
    requires SlotsBefore(s, cl, d) && cl.panel.intent.Some? && cl.panel.pair.version.Some?
    ensures SlotsStep(s, page, d, SubmitClick(cl, d, key, written, |s.calls|))
  {
    var i := cl.panel.intent.value;
    NamedExists(s.server, i.version, i.revision, i.text);
  }

  lemma NewIntent(cl: Client, d: Device, key: nat, next: nat)
    requires cl.panel.intent == None && cl.panel.pair.version.Some?
    ensures var i := Intent(key, cl.panel.pair.version.value, cl.panel.pair.revision, cl.panel.persisted);
      var e := SubmitClick(cl, d, key, true, next);
      && e.client.panel.intent == Some(i) && e.client.panel.submit == Sealing(next, i)
      && e.device == d.(slot := Some(i)) && e.send == Some(SealRequest(i))
  {
  }

  /** A click without one writes a new intent over a slot that it may replace. */
  lemma NewSlots(s: System, page: nat, cl: Client, d: Device, key: nat)
    requires ServerOk(s.server) && SlotsBefore(s, cl, d) && cl.panel.intent == None
    requires cl.panel.pair.version.Some? && cl.panel.pair.revision >= 1 && Replaceable(d.slot, cl.panel.pair)
    ensures SlotsStep(s, page, d, SubmitClick(cl, d, key, true, |s.calls|))
  {
    var pair := cl.panel.pair;
    NewIntent(cl, d, key, |s.calls|);
    NamedExists(s.server, pair.version.value, pair.revision, cl.panel.persisted);
    if d.slot.Some? {
      NamedExists(s.server, d.slot.value.version, d.slot.value.revision, d.slot.value.text);
      BehindIsDead(s.server, d.slot.value, pair);
    }
  }

  // ---------------------------------------------------------------- the guard

  /** A click that makes a new intent does not write it over one that may be open. */
  ghost predicate SlotGuarded(s: System, e: Event) {
    e.Submit? && Live(s, e.page) && s.clients[e.page].panel.intent == None &&
    Allowed(s.clients[e.page], s.devices[s.clients[e.page].device], e) ==>
      Replaceable(s.devices[s.clients[e.page].device].slot, s.clients[e.page].panel.pair)
  }

  /** Storage takes every new intent and no stored one is too old, and every click is guarded. */
  ghost predicate GuardedClicks(s: System, events: seq<Event>) {
    events == [] ||
    (&& GuardedClicks(s, events[..|events| - 1]) && Reliable(events[|events| - 1])
     && SlotGuarded(Exec(s, events[..|events| - 1]), events[|events| - 1]))
  }

  lemma SubmitSlots(s: System, page: nat, cl: Client, d: Device, e: Event)
    requires SystemOk(s) && SlotsBefore(s, cl, d) && Allowed(cl, d, e) && e.Submit? && e.written
    requires cl.panel.intent == None ==> Replaceable(d.slot, cl.panel.pair)
    ensures SlotsStep(s, page, d, Act(s, cl, d, e))
  {
    if cl.panel.intent.Some? {
      AgainSlots(s, page, cl, d, s.nextKey, true);
    } else {
      NewSlots(s, page, cl, d, s.nextKey);
    }
  }

  lemma ActSlots(s: System, page: nat, cl: Client, d: Device, e: Event)
    requires SystemOk(s) && SlotsBefore(s, cl, d) && PanelShape(s.server, s.calls, cl.panel) && Allowed(cl, d, e) && Reliable(e)
    requires e.Submit? && cl.panel.intent == None ==> Replaceable(d.slot, cl.panel.pair)
    ensures SlotsStep(s, page, d, Act(s, cl, d, e))
  {
    if e.Deliver? {
      DeliverSlots(s, page, cl, d, e);
    } else if e.Lose? || e.Unmounts? {
      LoseSlots(s, page, cl, d, e);
    } else if e.Submit? {
      SubmitSlots(s, page, cl, d, e);
    } else {
      ClickCalm(s, cl, d, e);
      CalmSlots(s, page, cl, d, Act(s, cl, d, e));
    }
  }

  // ---------------------------------------------------------------- the whole system

  lemma SentAgree(s: System, device: nat, i: Intent, j: Intent)
    requires KeysAgree(s.calls) && WasSent(s, device, i) && WasSent(s, device, j) && i.key == j.key
    ensures SealRequest(i) == SealRequest(j)
  {
    var a: nat :| SentFrom(s, device, a) && s.calls[a].request == SealRequest(i);
    var b: nat :| SentFrom(s, device, b) && s.calls[b].request == SealRequest(j);
    assert SameKey(s.calls[a].request, s.calls[b].request);
  }

  lemma PageBefore(s: System, page: nat)
    requires SystemOk(s) && TextsTrue(s) && SlotsInv(s) && page in s.clients
    ensures s.clients[page].device in s.devices && SlotsBefore(s, s.clients[page], s.devices[s.clients[page].device])
  {
    var cl := s.clients[page];
    assert ClientAccounted(s, page) && IntentsOf(s, page) && SlotOf(s, cl.device);
    var slot := s.devices[cl.device].slot;
    if slot.Some? && !cl.panel.submit.NotSubmitting? && slot.value.key == cl.panel.submit.intent.key {
      SentAgree(s, cl.device, slot.value, cl.panel.submit.intent);
    }
  }

  lemma RequestStays(s: Server, d: Device, after: Device, q: Request)
    requires RequestAccounted(s, d.slot, q) && SlotStep(s, d, after)
    ensures RequestAccounted(s, after.slot, q)
  {
  }

  lemma ClientsStay(s: System, t: System, page: nat, eff: Effect, c: nat)
    requires SlotsInv(s) && Stepped(s, t, page, eff) && SlotsStep(s, page, s.devices[eff.client.device], eff) && c in s.clients
    ensures ClientAccounted(t, c)
  {
    assert ClientAccounted(s, c);
    var cl := s.clients[c];
    if c != page && cl.device == eff.client.device {
      if cl.panel.intent.Some? {
        AccountedStays(s.server, s.devices[cl.device], eff.device, cl.panel.intent.value);
      }
      if !cl.panel.submit.NotSubmitting? {
        AccountedStays(s.server, s.devices[cl.device], eff.device, cl.panel.submit.intent);
      }
    }
  }

  lemma CallsStay(s: System, t: System, page: nat, eff: Effect, k: nat)
    requires SlotsInv(s) && Stepped(s, t, page, eff) && SlotsStep(s, page, s.devices[eff.client.device], eff) && k < |t.calls|
    ensures CallAccounted(t, k)
  {
    if k < |s.calls| {
      assert CallAccounted(s, k);
      if s.clients[s.calls[k].client].device == eff.client.device {
        RequestStays(s.server, s.devices[eff.client.device], eff.device, s.calls[k].request);
      }
    }
  }

  lemma StepKeepsSlots(s: System, t: System, page: nat, eff: Effect)
    requires SlotsInv(s) && Stepped(s, t, page, eff) && SlotsStep(s, page, s.devices[eff.client.device], eff)
    requires KeysKnown(t) && KeysAgree(t.calls)
    ensures SlotsInv(t)
  {
    forall c | c in t.clients ensures ClientAccounted(t, c) {
      ClientsStay(s, t, page, eff, c);
    }
    forall k | 0 <= k < |t.calls| ensures CallAccounted(t, k) {
      CallsStay(s, t, page, eff, k);
    }
  }

  /** A seal that a page sends again has the key and the payload it had before. */
  lemma MovesKeepAgreement(s: System, page: nat, eff: Effect)
    requires KeysKnown(s) && KeysAgree(s.calls) && page in s.clients
    requires s.clients[page].device in s.devices && IntentMoves(s.clients[page], s.devices[s.clients[page].device], eff)
    ensures KeysAgree(SentCalls(s, page, eff))
  {
    if eff.send.Some? && eff.send.value.Seal? {
      assert IntentsOf(s, page);
      var device := s.clients[page].device;
      var j: nat :| SentFrom(s, device, j) && s.calls[j].request == SealRequest(s.clients[page].panel.submit.intent);
    }
  }

  /** A new key is no key sent before. */
  lemma NewKeyAgrees(s: System, page: nat, eff: Effect)
    requires KeysKnown(s) && KeysAgree(s.calls)
    requires eff.send.Some? && (eff.send.value.Seal? ==> eff.send.value.key == s.nextKey)
    ensures KeysAgree(SentCalls(s, page, eff))
  {
  }

  lemma ClickAgrees(s: System, page: nat, cl: Client, d: Device, e: Event)
    requires KeysKnown(s) && KeysAgree(s.calls) && e.Submit? && Allowed(cl, d, e)
    ensures KeysAgree(SentCalls(s, page, Act(s, cl, d, e)))
  {
    NewKeyAgrees(s, page, Act(s, cl, d, e));
  }

  lemma ActAgrees(s: System, page: nat, e: Event)
    requires KeysKnown(s) && KeysAgree(s.calls) && Live(s, page)
    requires Allowed(s.clients[page], s.devices[s.clients[page].device], e)
    ensures KeysAgree(SentCalls(s, page, Act(s, s.clients[page], s.devices[s.clients[page].device], e)))
  {
    var cl := s.clients[page];
    var d := s.devices[cl.device];
    if e.Submit? {
      ClickAgrees(s, page, cl, d, e);
    } else {
      ActMoves(s, cl, d, e);
      MovesKeepAgreement(s, page, Act(s, cl, d, e));
    }
  }

  lemma PageKeepsInv(s: System, e: Event, page: nat)
    requires SystemOk(s) && TextsTrue(s) && SlotsInv(s) && page in s.clients && EventPage(s, e) == Some(page) && !e.Open?
    requires Reliable(e) && SlotGuarded(s, e) && KeysKnown(Next(s, e))
    ensures SlotsInv(Next(s, e))
  {
    var cl := s.clients[page];
    PageBefore(s, page);
    PageNext(s, e, page);
    if Allowed(cl, s.devices[cl.device], e) {
      var eff := Act(s, cl, s.devices[cl.device], e);
      assert ClientShape(s.server, s.calls, cl);
      ActSlots(s, page, cl, s.devices[cl.device], e);
      ActAgrees(s, page, e);
      StepKeepsSlots(s, Next(s, e), page, eff);
    }
  }

  lemma AccountedForever(s: Server, t: Server, slot: Option<Intent>, i: Intent)
    requires Extends(s, t) && Accounted(s, slot, i)
    ensures Accounted(t, slot, i)
  {
    if SealDead(s, i.version, i.revision) {
      SealDeadForever(s, t, i.version, i.revision);
    }
  }

  lemma UndisturbedClient(s: System, t: System, c: nat)
    requires SlotsInv(s) && Undisturbed(s, t) && c in t.clients && t.clients[c].device in t.devices
    requires forall d :: d in s.devices ==> d in t.devices && t.devices[d] == s.devices[d]
    ensures ClientAccounted(t, c)
  {
    if c in s.clients && t.clients[c] == s.clients[c] {
      assert ClientAccounted(s, c);
      var cl := s.clients[c];
      var slot := s.devices[cl.device].slot;
      if cl.panel.intent.Some? {
        AccountedForever(s.server, t.server, slot, cl.panel.intent.value);
      }
      if !cl.panel.submit.NotSubmitting? {
        AccountedForever(s.server, t.server, slot, cl.panel.submit.intent);
      }
    }
  }

  lemma UndisturbedCall(s: System, t: System, k: nat)
    requires SlotsInv(s) && Undisturbed(s, t) && k < |t.calls|
    requires forall d :: d in s.devices ==> d in t.devices && t.devices[d] == s.devices[d]
    ensures CallAccounted(t, k)
  {
    assert CallAccounted(s, k);
    var q := s.calls[k].request;
    if q.Seal? && SealDead(s.server, q.version, q.revision) {
      SealDeadForever(s.server, t.server, q.version, q.revision);
    }
  }

  lemma OthersKeepInv(s: System, e: Event)
    requires SystemOk(s) && SlotsInv(s) && KeysKnown(Next(s, e))
    requires e.Open? || EventPage(s, e) == None || EventPage(s, e).value !in s.clients
    ensures SlotsInv(Next(s, e))
  {
    var t := Next(s, e);
    OthersUndisturbed(s, e);
    NextOk(s, e);
    forall d | d in s.devices ensures d in t.devices && t.devices[d] == s.devices[d] {
      NobodyNext(s, e, d);
    }
    forall c | c in t.clients ensures ClientAccounted(t, c) {
      assert Live(t, c);
      UndisturbedClient(s, t, c);
    }
    forall k | 0 <= k < |t.calls| ensures CallAccounted(t, k) {
      UndisturbedCall(s, t, k);
    }
  }

  /** Every careful, reliable and guarded step keeps open seals in their slots. */
  lemma NextSlotsInv(s: System, e: Event)
    requires SystemOk(s) && TextsTrue(s) && SlotsInv(s) && Reliable(e) && SlotGuarded(s, e)
    ensures SlotsInv(Next(s, e))
  {
    NextTwoOpenIff(s, e, 0);
    if !e.Open? && EventPage(s, e).Some? && EventPage(s, e).value in s.clients {
      PageKeepsInv(s, e, EventPage(s, e).value);
    } else {
      OthersKeepInv(s, e);
    }
  }

  lemma {:induction false} ExecSlotsInv(s: System, events: seq<Event>)
    requires SystemOk(s) && TextsTrue(s) && SlotsInv(s) && CarefulRun(s, events) && GuardedClicks(s, events)
    ensures SlotsInv(Exec(s, events))
  {
    if events != [] {
      var front := events[..|events| - 1];
      ExecSlotsInv(s, front);
      CarefulRunTrue(s, front);
      NextSlotsInv(Exec(s, front), events[|events| - 1]);
    }
  }

  // ---------------------------------------------------------------- whole runs

  /** Every seal of the browser that can still take effect is the one in its slot. */
  ghost predicate SlotHoldsOpen(s: System, device: nat) {
    forall k: nat :: OpenOn(s, device, k) ==> device in s.devices && SlotIs(s.devices[device].slot, s.calls[k].request)
  }

  lemma InvHoldsOpen(s: System, device: nat)
    requires SlotsInv(s)
    ensures SlotHoldsOpen(s, device) && !TwoOpen(s, device)
  {
    forall k: nat | OpenOn(s, device, k) ensures device in s.devices && SlotIs(s.devices[device].slot, s.calls[k].request) {
      assert CallAccounted(s, k);
    }
  }

  lemma {:induction false} PrefixGuarded(s: System, events: seq<Event>, n: nat)
    requires n <= |events| && CarefulRun(s, events) && GuardedClicks(s, events)
    ensures CarefulRun(s, events[..n]) && GuardedClicks(s, events[..n])
  {
    if n == |events| {
      assert events[..n] == events;
    } else {
      assert events[..|events| - 1][..n] == events[..n];
      PrefixGuarded(s, events[..|events| - 1], n);
    }
  }

  /**
   * One key at a time in every browser: in every careful run of any pages and tabs, shared browsers
   * included, in which storage is reliable and no click replaces an intent that may be open, no
   * browser ever has two open seal keys, and every seal that can still take effect is the one in
   * the slot of its browser.
   */
  lemma OneOpenKeyIfGuarded(replays: bool, events: seq<Event>, device: nat)
    requires CarefulRun(Init(replays), events) && GuardedClicks(Init(replays), events)
    ensures !EverTwoOpen(replays, events, device)
    ensures SlotHoldsOpen(Exec(Init(replays), events), device)
  {
    forall n: nat | n <= |events| ensures !TwoOpen(Exec(Init(replays), events[..n]), device) {
      PrefixGuarded(Init(replays), events, n);
      RunHoldsOpen(replays, events[..n], device);
    }
    RunHoldsOpen(replays, events, device);
  }

  lemma RunHoldsOpen(replays: bool, events: seq<Event>, device: nat)
    requires CarefulRun(Init(replays), events) && GuardedClicks(Init(replays), events)
    ensures SlotHoldsOpen(Exec(Init(replays), events), device) && !TwoOpen(Exec(Init(replays), events), device)
  {
    InitOk(replays);
    ExecSlotsInv(Init(replays), events);
    InvHoldsOpen(Exec(Init(replays), events), device);
  }

  /** Pages on their own devices need no guard: a page without an intent has an empty slot. */
  lemma {:induction false} OwnSlotsAreGuarded(s: System, events: seq<Event>)
    requires SystemOk(s) && TextsTrue(s) && SealInv(s) && CarefulRun(s, events) && IntentsWritten(events)
    ensures GuardedClicks(s, events)
  {
    if events != [] {
      var front := events[..|events| - 1];
      OwnSlotsAreGuarded(s, front);
      ExecSealInv(s, front);
      OwnClickGuarded(Exec(s, front), events[|events| - 1]);
    }
  }

  lemma OwnClickGuarded(s: System, e: Event)
    requires SealInv(s)
    ensures SlotGuarded(s, e)
  {
    if e.Submit? && e.page in s.clients {
      assert OwnSlot(s, e.page);
    }
  }
}

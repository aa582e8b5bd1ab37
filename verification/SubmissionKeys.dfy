/**
 * How many seal keys of one browser can be open at a time, without any assumption on runs: two are
 * open exactly after a click that makes a new key while a seal of that browser can still take
 * effect. Such a click needs a page that holds no intent although one is open: the slot was never
 * written, was too old, or belongs to another tab that stored it after this one had loaded.
 */
module SubmissionKeys {
  import opened Prelude
  import opened SubmissionServer
  import opened SubmissionHistory
  import opened PracticePanel
  import opened PracticeClient
  import opened SubmissionProtocol
  import opened SubmissionStructure
  import opened SubmissionSeals

  ghost predicate SentFrom(s: System, device: nat, k: nat) {
    k < |s.calls| && s.calls[k].client in s.clients && s.clients[s.calls[k].client].device == device
  }

  /** A seal request of the browser that can still take effect. */
  ghost predicate OpenOn(s: System, device: nat, k: nat) {
    SentFrom(s, device, k) && s.calls[k].request.Seal? &&
    !SealDead(s.server, s.calls[k].request.version, s.calls[k].request.revision)
  }

  ghost predicate TwoOpen(s: System, device: nat) {
    exists j: nat, k: nat :: OpenOn(s, device, j) && OpenOn(s, device, k) && s.calls[j].request != s.calls[k].request
  }

  ghost predicate AnyOpen(s: System, device: nat) {
    exists k: nat :: OpenOn(s, device, k)
  }

  /** The click makes a new key although an earlier one of this browser is open. */
  ghost predicate OpensSecondKey(s: System, e: Event, device: nat) {
    && e.Submit? && e.page in s.clients && s.clients[e.page].device == device && device in s.devices
    && Allowed(s.clients[e.page], s.devices[device], e)
    && s.clients[e.page].panel.intent == None && AnyOpen(s, device)
    && var pair := s.clients[e.page].panel.pair; !SealDead(s.server, pair.version.value, pair.revision)
  }

  // ---------------------------------------------------------------- where intents come from

  /** The intent's seal was sent from this browser. */
  ghost predicate WasSent(s: System, device: nat, i: Intent) {
    exists k: nat :: SentFrom(s, device, k) && s.calls[k].request == SealRequest(i)
  }

  ghost predicate IntentsOf(s: System, page: nat)
    requires page in s.clients
  {
    var cl := s.clients[page];
    && (cl.panel.intent.Some? ==> WasSent(s, cl.device, cl.panel.intent.value))
    && (!cl.panel.submit.NotSubmitting? ==> WasSent(s, cl.device, cl.panel.submit.intent))
  }

  ghost predicate SlotOf(s: System, device: nat)
    requires device in s.devices
  {
    s.devices[device].slot.Some? ==> WasSent(s, device, s.devices[device].slot.value)
  }

  ghost predicate KeysKnown(s: System) {
    && (forall k :: 0 <= k < |s.calls| ==> s.calls[k].client in s.clients)
    && (forall k :: 0 <= k < |s.calls| && s.calls[k].request.Seal? ==> s.calls[k].request.key < s.nextKey)
    && (forall c :: c in s.clients ==> IntentsOf(s, c))
    && (forall d :: d in s.devices ==> SlotOf(s, d))
  }

  /** A step other than a seal click moves intents around but makes none, and re-sends only the one being rechecked. */
  ghost predicate IntentMoves(cl: Client, d: Device, e: Effect) {
    && (e.client.panel.intent == None || e.client.panel.intent == cl.panel.intent || e.client.panel.intent == d.slot)
    && (e.client.panel.submit.NotSubmitting? ||
        (!cl.panel.submit.NotSubmitting? && e.client.panel.submit.intent == cl.panel.submit.intent))
    && (e.device.slot == None || e.device.slot == d.slot)
    && (e.send.Some? && e.send.value.Seal? ==>
          !cl.panel.submit.NotSubmitting? && e.send.value == SealRequest(cl.panel.submit.intent))
  }

  lemma RecheckMoves(cl: Client, d: Device, reply: Reply, found: Found, next: nat)
    requires cl.panel.submit.Rechecking?
    ensures IntentMoves(cl, d, RecheckDone(cl, d, reply, found, cl.panel.submit.intent, next))
  {
  }

  lemma SealDoneMoves(cl: Client, d: Device, reply: Reply, next: nat)
    requires cl.panel.submit.Sealing?
    ensures IntentMoves(cl, d, SealDone(cl, d, reply, next))
  {
  }

  lemma ArriveMoves(cl: Client, d: Device, k: nat, reply: Reply, found: Found, disk: Disk, now: nat, next: nat)
    ensures IntentMoves(cl, d, Arrive(cl, d, k, reply, found, disk, now, next))
  {
    if cl.panel.saving.Some? && cl.panel.saving.value.call == k {
      SaveDoneCalm(cl, d, reply, next);
    } else if cl.panel.submit.Rechecking? && cl.panel.submit.call == k {
      RecheckMoves(cl, d, reply, found, next);
    } else if cl.panel.submit.Sealing? && cl.panel.submit.call == k {
      SealDoneMoves(cl, d, reply, next);
    } else if k in cl.loads {
    } else if JobCall(cl.editor.job) == Some(k) {
      ImageDoneCalm(cl, d, reply, disk, now, next);
    }
  }

  lemma DeliverMoves(s: System, cl: Client, d: Device, e: Event)
    requires e.Deliver? || e.Lose? || e.Unmounts?
    ensures IntentMoves(cl, d, Act(s, cl, d, e))
  {
    if e.Deliver? {
      if e.answer < |s.answers| && s.answers[e.answer].call < |s.calls| {
        DeliverAct(s, cl, d, e);
        var a := s.answers[e.answer];
        ArriveMoves(cl, d, a.call, ReplyTo(s, a), e.found, e.disk, e.now, |s.calls|);
      } else {
        DeliverNothing(s, cl, d, e);
      }
    } else {
      ArriveMoves(cl, d, e.call, Refused, Found(true, true), Disk(true, true, true), e.now, |s.calls|);
    }
  }

  lemma ActMoves(s: System, cl: Client, d: Device, e: Event)
    requires Allowed(cl, d, e) && !e.Submit?
    ensures IntentMoves(cl, d, Act(s, cl, d, e))
  {
    if e.Deliver? || e.Lose? || e.Unmounts? {
      DeliverMoves(s, cl, d, e);
    } else {
      ClickCalm(s, cl, d, e);
    }
  }

  // ---------------------------------------------------------------- one step

  lemma WasSentStays(s: System, t: System, device: nat, i: Intent)
    requires WasSent(s, device, i) && s.calls <= t.calls
    requires forall c :: c in s.clients ==> c in t.clients && t.clients[c].device == s.clients[c].device
    ensures WasSent(t, device, i)
  {
    var k: nat :| SentFrom(s, device, k) && s.calls[k].request == SealRequest(i);
    assert SentFrom(t, device, k);
  }

  /** The state after a page step, by its parts. */
  ghost predicate Stepped(s: System, t: System, page: nat, eff: Effect) {
    && page in s.clients && eff.client.device == s.clients[page].device && eff.client.device in s.devices
    && t.server == s.server && t.clients == s.clients[page := eff.client]
    && t.devices == s.devices[eff.client.device := eff.device] && t.calls == SentCalls(s, page, eff)
  }

  lemma MovesKeepKeys(s: System, t: System, page: nat, eff: Effect)
    requires KeysKnown(s) && Stepped(s, t, page, eff) && t.nextKey == s.nextKey
    requires IntentMoves(s.clients[page], s.devices[eff.client.device], eff)
    ensures KeysKnown(t)
  {
    var device := eff.client.device;
    assert IntentsOf(s, page) && SlotOf(s, device);
    forall c | c in t.clients ensures IntentsOf(t, c) {
      assert IntentsOf(s, c);
      IntentsStay(s, t, page, c, eff);
    }
    forall d | d in t.devices ensures SlotOf(t, d) {
      assert SlotOf(s, d);
      if t.devices[d].slot.Some? {
        WasSentStays(s, t, d, t.devices[d].slot.value);
      }
    }
    forall k | 0 <= k < |t.calls| ensures t.calls[k].client in t.clients && (t.calls[k].request.Seal? ==> t.calls[k].request.key < t.nextKey) {
      if k == |s.calls| && eff.send.value.Seal? {
        var j: nat :| SentFrom(s, device, j) && s.calls[j].request == SealRequest(s.clients[page].panel.submit.intent);
      }
    }
  }

  lemma IntentsStay(s: System, t: System, page: nat, c: nat, eff: Effect)
    requires KeysKnown(s) && Stepped(s, t, page, eff) && c in s.clients && IntentsOf(s, c) && SlotOf(s, eff.client.device)
    requires IntentMoves(s.clients[page], s.devices[eff.client.device], eff)
    ensures IntentsOf(t, c)
  {
    var cl := t.clients[c];
    if cl.panel.intent.Some? {
      WasSentStays(s, t, cl.device, cl.panel.intent.value);
    }
    if !cl.panel.submit.NotSubmitting? {
      WasSentStays(s, t, cl.device, cl.panel.submit.intent);
    }
  }

  /** A call that was open afterwards was open before, or its request was. */
  lemma OpenWasOpen(s: System, t: System, page: nat, eff: Effect, device: nat, k: nat)
    requires KeysKnown(s) && Stepped(s, t, page, eff) && OpenOn(t, device, k)
    requires IntentMoves(s.clients[page], s.devices[eff.client.device], eff)
    ensures exists j: nat :: OpenOn(s, device, j) && s.calls[j].request == t.calls[k].request
  {
    if k < |s.calls| {
      assert OpenOn(s, device, k);
    } else {
      assert IntentsOf(s, page);
      var j: nat :| SentFrom(s, device, j) && s.calls[j].request == SealRequest(s.clients[page].panel.submit.intent);
      assert OpenOn(s, device, j);
    }
  }

  lemma MovesOpenNothing(s: System, t: System, page: nat, eff: Effect, device: nat)
    requires KeysKnown(s) && Stepped(s, t, page, eff) && !TwoOpen(s, device)
    requires IntentMoves(s.clients[page], s.devices[eff.client.device], eff)
    ensures !TwoOpen(t, device)
  {
    if TwoOpen(t, device) {
      var j: nat, k: nat :| OpenOn(t, device, j) && OpenOn(t, device, k) && t.calls[j].request != t.calls[k].request;
      OpenWasOpen(s, t, page, eff, device, j);
      OpenWasOpen(s, t, page, eff, device, k);
    }
  }

  lemma PageMoves(s: System, e: Event, page: nat, device: nat)
    requires SystemOk(s) && KeysKnown(s) && page in s.clients && EventPage(s, e) == Some(page) && !e.Open? && !e.Submit?
    ensures KeysKnown(Next(s, e)) && (!TwoOpen(s, device) ==> !TwoOpen(Next(s, e), device))
  {
    var cl := s.clients[page];
    assert Live(s, page);
    PageNext(s, e, page);
    if Allowed(cl, s.devices[cl.device], e) {
      var eff := Act(s, cl, s.devices[cl.device], e);
      ActMoves(s, cl, s.devices[cl.device], e);
      MovesKeepKeys(s, Next(s, e), page, eff);
      if !TwoOpen(s, device) {
        MovesOpenNothing(s, Next(s, e), page, eff, device);
      }
    }
  }

  /** What a click does to the system, if the page allows it. */
  lemma ClickStep(s: System, e: Event) returns (eff: Effect)
    requires SystemOk(s) && e.Submit? && e.page in s.clients
    ensures var cl := s.clients[e.page]; var d := s.devices[cl.device];
      if Allowed(cl, d, e) then
        cl.panel.pair.version.Some? && eff == SubmitClick(cl, d, s.nextKey, e.written, |s.calls|) && Stepped(s, Next(s, e), e.page, eff) && Next(s, e).nextKey == s.nextKey + 1
      else Next(s, e) == s
  {
    var cl := s.clients[e.page];
    var d := s.devices[cl.device];
    assert Live(s, e.page);
    PageNext(s, e, e.page);
    eff := if Allowed(cl, d, e) then Act(s, cl, d, e) else Stay(cl, d);
  }

  /** A click with an intent only asks again. */
  lemma ClickAgain(s: System, e: Event, device: nat)
    requires SystemOk(s) && KeysKnown(s) && e.Submit? && e.page in s.clients && s.clients[e.page].panel.intent.Some?
    ensures KeysKnown(Next(s, e)) && (!TwoOpen(s, device) ==> !TwoOpen(Next(s, e), device))
  {
    var eff := ClickStep(s, e);
    var cl := s.clients[e.page];
    if Allowed(cl, s.devices[cl.device], e) {
      AskingAgain(cl, s.devices[cl.device], s.nextKey, e.written, |s.calls|);
      AskedKeys(s, Next(s, e), e.page, eff);
      if !TwoOpen(s, device) {
        AskedOpenNothing(s, Next(s, e), e.page, eff, device);
      }
    }
  }

  lemma AskingAgain(cl: Client, d: Device, key: nat, written: bool, next: nat)
    requires cl.panel.intent.Some? && cl.panel.pair.version.Some?
    ensures var eff := SubmitClick(cl, d, key, written, next);
      && eff.send == Some(Read) && eff.device == d && eff.client.device == cl.device && eff.client.panel.intent == cl.panel.intent
      && !eff.client.panel.submit.NotSubmitting? && Some(eff.client.panel.submit.intent) == cl.panel.intent
  {
  }

  lemma AskedOpenNothing(s: System, t: System, page: nat, eff: Effect, device: nat)
    requires KeysKnown(s) && Stepped(s, t, page, eff) && eff.send == Some(Read) && !TwoOpen(s, device)
    ensures !TwoOpen(t, device)
  {
    forall k: nat | OpenOn(t, device, k) ensures OpenOn(s, device, k) {
    }
  }

  lemma AskedKeys(s: System, t: System, page: nat, eff: Effect)
    requires KeysKnown(s) && Stepped(s, t, page, eff) && t.nextKey >= s.nextKey && eff.send == Some(Read)
    requires eff.device == s.devices[eff.client.device] && s.clients[page].panel.intent.Some?
    requires eff.client.panel.intent == s.clients[page].panel.intent
    requires !eff.client.panel.submit.NotSubmitting? && Some(eff.client.panel.submit.intent) == s.clients[page].panel.intent
    ensures KeysKnown(t)
  {
    forall c | c in t.clients ensures IntentsOf(t, c) {
      assert IntentsOf(s, c) && IntentsOf(s, page);
      var cl := t.clients[c];
      if cl.panel.intent.Some? {
        WasSentStays(s, t, cl.device, cl.panel.intent.value);
      }
      if !cl.panel.submit.NotSubmitting? {
        WasSentStays(s, t, cl.device, cl.panel.submit.intent);
      }
    }
    forall d | d in t.devices ensures SlotOf(t, d) {
      assert SlotOf(s, d);
      if t.devices[d].slot.Some? {
        WasSentStays(s, t, d, t.devices[d].slot.value);
      }
    }
  }

  /** A click without an intent sends a seal with a key of its own. */
  lemma NewClick(s: System, e: Event, device: nat)
    requires SystemOk(s) && KeysKnown(s) && e.Submit? && e.page in s.clients && s.clients[e.page].panel.intent == None
    ensures KeysKnown(Next(s, e))
    ensures !TwoOpen(s, device) ==> (TwoOpen(Next(s, e), device) <==> OpensSecondKey(s, e, device))
    ensures OpensSecondKey(s, e, device) ==> TwoOpen(Next(s, e), device)
  {
    var eff := ClickStep(s, e);
    var cl := s.clients[e.page];
    if Allowed(cl, s.devices[cl.device], e) {
      var intent := Intent(s.nextKey, cl.panel.pair.version.value, cl.panel.pair.revision, cl.panel.persisted);
      assert eff.send == Some(SealRequest(intent));
      NewKeyKnown(s, Next(s, e), e.page, eff, intent);
      NewClickOpens(s, e, eff, intent, device);
    }
  }

  lemma NewClickOpens(s: System, e: Event, eff: Effect, intent: Intent, device: nat)
    requires KeysKnown(s) && e.Submit? && Stepped(s, Next(s, e), e.page, eff) && Live(s, e.page)
    requires s.clients[e.page].panel.intent == None && Allowed(s.clients[e.page], s.devices[s.clients[e.page].device], e)
    requires intent.key == s.nextKey && eff.send == Some(SealRequest(intent)) && Some(intent.version) == s.clients[e.page].panel.pair.version
    requires intent.revision == s.clients[e.page].panel.pair.revision
    ensures !TwoOpen(s, device) ==> (TwoOpen(Next(s, e), device) <==> OpensSecondKey(s, e, device))
    ensures OpensSecondKey(s, e, device) ==> TwoOpen(Next(s, e), device)
  {
    if OpensSecondKey(s, e, device) {
      NewKeyOpens(s, Next(s, e), e.page, eff, intent, device);
    }
    if !TwoOpen(s, device) && TwoOpen(Next(s, e), device) {
      OnlyNewKeyOpens(s, Next(s, e), e.page, eff, intent, device);
    }
  }

  lemma NewKeyKnown(s: System, t: System, page: nat, eff: Effect, intent: Intent)
    requires KeysKnown(s) && Stepped(s, t, page, eff) && t.nextKey == s.nextKey + 1 && intent.key == s.nextKey
    requires eff.send == Some(SealRequest(intent)) && eff.client.panel.intent == Some(intent)
    requires eff.client.panel.submit == Sealing(|s.calls|, intent)
    requires eff.device.slot == Some(intent) || eff.device.slot == s.devices[eff.client.device].slot
    ensures KeysKnown(t)
  {
    var device := eff.client.device;
    assert SentFrom(t, device, |s.calls|) && t.calls[|s.calls|].request == SealRequest(intent);
    forall c | c in t.clients ensures IntentsOf(t, c) {
      if c != page {
        assert IntentsOf(s, c);
        var cl := t.clients[c];
        if cl.panel.intent.Some? {
          WasSentStays(s, t, cl.device, cl.panel.intent.value);
        }
        if !cl.panel.submit.NotSubmitting? {
          WasSentStays(s, t, cl.device, cl.panel.submit.intent);
        }
      }
    }
    forall d | d in t.devices ensures SlotOf(t, d) {
      assert SlotOf(s, d);
      if t.devices[d].slot.Some? && t.devices[d].slot == s.devices[d].slot {
        WasSentStays(s, t, d, t.devices[d].slot.value);
      }
    }
  }

  lemma NewKeyOpens(s: System, t: System, page: nat, eff: Effect, intent: Intent, device: nat)
    requires KeysKnown(s) && Stepped(s, t, page, eff) && intent.key == s.nextKey && eff.send == Some(SealRequest(intent))
    requires eff.client.device == device && AnyOpen(s, device) && !SealDead(s.server, intent.version, intent.revision)
    ensures TwoOpen(t, device)
  {
    var n := |s.calls|;
    assert t.calls[n].request == SealRequest(intent);
    var k: nat :| OpenOn(s, device, k);
    assert OpenOn(t, device, k) && OpenOn(t, device, n);
  }

  lemma OnlyNewKeyOpens(s: System, t: System, page: nat, eff: Effect, intent: Intent, device: nat)
    requires KeysKnown(s) && Stepped(s, t, page, eff) && intent.key == s.nextKey && eff.send == Some(SealRequest(intent))
    requires TwoOpen(t, device) && !TwoOpen(s, device)
    ensures eff.client.device == device && AnyOpen(s, device) && !SealDead(s.server, intent.version, intent.revision)
  {
    var n := |s.calls|;
    assert t.calls[n].request == SealRequest(intent);
    var j: nat, k: nat :| OpenOn(t, device, j) && OpenOn(t, device, k) && t.calls[j].request != t.calls[k].request;
    assert j < n ==> OpenOn(s, device, j);
    assert k < n ==> OpenOn(s, device, k);
  }

  /** What the opening of a page and the events of the server leave alone. */
  ghost predicate Undisturbed(s: System, t: System) {
    && t.calls == s.calls && t.nextKey == s.nextKey && Extends(s.server, t.server)
    && (forall c :: c in s.clients ==> c in t.clients && t.clients[c].device == s.clients[c].device)
    && (forall c :: c in t.clients ==>
          (c in s.clients && t.clients[c] == s.clients[c]) ||
          (t.clients[c].panel.intent == None && t.clients[c].panel.submit.NotSubmitting?))
    && (forall d :: d in t.devices ==> (d in s.devices && t.devices[d] == s.devices[d]) || t.devices[d].slot == None)
  }

  lemma OpenUndisturbed(s: System, e: Event)
    requires e.Open?
    ensures Undisturbed(s, Next(s, e))
  {
    ExtendsReflexive(s.server);
  }

  lemma ServerUndisturbed(s: System, t: System)
    requires t == s.(server := t.server, answers := t.answers) && Extends(s.server, t.server)
    ensures Undisturbed(s, t)
  {
  }

  lemma OthersUndisturbed(s: System, e: Event)
    requires SystemOk(s) && (e.Open? || EventPage(s, e) == None || EventPage(s, e).value !in s.clients)
    ensures Undisturbed(s, Next(s, e))
  {
    if e.Open? {
      OpenUndisturbed(s, e);
    } else if EventPage(s, e) == None {
      NextOk(s, e);
      ServerFields(s, e);
      ServerUndisturbed(s, Next(s, e));
    } else {
      NobodyStays(s, e);
      ExtendsReflexive(s.server);
    }
  }

  lemma UndisturbedKnown(s: System, t: System)
    requires KeysKnown(s) && Undisturbed(s, t)
    ensures KeysKnown(t)
  {
    forall c | c in t.clients ensures IntentsOf(t, c) {
      if c in s.clients && t.clients[c] == s.clients[c] {
        assert IntentsOf(s, c);
        KeptIntents(s, t, c);
      }
    }
    forall d | d in t.devices ensures SlotOf(t, d) {
      if d in s.devices && t.devices[d] == s.devices[d] {
        assert SlotOf(s, d);
        if t.devices[d].slot.Some? {
          WasSentStays(s, t, d, t.devices[d].slot.value);
        }
      }
    }
  }

  lemma UndisturbedOpen(s: System, t: System, device: nat, k: nat)
    requires KeysKnown(s) && Undisturbed(s, t) && OpenOn(t, device, k)
    ensures OpenOn(s, device, k)
  {
    var q := s.calls[k].request;
    if SealDead(s.server, q.version, q.revision) {
      SealDeadForever(s.server, t.server, q.version, q.revision);
    }
  }

  /** Events of the server can only end seals; the opening of a page changes no request. */
  lemma OtherKeys(s: System, e: Event, device: nat)
    requires SystemOk(s) && KeysKnown(s)
    requires e.Open? || EventPage(s, e) == None || EventPage(s, e).value !in s.clients
    ensures KeysKnown(Next(s, e)) && (!TwoOpen(s, device) ==> !TwoOpen(Next(s, e), device))
  {
    OthersUndisturbed(s, e);
    UndisturbedKnown(s, Next(s, e));
    forall k: nat | OpenOn(Next(s, e), device, k) ensures OpenOn(s, device, k) {
      UndisturbedOpen(s, Next(s, e), device, k);
    }
  }

  lemma KeptIntents(s: System, t: System, c: nat)
    requires c in s.clients && c in t.clients && t.clients[c] == s.clients[c] && IntentsOf(s, c) && s.calls <= t.calls
    requires forall c :: c in s.clients ==> c in t.clients && t.clients[c].device == s.clients[c].device
    ensures IntentsOf(t, c)
  {
    var cl := s.clients[c];
    if cl.panel.intent.Some? {
      WasSentStays(s, t, cl.device, cl.panel.intent.value);
    }
    if !cl.panel.submit.NotSubmitting? {
      WasSentStays(s, t, cl.device, cl.panel.submit.intent);
    }
  }

  /** One event: a second key opens exactly by a click that makes one while another is open. */
  lemma NextTwoOpenIff(s: System, e: Event, device: nat)
    requires SystemOk(s) && KeysKnown(s)
    ensures KeysKnown(Next(s, e))
    ensures OpensSecondKey(s, e, device) ==> TwoOpen(Next(s, e), device)
    ensures !TwoOpen(s, device) && TwoOpen(Next(s, e), device) ==> OpensSecondKey(s, e, device)
  {
    var who := EventPage(s, e);
    if e.Open? || who == None || who.value !in s.clients {
      OtherKeys(s, e, device);
    } else if !e.Submit? {
      PageMoves(s, e, who.value, device);
    } else if s.clients[e.page].panel.intent.Some? {
      ClickAgain(s, e, device);
    } else {
      NewClick(s, e, device);
    }
  }

  // ---------------------------------------------------------------- whole runs

  lemma {:induction false} ExecKeysKnown(s: System, events: seq<Event>)
    requires SystemOk(s) && KeysKnown(s)
    ensures KeysKnown(Exec(s, events))
  {
    if events != [] {
      ExecKeysKnown(s, events[..|events| - 1]);
      ExecOk(s, events[..|events| - 1]);
      NextTwoOpenIff(Exec(s, events[..|events| - 1]), events[|events| - 1], 0);
    }
  }

  /** At some moment of the run two keys of the browser are open. */
  ghost predicate EverTwoOpen(replays: bool, events: seq<Event>, device: nat) {
    exists n: nat :: n <= |events| && TwoOpen(Exec(Init(replays), events[..n]), device)
  }

  ghost predicate EverSecondKey(replays: bool, events: seq<Event>, device: nat) {
    exists n: nat :: n < |events| && OpensSecondKey(Exec(Init(replays), events[..n]), events[n], device)
  }

  /**
   * In every run whatever, of any pages and tabs, with any storage failures and expiries: two seal
   * keys of one browser are open at some moment exactly if at some moment a learner clicked on a
   * page that held no intent while a seal of that browser could still take effect.
   */
  lemma TwoKeysIff(replays: bool, events: seq<Event>, device: nat)
    ensures EverTwoOpen(replays, events, device) <==> EverSecondKey(replays, events, device)
  {
    if EverTwoOpen(replays, events, device) {
      var n: nat :| n <= |events| && TwoOpen(Exec(Init(replays), events[..n]), device);
      SecondKeyBefore(replays, events, n, device);
    }
    if n: nat :| n < |events| && OpensSecondKey(Exec(Init(replays), events[..n]), events[n], device) {
      Known(replays, events[..n]);
      NextTwoOpenIff(Exec(Init(replays), events[..n]), events[n], device);
      OneMore(replays, events, n);
    }
  }

  lemma Known(replays: bool, events: seq<Event>)
    ensures SystemOk(Exec(Init(replays), events)) && KeysKnown(Exec(Init(replays), events))
  {
    InitOk(replays);
    ExecOk(Init(replays), events);
    ExecKeysKnown(Init(replays), events);
  }

  lemma OneMore(replays: bool, events: seq<Event>, n: nat)
    requires n < |events|
    ensures Exec(Init(replays), events[..n + 1]) == Next(Exec(Init(replays), events[..n]), events[n])
  {
    assert events[..n + 1][..n] == events[..n];
  }

  lemma SecondKeyNow(replays: bool, events: seq<Event>, n: nat, device: nat)
    requires n < |events|
    requires !TwoOpen(Exec(Init(replays), events[..n]), device) && TwoOpen(Exec(Init(replays), events[..n + 1]), device)
    ensures OpensSecondKey(Exec(Init(replays), events[..n]), events[n], device)
  {
    Known(replays, events[..n]);
    OneMore(replays, events, n);
    NextTwoOpenIff(Exec(Init(replays), events[..n]), events[n], device);
  }

  lemma NoKeyAtFirst(replays: bool, events: seq<Event>, device: nat)
    ensures !TwoOpen(Exec(Init(replays), events[..0]), device)
  {
    assert Exec(Init(replays), events[..0]) == Init(replays);
  }

  lemma {:induction false} SecondKeyBefore(replays: bool, events: seq<Event>, n: nat, device: nat)
    requires n <= |events| && TwoOpen(Exec(Init(replays), events[..n]), device)
    ensures EverSecondKey(replays, events, device)
  {
    if n == 0 {
      NoKeyAtFirst(replays, events, device);
    } else if TwoOpen(Exec(Init(replays), events[..n - 1]), device) {
      SecondKeyBefore(replays, events, n - 1, device);
    } else {
      SecondKeyNow(replays, events, n - 1, device);
    }
  }

  // ---------------------------------------------------------------- what an open intent still sends

  /**
   * In every state, shared browsers and refused storage included: a page that holds an intent
   * starts a write only by a click on "Retry save" or when the read of a running image job arrives,
   * and it sends a seal only for the intent it is rechecking.
   */
  lemma OpenIntentWrites(s: System, page: nat, e: Event, q: Request)
    requires SystemOk(s) && page in s.clients && EventPage(s, e) == Some(page) && !e.Open?
    requires s.clients[page].panel.intent.Some? && Sends(s, e, q)
    ensures var cl := s.clients[page];
      && (WritePair(q).Some? ==>
            (e == RetrySaveClick(page) && q == Save(cl.panel.draft, cl.panel.pair)) ||
            (e.Deliver? && (cl.editor.job.Preparing? || cl.editor.job.Checking?) && !q.Save?))
      && (q.Seal? ==> cl.panel.submit.Rechecking? && q == SealRequest(cl.panel.submit.intent))
  {
    var cl := s.clients[page];
    SentByAct(s, page, e, q);
    if e.Deliver? {
      DeliverSends(s, cl, s.devices[cl.device], e);
    } else {
      ClickSends(s, page, cl, s.devices[cl.device], e, q);
    }
  }

  lemma SentByAct(s: System, page: nat, e: Event, q: Request)
    requires SystemOk(s) && page in s.clients && EventPage(s, e) == Some(page) && !e.Open? && Sends(s, e, q)
    ensures var cl := s.clients[page]; var d := s.devices[cl.device]; Allowed(cl, d, e) && Act(s, cl, d, e).send == Some(q)
  {
    PageNext(s, e, page);
  }

  lemma DeliverSends(s: System, cl: Client, d: Device, e: Event)
    requires cl.panel.intent.Some? && e.Deliver?
    ensures var eff := Act(s, cl, d, e);
      eff.send == None || ImageSend(cl, eff) || (cl.panel.submit.Rechecking? && eff.send == Some(SealRequest(cl.panel.submit.intent)))
  {
    if e.answer < |s.answers| && s.answers[e.answer].call < |s.calls| {
      DeliverAct(s, cl, d, e);
      ArriveSends(cl, d, s.answers[e.answer].call, ReplyTo(s, s.answers[e.answer]), e.found, e.disk, e.now, |s.calls|);
    } else {
      DeliverNothing(s, cl, d, e);
    }
  }

  lemma ClickSends(s: System, page: nat, cl: Client, d: Device, e: Event, q: Request)
    requires cl.panel.intent.Some? && EventPage(s, e) == Some(page) && !e.Deliver? && Allowed(cl, d, e) && Act(s, cl, d, e).send == Some(q)
    ensures !q.Seal? && (WritePair(q).Some? ==> e == RetrySaveClick(page) && q == Save(cl.panel.draft, cl.panel.pair))
  {
    if e.Lose? || e.Unmounts? {
      FailureDevice(cl, d, e.call, e.now, |s.calls|);
    }
  }

  ghost predicate ImageSend(cl: Client, e: Effect) {
    e.send.Some? && (WritePair(e.send.value).Some? || e.send.value.Seal?) ==>
      (cl.editor.job.Preparing? || cl.editor.job.Checking?) && !e.send.value.Save? && !e.send.value.Seal?
  }

  lemma ArriveSends(cl: Client, d: Device, k: nat, reply: Reply, found: Found, disk: Disk, now: nat, next: nat)
    requires cl.panel.intent.Some?
    ensures var e := Arrive(cl, d, k, reply, found, disk, now, next);
      ImageSend(cl, e) || (cl.panel.submit.Rechecking? && e.send == Some(SealRequest(cl.panel.submit.intent)))
  {
    if cl.panel.saving.Some? && cl.panel.saving.value.call == k {
    } else if cl.panel.submit.Rechecking? && cl.panel.submit.call == k {
    } else if cl.panel.submit.Sealing? && cl.panel.submit.call == k {
    } else if k in cl.loads {
    } else if JobCall(cl.editor.job) == Some(k) {
      ImageSends(cl, d, reply, disk, now, next);
    }
  }

  lemma PreparedSends(cl: Client, d: Device, r: Reading, purpose: Purpose, disk: Disk, now: nat, next: nat)
    requires cl.editor.job.Preparing? || cl.editor.job.Checking?
    ensures ImageSend(cl, Prepared(cl, d, r, purpose, disk, now, next))
  {
  }

  lemma CheckedSends(cl: Client, d: Device, r: Reading, purpose: Purpose, disk: Disk, now: nat, next: nat)
    requires (cl.editor.job.Preparing? || cl.editor.job.Checking?) && cl.panel.intent.Some?
    ensures purpose.Removal? ==> ImageSend(cl, CheckedRemoval(cl, d, r, purpose.image, purpose.seen, next))
    ensures !purpose.Removal? ==> ImageSend(cl, CheckedAgain(cl, d, r, purpose.record, disk, now, next))
  {
  }

  lemma ImageSends(cl: Client, d: Device, reply: Reply, disk: Disk, now: nat, next: nat)
    requires cl.panel.intent.Some?
    ensures ImageSend(cl, ImageDone(cl, d, reply, disk, now, next))
  {
    if reply.Snapshot? && !reply.reading.closed {
      if cl.editor.job.Preparing? {
        PreparedSends(cl, d, reply.reading, cl.editor.job.purpose, disk, now, next);
      } else if cl.editor.job.Checking? {
        CheckedSends(cl, d, reply.reading, cl.editor.job.purpose, disk, now, next);
      }
    }
  }
}

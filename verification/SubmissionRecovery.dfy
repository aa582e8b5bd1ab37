/**
 * The write-ahead copy of the draft. A page stores it with the pair its draft is based on; in every
 * careful run that pair names the text the draft was written over; and a load takes a copy up
 * without a conflict only while the server is still at that pair, so that a recovered draft, too,
 * is saved only over the text it was written over.
 */
module SubmissionRecovery {
  import opened Prelude
  import opened JsText
  import opened SubmissionServer
  import opened SubmissionHistory
  import opened PracticePanel
  import opened PracticeClient
  import opened SubmissionProtocol
  import opened SubmissionStructure
  import opened SubmissionTexts

  /** Without a conflict, the base stored with the recovery copy is the pair the next save will carry. */
  ghost predicate BaseIsPair(p: Panel) {
    p.loaded && p.conflict == None ==> p.base == Some(p.pair)
  }

  lemma LoadBase(p: Panel, r: Reading, recovered: Option<Envelope>, useServer: bool, seal: Option<Intent>)
    ensures BaseIsPair(Load(p, r, recovered, useServer, seal))
  {
  }

  lemma ImageBase(p: Panel, r: Reading)
    requires BaseIsPair(p)
    ensures BaseIsPair(ImageUpdate(p, r)) && BaseIsPair(ImageConflict(p, r))
  {
  }

  lemma PreparedBase(cl: Client, d: Device, r: Reading, purpose: Purpose, disk: Disk, now: nat, next: nat)
    requires BaseIsPair(cl.panel)
    ensures BaseIsPair(Prepared(cl, d, r, purpose, disk, now, next).client.panel)
  {
    ImageBase(cl.panel, r);
    ImageBase(ImageUpdate(cl.panel, r), r);
  }

  lemma CheckedBase(cl: Client, d: Device, r: Reading, purpose: Purpose, disk: Disk, now: nat, next: nat)
    requires BaseIsPair(cl.panel)
    ensures purpose.Removal? ==> BaseIsPair(CheckedRemoval(cl, d, r, purpose.image, purpose.seen, next).client.panel)
    ensures !purpose.Removal? ==> BaseIsPair(CheckedAgain(cl, d, r, purpose.record, disk, now, next).client.panel)
  {
    ImageBase(cl.panel, r);
  }

  lemma AnsweredBase(cl: Client, d: Device, reply: Reply, disk: Disk, now: nat, next: nat)
    requires BaseIsPair(cl.panel) && (cl.editor.job.Posting? || cl.editor.job.Deleting?)
    ensures BaseIsPair(ImageDone(cl, d, reply, disk, now, next).client.panel)
  {
    match cl.editor.job
    case Posting(_, rec, current) =>
      if reply.Uploaded? {
        ImageBase(cl.panel, AckUpload(current, reply.image, reply.revision, rec.client));
      }
    case Deleting(_, target, current) =>
      if reply.Removed? {
        ImageBase(cl.panel, AckRemoval(current, target, reply.revision));
      }
  }

  lemma ImageDoneBase(cl: Client, d: Device, reply: Reply, disk: Disk, now: nat, next: nat)
    requires BaseIsPair(cl.panel)
    ensures BaseIsPair(ImageDone(cl, d, reply, disk, now, next).client.panel)
  {
    if cl.editor.job.Posting? || cl.editor.job.Deleting? {
      AnsweredBase(cl, d, reply, disk, now, next);
    } else if reply.Snapshot? && !reply.reading.closed {
      if cl.editor.job.Preparing? {
        PreparedBase(cl, d, reply.reading, cl.editor.job.purpose, disk, now, next);
      } else if cl.editor.job.Checking? {
        CheckedBase(cl, d, reply.reading, cl.editor.job.purpose, disk, now, next);
      }
    }
  }

  lemma RecheckBase(cl: Client, d: Device, reply: Reply, found: Found, intent: Intent, next: nat)
    requires BaseIsPair(cl.panel)
    ensures BaseIsPair(RecheckDone(cl, d, reply, found, intent, next).client.panel)
  {
    if reply.Snapshot? {
      LoadBase(cl.panel, reply.reading, FoundCopy(d, reply.reading, false, found), false, FoundIntent(d, found));
      RecheckEffect(cl, d, reply, found, intent, next);
    }
  }

  lemma LoadDoneBase(cl: Client, d: Device, k: nat, reply: Reply, found: Found)
    requires BaseIsPair(cl.panel) && k in cl.loads
    ensures BaseIsPair(LoadDone(cl, d, k, reply, found).client.panel)
  {
    if reply.Snapshot? {
      LoadBase(cl.panel, reply.reading, FoundCopy(d, reply.reading, cl.loads[k], found), cl.loads[k], FoundIntent(d, found));
    }
  }

  lemma SaveDoneBase(cl: Client, d: Device, reply: Reply, next: nat)
    requires BaseIsPair(cl.panel) && cl.panel.saving.Some?
    ensures BaseIsPair(SaveDone(cl, d, reply, next).client.panel)
  {
  }

  lemma SealDoneBase(cl: Client, d: Device, reply: Reply, next: nat)
    requires BaseIsPair(cl.panel) && cl.panel.submit.Sealing?
    ensures BaseIsPair(SealDone(cl, d, reply, next).client.panel)
  {
    assert BaseIsPair(SealReply(cl.panel, reply));
  }

  lemma ArriveBase(cl: Client, d: Device, k: nat, reply: Reply, found: Found, disk: Disk, now: nat, next: nat)
    requires BaseIsPair(cl.panel)
    ensures BaseIsPair(Arrive(cl, d, k, reply, found, disk, now, next).client.panel)
  {
    if cl.panel.saving.Some? && cl.panel.saving.value.call == k {
      SaveDoneBase(cl, d, reply, next);
    } else if cl.panel.submit.Rechecking? && cl.panel.submit.call == k {
      RecheckBase(cl, d, reply, found, cl.panel.submit.intent, next);
    } else if cl.panel.submit.Sealing? && cl.panel.submit.call == k {
      SealDoneBase(cl, d, reply, next);
    } else if k in cl.loads {
      LoadDoneBase(cl, d, k, reply, found);
    } else if JobCall(cl.editor.job) == Some(k) {
      ImageDoneBase(cl, d, reply, disk, now, next);
    }
  }

  lemma ActBase(s: System, cl: Client, d: Device, e: Event)
    requires BaseIsPair(cl.panel) && Allowed(cl, d, e)
    ensures BaseIsPair(Act(s, cl, d, e).client.panel)
  {
    if e.Deliver? {
      if e.answer < |s.answers| && s.answers[e.answer].call < |s.calls| {
        DeliverAct(s, cl, d, e);
        ArriveBase(cl, d, s.answers[e.answer].call, ReplyTo(s, s.answers[e.answer]), e.found, e.disk, e.now, |s.calls|);
      } else {
        DeliverNothing(s, cl, d, e);
      }
    } else if e.Lose? || e.Unmounts? {
      ArriveBase(cl, d, e.call, Refused, Found(true, true), Disk(true, true, true), e.now, |s.calls|);
      LostBase(s, cl, d, e);
    } else {
      ClickBase(s, cl, d, e);
    }
  }

  lemma LostBase(s: System, cl: Client, d: Device, e: Event)
    requires e.Lose? || e.Unmounts?
    ensures Act(s, cl, d, e).client.panel == Failure(cl, d, e.call, e.now, |s.calls|).client.panel
  {
  }

  lemma ClickBase(s: System, cl: Client, d: Device, e: Event)
    requires BaseIsPair(cl.panel) && Allowed(cl, d, e) && !e.Deliver? && !e.Lose? && !e.Unmounts?
    ensures BaseIsPair(Act(s, cl, d, e).client.panel)
  {
  }

  ghost predicate AllBased(s: System) {
    forall c :: c in s.clients ==> BaseIsPair(s.clients[c].panel)
  }

  lemma PageBased(s: System, e: Event, page: nat)
    requires SystemOk(s) && AllBased(s) && page in s.clients && EventPage(s, e) == Some(page) && !e.Open?
    ensures AllBased(Next(s, e))
  {
    var cl := s.clients[page];
    PageNext(s, e, page);
    if Allowed(cl, s.devices[cl.device], e) {
      ActBase(s, cl, s.devices[cl.device], e);
    }
  }

  /** Opening a page and events of the server start or keep panels as they are. */
  lemma OthersBased(s: System, e: Event)
    requires AllBased(s) && (e.Open? || EventPage(s, e) == None || EventPage(s, e).value !in s.clients)
    ensures AllBased(Next(s, e))
  {
  }

  lemma NextBased(s: System, e: Event)
    requires SystemOk(s) && AllBased(s)
    ensures AllBased(Next(s, e))
  {
    if !e.Open? && EventPage(s, e).Some? && EventPage(s, e).value in s.clients {
      PageBased(s, e, EventPage(s, e).value);
    } else {
      OthersBased(s, e);
    }
  }

  lemma {:induction false} ExecBased(s: System, events: seq<Event>)
    requires SystemOk(s) && AllBased(s)
    ensures AllBased(Exec(s, events))
  {
    if events != [] {
      ExecBased(s, events[..|events| - 1]);
      ExecOk(s, events[..|events| - 1]);
      NextBased(Exec(s, events[..|events| - 1]), events[|events| - 1]);
    }
  }

  /**
   * In every run, a loaded page without a conflict stores its recovery copies with exactly the pair
   * that it will save the draft with.
   */
  lemma CopiesCarryTheSavePair(replays: bool, events: seq<Event>, page: nat)
    requires page in Exec(Init(replays), events).clients
    ensures var p := Exec(Init(replays), events).clients[page].panel;
      p.loaded && p.conflict == None ==> p.base == Some(p.pair)
  {
    InitOk(replays);
    ExecBased(Init(replays), events);
  }

  // ---------------------------------------------------------------- what a copy stands for

  /** The event stores a copy of the page's unsaved draft. */
  ghost predicate Stores(s: System, e: Event, page: nat) {
    && e.StoreCopy? && e.page == page && page in s.clients && s.clients[page].device in s.devices
    && Allowed(s.clients[page], s.devices[s.clients[page].device], e)
    && s.clients[page].panel.draft != s.clients[page].panel.persisted
  }

  /**
   * In every careful run a page without a conflict stores its draft with the pair it will save it
   * with, over a text that is the one the page holds for that pair.
   */
  lemma StoredOverHeldText(replays: bool, events: seq<Event>, page: nat, e: Event)
    requires CarefulRun(Init(replays), events) && Stores(Exec(Init(replays), events), e, page)
    requires Exec(Init(replays), events).clients[page].panel.conflict == None
    ensures var s := Exec(Init(replays), events);
      var p := s.clients[page].panel;
      var t := Next(s, e);
      && s.clients[page].device in t.devices && t.devices[s.clients[page].device].copy.Some?
      && var c := t.devices[s.clients[page].device].copy.value;
      c.text == p.draft && c.base == Some(p.pair) && Normalize(c.over) == Normalize(p.persisted)
  {
    InitOk(replays);
    CarefulRunTrue(Init(replays), events);
    CopiesCarryTheSavePair(replays, events, page);
    StoringIsLoaded(Exec(Init(replays), events), e, page);
    StoresHeld(Exec(Init(replays), events), e, page);
  }

  lemma StoringIsLoaded(s: System, e: Event, page: nat)
    requires Stores(s, e, page)
    ensures s.clients[page].panel.loaded
  {
  }

  lemma StoresHeld(s: System, e: Event, page: nat)
    requires SystemOk(s) && TextsTrue(s) && Stores(s, e, page) && s.clients[page].panel.base == Some(s.clients[page].panel.pair)
    ensures var p := s.clients[page].panel;
      var t := Next(s, e);
      && s.clients[page].device in t.devices && t.devices[s.clients[page].device].copy.Some?
      && var c := t.devices[s.clients[page].device].copy.value;
      c.text == p.draft && c.base == Some(p.pair) && Normalize(c.over) == Normalize(p.persisted)
  {
    PageNext(s, e, page);
    assert PanelTrue(s.server, s.clients[page].panel);
  }

  /** In every careful run the base of every stored copy names the text that the draft was written over. */
  lemma CopiesNameTheirText(replays: bool, events: seq<Event>, device: nat)
    requires CarefulRun(Init(replays), events) && device in Exec(Init(replays), events).devices
    ensures var s := Exec(Init(replays), events);
      var c := s.devices[device].copy;
      c.Some? && c.value.base.Some? ==> TextAt(s.server, c.value.base.value) == Some(Normalize(c.value.over))
  {
    InitOk(replays);
    CarefulRunTrue(Init(replays), events);
  }

  // ---------------------------------------------------------------- taking a copy up

  /** The answer delivered is a unit read of page `page`, and the load finds this copy usable. */
  ghost predicate LoadsCopy(s: System, e: Event, page: nat, c: Envelope) {
    && e.Deliver? && page in s.clients && s.clients[page].device in s.devices
    && e.answer < |s.answers| && s.answers[e.answer].call < |s.calls|
    && var k := s.answers[e.answer].call;
       var cl := s.clients[page];
    && s.calls[k].client == page && k in cl.loads
    && !(cl.panel.saving.Some? && cl.panel.saving.value.call == k)
    && !(!cl.panel.submit.NotSubmitting? && cl.panel.submit.call == k)
    && ReplyTo(s, s.answers[e.answer]).Snapshot?
    && var r := ReplyTo(s, s.answers[e.answer]).reading;
       Usable(r, FoundCopy(s.devices[cl.device], r, cl.loads[k], e.found), cl.loads[k]) == Some(c)
  }

  lemma LoadedCopy(cl: Client, d: Device, r: Reading, useServer: bool, found: Found, c: Envelope)
    requires Usable(r, FoundCopy(d, r, useServer, found), useServer) == Some(c)
    ensures var p := LoadClient(cl, d, r, useServer, found).panel;
      && d.copy == Some(c) && p.draft == c.text && p.base == c.base && p.pair == LoadedPair(r)
      && (p.conflict == None <==> c.base == Some(p.pair))
  {
  }

  /** A copy taken up becomes the draft, without a conflict exactly if it was stored with the pair just loaded. */
  lemma TakenUp(s: System, e: Event, page: nat, c: Envelope)
    requires SystemOk(s) && LoadsCopy(s, e, page, c)
    ensures var t := Next(s, e);
      && page in t.clients
      && var p := t.clients[page].panel;
      && p.draft == c.text && p.base == c.base && (p.conflict == None <==> c.base == Some(p.pair))
      && s.devices[s.clients[page].device].copy == Some(c)
  {
    var k := s.answers[e.answer].call;
    var cl := s.clients[page];
    PageNext(s, e, page);
    LoadedCopy(cl.(loads := cl.loads - {k}), s.devices[cl.device], ReplyTo(s, s.answers[e.answer]).reading, cl.loads[k], e.found, c);
  }

  /** A run with its last step, and any continuation of it. */
  ghost predicate Continues(replays: bool, before: seq<Event>, e: Event, after: seq<Event>) {
    CarefulRun(Init(replays), before) && Careful(Exec(Init(replays), before), e) &&
    CarefulRun(Next(Exec(Init(replays), before), e), after)
  }

  /**
   * Recovery loses nothing: when a load in a careful run takes a stored copy up without a conflict,
   * then in every careful continuation a save with the pair just loaded that is accepted, however
   * late, replaces exactly the text that the recovered draft was written over.
   */
  lemma RecoveredSaveReplaces(replays: bool, before: seq<Event>, e: Event, after: seq<Event>, page: nat, c: Envelope, text: string)
    requires Continues(replays, before, e, after)
    requires LoadsCopy(Exec(Init(replays), before), e, page, c)
    requires var t := Next(Exec(Init(replays), before), e);
      && page in t.clients && t.clients[page].panel.conflict == None
      && WriteAccepted(Exec(t, after).server, Save(text, t.clients[page].panel.pair))
    ensures var t := Next(Exec(Init(replays), before), e);
      && t.clients[page].panel.draft == c.text
      && CurrentText(Exec(t, after).server) == Normalize(c.over)
  {
    InitOk(replays);
    CarefulRunTrue(Init(replays), before);
    var s := Exec(Init(replays), before);
    TakenUp(s, e, page, c);
    NextOk(s, e);
    assert DeviceTrue(s.server, s.devices[s.clients[page].device]);
    var t := Next(s, e);
    SavedOverNamed(s.server, t, after, c.base.value, c.over, text);
  }

  lemma SavedOverNamed(s: Server, t: System, after: seq<Event>, pair: Pair, over: string, text: string)
    requires Names(s, pair, over) && SystemOk(t) && Extends(s, t.server)
    requires WriteAccepted(Exec(t, after).server, Save(text, pair))
    ensures CurrentText(Exec(t, after).server) == Normalize(over)
  {
    ExecOk(t, after);
    TextAtStable(s, t.server, pair);
    TextAtStable(t.server, Exec(t, after).server, pair);
    AcceptedSaveReplaces(Exec(t, after).server, text, pair);
  }

  /** A copy of unknown origin, or with an older base, always raises a conflict, and so is never saved by the autosave timer. */
  lemma OtherCopyConflicts(s: System, e: Event, page: nat, c: Envelope)
    requires SystemOk(s) && LoadsCopy(s, e, page, c)
    ensures page in Next(s, e).clients
    ensures c.base != Some(Next(s, e).clients[page].panel.pair) ==> !CanAutosave(Next(s, e).clients[page].panel, false)
  {
    TakenUp(s, e, page, c);
  }

  /** The answer delivered is a unit read of sealed or accepted work, or one the learner asked the server's text with. */
  ghost predicate LoadsServerText(s: System, e: Event, page: nat) {
    && e.Deliver? && page in s.clients && s.clients[page].device in s.devices
    && e.answer < |s.answers| && s.answers[e.answer].call < |s.calls|
    && var k := s.answers[e.answer].call;
       var cl := s.clients[page];
    && s.calls[k].client == page && k in cl.loads
    && !(cl.panel.saving.Some? && cl.panel.saving.value.call == k)
    && !(!cl.panel.submit.NotSubmitting? && cl.panel.submit.call == k)
    && ReplyTo(s, s.answers[e.answer]).Snapshot?
    && (cl.loads[k] || !CanRecover(ReplyTo(s, s.answers[e.answer]).reading))
  }

  /** Such a load shows the server's text whatever is stored, is never in conflict, and leaves the stored copy alone. */
  lemma NoCopyForSealedWork(s: System, e: Event, page: nat)
    requires SystemOk(s) && LoadsServerText(s, e, page)
    ensures var t := Next(s, e);
      var device := s.clients[page].device;
      && page in t.clients && device in t.devices
      && var p := t.clients[page].panel;
      && p.draft == p.persisted == ReplyTo(s, s.answers[e.answer]).reading.text && p.conflict == None && p.base == Some(p.pair)
      && t.devices[device].copy == s.devices[device].copy
  {
    var k := s.answers[e.answer].call;
    var cl := s.clients[page];
    PageNext(s, e, page);
    LoadedServerText(cl.(loads := cl.loads - {k}), s.devices[cl.device], ReplyTo(s, s.answers[e.answer]).reading, cl.loads[k], e.found);
  }

  lemma LoadedServerText(cl: Client, d: Device, r: Reading, useServer: bool, found: Found)
    requires useServer || !CanRecover(r)
    ensures var p := LoadClient(cl, d, r, useServer, found).panel;
      p.draft == p.persisted == r.text && p.conflict == None && p.base == Some(p.pair)
    ensures LoadDevice(d, r, useServer, found).copy == d.copy
  {
  }
}

/**
 * The queue of pending images over whole runs: no id is queued twice, the running operation works
 * on a queued image, and the record being uploaded carries the very tokens its request sends.
 */
module SubmissionQueue {
  import opened Prelude
  import opened SubmissionServer
  import opened PracticePanel
  import opened ImageQueue
  import opened PracticeClient
  import opened SubmissionProtocol
  import opened SubmissionStructure
  import opened SubmissionImages

  ghost predicate DistinctRecords(records: seq<Record>) {
    forall i, j :: 0 <= i < j < |records| ==> records[i].client != records[j].client
  }

  /** The queue without its running operation. */
  ghost predicate QueueOk(ed: Editor) {
    && DistinctIds(ed.queue) && DistinctRecords(ed.waiting) && RecordIds(ed.waiting) <= Ids(ed.queue)
    && (ed.recovering.Some? ==> DistinctRecords(ed.recovering.value.selected))
  }

  /** An upload's record is bound to the tokens it posts, and the queue holds exactly that record. */
  ghost predicate PostingExact(ed: Editor) {
    ed.job.Posting? ==>
      TokensOf(ed.job.record) == Tokens(ed.job.current) && Find(ed.queue, ed.job.record.client) == Some(ed.job.record)
  }

  ghost predicate EditorOk(ed: Editor) {
    && QueueOk(ed) && JobIds(ed.job) <= Ids(ed.queue) && JobIds(ed.job) !! RecordIds(ed.waiting)
    && (ed.job.Idle? ==> ed.waiting == [])
    && PostingExact(ed)
  }

  ghost predicate Below(ids: set<nat>, n: nat) {
    forall x :: x in ids ==> x < n
  }

  ghost predicate PageBelow(s: System, page: nat) {
    page in s.clients && s.clients[page].device in s.devices &&
    Below(PageIds(s.clients[page], s.devices[s.clients[page].device]), s.nextImage)
  }

  ghost predicate QueueInv(s: System) {
    && (forall c :: c in s.clients ==> EditorOk(s.clients[c].editor) && PageBelow(s, c))
    && (forall d :: d in s.devices ==> Below(StoreIds(s.devices[d].store), s.nextImage))
  }

  // ---------------------------------------------------------------- pieces

  lemma {:induction false} FindMeans(queue: seq<Item>, client: nat, i: nat)
    requires DistinctIds(queue) && i < |queue| && queue[i].record.client == client
    ensures Find(queue, client) == Some(queue[i].record)
  {
    if i > 0 {
      assert DistinctIds(queue[1..]);
      FindMeans(queue[1..], client, i - 1);
    }
  }

  lemma FailE(cl: Client, x: Option<nat>, note: Note)
    requires QueueOk(cl.editor)
    ensures EditorOk(FailImage(cl, x, note).editor)
  {
    if x.Some? {
      MarkFrame(cl.editor.queue, x.value, note);
    }
  }

  lemma NextE(cl: Client)
    requires QueueOk(cl.editor)
    ensures EditorOk(NextInBatch(cl).editor)
  {
    var ed := cl.editor;
    if ed.waiting != [] {
      QueueCopyId(ed.queue, ed.waiting[0]);
      MarkFrame(ed.queue, ed.waiting[0].client, Uploading);
      TailIds(ed.waiting);
      assert ed.waiting[0].client in RecordIds(ed.waiting);
      var t := ed.waiting[1..];
      assert forall i :: 0 <= i < |t| ==> t[i] == ed.waiting[i + 1];
    }
  }

  lemma AdvanceE(cl: Client, before: Baseline, to: Baseline, now: nat)
    requires QueueOk(cl.editor)
    ensures QueueOk(AdvanceAll(cl, before, to, now).editor)
    ensures Ids(AdvanceAll(cl, before, to, now).editor.queue) == Ids(cl.editor.queue)
  {
    AdvanceFrame(cl.editor.queue, before, to, now);
  }

  /** An image leaves the queue; it was not waiting. */
  lemma ClearE(cl: Client, x: nat)
    requires QueueOk(cl.editor) && x !in RecordIds(cl.editor.waiting)
    ensures QueueOk(ClearQueue(cl, x).editor)
  {
    WithoutFrame(cl.editor.queue, x);
  }

  lemma BoundIsFound(queue: seq<Item>, r: Record)
    requires DistinctIds(queue) && r.client in Ids(queue)
    ensures Find(Bind(queue, r), r.client) == Some(r)
  {
    BindFrame(queue, r);
    var i :| 0 <= i < |queue| && queue[i].record.client == r.client;
    assert Bind(queue, r)[i].record == r;
    FindMeans(Bind(queue, r), r.client, i);
  }

  lemma PostE(cl: Client, d: Device, r: Record, current: Reading, disk: Disk, now: nat, next: nat)
    requires QueueOk(cl.editor) && r.client in Ids(cl.editor.queue) && r.client !in RecordIds(cl.editor.waiting)
    ensures EditorOk(Post(cl, d, r, current, disk, now, next).client.editor)
  {
    if current.version == None || current.isSealed {
      FailE(cl, Some(r.client), Outdated);
    } else {
      AdvanceE(cl, TokensOf(r), Tokens(current), now);
      var c1 := AdvanceAll(cl, TokensOf(r), Tokens(current), now);
      QueueCopyId(c1.editor.queue, r);
      var bound := Rebased(QueueCopy(c1.editor.queue, r), Tokens(current), now);
      BindFrame(c1.editor.queue, bound);
      BoundIsFound(c1.editor.queue, bound);
    }
  }

  lemma StartPrepareE(cl: Client, d: Device, purpose: Purpose, next: nat)
    requires QueueOk(cl.editor) && PurposeIds(purpose) <= Ids(cl.editor.queue) && PurposeIds(purpose) !! RecordIds(cl.editor.waiting)
    ensures EditorOk(StartPrepare(cl, d, purpose, next).client.editor)
  {
    FailE(cl, PurposeId(purpose), ImageQueue.Failed);
  }

  lemma DeleteE(cl: Client, d: Device, target: Image, r: Reading, check: Option<nat>, next: nat)
    requires QueueOk(cl.editor)
    ensures EditorOk(Delete(cl, d, target, r, check, next).client.editor)
  {
    FailE(cl.(panel := ImageConflict(cl.panel, r)), None, Outdated);
    FailE(cl.(panel := ImageUpdate(cl.panel, r)), None, Waiting);
  }

  lemma PreparedE(cl: Client, d: Device, r: Reading, purpose: Purpose, disk: Disk, now: nat, next: nat)
    requires QueueOk(cl.editor) && PurposeIds(purpose) <= Ids(cl.editor.queue) && PurposeIds(purpose) !! RecordIds(cl.editor.waiting)
    ensures EditorOk(Prepared(cl, d, r, purpose, disk, now, next).client.editor)
  {
    if !ReadbackMatches(cl.panel, r) {
      FailE(cl.(panel := ImageConflict(cl.panel, r)), PurposeId(purpose), ImageQueue.Failed);
    } else {
      var c1 := cl.(panel := ImageUpdate(cl.panel, r));
      match purpose
      case Fresh(rec) => PostE(c1, d, rec, r, disk, now, next);
      case Again(rec) => PostE(c1, d, rec, r, disk, now, next);
      case Removal(image, seen) =>
        var before := Baseline(Some(image.version), Some(seen));
        AdvanceE(c1, before, Tokens(r), now);
        var c2 := AdvanceAll(c1, before, Tokens(r), now);
        var d2 := AdvanceStore(c1, d, before, Tokens(r), now, disk);
        var copied := FindClient(r.images, image.client);
        if copied == None {
          FailE(c2.(panel := ImageUpdate(c2.panel, r)), None, Waiting);
        } else {
          DeleteE(c2, d2, copied.value, r, None, next);
        }
    }
  }

  lemma CheckedAgainE(cl: Client, d: Device, r: Reading, rec: Record, disk: Disk, now: nat, next: nat)
    requires QueueOk(cl.editor) && rec.client in Ids(cl.editor.queue) && rec.client !in RecordIds(cl.editor.waiting)
    ensures EditorOk(CheckedAgain(cl, d, r, rec, disk, now, next).client.editor)
  {
    if AttachedIn(r.images, rec) {
      var ack := rec.revision.Some? && r.revision == rec.revision.value + 1;
      AdvanceE(cl, TokensOf(rec), Tokens(r), now);
      var c1 := if ack then AdvanceAll(cl, TokensOf(rec), Tokens(r), now) else cl;
      var c2 := c1.(panel := ImageUpdate(c1.panel, r));
      ClearE(c2, rec.client);
      NextE(ClearQueue(c2, rec.client));
    } else if r.version != rec.version || r.isSealed || (rec.revision.Some? && rec.revision.value != r.revision) {
      FailE(cl.(panel := ImageConflict(cl.panel, r)), Some(rec.client), Outdated);
    } else if r.version == None {
      StartPrepareE(cl, d, Again(rec), next);
    } else {
      PostE(cl, d, rec, r, disk, now, next);
    }
  }

  lemma PostedE(cl: Client, d: Device, reply: Reply, rec: Record, current: Reading, disk: Disk, now: nat)
    requires QueueOk(cl.editor) && rec.client !in RecordIds(cl.editor.waiting)
    ensures EditorOk(Posted(cl, d, reply, rec, current, disk, now).client.editor)
  {
    if !reply.Uploaded? {
      FailE(cl, Some(rec.client), ImageQueue.Failed);
    } else {
      var ack := AckUpload(current, reply.image, reply.revision, rec.client);
      AdvanceE(cl, Tokens(current), Tokens(ack), now);
      var c1 := if reply.revision == current.revision + 1 then AdvanceAll(cl, Tokens(current), Tokens(ack), now) else cl;
      var c2 := c1.(panel := ImageUpdate(c1.panel, ack));
      ClearE(c2, rec.client);
      NextE(ClearQueue(c2, rec.client));
    }
  }

  lemma DeletedE(cl: Client, d: Device, reply: Reply, target: Image, current: Reading, disk: Disk, now: nat)
    requires QueueOk(cl.editor)
    ensures EditorOk(Deleted(cl, d, reply, target, current, disk, now).client.editor)
  {
    if !reply.Removed? {
      FailE(cl, None, Waiting);
    } else {
      var ack := AckRemoval(current, target, reply.revision);
      AdvanceE(cl, Tokens(current), Tokens(ack), now);
      var c1 := if reply.revision == current.revision + 1 then AdvanceAll(cl, Tokens(current), Tokens(ack), now) else cl;
      NextE(c1.(panel := ImageUpdate(c1.panel, ack)));
    }
  }

  lemma CheckedE(cl: Client, d: Device, r: Reading, purpose: Purpose, disk: Disk, now: nat, next: nat)
    requires EditorOk(cl.editor) && cl.editor.job.Checking? && cl.editor.job.purpose == purpose
    ensures purpose.Removal? ==> EditorOk(CheckedRemoval(cl, d, r, purpose.image, purpose.seen, next).client.editor)
    ensures !purpose.Removal? ==> EditorOk(CheckedAgain(cl, d, r, purpose.record, disk, now, next).client.editor)
  {
    if purpose.Removal? {
      if r.isSealed && purpose.seen == 0 && r.version == Some(purpose.image.version) {
        StartPrepareE(cl, d, purpose, next);
      } else {
        DeleteE(cl, d, purpose.image, r, Some(purpose.seen), next);
      }
    } else {
      assert purpose.record.client in JobIds(cl.editor.job);
      CheckedAgainE(cl, d, r, purpose.record, disk, now, next);
    }
  }

  lemma ImageDoneE(cl: Client, d: Device, reply: Reply, disk: Disk, now: nat, next: nat)
    requires EditorOk(cl.editor)
    ensures EditorOk(ImageDone(cl, d, reply, disk, now, next).client.editor)
  {
    match cl.editor.job
    case Preparing(_, purpose) =>
      FailE(cl.(panel := cl.panel.(readOnly := true)), PurposeId(purpose), ImageQueue.Failed);
      FailE(cl, PurposeId(purpose), ImageQueue.Failed);
      if reply.Snapshot? && !reply.reading.closed {
        PreparedE(cl, d, reply.reading, purpose, disk, now, next);
      }
    case Checking(_, purpose) =>
      FailE(cl.(panel := cl.panel.(readOnly := true)), PurposeId(purpose), ImageQueue.Failed);
      FailE(cl, PurposeId(purpose), ImageQueue.Failed);
      if reply.Snapshot? && !reply.reading.closed {
        CheckedE(cl, d, reply.reading, purpose, disk, now, next);
      }
    case Posting(_, rec, current) =>
      assert rec.client in JobIds(cl.editor.job);
      PostedE(cl, d, reply, rec, current, disk, now);
    case Deleting(_, target, current) => DeletedE(cl, d, reply, target, current, disk, now);
    case _ =>
  }

  lemma SaveDoneE(cl: Client, d: Device, reply: Reply, next: nat)
    requires EditorOk(cl.editor) && cl.panel.saving.Some?
    ensures EditorOk(SaveDone(cl, d, reply, next).client.editor)
  {
    if cl.editor.job.SavingFirst? {
      FailE(cl.(panel := SaveReply(cl.panel, reply)), PurposeId(cl.editor.job.purpose), ImageQueue.Failed);
    }
  }

  lemma ArriveE(cl: Client, d: Device, k: nat, reply: Reply, found: Found, disk: Disk, now: nat, next: nat)
    requires EditorOk(cl.editor)
    ensures EditorOk(Arrive(cl, d, k, reply, found, disk, now, next).client.editor)
  {
    if cl.panel.saving.Some? && cl.panel.saving.value.call == k {
      SaveDoneE(cl, d, reply, next);
    } else if cl.panel.submit.Rechecking? && cl.panel.submit.call == k {
    } else if cl.panel.submit.Sealing? && cl.panel.submit.call == k {
    } else if k in cl.loads {
    } else if JobCall(cl.editor.job) == Some(k) {
      ImageDoneE(cl, d, reply, disk, now, next);
    }
  }

  lemma WaitersDistinct(records: seq<Record>)
    requires DistinctRecords(records)
    ensures DistinctIds(Waiters(records)) && Ids(Waiters(records)) == RecordIds(records)
  {
    WaitersIds(records);
  }

  lemma ChooseE(cl: Client, d: Device, digests: seq<nat>, first: nat, failed: set<nat>, now: nat)
    requires EditorOk(cl.editor) && cl.editor.job.Idle? && digests != [] && Below(Ids(cl.editor.queue), first)
    ensures EditorOk(Choose(cl, d, digests, first, failed, now).client.editor)
  {
    var records := NewRecords(cl.panel.pair, digests, first, now);
    var queue := cl.editor.queue + Waiters(records);
    WaitersDistinct(records);
    IdsConcat(cl.editor.queue, Waiters(records));
    forall i, j | 0 <= i < |cl.editor.queue| && 0 <= j < |records|
      ensures cl.editor.queue[i].record.client != records[j].client
    {
      assert cl.editor.queue[i].record.client in Ids(cl.editor.queue);
    }
    NextE(cl.(editor := cl.editor.(queue := queue, waiting := records)));
  }

  lemma RetryE(cl: Client, d: Device, x: nat, next: nat)
    requires EditorOk(cl.editor) && cl.editor.job.Idle?
    ensures EditorOk(Retry(cl, d, x, next).client.editor)
  {
    FindIsQueued(cl.editor.queue, x);
    MarkFrame(cl.editor.queue, x, Uploading);
  }

  lemma FinishE(cl: Client, d: Device, disk: Disk)
    requires EditorOk(cl.editor) && cl.editor.recovering.Some?
    ensures EditorOk(FinishRecovery(cl, d, disk).client.editor)
  {
    var found := cl.editor.recovering.value;
    var queue := Merge(found.selected, found.attached, cl.editor.queue);
    MergeDistinct(found.selected, found.attached, cl.editor.queue);
    MergeFrame(found.selected, found.attached, cl.editor.queue);
    if cl.editor.job.Posting? {
      FindInTail(queue, cl.editor.queue, cl.editor.job.record.client);
    }
  }

  lemma FindInTail(queue: seq<Item>, tail: seq<Item>, x: nat)
    requires DistinctIds(queue) && DistinctIds(tail) && |tail| <= |queue| && queue[|queue| - |tail|..] == tail && x in Ids(tail)
    ensures Find(queue, x) == Find(tail, x)
  {
    var i :| 0 <= i < |tail| && tail[i].record.client == x;
    FindMeans(tail, x, i);
    var k := |queue| - |tail| + i;
    assert queue[k] == queue[|queue| - |tail|..][i];
    FindMeans(queue, x, k);
  }

  lemma DiscardE(cl: Client, d: Device, x: nat, disk: Disk)
    requires EditorOk(cl.editor) && cl.editor.job.Idle?
    ensures EditorOk(Discard(cl, d, x, disk).client.editor)
  {
    ClearE(cl, x);
  }

  /** The events that leave queue, job and batch as they are, or end them. */
  lemma QuietE(s: System, cl: Client, d: Device, e: Event)
    requires EditorOk(cl.editor) && Allowed(cl, d, e)
    requires !e.Proceed? && !e.ChooseFiles? && !e.RetryImage? && !e.DiscardPending? && !e.EndRecovery? && !e.Deliver? && !e.Lose? && !e.Unmounts?
    ensures EditorOk(Act(s, cl, d, e).client.editor)
  {
  }

  lemma AnswerE(s: System, cl: Client, d: Device, e: Event)
    requires EditorOk(cl.editor) && (e.Deliver? || e.Lose?)
    ensures EditorOk(Act(s, cl, d, e).client.editor)
  {
    if e.Lose? {
      ArriveE(cl, d, e.call, Refused, Found(true, true), Disk(true, true, true), e.now, |s.calls|);
    } else if e.answer < |s.answers| && s.answers[e.answer].call < |s.calls| {
      DeliverAct(s, cl, d, e);
      var a := s.answers[e.answer];
      ArriveE(cl, d, a.call, ReplyTo(s, a), e.found, e.disk, e.now, |s.calls|);
    } else {
      DeliverNothing(s, cl, d, e);
    }
  }

  lemma UnmountE(s: System, cl: Client, d: Device, e: Event)
    requires e.Unmounts?
    ensures EditorOk(Act(s, cl, d, e).client.editor)
  {
    var ed := Act(s, cl, d, e).client.editor;
    assert ed.queue == [] && ed.waiting == [] && ed.job == Idle && ed.recovering == None;
  }

  lemma ActE(s: System, cl: Client, d: Device, e: Event)
    requires EditorOk(cl.editor) && Allowed(cl, d, e) && Below(Ids(cl.editor.queue), s.nextImage)
    ensures EditorOk(Act(s, cl, d, e).client.editor)
  {
    if e.Deliver? || e.Lose? {
      AnswerE(s, cl, d, e);
    } else if e.Unmounts? {
      UnmountE(s, cl, d, e);
    } else {
      match e
      case Proceed(_) => StartPrepareE(cl, d, cl.editor.job.purpose, |s.calls|);
      case ChooseFiles(_, digests, failed, now) => ChooseE(cl, d, digests, s.nextImage, failed, now);
      case RetryImage(_, x) => RetryE(cl, d, x, |s.calls|);
      case DiscardPending(_, x, disk) => DiscardE(cl, d, x, disk);
      case EndRecovery(_, disk) => FinishE(cl, d, disk);
      case _ => QuietE(s, cl, d, e);
    }
  }

  // ---------------------------------------------------------------- the whole system

  lemma StoreBelow(cl: Client, d: Device, n: nat)
    requires Below(PageIds(cl, d), n)
    ensures Below(StoreIds(d.store), n) && Below(Ids(cl.editor.queue), n)
  {
  }

  /** What the acting page and its device look like afterwards. */
  lemma ActorBelow(s: System, page: nat, e: Event)
    requires SystemOk(s) && QueueInv(s) && page in s.clients && EventPage(s, e) == Some(page) && !e.Open?
    requires Allowed(s.clients[page], s.devices[s.clients[page].device], e)
    ensures var cl := s.clients[page];
      var d := s.devices[cl.device];
      var eff := Act(s, cl, d, e);
      Below(PageIds(eff.client, eff.device), Next(s, e).nextImage) && s.nextImage <= Next(s, e).nextImage
  {
    var cl := s.clients[page];
    var d := s.devices[cl.device];
    PageNext(s, e, page);
    assert PageBelow(s, page) && StoreOk(d.store);
    ActFrame(s, cl, d, e);
    NewIdsBelow(s, cl, e);
  }

  lemma NewIdsBelow(s: System, cl: Client, e: Event)
    ensures Below(NewIds(s, cl, e), s.nextImage + (if e.ChooseFiles? then |e.digests| else 0))
  {
    if e.ChooseFiles? {
      var records := NewRecords(cl.panel.pair, e.digests, s.nextImage, e.now);
      assert forall i :: 0 <= i < |records| ==> records[i].client == s.nextImage + i;
    }
  }

  /** Another page on the same device sees the changed store, and nothing new besides. */
  lemma OtherBelow(s: System, t: System, page: nat, other: nat, cl: Client, d: Device, n: nat)
    requires QueueInv(s) && other in s.clients && other != page
    requires s.nextImage <= n && Below(StoreIds(d.store), n)
    requires cl == s.clients[other]
    ensures Below(PageIds(cl, d), n)
  {
    assert PageBelow(s, other);
    assert PageIds(cl, d) <= PageIds(cl, s.devices[cl.device]) + StoreIds(d.store);
  }

  lemma AppliedKeepsQueues(s: System, t: System, page: nat, eff: Effect)
    requires QueueInv(s) && page in s.clients && eff.client.device == s.clients[page].device && s.nextImage <= t.nextImage
    requires t.clients == s.clients[page := eff.client] && t.devices == s.devices[eff.client.device := eff.device]
    requires EditorOk(eff.client.editor) && Below(PageIds(eff.client, eff.device), t.nextImage)
    ensures QueueInv(t)
  {
    StoreBelow(eff.client, eff.device, t.nextImage);
    forall c | c in t.clients ensures EditorOk(t.clients[c].editor) && PageBelow(t, c) {
      if c != page {
        assert PageBelow(s, c);
        if s.clients[c].device == eff.client.device {
          OtherBelow(s, t, page, c, s.clients[c], eff.device, t.nextImage);
        }
      }
    }
  }

  lemma PageKeepsQueues(s: System, e: Event, page: nat)
    requires SystemOk(s) && QueueInv(s) && page in s.clients && EventPage(s, e) == Some(page) && !e.Open?
    ensures QueueInv(Next(s, e))
  {
    var cl := s.clients[page];
    var d := s.devices[cl.device];
    PageNext(s, e, page);
    if Allowed(cl, d, e) {
      assert PageBelow(s, page);
      StoreBelow(cl, d, s.nextImage);
      ActE(s, cl, d, e);
      ActorBelow(s, page, e);
      AppliedKeepsQueues(s, Next(s, e), page, Act(s, cl, d, e));
    }
  }

  lemma OpenedQueues(s: System, t: System, page: nat, device: nat)
    requires QueueInv(s) && t.nextImage == s.nextImage && t.clients == s.clients[page := Page(device)]
    requires t.devices == if device in s.devices then s.devices else s.devices[device := NEW_DEVICE]
    ensures QueueInv(t)
  {
    NewPageBelow(device, t.devices[device], t.nextImage);
    forall c | c in t.clients ensures EditorOk(t.clients[c].editor) && PageBelow(t, c) {
      if c != page {
        assert PageBelow(s, c);
      }
    }
  }

  lemma NewPageBelow(device: nat, d: Device, n: nat)
    requires Below(StoreIds(d.store), n)
    ensures EditorOk(Page(device).editor) && Below(PageIds(Page(device), d), n)
  {
    assert PageIds(Page(device), d) == StoreIds(d.store);
  }

  /** Events of the server, and events of nobody, move no queue. */
  lemma QueuesUntouched(s: System, e: Event)
    requires !e.Open? && (EventPage(s, e) == None || EventPage(s, e).value !in s.clients)
    ensures var t := Next(s, e); t.clients == s.clients && t.devices == s.devices && t.nextImage == s.nextImage
  {
  }

  lemma NextQueueInv(s: System, e: Event)
    requires SystemOk(s) && QueueInv(s)
    ensures QueueInv(Next(s, e))
  {
    if e.Open? {
      OpenedQueues(s, Next(s, e), e.page, if e.page in s.clients then s.clients[e.page].device else e.device);
    } else if EventPage(s, e).Some? && EventPage(s, e).value in s.clients {
      PageKeepsQueues(s, e, EventPage(s, e).value);
    } else {
      QueuesUntouched(s, e);
      SameQueues(s, Next(s, e));
    }
  }

  lemma SameQueues(s: System, t: System)
    requires QueueInv(s) && t.clients == s.clients && t.devices == s.devices && t.nextImage == s.nextImage
    ensures QueueInv(t)
  {
    forall c | c in t.clients ensures PageBelow(t, c) {
      assert PageBelow(s, c);
    }
  }

  lemma {:induction false} ExecQueueInv(s: System, events: seq<Event>)
    requires SystemOk(s) && QueueInv(s)
    ensures QueueInv(Exec(s, events))
  {
    if events != [] {
      ExecQueueInv(s, events[..|events| - 1]);
      ExecOk(s, events[..|events| - 1]);
      NextQueueInv(Exec(s, events[..|events| - 1]), events[|events| - 1]);
    }
  }

  /**
   * In every run of any number of pages, tabs sharing a browser included: a page never queues an
   * id twice, and while it uploads, the record in its queue carries exactly the version and
   * revision that its request sends, for the image the request names.
   */
  lemma UploadCarriesQueuedTokens(replays: bool, events: seq<Event>, page: nat)
    requires page in Exec(Init(replays), events).clients
    ensures var s := Exec(Init(replays), events);
      var ed := s.clients[page].editor;
      && DistinctIds(ed.queue)
      && (ed.job.Posting? ==>
            var found := Find(ed.queue, ed.job.record.client);
            && found.Some? && found.value.version.Some? && found.value.revision.Some?
            && Asks(s.calls, ed.job.call,
                    Upload(found.value.version.value, found.value.revision.value, found.value.client, found.value.digest)))
  {
    InitOk(replays);
    ExecOk(Init(replays), events);
    ExecQueueInv(Init(replays), events);
    PostsQueuedTokens(Exec(Init(replays), events), page);
  }

  lemma PostsQueuedTokens(s: System, page: nat)
    requires SystemOk(s) && page in s.clients && EditorOk(s.clients[page].editor)
    ensures var ed := s.clients[page].editor;
      && DistinctIds(ed.queue)
      && (ed.job.Posting? ==>
            var found := Find(ed.queue, ed.job.record.client);
            && found.Some? && found.value.version.Some? && found.value.revision.Some?
            && Asks(s.calls, ed.job.call,
                    Upload(found.value.version.value, found.value.revision.value, found.value.client, found.value.digest)))
  {
    assert ClientShape(s.server, s.calls, s.clients[page]);
  }
}

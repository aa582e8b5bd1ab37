/**
 * At most once. With the deployed store, which replays uploads, no run of any pages attaches a
 * client id twice. Without that branch, the revision check and the read before a retry are enough
 * by themselves, as long as no two tabs share one recovery store; `SubmissionPosting` has the exact
 * condition for those that do.
 */
module SubmissionUploads {
  import opened Prelude
  import opened SubmissionServer
  import opened SubmissionHistory
  import opened PracticePanel
  import opened ImageQueue
  import opened PracticeClient
  import opened SubmissionProtocol
  import opened SubmissionStructure
  import opened SubmissionImages

  lemma DecideAttachedOnce(s: Server, accept: bool)
    requires AttachedOnce(s)
    ensures AttachedOnce(Decide(s, accept)) && AttachedOnce(CloseRecords(s))
  {
  }

  /** The deployed store: every run, any pages, any devices, any network. */
  lemma {:induction false} AttachedOnceByReplay(s: System, events: seq<Event>)
    requires SystemOk(s) && AttachedOnce(s.server) && s.server.replaysUploads
    ensures AttachedOnce(Exec(s, events).server) && Exec(s, events).server.replaysUploads
  {
    if events != [] {
      var before := Exec(s, events[..|events| - 1]);
      AttachedOnceByReplay(s, events[..|events| - 1]);
      ExecOk(s, events[..|events| - 1]);
      NextAttachedOnce(before, events[|events| - 1]);
    }
  }

  lemma NextAttachedOnce(s: System, e: Event)
    requires SystemOk(s) && AttachedOnce(s.server)
    requires e.ServeCall? && e.call < |s.calls| && s.calls[e.call].request.Upload? ==>
      var q := s.calls[e.call].request; s.server.replaysUploads || FreshAtPair(s.server, q.version, q.revision, q.client)
    ensures AttachedOnce(Next(s, e).server) && Next(s, e).server.replaysUploads == s.server.replaysUploads
  {
    if e.ServeCall? {
      ServingAttachedOnce(s, e);
    } else if e.TeacherDecides? || e.RecordsClose? {
      DecideAttachedOnce(s.server, e == TeacherDecides(true));
    } else {
      ServerUntouched(s, e);
    }
  }

  lemma ServingAttachedOnce(s: System, e: Event)
    requires ServerOk(s.server) && AttachedOnce(s.server) && e.ServeCall?
    requires e.call < |s.calls| && s.calls[e.call].request.Upload? ==>
      var q := s.calls[e.call].request; s.server.replaysUploads || FreshAtPair(s.server, q.version, q.revision, q.client)
    ensures AttachedOnce(Next(s, e).server) && Next(s, e).server.replaysUploads == s.server.replaysUploads
  {
    if e.call < |s.calls| {
      ServeKeepsAttachedOnce(s.server, s.calls[e.call].request);
      ServeKeeps(s.server, s.calls[e.call].request);
    }
  }

  lemma ServerUntouched(s: System, e: Event)
    requires SystemOk(s) && !e.ServeCall? && !e.TeacherDecides? && !e.RecordsClose?
    ensures Next(s, e).server == s.server
  {
    if e.Open? {
      OpenNext(s, e);
    } else if EventPage(s, e).Some? {
      PageStepOk(s, EventPage(s, e).value, e);
    }
  }

  // ---------------------------------------------------------------- without the replay branch

  ghost predicate Posted(calls: seq<Call>, x: nat) {
    exists k :: 0 <= k < |calls| && calls[k].request.Upload? && calls[k].request.client == x
  }

  ghost predicate OnlyPosted(s: System) {
    forall x: nat :: EverAttached(s.server, x) ==> Posted(s.calls, x)
  }

  ghost predicate PostedBound(s: System) {
    forall x: nat :: Posted(s.calls, x) ==> x < s.nextImage
  }

  /** Ids the running batch has still to post for the first time. */
  function Untried(cl: Client): set<nat> {
    RecordIds(cl.editor.waiting) +
    (match cl.editor.job
     case Starting(p) => PurposeIds(p)
     case SavingFirst(p) => PurposeIds(p)
     case Preparing(_, p) => PurposeIds(p)
     case _ => {})
  }

  /** The id being worked on is not also waiting, and no id waits twice. */
  ghost predicate BatchOk(cl: Client) {
    && (forall i, j :: 0 <= i < j < |cl.editor.waiting| ==> cl.editor.waiting[i].client != cl.editor.waiting[j].client)
    && JobIds(cl.editor.job) !! RecordIds(cl.editor.waiting)
    && (cl.editor.job.Idle? ==> cl.editor.waiting == [])
  }

  /** A retry's first read that found no version at all shows that its image was never posted. */
  ghost predicate CheckOk(s: System, cl: Client) {
    match cl.editor.job
    case Checking(k, Again(rec)) =>
      forall i :: 0 <= i < |s.answers| && s.answers[i].call == k && ReadCurrent(s.answers[i].at).version == None ==>
        !Posted(s.calls, rec.client)
    case Checking(_, Fresh(_)) => false
    case _ => true
  }

  ghost predicate PageFresh(s: System, cl: Client) {
    && BatchOk(cl) && CheckOk(s, cl)
    && (forall x :: x in Untried(cl) ==> !Posted(s.calls, x))
  }

  /** Every upload ever sent names a snapshot that does not hold its id. */
  ghost predicate CallFresh(s: System, q: Request) {
    q.Upload? ==> AbsentAt(s.server, q.version, q.revision, q.client) && q.client < s.nextImage
  }

  ghost predicate CallsFresh(s: System) {
    forall k :: 0 <= k < |s.calls| ==> CallFresh(s, s.calls[k].request)
  }

  ghost predicate PagesFresh(s: System) {
    forall c :: c in s.clients ==> PageFresh(s, s.clients[c])
  }

  /** Pages have their own devices, and every id belongs to one page. */
  ghost predicate OwnIds(s: System) {
    && (forall c :: c in s.clients ==> s.clients[c].device == c && c in s.devices)
    && (forall d :: d in s.devices ==> d in s.clients)
    && (forall c, x :: x in IdsOf(s, c) ==> x < s.nextImage)
    && (forall c, d :: c != d ==> IdsOf(s, c) !! IdsOf(s, d))
  }

  function IdsOf(s: System, page: nat): set<nat> {
    if page in s.clients && page in s.devices then PageIds(s.clients[page], s.devices[page]) else {}
  }

  ghost predicate UploadInv(s: System) {
    SystemOk(s) && AttachedOnce(s.server) && CallsFresh(s) && OnlyPosted(s) && PagesFresh(s) && OwnIds(s)
  }

  /** What a page step may do about posting: an id posted is the page's own, fresh at its pair, and done. */
  ghost predicate PostOk(s: System, cl: Client, d: Device, e: Effect) {
    && BatchOk(e.client)
    && (forall x :: x in Untried(e.client) ==> !Posted(s.calls, x))
    && !e.client.editor.job.Checking?
    && (e.send.Some? && e.send.value.Upload? ==>
          var q := e.send.value;
          && q.client in PageIds(cl, d) && q.client !in Untried(e.client)
          && AbsentAt(s.server, q.version, q.revision, q.client))
  }

  lemma FailPost(s: System, cl: Client, d: Device, x: Option<nat>, note: Note)
    ensures PostOk(s, cl, d, Stay(FailImage(cl, x, note), d))
  {
  }

  lemma BatchPost(cl: Client)
    requires forall i, j :: 0 <= i < j < |cl.editor.waiting| ==> cl.editor.waiting[i].client != cl.editor.waiting[j].client
    ensures BatchOk(NextInBatch(cl)) && Untried(NextInBatch(cl)) == RecordIds(cl.editor.waiting)
    ensures !NextInBatch(cl).editor.job.Checking?
  {
    if cl.editor.waiting != [] {
      QueueCopyId(cl.editor.queue, cl.editor.waiting[0]);
      TailIds(cl.editor.waiting);
    }
  }

  lemma NotAttachedIsAbsent(s: Server, r: Reading, x: nat)
    requires ReadingTrue(s, r) && r.version.Some? && !HasClient(r.images, x)
    ensures AbsentAt(s, r.version.value, r.revision, x)
  {
  }

  /** An upload is sent only for an id that the reading it is based on does not show. */
  lemma PostPost(s: System, cl: Client, d: Device, r: Record, current: Reading, disk: Disk, now: nat, next: nat)
    requires ReadingTrue(s.server, current) && !HasClient(current.images, r.client)
    requires forall x :: x in RecordIds(cl.editor.waiting) ==> !Posted(s.calls, x)
    requires r.client in PageIds(cl, d) && r.client !in RecordIds(cl.editor.waiting)
    requires forall i, j :: 0 <= i < j < |cl.editor.waiting| ==> cl.editor.waiting[i].client != cl.editor.waiting[j].client
    ensures PostOk(s, cl, d, Post(cl, d, r, current, disk, now, next))
  {
    if current.version != None && !current.isSealed {
      QueueCopyId(AdvanceAll(cl, TokensOf(r), Tokens(current), now).editor.queue, r);
      NotAttachedIsAbsent(s.server, current, r.client);
    }
  }

  lemma UnpostedIsAbsent(s: System, r: Reading, x: nat)
    requires ReadingTrue(s.server, r) && !Posted(s.calls, x)
    requires OnlyPosted(s)
    ensures !HasClient(r.images, x)
  {
  }

  lemma PreparedPost(s: System, cl: Client, d: Device, r: Reading, purpose: Purpose, disk: Disk, now: nat, next: nat)
    requires ReadingTrue(s.server, r) && BatchOk(cl) && cl.editor.job.Preparing? && cl.editor.job.purpose == purpose
    requires PageFresh(s, cl) && OnlyPosted(s)
    ensures PostOk(s, cl, d, Prepared(cl, d, r, purpose, disk, now, next))
  {
    if ReadbackMatches(cl.panel, r) && !purpose.Removal? {
      var c1 := cl.(panel := ImageUpdate(cl.panel, r));
      assert purpose.record.client in Untried(cl);
      UnpostedIsAbsent(s, r, purpose.record.client);
      PostPost(s, c1, d, purpose.record, r, disk, now, next);
    }
  }

  lemma StartPreparePost(s: System, cl: Client, d: Device, purpose: Purpose, next: nat)
    requires PageFresh(s, cl) && PurposeIds(purpose) <= JobIds(cl.editor.job)
    requires forall x :: x in PurposeIds(purpose) ==> !Posted(s.calls, x)
    ensures PostOk(s, cl, d, StartPrepare(cl, d, purpose, next))
  {
  }

  lemma DeletePost(s: System, cl: Client, d: Device, target: Image, r: Reading, check: Option<nat>, next: nat)
    requires PageFresh(s, cl) && JobIds(cl.editor.job) == {}
    ensures PostOk(s, cl, d, Delete(cl, d, target, r, check, next))
  {
  }

  lemma AgainAttachedPost(s: System, cl: Client, d: Device, r: Reading, rec: Record, disk: Disk, now: nat, next: nat)
    requires PageFresh(s, cl) && AttachedIn(r.images, rec)
    ensures PostOk(s, cl, d, CheckedAgain(cl, d, r, rec, disk, now, next))
  {
    var ack := rec.revision.Some? && r.revision == rec.revision.value + 1;
    var c1 := if ack then AdvanceAll(cl, TokensOf(rec), Tokens(r), now) else cl;
    BatchPost(ClearQueue(c1.(panel := ImageUpdate(c1.panel, r)), rec.client));
    var e := CheckedAgain(cl, d, r, rec, disk, now, next);
    assert e.client.editor == NextInBatch(ClearQueue(c1.(panel := ImageUpdate(c1.panel, r)), rec.client)).editor;
    assert e.send.Some? ==> e.send.value == Read;
  }

  lemma CheckedAgainPost(s: System, cl: Client, d: Device, r: Reading, rec: Record, disk: Disk, now: nat, next: nat)
    requires ReadingTrue(s.server, r) && PageFresh(s, cl)
    requires cl.editor.job.Checking? && cl.editor.job.purpose == Again(rec)
    requires r.version == None ==> !Posted(s.calls, rec.client)
    ensures PostOk(s, cl, d, CheckedAgain(cl, d, r, rec, disk, now, next))
  {
    if AttachedIn(r.images, rec) {
      AgainAttachedPost(s, cl, d, r, rec, disk, now, next);
    } else if r.version != rec.version || r.isSealed || (rec.revision.Some? && rec.revision.value != r.revision) {
      FailPost(s, cl.(panel := ImageConflict(cl.panel, r)), d, Some(rec.client), Outdated);
    } else if r.version == None {
      StartPreparePost(s, cl, d, Again(rec), next);
    } else {
      assert rec.client in JobIds(cl.editor.job);
      PostPost(s, cl, d, rec, r, disk, now, next);
    }
  }

  lemma CheckingPost(s: System, cl: Client, d: Device, reply: Reply, disk: Disk, now: nat, next: nat)
    requires PageFresh(s, cl) && ReplyShape(s.server, reply) && cl.editor.job.Checking?
    requires cl.editor.job.purpose.Again? && reply.Snapshot? && reply.reading.version == None ==> FirstTry(s, cl)
    ensures PostOk(s, cl, d, ImageDone(cl, d, reply, disk, now, next))
  {
    var purpose := cl.editor.job.purpose;
    if reply.Snapshot? && !reply.reading.closed {
      if purpose.Removal? {
        if reply.reading.isSealed && purpose.seen == 0 && reply.reading.version == Some(purpose.image.version) {
          StartPreparePost(s, cl, d, purpose, next);
        } else {
          DeletePost(s, cl, d, purpose.image, reply.reading, Some(purpose.seen), next);
        }
      } else {
        CheckedAgainPost(s, cl, d, reply.reading, purpose.record, disk, now, next);
      }
    }
  }

  ghost predicate FirstTry(s: System, cl: Client)
    requires cl.editor.job.Checking? && cl.editor.job.purpose.Again?
  {
    !Posted(s.calls, cl.editor.job.purpose.record.client)
  }

  lemma PostingPost(s: System, cl: Client, d: Device, reply: Reply, disk: Disk, now: nat, next: nat)
    requires PageFresh(s, cl) && (cl.editor.job.Posting? || cl.editor.job.Deleting?)
    ensures PostOk(s, cl, d, ImageDone(cl, d, reply, disk, now, next))
  {
    match cl.editor.job
    case Posting(_, rec, current) =>
      if reply.Uploaded? {
        var ack := AckUpload(current, reply.image, reply.revision, rec.client);
        var c1 := if reply.revision == current.revision + 1 then AdvanceAll(cl, Tokens(current), Tokens(ack), now) else cl;
        BatchPost(ClearQueue(c1.(panel := ImageUpdate(c1.panel, ack)), rec.client));
      }
    case Deleting(_, target, current) =>
      if reply.Removed? {
        var ack := AckRemoval(current, target, reply.revision);
        var c1 := if reply.revision == current.revision + 1 then AdvanceAll(cl, Tokens(current), Tokens(ack), now) else cl;
        BatchPost(c1.(panel := ImageUpdate(c1.panel, ack)));
      }
  }

  /** Whatever image answer arrives, the page posts only what its own reading does not show. */
  lemma ImageDonePost(s: System, cl: Client, d: Device, reply: Reply, disk: Disk, now: nat, next: nat)
    requires PageFresh(s, cl) && ReplyShape(s.server, reply) && OnlyPosted(s) && JobCall(cl.editor.job).Some?
    requires cl.editor.job.Checking? && cl.editor.job.purpose.Again? && reply.Snapshot? && reply.reading.version == None ==> FirstTry(s, cl)
    ensures PostOk(s, cl, d, ImageDone(cl, d, reply, disk, now, next))
  {
    if cl.editor.job.Checking? {
      CheckingPost(s, cl, d, reply, disk, now, next);
    } else if cl.editor.job.Preparing? {
      if reply.Snapshot? && !reply.reading.closed {
        PreparedPost(s, cl, d, reply.reading, cl.editor.job.purpose, disk, now, next);
      }
    } else {
      PostingPost(s, cl, d, reply, disk, now, next);
    }
  }

  /** A step either keeps the running image job and batch, or starts a check, or obeys `PostOk`. */
  ghost predicate StepOk(s: System, cl: Client, d: Device, e: Effect) {
    || PostOk(s, cl, d, e)
    || (e.client.editor.job == cl.editor.job && e.client.editor.waiting == cl.editor.waiting && (e.send.Some? ==> !e.send.value.Upload?))
    || (e.client.editor.job.Checking? && e.client.editor.job.call == |s.calls| && !e.client.editor.job.purpose.Fresh?
        && e.client.editor.waiting == [] && e.send == Some(Read))
  }

  lemma SaveDonePost(s: System, cl: Client, d: Device, reply: Reply, next: nat)
    requires PageFresh(s, cl) && cl.panel.saving.Some?
    ensures StepOk(s, cl, d, SaveDone(cl, d, reply, next))
  {
    if cl.editor.job.SavingFirst? {
      assert PostOk(s, cl, d, SaveDone(cl, d, reply, next));
    }
  }

  predicate FoundNoVersion(reply: Reply) {
    reply.Snapshot? && reply.reading.version == None
  }

  lemma ArrivePost(s: System, cl: Client, d: Device, k: nat, reply: Reply, found: Found, disk: Disk, now: nat, next: nat)
    requires PageFresh(s, cl) && ReplyShape(s.server, reply) && OnlyPosted(s)
    requires JobCall(cl.editor.job) == Some(k) && cl.editor.job.Checking? && cl.editor.job.purpose.Again? && FoundNoVersion(reply) ==>
      FirstTry(s, cl)
    ensures StepOk(s, cl, d, Arrive(cl, d, k, reply, found, disk, now, next))
  {
    if cl.panel.saving.Some? && cl.panel.saving.value.call == k {
      SaveDonePost(s, cl, d, reply, next);
    } else if cl.panel.submit.Rechecking? && cl.panel.submit.call == k {
      RecheckPost(s, cl, d, reply, found, next);
    } else if cl.panel.submit.Sealing? && cl.panel.submit.call == k {
      SealDonePost(s, cl, d, reply, next);
    } else if k in cl.loads {
      LoadDonePost(s, cl, d, k, reply, found);
    } else if JobCall(cl.editor.job) == Some(k) {
      ImageDonePost(s, cl, d, reply, disk, now, next);
    }
  }

  lemma RecheckPost(s: System, cl: Client, d: Device, reply: Reply, found: Found, next: nat)
    requires cl.panel.submit.Rechecking?
    ensures StepOk(s, cl, d, RecheckDone(cl, d, reply, found, cl.panel.submit.intent, next))
  {
  }

  lemma SealDonePost(s: System, cl: Client, d: Device, reply: Reply, next: nat)
    requires cl.panel.submit.Sealing?
    ensures StepOk(s, cl, d, SealDone(cl, d, reply, next))
  {
  }

  lemma LoadDonePost(s: System, cl: Client, d: Device, k: nat, reply: Reply, found: Found)
    requires k in cl.loads
    ensures StepOk(s, cl, d, LoadDone(cl, d, k, reply, found))
  {
  }

  /** A retry's read without any version is one of its recorded answers, so `CheckOk` applies. */
  lemma FirstTryByCheck(s: System, cl: Client, a: Answer)
    requires AnswerShape(s, a) && a in s.answers && CheckOk(s, cl) && ClientShape(s.server, s.calls, cl)
    requires JobCall(cl.editor.job) == Some(a.call) && cl.editor.job.Checking? && cl.editor.job.purpose.Again?
    requires ReplyTo(s, a).Snapshot? && ReplyTo(s, a).reading.version == None
    ensures FirstTry(s, cl)
  {
    assert Asks(s.calls, a.call, Read);
  }

  lemma LosePost(s: System, cl: Client, d: Device, e: Event)
    requires PageFresh(s, cl) && OnlyPosted(s) && e.Lose?
    ensures StepOk(s, cl, d, Act(s, cl, d, e))
  {
    ArrivePost(s, cl, d, e.call, Refused, Found(true, true), Disk(true, true, true), e.now, |s.calls|);
  }

  lemma UnmountPost(s: System, cl: Client, d: Device, e: Event)
    requires e.Unmounts?
    ensures PostOk(s, cl, d, Act(s, cl, d, e))
  {
    FailureDevice(cl, d, e.call, e.now, |s.calls|);
    var ed := Act(s, cl, d, e).client.editor;
    assert ed.job == Idle && ed.waiting == [];
  }

  lemma DeliverPost(s: System, cl: Client, d: Device, e: Event)
    requires SystemOk(s) && PageFresh(s, cl) && ClientShape(s.server, s.calls, cl) && OnlyPosted(s) && e.Deliver?
    ensures StepOk(s, cl, d, Act(s, cl, d, e))
  {
    if e.answer < |s.answers| && s.answers[e.answer].call < |s.calls| {
      DeliverAct(s, cl, d, e);
      assert AnswerShape(s, s.answers[e.answer]);
      AnswerPost(s, cl, d, s.answers[e.answer], e);
    } else {
      DeliverNothing(s, cl, d, e);
    }
  }

  lemma AnswerPost(s: System, cl: Client, d: Device, a: Answer, e: Event)
    requires SystemOk(s) && PageFresh(s, cl) && ClientShape(s.server, s.calls, cl) && OnlyPosted(s)
    requires e.Deliver? && e.answer < |s.answers| && s.answers[e.answer] == a && AnswerShape(s, a)
    ensures StepOk(s, cl, d, Arrive(cl, d, a.call, ReplyTo(s, a), e.found, e.disk, e.now, |s.calls|))
  {
    ReplyIsTrue(s, a);
    var reply := ReplyTo(s, a);
    if JobCall(cl.editor.job) == Some(a.call) && cl.editor.job.Checking? && cl.editor.job.purpose.Again? &&
      reply.Snapshot? && reply.reading.version == None
    {
      FirstTryByCheck(s, cl, a);
    }
    ArrivePost(s, cl, d, a.call, reply, e.found, e.disk, e.now, |s.calls|);
  }

  lemma FreshRecords(pair: Pair, digests: seq<nat>, first: nat, now: nat)
    ensures var r := NewRecords(pair, digests, first, now);
      && (forall i, j :: 0 <= i < j < |r| ==> r[i].client != r[j].client)
      && (forall x :: x in RecordIds(r) <==> first <= x < first + |digests|)
  {
    var r := NewRecords(pair, digests, first, now);
    forall x | first <= x < first + |digests| ensures x in RecordIds(r) {
      assert r[x - first].client == x;
    }
  }

  lemma ChoosePost(s: System, cl: Client, d: Device, digests: seq<nat>, failed: set<nat>, now: nat)
    requires digests != [] && PostedBound(s)
    ensures PostOk(s, cl, d, Choose(cl, d, digests, s.nextImage, failed, now))
  {
    var records := NewRecords(cl.panel.pair, digests, s.nextImage, now);
    FreshRecords(cl.panel.pair, digests, s.nextImage, now);
    BatchPost(cl.(editor := cl.editor.(queue := cl.editor.queue + Waiters(records), waiting := records)));
  }

  lemma ClickPost(s: System, cl: Client, d: Device, e: Event)
    requires PageFresh(s, cl) && Allowed(cl, d, e) && !e.ChooseFiles? && !e.Proceed? && !e.Deliver? && !e.Lose? && !e.Unmounts?
    ensures StepOk(s, cl, d, Act(s, cl, d, e))
  {
  }

  lemma ActPost(s: System, cl: Client, d: Device, e: Event)
    requires SystemOk(s) && PageFresh(s, cl) && ClientShape(s.server, s.calls, cl) && Allowed(cl, d, e)
    requires OnlyPosted(s) && PostedBound(s)
    ensures StepOk(s, cl, d, Act(s, cl, d, e))
  {
    if e.ChooseFiles? {
      ChoosePost(s, cl, d, e.digests, e.failed, e.now);
    } else if e.Proceed? {
      StartPreparePost(s, cl, d, cl.editor.job.purpose, |s.calls|);
    } else if e.Deliver? {
      DeliverPost(s, cl, d, e);
    } else if e.Lose? {
      LosePost(s, cl, d, e);
    } else if e.Unmounts? {
      UnmountPost(s, cl, d, e);
    } else {
      ClickPost(s, cl, d, e);
    }
  }

  // ---------------------------------------------------------------- the whole system

  lemma PostedGrows(calls: seq<Call>, more: seq<Call>, x: nat)
    requires calls <= more && Posted(calls, x)
    ensures Posted(more, x)
  {
    var k :| 0 <= k < |calls| && calls[k].request.Upload? && calls[k].request.client == x;
    assert more[k] == calls[k];
  }

  lemma PostedOneMore(calls: seq<Call>, c: Call, x: nat)
    requires Posted(calls + [c], x)
    ensures Posted(calls, x) || (c.request.Upload? && c.request.client == x)
  {
    var k :| 0 <= k < |calls + [c]| && (calls + [c])[k].request.Upload? && (calls + [c])[k].request.client == x;
    if k < |calls| {
      assert calls[k].request.Upload? && calls[k].request.client == x;
    }
  }

  lemma PostedIsBound(s: System)
    requires UploadInv(s)
    ensures PostedBound(s)
  {
  }

  lemma EffectFresh(s: System, t: System, page: nat, eff: Effect, cl: Client, d: Device)
    requires SystemOk(s) && PageFresh(s, cl) && StepOk(s, cl, d, eff)
    requires t.calls == SentCalls(s, page, eff) && t.answers == s.answers
    ensures PageFresh(t, eff.client)
  {
    forall x: nat | Posted(t.calls, x) && !Posted(s.calls, x)
      ensures eff.send.Some? && eff.send.value.Upload? && eff.send.value.client == x
    {
      if eff.send.Some? {
        PostedOneMore(s.calls, t.calls[|s.calls|], x);
      }
    }
    ActorCheckOk(s, t, eff, cl, d);
    assert Untried(eff.client) <= Untried(cl) || PostOk(s, cl, d, eff);
  }

  /** What a step of one page posts, and what it leaves to the others. */
  lemma PostStep(s: System, t: System, page: nat, e: Event) returns (eff: Effect)
    requires UploadInv(s) && page in s.clients && EventPage(s, e) == Some(page) && !e.Open? && t == Next(s, e)
    ensures var cl := s.clients[page]; var d := s.devices[cl.device];
      && t.server == s.server && t.answers == s.answers && s.nextImage <= t.nextImage
      && (if Allowed(cl, d, e) then
            StepOk(s, cl, d, eff) && t.clients == s.clients[page := eff.client] && t.calls == SentCalls(s, page, eff)
          else t == s)
  {
    PageNext(s, e, page);
    var cl := s.clients[page];
    var d := s.devices[cl.device];
    if Allowed(cl, d, e) {
      eff := Act(s, cl, d, e);
      PostedIsBound(s);
      ActPost(s, cl, d, e);
    } else {
      eff := Stay(cl, d);
    }
  }

  /** The acting page is fresh after its step. */
  lemma ActorFresh(s: System, t: System, page: nat, e: Event)
    requires UploadInv(s) && page in s.clients && EventPage(s, e) == Some(page) && !e.Open? && t == Next(s, e)
    ensures page in t.clients && PageFresh(t, t.clients[page])
  {
    var eff := PostStep(s, t, page, e);
    var cl := s.clients[page];
    var d := s.devices[cl.device];
    if Allowed(cl, d, e) {
      EffectFresh(s, t, page, eff, cl, d);
    }
  }

  lemma ActorCheckOk(s: System, t: System, eff: Effect, cl: Client, d: Device)
    requires SystemOk(s) && PageFresh(s, cl) && StepOk(s, cl, d, eff) && t.answers == s.answers
    requires s.calls <= t.calls && (forall x: nat :: Posted(t.calls, x) && !Posted(s.calls, x) ==> eff.send.Some? && eff.send.value.Upload?)
    ensures CheckOk(t, eff.client)
  {
    if eff.client.editor.job.Checking? {
      forall i | 0 <= i < |s.answers| ensures s.answers[i].call < |s.calls| {
        assert AnswerShape(s, s.answers[i]);
      }
    }
  }

  lemma SentIsOwn(s: System, t: System, page: nat, eff: Effect, cl: Client, d: Device, others: set<nat>)
    requires StepOk(s, cl, d, eff) && t.calls == SentCalls(s, page, eff) && PageIds(cl, d) !! others
    ensures forall x :: x in others && Posted(t.calls, x) ==> Posted(s.calls, x)
  {
    forall x | x in others && Posted(t.calls, x) ensures Posted(s.calls, x) {
      if eff.send.Some? {
        PostedOneMore(s.calls, t.calls[|s.calls|], x);
      }
    }
  }

  /** Every other page stays fresh, because the acting page posts only ids of its own. */
  lemma OthersFresh(s: System, t: System, page: nat, e: Event, other: nat)
    requires UploadInv(s) && page in s.clients && EventPage(s, e) == Some(page) && !e.Open? && t == Next(s, e)
    requires other in s.clients && other != page
    ensures other in t.clients && PageFresh(t, t.clients[other])
  {
    var eff := PostStep(s, t, page, e);
    if Allowed(s.clients[page], s.devices[s.clients[page].device], e) {
      OtherAfterStep(s, t, page, eff, other);
    }
  }

  lemma OtherAfterStep(s: System, t: System, page: nat, eff: Effect, other: nat)
    requires OwnIds(s) && PagesFresh(s) && page in s.clients && other in s.clients && other != page
    requires s.clients[page].device in s.devices && StepOk(s, s.clients[page], s.devices[s.clients[page].device], eff)
    requires t.clients == s.clients[page := eff.client] && t.calls == SentCalls(s, page, eff) && t.answers == s.answers
    ensures other in t.clients && PageFresh(t, t.clients[other])
  {
    assert IdsOf(s, page) !! IdsOf(s, other);
    OtherStaysFresh(s, t, page, eff, s.clients[page], s.devices[s.clients[page].device], s.clients[other], s.devices[other]);
  }

  lemma OtherStaysFresh(s: System, t: System, page: nat, eff: Effect, cl: Client, d: Device, o: Client, od: Device)
    requires StepOk(s, cl, d, eff) && PageFresh(s, o) && PageIds(cl, d) !! PageIds(o, od)
    requires t.calls == SentCalls(s, page, eff) && t.answers == s.answers
    ensures PageFresh(t, o)
  {
    SentIsOwn(s, t, page, eff, cl, d, PageIds(o, od));
    OtherFresh(s, t, o, od);
  }

  lemma OtherFresh(s: System, t: System, o: Client, d: Device)
    requires PageFresh(s, o) && t.answers == s.answers
    requires forall x :: x in PageIds(o, d) && Posted(t.calls, x) ==> Posted(s.calls, x)
    ensures PageFresh(t, o)
  {
    forall x | x in Untried(o) ensures !Posted(t.calls, x) {
      assert x in PageIds(o, d);
    }
    match o.editor.job
    case Checking(k, Again(rec)) => assert rec.client in PageIds(o, d);
    case _ =>
  }

  /** A new call is recorded truthfully: an upload names an id its own snapshot does not hold. */
  lemma NewCallFresh(s: System, t: System, page: nat, e: Event)
    requires UploadInv(s) && page in s.clients && EventPage(s, e) == Some(page) && !e.Open? && t == Next(s, e)
    ensures CallsFresh(t)
  {
    var eff := PostStep(s, t, page, e);
    var cl := s.clients[page];
    var d := s.devices[cl.device];
    if Allowed(cl, d, e) {
      assert PageIds(cl, d) == IdsOf(s, page);
      SentFresh(s, t, page, eff, cl, d);
    }
  }

  lemma SentFresh(s: System, t: System, page: nat, eff: Effect, cl: Client, d: Device)
    requires CallsFresh(s) && StepOk(s, cl, d, eff) && t.server == s.server && t.calls == SentCalls(s, page, eff)
    requires s.nextImage <= t.nextImage && forall x :: x in PageIds(cl, d) ==> x < s.nextImage
    ensures CallsFresh(t)
  {
    forall k | 0 <= k < |t.calls| ensures CallFresh(t, t.calls[k].request) {
      if k < |s.calls| {
        assert CallFresh(s, s.calls[k].request);
      }
    }
  }

  /** The ids an event brings into a page are new. */
  lemma NewIdsAreNew(s: System, cl: Client, e: Event)
    ensures forall x :: x in NewIds(s, cl, e) ==> s.nextImage <= x < s.nextImage + (if e.ChooseFiles? then |e.digests| else 0)
  {
    if e.ChooseFiles? {
      FreshRecords(cl.panel.pair, e.digests, s.nextImage, e.now);
    }
  }

  lemma StepIdsBound(s: System, cl: Client, d: Device, e: Event, x: nat)
    requires StoreOk(d.store) && Allowed(cl, d, e)
    requires x in PageIds(Act(s, cl, d, e).client, Act(s, cl, d, e).device)
    ensures x in PageIds(cl, d) || s.nextImage <= x < s.nextImage + (if e.ChooseFiles? then |e.digests| else 0)
  {
    ActFrame(s, cl, d, e);
    NewIdsAreNew(s, cl, e);
  }

  /** Where the ids of the acting page and of the others come from. */
  ghost predicate IdsStep(s: System, t: System, page: nat) {
    && page in t.clients && page in t.devices && t.clients[page].device == page && s.nextImage <= t.nextImage
    && (forall x :: x in IdsOf(t, page) ==> x in IdsOf(s, page) || s.nextImage <= x < t.nextImage)
    && (forall c: nat :: c != page ==> IdsOf(t, c) == IdsOf(s, c))
  }

  lemma OtherIds(s: System, t: System, page: nat, cl: Client, d: Device, c: nat)
    requires c != page && t.clients == s.clients[page := cl] && t.devices == s.devices[page := d]
    ensures IdsOf(t, c) == IdsOf(s, c)
  {
  }

  lemma ActorIds(s: System, t: System, page: nat, e: Event)
    requires UploadInv(s) && page in s.clients && EventPage(s, e) == Some(page) && !e.Open?
    requires Allowed(s.clients[page], s.devices[page], e)
    requires var eff := Act(s, s.clients[page], s.devices[page], e);
      page in t.clients && page in t.devices && t.clients[page] == eff.client && t.devices[page] == eff.device
    ensures forall x :: x in IdsOf(t, page) ==>
      x in IdsOf(s, page) || s.nextImage <= x < s.nextImage + (if e.ChooseFiles? then |e.digests| else 0)
  {
    forall x | x in IdsOf(t, page)
      ensures x in IdsOf(s, page) || s.nextImage <= x < s.nextImage + (if e.ChooseFiles? then |e.digests| else 0)
    {
      StepIdsBound(s, s.clients[page], s.devices[page], e, x);
    }
  }

  lemma PageIdsBound(s: System, t: System, page: nat, e: Event)
    requires UploadInv(s) && page in s.clients && EventPage(s, e) == Some(page) && !e.Open? && t == Next(s, e)
    ensures IdsStep(s, t, page)
  {
    PageNext(s, e, page);
    var cl := s.clients[page];
    var d := s.devices[page];
    if Allowed(cl, d, e) {
      ActorIds(s, t, page, e);
      forall c: nat | c != page ensures IdsOf(t, c) == IdsOf(s, c) {
        OtherIds(s, t, page, Act(s, cl, d, e).client, Act(s, cl, d, e).device, c);
      }
    }
  }

  lemma IdsStayApart(s: System, t: System, page: nat)
    requires OwnIds(s) && IdsStep(s, t, page)
    ensures forall c, x :: x in IdsOf(t, c) ==> x < t.nextImage
    ensures forall c, d :: c != d ==> IdsOf(t, c) !! IdsOf(t, d)
  {
    forall c, x | x in IdsOf(t, c) ensures x < t.nextImage {
      assert c != page ==> x in IdsOf(s, c);
    }
    forall c, d | c != d ensures IdsOf(t, c) !! IdsOf(t, d) {
      assert IdsOf(s, c) !! IdsOf(s, d);
      var other := if c == page then d else c;
      assert forall x :: x in IdsOf(s, other) ==> x < s.nextImage;
    }
  }

  lemma OwnersSame(s: System, t: System, page: nat, cl: Client, d: Device)
    requires OwnIds(s) && page in s.clients && cl.device == page && t.clients == s.clients[page := cl] && t.devices == s.devices[page := d]
    ensures forall c :: c in t.clients ==> t.clients[c].device == c && c in t.devices
    ensures forall d :: d in t.devices ==> d in t.clients
  {
  }

  lemma OwnersStay(s: System, t: System, page: nat, e: Event)
    requires UploadInv(s) && page in s.clients && EventPage(s, e) == Some(page) && !e.Open? && t == Next(s, e)
    ensures forall c :: c in t.clients ==> t.clients[c].device == c && c in t.devices
    ensures forall d :: d in t.devices ==> d in t.clients
  {
    PageNext(s, e, page);
    if Allowed(s.clients[page], s.devices[page], e) {
      var eff := Act(s, s.clients[page], s.devices[page], e);
      OwnersSame(s, t, page, eff.client, eff.device);
    }
  }

  lemma PageKeepsOwnIds(s: System, t: System, page: nat, e: Event)
    requires UploadInv(s) && page in s.clients && EventPage(s, e) == Some(page) && !e.Open? && t == Next(s, e)
    ensures OwnIds(t)
  {
    PageIdsBound(s, t, page, e);
    IdsStayApart(s, t, page);
    OwnersStay(s, t, page, e);
  }

  lemma PageKeepsFresh(s: System, t: System, page: nat, e: Event)
    requires UploadInv(s) && page in s.clients && EventPage(s, e) == Some(page) && !e.Open? && t == Next(s, e)
    ensures PagesFresh(t)
  {
    PageNext(s, e, page);
    forall c | c in t.clients ensures PageFresh(t, t.clients[c]) {
      if c == page {
        ActorFresh(s, t, page, e);
      } else {
        OthersFresh(s, t, page, e, c);
      }
    }
  }

  lemma PageEventKeeps(s: System, e: Event, page: nat)
    requires UploadInv(s) && page in s.clients && EventPage(s, e) == Some(page) && !e.Open?
    ensures UploadInv(Next(s, e))
  {
    var t := Next(s, e);
    NextOk(s, e);
    NextAttachedOnce(s, e);
    NewCallFresh(s, t, page, e);
    PageKeepsFresh(s, t, page, e);
    PageKeepsOwnIds(s, t, page, e);
    PageKeepsPosted(s, t, page, e);
  }

  lemma PageKeepsPosted(s: System, t: System, page: nat, e: Event)
    requires SystemOk(s) && OnlyPosted(s) && page in s.clients && EventPage(s, e) == Some(page) && !e.Open? && t == Next(s, e)
    ensures OnlyPosted(t)
  {
    PageNext(s, e, page);
    forall x: nat | EverAttached(t.server, x) ensures Posted(t.calls, x) {
      PostedGrows(s.calls, t.calls, x);
    }
  }

  lemma OpenKeeps(s: System, e: Event)
    requires UploadInv(s) && e.Open? && e.device == e.page
    ensures UploadInv(Next(s, e))
  {
    NextOk(s, e);
    NextAttachedOnce(s, e);
    OpenKeepsIds(s, e);
    OpenKeepsFresh(s, e);
  }

  /** A page that has just been opened has nothing to post. */
  lemma NewPageFresh(s: System, device: nat)
    ensures PageFresh(s, Page(device))
  {
  }

  lemma OpenKeepsFresh(s: System, e: Event)
    requires UploadInv(s) && e.Open? && e.device == e.page
    ensures PagesFresh(Next(s, e)) && CallsFresh(Next(s, e))
  {
    OpenNext(s, e);
    OpenKeepsPages(s, Next(s, e), e.page);
    OpenKeepsCalls(s, Next(s, e));
  }

  lemma OpenKeepsPages(s: System, t: System, page: nat)
    requires PagesFresh(s) && OwnIds(s) && t.calls == s.calls && t.answers == s.answers
    requires page in t.clients && t.clients[page] == Page(t.clients[page].device) && t.clients == s.clients[page := t.clients[page]]
    ensures PagesFresh(t)
  {
    forall c | c in t.clients ensures PageFresh(t, t.clients[c]) {
      if c == page {
        NewPageFresh(t, t.clients[c].device);
      } else {
        OtherFresh(s, t, s.clients[c], s.devices[c]);
      }
    }
  }

  lemma OpenKeepsCalls(s: System, t: System)
    requires CallsFresh(s) && t.calls == s.calls && t.server == s.server && t.nextImage == s.nextImage
    ensures CallsFresh(t)
  {
    forall k | 0 <= k < |t.calls| ensures CallFresh(t, t.calls[k].request) {
      assert CallFresh(s, s.calls[k].request);
    }
  }

  lemma NewPageIds(device: nat, d: Device)
    ensures PageIds(Page(device), d) == StoreIds(d.store)
  {
  }

  lemma OpenIdsOf(s: System, e: Event, c: nat)
    requires OwnIds(s) && e.Open? && e.device == e.page
    ensures IdsOf(Next(s, e), c) <= IdsOf(s, c)
  {
    if c == e.page {
      NewPageIds(c, Next(s, e).devices[c]);
    }
  }

  lemma OpenKeepsIds(s: System, e: Event)
    requires OwnIds(s) && e.Open? && e.device == e.page
    ensures OwnIds(Next(s, e))
  {
    var t := Next(s, e);
    forall c, d | c != d ensures IdsOf(t, c) !! IdsOf(t, d) {
      OpenIdsOf(s, e, c);
      OpenIdsOf(s, e, d);
    }
    forall c, x | x in IdsOf(t, c) ensures x < t.nextImage {
      OpenIdsOf(s, e, c);
    }
  }

  lemma ServerKeepsOwnIds(s: System, e: Event)
    requires OwnIds(s) && (e.ServeCall? || e.TeacherDecides? || e.RecordsClose?)
    ensures OwnIds(Next(s, e))
  {
    assert forall c :: IdsOf(Next(s, e), c) == IdsOf(s, c);
  }

  lemma ServerKeepsCallsFresh(s: System, t: System)
    requires CallsFresh(s) && Extends(s.server, t.server) && t.calls == s.calls && t.nextImage == s.nextImage
    ensures CallsFresh(t)
  {
    forall k | 0 <= k < |t.calls| ensures CallFresh(t, t.calls[k].request) {
      var q := s.calls[k].request;
      assert CallFresh(s, q);
      if q.Upload? {
        AbsentAtStable(s.server, t.server, q.version, q.revision, q.client);
      }
    }
  }

  lemma ServerEventKeeps(s: System, e: Event)
    requires UploadInv(s) && (e.ServeCall? || e.TeacherDecides? || e.RecordsClose?)
    ensures UploadInv(Next(s, e))
  {
    NextOk(s, e);
    var t := Next(s, e);
    if e.ServeCall? && e.call < |s.calls| {
      assert CallFresh(s, s.calls[e.call].request);
    }
    NextAttachedOnce(s, e);
    ServerKeepsCallsFresh(s, t);
    ServerKeepsOwnIds(s, e);
    forall x: nat | EverAttached(t.server, x) ensures Posted(t.calls, x) {
      ServedIsPosted(s, e, x);
    }
    forall c | c in t.clients ensures PageFresh(t, t.clients[c]) {
      ServedCheckOk(s, t, e, t.clients[c]);
    }
  }

  lemma ServedIsPosted(s: System, e: Event, x: nat)
    requires UploadInv(s) && (e.ServeCall? || e.TeacherDecides? || e.RecordsClose?) && EverAttached(Next(s, e).server, x)
    ensures Posted(s.calls, x)
  {
    if !EverAttached(s.server, x) && e.ServeCall? && e.call < |s.calls| {
      var q := s.calls[e.call].request;
      if !(q.Upload? && q.client == x) {
        ServeAttachesOnlyUploads(s.server, q, x);
      }
    }
  }

  /** While the server has no version, no upload can have been sent. */
  lemma NoVersionNoPost(s: System, x: nat)
    requires CallsFresh(s) && s.server.versions == []
    ensures !Posted(s.calls, x)
  {
    forall k | 0 <= k < |s.calls| ensures !s.calls[k].request.Upload? {
      assert CallFresh(s, s.calls[k].request);
    }
  }

  lemma ServedCheckOk(s: System, t: System, e: Event, cl: Client)
    requires CallsFresh(s) && PageFresh(s, cl) && (e.ServeCall? || e.TeacherDecides? || e.RecordsClose?) && t == Next(s, e)
    ensures PageFresh(t, cl)
  {
    match cl.editor.job
    case Checking(k, Again(rec)) =>
      if s.server.versions == [] {
        NoVersionNoPost(s, rec.client);
      }
    case _ =>
  }

  lemma NextUploadInv(s: System, e: Event)
    requires UploadInv(s) && (e.Open? ==> e.device == e.page)
    ensures UploadInv(Next(s, e))
  {
    if e.ServeCall? || e.TeacherDecides? || e.RecordsClose? {
      ServerEventKeeps(s, e);
    } else if e.Open? {
      OpenKeeps(s, e);
    } else {
      OtherEventKeeps(s, e);
    }
  }

  lemma OtherEventKeeps(s: System, e: Event)
    requires UploadInv(s) && !e.ServeCall? && !e.TeacherDecides? && !e.RecordsClose? && !e.Open?
    ensures UploadInv(Next(s, e))
  {
    if EventPage(s, e).Some? {
      if EventPage(s, e).value in s.clients {
        PageEventKeeps(s, e, EventPage(s, e).value);
      } else {
        NobodyStays(s, e);
      }
    }
  }

  lemma {:induction false} ExecUploadInv(s: System, events: seq<Event>)
    requires UploadInv(s) && OwnDevices(events)
    ensures UploadInv(Exec(s, events))
  {
    if events != [] {
      ExecUploadInv(s, events[..|events| - 1]);
      NextUploadInv(Exec(s, events[..|events| - 1]), events[|events| - 1]);
    }
  }

  /**
   * At most once, by the revision check and the read before a retry alone: with or without the
   * store's replay branch, in every run of pages on their own devices, under loss, delay,
   * duplication and reordering, reloads and crashes, no snapshot of any version ever holds a
   * client id twice.
   */
  lemma AttachedOnceByRevision(replays: bool, events: seq<Event>)
    requires OwnDevices(events)
    ensures AttachedOnce(Exec(Init(replays), events).server)
  {
    InitOk(replays);
    ExecUploadInv(Init(replays), events);
  }
}

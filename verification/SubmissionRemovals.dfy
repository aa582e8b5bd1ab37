/**
 * Nothing is removed but what was asked for: in every run, an attachment that an accepted removal
 * takes away is one that a click on "remove" named, by its own id or as the copy of the same file
 * in the version that was opened for a revision.
 */
module SubmissionRemovals {
  import opened Prelude
  import opened SubmissionServer
  import opened SubmissionHistory
  import opened SubmissionWrites
  import opened PracticePanel
  import opened ImageQueue
  import opened PracticeClient
  import opened SubmissionProtocol
  import opened SubmissionStructure
  import opened SubmissionImages

  // ---------------------------------------------------------------- attachments and their ids

  ghost predicate IsAt(s: Server, a: Image, v: nat, r: nat) {
    v < |s.versions| && r < |s.versions[v].snaps| && a in s.versions[v].snaps[r].images
  }

  /** The attachment is in some revision of some version. */
  ghost predicate Attached(s: Server, a: Image) {
    exists v: nat, r: nat :: IsAt(s, a, v, r)
  }

  /** An id belongs to one client id. */
  ghost predicate IdsUnique(s: Server) {
    forall a, b :: Attached(s, a) && Attached(s, b) && a.id == b.id ==> a.client == b.client
  }

  lemma AttachedStable(s: Server, t: Server, a: Image)
    requires Extends(s, t) && Attached(s, a)
    ensures Attached(t, a)
  {
    var v: nat, r: nat :| IsAt(s, a, v, r);
    assert VersionGrows(s.versions[v], t.versions[v]);
    assert IsAt(t, a, v, r);
  }

  lemma AttachedBelow(s: Server, a: Image)
    requires ServerOk(s) && Attached(s, a)
    ensures a.id < s.nextImage
  {
    var v: nat, r: nat :| IsAt(s, a, v, r);
    assert VersionOk(s, v);
    assert SnapOk(s.versions[v].snaps[r], v, s.nextImage);
  }

  lemma LastIsAttached(s: Server, v: nat, a: Image)
    requires ServerOk(s) && v < |s.versions| && a in LastSnap(s.versions[v]).images
    ensures Attached(s, a)
  {
    assert VersionOk(s, v);
    assert IsAt(s, a, v, |s.versions[v].snaps| - 1);
  }

  /** The attachments a request creates, numbered from the next id on. */
  function Created(s: Server, q: Request): seq<Image> {
    match q
    case Save(_, _) =>
      if s.versions != [] && s.stage == RevisionRequested then CopyImages(LastSnap(s.versions[|s.versions| - 1]).images, |s.versions|, s.nextImage) else []
    case Upload(v, _, client, digest) => [Image(s.nextImage, client, v, digest)]
    case _ => []
  }

  lemma SavedAttached(s: Server, q: Request, a: Image)
    requires ServerOk(s) && q.Save? && Attached(Serve(s, q).0, a)
    ensures Attached(s, a) || a in Created(s, q)
  {
    var t := Serve(s, q).0;
    var v: nat, r: nat :| IsAt(t, a, v, r);
    if v < |s.versions| && r < |s.versions[v].snaps| {
      assert IsAt(s, a, v, r);
    } else if v < |s.versions| {
      LastIsAttached(s, v, a);
    }
  }

  lemma UploadedAttachedOnly(s: Server, q: Request, a: Image)
    requires ServerOk(s) && q.Upload? && Attached(Serve(s, q).0, a)
    ensures Attached(s, a) || a in Created(s, q)
  {
    var t := Serve(s, q).0;
    var v: nat, r: nat :| IsAt(t, a, v, r);
    if r < |s.versions[v].snaps| {
      assert IsAt(s, a, v, r);
    } else if a in LastSnap(s.versions[v]).images {
      LastIsAttached(s, v, a);
    }
  }

  lemma RemovedAttached(s: Server, q: Request, a: Image)
    requires ServerOk(s) && q.Remove? && Attached(Serve(s, q).0, a)
    ensures Attached(s, a)
  {
    var t := Serve(s, q).0;
    var v: nat, r: nat :| IsAt(t, a, v, r);
    if r < |s.versions[v].snaps| {
      assert IsAt(s, a, v, r);
    } else {
      WithoutIdMembers(LastSnap(s.versions[v]).images, q.image);
      LastIsAttached(s, v, a);
    }
  }

  lemma OnlyCreatedAreNew(s: Server, q: Request, a: Image)
    requires ServerOk(s) && Attached(Serve(s, q).0, a)
    ensures Attached(s, a) || a in Created(s, q)
  {
    match q
    case Save(_, _) => SavedAttached(s, q, a);
    case Upload(_, _, _, _) => UploadedAttachedOnly(s, q, a);
    case Remove(_, _, _) => RemovedAttached(s, q, a);
    case Read =>
    case Seal(_, _, _) =>
      var v: nat, r: nat :| IsAt(Serve(s, q).0, a, v, r);
      assert IsAt(s, a, v, r);
  }

  lemma CreatedIds(s: Server, q: Request, a: Image, b: Image)
    requires a in Created(s, q) && b in Created(s, q) && a.id == b.id
    ensures a == b && a.id >= s.nextImage
  {
  }

  lemma ServeIdsUnique(s: Server, q: Request)
    requires ServerOk(s) && IdsUnique(s)
    ensures IdsUnique(Serve(s, q).0)
  {
    var t := Serve(s, q).0;
    forall a, b | Attached(t, a) && Attached(t, b) && a.id == b.id ensures a.client == b.client {
      OnlyCreatedAreNew(s, q, a);
      OnlyCreatedAreNew(s, q, b);
      SameIdSameClient(s, q, a, b);
    }
  }

  lemma SameIdSameClient(s: Server, q: Request, a: Image, b: Image)
    requires ServerOk(s) && IdsUnique(s) && a.id == b.id
    requires (Attached(s, a) || a in Created(s, q)) && (Attached(s, b) || b in Created(s, q))
    ensures a.client == b.client
  {
    if Attached(s, a) && Attached(s, b) {
    } else if Attached(s, a) {
      AttachedBelow(s, a);
      CreatedIds(s, q, b, b);
    } else if Attached(s, b) {
      AttachedBelow(s, b);
      CreatedIds(s, q, a, a);
    } else {
      CreatedIds(s, q, a, b);
    }
  }

  // ---------------------------------------------------------------- what was asked for

  /** The event is a click on "remove" that its page accepts. */
  ghost predicate Asks(s: System, e: Event) {
    e.RemoveAttached? && Live(s, e.page) && Allowed(s.clients[e.page], s.devices[s.clients[e.page].device], e)
  }

  /** The attachments the clicks of a run named. */
  ghost function Asked(s: System, events: seq<Event>): set<Image> {
    if events == [] then {}
    else
      var front := events[..|events| - 1];
      var e := events[|events| - 1];
      Asked(s, front) + (if Asks(Exec(s, front), e) then {e.target} else {})
  }

  /** An attachment with this id has this client id. */
  ghost predicate Known(s: Server, id: nat, client: nat) {
    exists a :: Attached(s, a) && a.id == id && a.client == client
  }

  /** The id is one that was asked for, or belongs to a copy of such a file. */
  ghost predicate IdAsked(s: Server, asked: set<Image>, id: nat) {
    exists c :: c in asked && (c.id == id || Known(s, id, c.client))
  }

  ghost predicate PurposeAsked(asked: set<Image>, p: Purpose) {
    p.Removal? ==> p.image in asked
  }

  ghost predicate JobAsked(s: Server, asked: set<Image>, job: Job) {
    match job
    case Idle => true
    case Starting(p) => PurposeAsked(asked, p)
    case SavingFirst(p) => PurposeAsked(asked, p)
    case Preparing(_, p) => PurposeAsked(asked, p)
    case Checking(_, p) => PurposeAsked(asked, p)
    case Posting(_, _, _) => true
    case Deleting(_, target, _) => IdAsked(s, asked, target.id)
  }

  ghost predicate RequestAsked(s: Server, asked: set<Image>, q: Request) {
    q.Remove? ==> IdAsked(s, asked, q.image)
  }

  ghost predicate AskedInv(s: System, asked: set<Image>) {
    && IdsUnique(s.server)
    && (forall c :: c in s.clients ==> JobAsked(s.server, asked, s.clients[c].editor.job))
    && (forall k :: 0 <= k < |s.calls| ==> RequestAsked(s.server, asked, s.calls[k].request))
  }

  ghost predicate EffectAsked(s: Server, asked: set<Image>, e: Effect) {
    JobAsked(s, asked, e.client.editor.job) && (e.send.Some? ==> RequestAsked(s, asked, e.send.value))
  }

  // ---------------------------------------------------------------- one step of a page

  lemma BatchAsked(s: Server, asked: set<Image>, cl: Client)
    ensures JobAsked(s, asked, NextInBatch(cl).editor.job)
  {
  }

  lemma PrepareAsked(s: Server, asked: set<Image>, cl: Client, d: Device, purpose: Purpose, next: nat)
    requires PurposeAsked(asked, purpose)
    ensures EffectAsked(s, asked, StartPrepare(cl, d, purpose, next))
  {
  }

  lemma PostAsked(s: Server, asked: set<Image>, cl: Client, d: Device, r: Record, current: Reading, disk: Disk, now: nat, next: nat)
    ensures EffectAsked(s, asked, Post(cl, d, r, current, disk, now, next))
  {
  }

  lemma DeleteAsked(s: Server, asked: set<Image>, cl: Client, d: Device, target: Image, r: Reading, check: Option<nat>, next: nat)
    requires IdAsked(s, asked, target.id)
    ensures EffectAsked(s, asked, Delete(cl, d, target, r, check, next))
  {
  }

  lemma CopyAsked(s: Server, asked: set<Image>, r: Reading, image: Image, copied: Image)
    requires ReadingTrue(s, r) && r.version.Some? && image in asked && copied in r.images && copied.client == image.client
    ensures IdAsked(s, asked, copied.id)
  {
    assert IsAt(s, copied, r.version.value, r.revision - 1);
    assert Attached(s, copied) && Known(s, copied.id, image.client);
  }

  lemma PreparedAsked(s: Server, asked: set<Image>, cl: Client, d: Device, r: Reading, purpose: Purpose, disk: Disk, now: nat, next: nat)
    requires ReadingTrue(s, r) && PurposeAsked(asked, purpose)
    ensures EffectAsked(s, asked, Prepared(cl, d, r, purpose, disk, now, next))
  {
    if ReadbackMatches(cl.panel, r) {
      var c1 := cl.(panel := ImageUpdate(cl.panel, r));
      match purpose
      case Fresh(rec) => PostAsked(s, asked, c1, d, rec, r, disk, now, next);
      case Again(rec) => PostAsked(s, asked, c1, d, rec, r, disk, now, next);
      case Removal(image, seen) =>
        var before := Baseline(Some(image.version), Some(seen));
        var copied := FindClient(r.images, image.client);
        if copied.Some? {
          CopyAsked(s, asked, r, image, copied.value);
          DeleteAsked(s, asked, AdvanceAll(c1, before, Tokens(r), now), AdvanceStore(c1, d, before, Tokens(r), now, disk), copied.value, r, None, next);
        }
    }
  }

  lemma CheckedAgainAsked(s: Server, asked: set<Image>, cl: Client, d: Device, r: Reading, rec: Record, disk: Disk, now: nat, next: nat)
    ensures EffectAsked(s, asked, CheckedAgain(cl, d, r, rec, disk, now, next))
  {
    if AttachedIn(r.images, rec) {
      AttachedAgainAsked(s, asked, cl, d, r, rec, disk, now, next);
    } else if r.version != rec.version || r.isSealed || (rec.revision.Some? && rec.revision.value != r.revision) {
    } else if r.version == None {
      PrepareAsked(s, asked, cl, d, Again(rec), next);
    } else {
      PostAsked(s, asked, cl, d, rec, r, disk, now, next);
    }
  }

  lemma AttachedAgainAsked(s: Server, asked: set<Image>, cl: Client, d: Device, r: Reading, rec: Record, disk: Disk, now: nat, next: nat)
    requires AttachedIn(r.images, rec)
    ensures EffectAsked(s, asked, CheckedAgain(cl, d, r, rec, disk, now, next))
  {
    var e := CheckedAgain(cl, d, r, rec, disk, now, next);
    assert e.client.editor.job.Idle? || (e.client.editor.job.Starting? && e.client.editor.job.purpose.Fresh?);
    assert e.send.Some? ==> e.send.value == Read;
  }

  lemma SettledAsked(s: Server, asked: set<Image>, cl: Client, d: Device, reply: Reply, disk: Disk, now: nat, next: nat)
    requires cl.editor.job.Posting? || cl.editor.job.Deleting?
    ensures EffectAsked(s, asked, ImageDone(cl, d, reply, disk, now, next))
  {
    var e := ImageDone(cl, d, reply, disk, now, next);
    assert e.client.editor.job.Idle? || (e.client.editor.job.Starting? && e.client.editor.job.purpose.Fresh?);
    assert e.send == None;
  }

  lemma CheckedAsked(s: Server, asked: set<Image>, cl: Client, d: Device, reply: Reply, disk: Disk, now: nat, next: nat)
    requires cl.editor.job.Checking? && JobAsked(s, asked, cl.editor.job)
    ensures EffectAsked(s, asked, ImageDone(cl, d, reply, disk, now, next))
  {
    var purpose := cl.editor.job.purpose;
    if reply.Snapshot? && !reply.reading.closed {
      if !purpose.Removal? {
        CheckedAgainAsked(s, asked, cl, d, reply.reading, purpose.record, disk, now, next);
      } else if reply.reading.isSealed && purpose.seen == 0 && reply.reading.version == Some(purpose.image.version) {
        PrepareAsked(s, asked, cl, d, purpose, next);
      } else {
        assert purpose.image in asked;
        DeleteAsked(s, asked, cl, d, purpose.image, reply.reading, Some(purpose.seen), next);
      }
    }
  }

  lemma ImageDoneAsked(s: Server, asked: set<Image>, cl: Client, d: Device, reply: Reply, disk: Disk, now: nat, next: nat)
    requires JobAsked(s, asked, cl.editor.job) && (reply.Snapshot? ==> ReadingTrue(s, reply.reading))
    ensures EffectAsked(s, asked, ImageDone(cl, d, reply, disk, now, next))
  {
    match cl.editor.job
    case Preparing(_, purpose) =>
      if reply.Snapshot? && !reply.reading.closed {
        PreparedAsked(s, asked, cl, d, reply.reading, purpose, disk, now, next);
      }
    case Checking(_, _) => CheckedAsked(s, asked, cl, d, reply, disk, now, next);
    case Posting(_, _, _) => SettledAsked(s, asked, cl, d, reply, disk, now, next);
    case Deleting(_, _, _) => SettledAsked(s, asked, cl, d, reply, disk, now, next);
    case _ =>
  }

  lemma SaveDoneAsked(s: Server, asked: set<Image>, cl: Client, d: Device, reply: Reply, next: nat)
    requires JobAsked(s, asked, cl.editor.job) && cl.panel.saving.Some?
    ensures EffectAsked(s, asked, SaveDone(cl, d, reply, next))
  {
  }

  lemma PanelAnswerAsked(s: Server, asked: set<Image>, cl: Client, e: Effect)
    requires JobAsked(s, asked, cl.editor.job) && e.client.editor == cl.editor && (e.send.Some? ==> !e.send.value.Remove?)
    ensures EffectAsked(s, asked, e)
  {
  }

  lemma RecheckDoneAsked(s: Server, asked: set<Image>, cl: Client, d: Device, reply: Reply, found: Found, intent: Intent, next: nat)
    requires JobAsked(s, asked, cl.editor.job)
    ensures EffectAsked(s, asked, RecheckDone(cl, d, reply, found, intent, next))
  {
    PanelAnswerAsked(s, asked, cl, RecheckDone(cl, d, reply, found, intent, next));
  }

  lemma SealDoneAsked(s: Server, asked: set<Image>, cl: Client, d: Device, reply: Reply, next: nat)
    requires JobAsked(s, asked, cl.editor.job) && cl.panel.submit.Sealing?
    ensures EffectAsked(s, asked, SealDone(cl, d, reply, next))
  {
    PanelAnswerAsked(s, asked, cl, SealDone(cl, d, reply, next));
  }

  lemma ArriveAsked(s: Server, asked: set<Image>, cl: Client, d: Device, k: nat, reply: Reply, found: Found, disk: Disk, now: nat, next: nat)
    requires JobAsked(s, asked, cl.editor.job) && (reply.Snapshot? ==> ReadingTrue(s, reply.reading))
    ensures EffectAsked(s, asked, Arrive(cl, d, k, reply, found, disk, now, next))
  {
    if cl.panel.saving.Some? && cl.panel.saving.value.call == k {
      SaveDoneAsked(s, asked, cl, d, reply, next);
    } else if cl.panel.submit.Rechecking? && cl.panel.submit.call == k {
      RecheckDoneAsked(s, asked, cl, d, reply, found, cl.panel.submit.intent, next);
    } else if cl.panel.submit.Sealing? && cl.panel.submit.call == k {
      SealDoneAsked(s, asked, cl, d, reply, next);
    } else if k in cl.loads {
      PanelAnswerAsked(s, asked, cl, LoadDone(cl, d, k, reply, found));
    } else if JobCall(cl.editor.job) == Some(k) {
      ImageDoneAsked(s, asked, cl, d, reply, disk, now, next);
    }
  }

  lemma DeliverAsked(s: System, asked: set<Image>, cl: Client, d: Device, e: Event)
    requires SystemOk(s) && JobAsked(s.server, asked, cl.editor.job) && e.Deliver?
    ensures EffectAsked(s.server, asked, Act(s, cl, d, e))
  {
    if e.answer < |s.answers| && s.answers[e.answer].call < |s.calls| {
      DeliverAct(s, cl, d, e);
      var a := s.answers[e.answer];
      assert AnswerShape(s, a);
      ReplyIsTrue(s, a);
      ArriveAsked(s.server, asked, cl, d, a.call, ReplyTo(s, a), e.found, e.disk, e.now, |s.calls|);
    } else {
      DeliverNothing(s, cl, d, e);
    }
  }

  lemma LoseAsked(s: System, asked: set<Image>, cl: Client, d: Device, e: Event)
    requires JobAsked(s.server, asked, cl.editor.job) && (e.Lose? || e.Unmounts?)
    ensures EffectAsked(s.server, asked, Act(s, cl, d, e))
  {
    ArriveAsked(s.server, asked, cl, d, e.call, Refused, Found(true, true), Disk(true, true, true), e.now, |s.calls|);
  }

  lemma ClickAsked(s: System, asked: set<Image>, cl: Client, d: Device, e: Event)
    requires JobAsked(s.server, asked, cl.editor.job) && Allowed(cl, d, e) && !e.Deliver? && !e.Lose? && !e.Unmounts? && !e.Proceed? && !e.ChooseFiles?
    requires e.RemoveAttached? ==> e.target in asked
    ensures EffectAsked(s.server, asked, Act(s, cl, d, e))
  {
    var eff := Act(s, cl, d, e);
    assert eff.client.editor.job == cl.editor.job || (eff.client.editor.job.Checking? && (e.RemoveAttached? || eff.client.editor.job.purpose.Again?));
    assert eff.send.Some? ==> !eff.send.value.Remove?;
  }

  lemma ActAsked(s: System, asked: set<Image>, cl: Client, d: Device, e: Event)
    requires SystemOk(s) && JobAsked(s.server, asked, cl.editor.job) && Allowed(cl, d, e)
    requires e.RemoveAttached? ==> e.target in asked
    ensures EffectAsked(s.server, asked, Act(s, cl, d, e))
  {
    if e.Deliver? {
      DeliverAsked(s, asked, cl, d, e);
    } else if e.Lose? || e.Unmounts? {
      LoseAsked(s, asked, cl, d, e);
    } else if e.Proceed? {
      PrepareAsked(s.server, asked, cl, d, cl.editor.job.purpose, |s.calls|);
    } else if e.ChooseFiles? {
      ChooseAsked(s, asked, cl, d, e);
    } else {
      ClickAsked(s, asked, cl, d, e);
    }
  }

  lemma ChooseAsked(s: System, asked: set<Image>, cl: Client, d: Device, e: Event)
    requires Allowed(cl, d, e) && e.ChooseFiles?
    ensures EffectAsked(s.server, asked, Act(s, cl, d, e))
  {
    var eff := Act(s, cl, d, e);
    assert eff.send == None && (eff.client.editor.job.Idle? || (eff.client.editor.job.Starting? && eff.client.editor.job.purpose.Fresh?));
  }

  // ---------------------------------------------------------------- whole runs

  lemma IdAskedStable(s: Server, t: Server, asked: set<Image>, more: set<Image>, id: nat)
    requires Extends(s, t) && asked <= more && IdAsked(s, asked, id)
    ensures IdAsked(t, more, id)
  {
    var c :| c in asked && (c.id == id || Known(s, id, c.client));
    if Known(s, id, c.client) {
      var a :| Attached(s, a) && a.id == id && a.client == c.client;
      AttachedStable(s, t, a);
    }
  }

  lemma JobAskedStable(s: Server, t: Server, asked: set<Image>, more: set<Image>, job: Job)
    requires Extends(s, t) && asked <= more && JobAsked(s, asked, job)
    ensures JobAsked(t, more, job)
  {
    if job.Deleting? {
      IdAskedStable(s, t, asked, more, job.target.id);
    }
  }

  /** The server goes on, and more may have been asked for. */
  lemma AskedStable(s: System, t: System, asked: set<Image>, more: set<Image>)
    requires AskedInv(s, asked) && Extends(s.server, t.server) && asked <= more && IdsUnique(t.server) && t.calls == s.calls
    requires forall c :: c in t.clients ==> (c in s.clients && t.clients[c] == s.clients[c]) || t.clients[c].editor.job == Idle
    ensures AskedInv(t, more)
  {
    forall c | c in t.clients ensures JobAsked(t.server, more, t.clients[c].editor.job) {
      if c in s.clients && t.clients[c] == s.clients[c] {
        JobAskedStable(s.server, t.server, asked, more, s.clients[c].editor.job);
      }
    }
    forall k | 0 <= k < |t.calls| ensures RequestAsked(t.server, more, t.calls[k].request) {
      assert RequestAsked(s.server, asked, s.calls[k].request);
      if t.calls[k].request.Remove? {
        IdAskedStable(s.server, t.server, asked, more, t.calls[k].request.image);
      }
    }
  }

  lemma StepAsked(s: System, t: System, page: nat, eff: Effect, asked: set<Image>)
    requires AskedInv(s, asked) && EffectAsked(s.server, asked, eff) && t.server == s.server
    requires t.clients == s.clients[page := eff.client] && t.calls == SentCalls(s, page, eff)
    ensures AskedInv(t, asked)
  {
  }

  ghost function NowAsked(s: System, asked: set<Image>, e: Event): set<Image> {
    asked + (if Asks(s, e) then {e.target} else {})
  }

  lemma PageActsAsked(s: System, e: Event, page: nat, asked: set<Image>) returns (eff: Effect)
    requires SystemOk(s) && Live(s, page) && EventPage(s, e) == Some(page) && !e.Open?
    requires Allowed(s.clients[page], s.devices[s.clients[page].device], e)
    requires JobAsked(s.server, asked, s.clients[page].editor.job) && (e.RemoveAttached? ==> e.target in asked)
    ensures EffectAsked(s.server, asked, eff)
    ensures var t := Next(s, e); t.server == s.server && t.clients == s.clients[page := eff.client] && t.calls == SentCalls(s, page, eff)
  {
    LiveNext(s, e, page);
    eff := Act(s, s.clients[page], s.devices[s.clients[page].device], e);
    ActAsked(s, asked, s.clients[page], s.devices[s.clients[page].device], e);
  }

  lemma PageAsked(s: System, e: Event, page: nat, asked: set<Image>)
    requires SystemOk(s) && Live(s, page) && EventPage(s, e) == Some(page) && !e.Open? && AskedInv(s, asked)
    ensures AskedInv(Next(s, e), NowAsked(s, asked, e))
  {
    var more := NowAsked(s, asked, e);
    ExtendsReflexive(s.server);
    AskedStable(s, s, asked, more);
    if Allowed(s.clients[page], s.devices[s.clients[page].device], e) {
      var eff := PageActsAsked(s, e, page, more);
      StepAsked(s, Next(s, e), page, eff, more);
    } else {
      LiveNext(s, e, page);
    }
  }

  lemma SameVersionsAttached(s: Server, t: Server)
    requires t.versions == s.versions && IdsUnique(s)
    ensures IdsUnique(t)
  {
    forall a, b | Attached(t, a) && Attached(t, b) && a.id == b.id ensures a.client == b.client {
      var v: nat, r: nat :| IsAt(t, a, v, r);
      var w: nat, q: nat :| IsAt(t, b, w, q);
      assert IsAt(s, a, v, r) && IsAt(s, b, w, q);
    }
  }

  lemma ServerAsked(s: System, e: Event, asked: set<Image>)
    requires SystemOk(s) && AskedInv(s, asked) && EventPage(s, e) == None
    ensures AskedInv(Next(s, e), asked)
  {
    ServerFields(s, e);
    NextOk(s, e);
    if e.ServeCall? {
      if e.call < |s.calls| {
        ServeIdsUnique(s.server, s.calls[e.call].request);
      }
    } else {
      OnlyServingAttaches(s, e);
      SameVersionsAttached(s.server, Next(s, e).server);
    }
    AskedStable(s, Next(s, e), asked, asked);
  }

  lemma OpenAsked(s: System, e: Event, asked: set<Image>)
    requires AskedInv(s, asked) && e.Open?
    ensures AskedInv(Next(s, e), asked)
  {
    OpenNext(s, e);
    ExtendsReflexive(s.server);
    NewPageIdle(s, e);
    AskedStable(s, Next(s, e), asked, asked);
  }

  lemma NewPageIdle(s: System, e: Event)
    requires e.Open?
    ensures e.page in Next(s, e).clients && Next(s, e).clients[e.page].editor.job == Idle
  {
  }

  lemma OtherAsked(s: System, e: Event, asked: set<Image>)
    requires SystemOk(s) && AskedInv(s, asked) && (e.Open? || EventPage(s, e) == None)
    ensures AskedInv(Next(s, e), NowAsked(s, asked, e))
  {
    assert NowAsked(s, asked, e) == asked;
    if e.Open? {
      OpenAsked(s, e, asked);
    } else {
      ServerAsked(s, e, asked);
    }
  }

  lemma NextAsked(s: System, e: Event, asked: set<Image>)
    requires SystemOk(s) && AskedInv(s, asked)
    ensures AskedInv(Next(s, e), NowAsked(s, asked, e))
  {
    var who := EventPage(s, e);
    if e.Open? || who == None {
      OtherAsked(s, e, asked);
    } else if who.value in s.clients {
      assert Live(s, who.value);
      PageAsked(s, e, who.value, asked);
    } else {
      NobodyAsked(s, e, asked);
    }
  }

  lemma NobodyAsked(s: System, e: Event, asked: set<Image>)
    requires AskedInv(s, asked) && !e.Open? && EventPage(s, e).Some? && EventPage(s, e).value !in s.clients
    ensures AskedInv(Next(s, e), NowAsked(s, asked, e))
  {
    NobodyStays(s, e);
    assert NowAsked(s, asked, e) == asked;
  }

  lemma {:induction false} RunAsked(replays: bool, events: seq<Event>)
    ensures SystemOk(Exec(Init(replays), events)) && AskedInv(Exec(Init(replays), events), Asked(Init(replays), events))
  {
    InitOk(replays);
    if events != [] {
      var front := events[..|events| - 1];
      RunAsked(replays, front);
      NextAsked(Exec(Init(replays), front), events[|events| - 1], Asked(Init(replays), front));
      NextOk(Exec(Init(replays), front), events[|events| - 1]);
    }
  }

  /** Attachments of another id stay. */
  lemma OthersStay(s: Server, q: Request, a: Image)
    requires ServerOk(s) && q.Remove? && a in ReadCurrent(s).images && a.id != q.image
    ensures AttachedNow(Serve(s, q).0, a.client)
  {
    RemoveIff(s, q.version, q.revision, q.image);
    var images := ReadCurrent(s).images;
    var i :| 0 <= i < |images| && images[i] == a;
    if WriteAccepted(s, q) {
      RemovedReads(s, q.version, q.revision, q.image);
      var after := ReadCurrent(Serve(s, q).0).images;
      DropsOthers(images, q.image, after, i);
    }
  }

  lemma DropsOthers(images: seq<Image>, id: nat, after: seq<Image>, i: nat)
    requires DropsOnly(images, id, after) && i < |images| && images[i].id != id
    ensures HasClient(after, images[i].client)
  {
    var at: seq<nat> :| Places(images, id, at) && At(images, at, after);
    var k :| 0 <= k < |at| && at[k] == i;
    assert after[k].client == images[i].client;
  }

  /** An accepted removal takes away an attachment with exactly the id it names. */
  lemma RemovedHasId(s: Server, q: Request, x: nat) returns (a: Image)
    requires ServerOk(s) && q.Remove? && AttachedNow(s, x) && !AttachedNow(Serve(s, q).0, x)
    ensures Attached(s, a) && a.id == q.image && a.client == x
  {
    var r := ReadCurrent(s);
    var i :| 0 <= i < |r.images| && r.images[i].client == x;
    a := r.images[i];
    LastIsAttached(s, |s.versions| - 1, a);
    if a.id != q.image {
      OthersStay(s, q, a);
    }
  }

  /**
   * Over every run of any pages: whatever an accepted removal takes off the current version was
   * asked for by a click on "remove" in this run, as the very attachment or as a copy of the file.
   */
  lemma OnlyAskedIsRemoved(replays: bool, events: seq<Event>, e: Event, x: nat)
    requires RemovesAt(Exec(Init(replays), events), e, x)
    ensures var s := Exec(Init(replays), events);
      exists c :: c in Asked(Init(replays), events) && (c.client == x || Known(s.server, c.id, x))
  {
    RunAsked(replays, events);
    var s := Exec(Init(replays), events);
    var q := s.calls[e.call].request;
    var a := RemovedHasId(s.server, q, x);
    assert RequestAsked(s.server, Asked(Init(replays), events), q);
    var c :| c in Asked(Init(replays), events) && (c.id == q.image || Known(s.server, q.image, c.client));
    if c.id != q.image {
      var b :| Attached(s.server, b) && b.id == q.image && b.client == c.client;
    }
  }
}

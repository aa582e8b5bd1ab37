/** Every step keeps the structure of the protocol state, and the server's history only grows. */
module SubmissionStructure {
  import opened Prelude
  import opened SubmissionServer
  import opened SubmissionHistory
  import opened PracticePanel
  import opened ImageQueue
  import opened PracticeClient
  import opened SubmissionProtocol

  /** The page and its device are well formed before a step. */
  ghost predicate Ready(s: System, cl: Client, d: Device) {
    ServerOk(s.server) && ClientShape(s.server, s.calls, cl) && StoreOk(d.store)
  }

  lemma ReadingImagesTrue(s: Server, r: Reading)
    requires ReadingTrue(s, r)
    ensures ImagesTrue(s, r.images)
  {
    forall i | 0 <= i < |r.images| ensures EverAttached(s, r.images[i].client) {
      var v := r.version.value;
      assert HasClient(s.versions[v].snaps[r.revision - 1].images, r.images[i].client);
    }
  }

  lemma QuietShape(s: System, page: nat, cl: Client, d: Device)
    requires Ready(s, cl, d)
    ensures EffectShape(s, page, Stay(cl, d))
  {
  }

  lemma FailShape(s: System, cl: Client, d: Device, x: Option<nat>, note: Note)
    requires Ready(s, cl, d)
    ensures Ready(s, FailImage(cl, x, note), d)
  {
  }

  lemma SettleShape(s: System, cl: Client, d: Device)
    requires Ready(s, cl, d)
    ensures Ready(s, NextInBatch(cl), d)
  {
  }

  lemma StartLoadShape(s: System, page: nat, cl: Client, d: Device, useServer: bool)
    requires Ready(s, cl, d)
    ensures EffectShape(s, page, StartLoad(cl, d, |s.calls|, useServer))
  {
    var e := StartLoad(cl, d, |s.calls|, useServer);
    ClientShapeStable(s.server, s.server, s.calls, SentCalls(s, page, e), cl);
  }

  lemma StartSaveShape(s: System, page: nat, cl: Client, d: Device)
    requires Ready(s, cl, d)
    ensures EffectShape(s, page, StartSave(cl, d, |s.calls|))
  {
    var e := StartSave(cl, d, |s.calls|);
    ClientShapeStable(s.server, s.server, s.calls, SentCalls(s, page, e), cl);
  }

  lemma StartPrepareShape(s: System, page: nat, cl: Client, d: Device, purpose: Purpose)
    requires Ready(s, cl, d)
    ensures EffectShape(s, page, StartPrepare(cl, d, purpose, |s.calls|))
  {
    if cl.panel.saving.Some? || cl.panel.intent.Some? {
      FailShape(s, cl, d, PurposeId(purpose), ImageQueue.Failed);
      QuietShape(s, page, FailImage(cl, PurposeId(purpose), ImageQueue.Failed), d);
    } else if NeedsSave(cl.panel) {
      StartSaveShape(s, page, cl, d);
    } else {
      var e := Effect(cl.(editor := cl.editor.(job := Preparing(|s.calls|, purpose))), d, Some(Read));
      ClientShapeStable(s.server, s.server, s.calls, SentCalls(s, page, e), cl);
    }
  }

  lemma AdvanceShape(s: System, cl: Client, d: Device, before: Baseline, to: Baseline, now: nat, disk: Disk)
    requires Ready(s, cl, d)
    ensures Ready(s, AdvanceAll(cl, before, to, now), AdvanceStore(cl, d, before, to, now, disk))
    ensures Ready(s, AdvanceAll(cl, before, to, now), d)
  {
    StoreAdvanceKeepsIds(d.store, cl.editor.queue, before, to, now);
  }

  lemma UpdateShape(s: System, cl: Client, d: Device, r: Reading)
    requires Ready(s, cl, d) && ImagesTrue(s.server, r.images)
    ensures Ready(s, cl.(panel := ImageUpdate(cl.panel, r)), d)
    ensures Ready(s, cl.(panel := ImageConflict(cl.panel, r)), d)
  {
  }

  lemma PostShape(s: System, page: nat, cl: Client, d: Device, r: Record, current: Reading, disk: Disk, now: nat)
    requires Ready(s, cl, d) && ReadingTrue(s.server, current)
    ensures EffectShape(s, page, Post(cl, d, r, current, disk, now, |s.calls|))
  {
    if current.version != None && !current.isSealed {
      var e := Post(cl, d, r, current, disk, now, |s.calls|);
      AdvanceShape(s, cl, d, TokensOf(r), Tokens(current), now, disk);
      ClientShapeStable(s.server, s.server, s.calls, SentCalls(s, page, e), cl);
    }
  }

  lemma DeleteShape(s: System, page: nat, cl: Client, d: Device, target: Image, current: Reading, check: Option<nat>)
    requires Ready(s, cl, d) && ReadingTrue(s.server, current)
    ensures EffectShape(s, page, Delete(cl, d, target, current, check, |s.calls|))
  {
    ReadingImagesTrue(s.server, current);
    UpdateShape(s, cl, d, current);
    var e := Delete(cl, d, target, current, check, |s.calls|);
    if e.send.Some? {
      ClientShapeStable(s.server, s.server, s.calls, SentCalls(s, page, e), cl);
    } else {
      FailShape(s, cl.(panel := ImageUpdate(cl.panel, current)), d, None, Waiting);
      FailShape(s, cl.(panel := ImageConflict(cl.panel, current)), d, None, Outdated);
    }
  }

  lemma PreparedRemovalShape(s: System, page: nat, cl: Client, d: Device, r: Reading, image: Image, seen: nat, disk: Disk, now: nat)
    requires Ready(s, cl, d) && ReadingTrue(s.server, r) && ReadbackMatches(cl.panel, r)
    ensures EffectShape(s, page, Prepared(cl, d, r, Removal(image, seen), disk, now, |s.calls|))
  {
    ReadingImagesTrue(s.server, r);
    UpdateShape(s, cl, d, r);
    var c1 := cl.(panel := ImageUpdate(cl.panel, r));
    var before := Baseline(Some(image.version), Some(seen));
    AdvanceShape(s, c1, d, before, Tokens(r), now, disk);
    var c2 := AdvanceAll(c1, before, Tokens(r), now);
    var d2 := AdvanceStore(c1, d, before, Tokens(r), now, disk);
    var copied := FindClient(r.images, image.client);
    if copied.Some? {
      DeleteShape(s, page, c2, d2, copied.value, r, None);
    } else {
      UpdateShape(s, c2, d2, r);
      QuietShape(s, page, FailImage(c2.(panel := ImageUpdate(c2.panel, r)), None, Waiting), d2);
    }
  }

  lemma PreparedShape(s: System, page: nat, cl: Client, d: Device, r: Reading, purpose: Purpose, disk: Disk, now: nat)
    requires Ready(s, cl, d) && ReadingTrue(s.server, r)
    ensures EffectShape(s, page, Prepared(cl, d, r, purpose, disk, now, |s.calls|))
  {
    ReadingImagesTrue(s.server, r);
    UpdateShape(s, cl, d, r);
    if ReadbackMatches(cl.panel, r) {
      var c1 := cl.(panel := ImageUpdate(cl.panel, r));
      match purpose
      case Fresh(rec) => PostShape(s, page, c1, d, rec, r, disk, now);
      case Again(rec) => PostShape(s, page, c1, d, rec, r, disk, now);
      case Removal(image, seen) => PreparedRemovalShape(s, page, cl, d, r, image, seen, disk, now);
    }
  }

  lemma ClearShape(s: System, cl: Client, d: Device, x: nat, r: Record, disk: Disk)
    requires Ready(s, cl, d)
    ensures Ready(s, ClearQueue(cl, x), ClearStore(d, r, disk))
  {
  }

  /** A settled item leaves the queue and the store, and the next one starts. */
  lemma SettledReady(s: System, cl: Client, d: Device, r: Reading, rec: Record, disk: Disk)
    requires Ready(s, cl, d) && ImagesTrue(s.server, r.images)
    ensures Ready(s, NextInBatch(ClearQueue(cl.(panel := ImageUpdate(cl.panel, r)), rec.client)),
                  ClearStore(d, QueueCopy(cl.editor.queue, rec), disk))
  {
    UpdateShape(s, cl, d, r);
    var c1 := cl.(panel := ImageUpdate(cl.panel, r));
    ClearShape(s, c1, d, rec.client, QueueCopy(cl.editor.queue, rec), disk);
    SettleShape(s, ClearQueue(c1, rec.client), ClearStore(d, QueueCopy(cl.editor.queue, rec), disk));
  }

  lemma AttachedAgainShape(s: System, page: nat, cl: Client, d: Device, r: Reading, rec: Record, disk: Disk, now: nat)
    requires Ready(s, cl, d) && ReadingTrue(s.server, r) && AttachedIn(r.images, rec)
    ensures EffectShape(s, page, CheckedAgain(cl, d, r, rec, disk, now, |s.calls|))
  {
    var ack := rec.revision.Some? && r.revision == rec.revision.value + 1;
    AdvanceShape(s, cl, d, TokensOf(rec), Tokens(r), now, disk);
    var d1 := if ack then AdvanceStore(cl, d, TokensOf(rec), Tokens(r), now, disk) else d;
    var c1 := if ack then AdvanceAll(cl, TokensOf(rec), Tokens(r), now) else cl;
    ReadingImagesTrue(s.server, r);
    SettledReady(s, c1, d1, r, rec, disk);
    var c2 := NextInBatch(ClearQueue(c1.(panel := ImageUpdate(c1.panel, r)), rec.client));
    var d2 := ClearStore(d1, QueueCopy(c1.editor.queue, rec), disk);
    StartLoadShape(s, page, c2, d2, false);
    QuietShape(s, page, c2, d2);
  }

  lemma CheckedAgainShape(s: System, page: nat, cl: Client, d: Device, r: Reading, rec: Record, disk: Disk, now: nat)
    requires Ready(s, cl, d) && ReadingTrue(s.server, r)
    ensures EffectShape(s, page, CheckedAgain(cl, d, r, rec, disk, now, |s.calls|))
  {
    ReadingImagesTrue(s.server, r);
    UpdateShape(s, cl, d, r);
    if AttachedIn(r.images, rec) {
      AttachedAgainShape(s, page, cl, d, r, rec, disk, now);
    } else if r.version != rec.version || r.isSealed || (rec.revision.Some? && rec.revision.value != r.revision) {
    } else if r.version == None {
      StartPrepareShape(s, page, cl, d, Again(rec));
    } else {
      PostShape(s, page, cl, d, rec, r, disk, now);
    }
  }

  lemma CheckedRemovalShape(s: System, page: nat, cl: Client, d: Device, r: Reading, image: Image, seen: nat)
    requires Ready(s, cl, d) && ReadingTrue(s.server, r)
    ensures EffectShape(s, page, CheckedRemoval(cl, d, r, image, seen, |s.calls|))
  {
    if r.isSealed && seen == 0 && r.version == Some(image.version) {
      StartPrepareShape(s, page, cl, d, Removal(image, seen));
    } else {
      DeleteShape(s, page, cl, d, image, r, Some(seen));
    }
  }

  lemma WithoutClientMembers(images: seq<Image>, client: nat)
    ensures forall i :: 0 <= i < |WithoutClient(images, client)| ==> WithoutClient(images, client)[i] in images
  {
  }

  lemma AckImagesTrue(s: Server, current: Reading, image: Image, revision: nat, client: nat)
    requires ReadingTrue(s, current) && EverAttached(s, image.client)
    ensures ImagesTrue(s, AckUpload(current, image, revision, client).images)
  {
    ReadingImagesTrue(s, current);
    WithoutClientMembers(current.images, client);
    var images := AckUpload(current, image, revision, client).images;
    forall i | 0 <= i < |images| ensures EverAttached(s, images[i].client) {
      if i < |images| - 1 {
        assert images[i] in current.images;
      }
    }
  }

  lemma PostedShape(s: System, page: nat, cl: Client, d: Device, reply: Reply, rec: Record, current: Reading, disk: Disk, now: nat)
    requires Ready(s, cl, d) && ReadingTrue(s.server, current)
    requires reply.Uploaded? ==> EverAttached(s.server, reply.image.client)
    ensures EffectShape(s, page, Posted(cl, d, reply, rec, current, disk, now))
  {
    if reply.Uploaded? {
      var ack := AckUpload(current, reply.image, reply.revision, rec.client);
      AckImagesTrue(s.server, current, reply.image, reply.revision, rec.client);
      var next := reply.revision == current.revision + 1;
      AdvanceShape(s, cl, d, Tokens(current), Tokens(ack), now, disk);
      var d1 := if next then AdvanceStore(cl, d, Tokens(current), Tokens(ack), now, disk) else d;
      var c1 := if next then AdvanceAll(cl, Tokens(current), Tokens(ack), now) else cl;
      UpdateShape(s, c1, d1, ack);
      ClearShape(s, c1.(panel := ImageUpdate(c1.panel, ack)), d1, rec.client, QueueCopy(c1.editor.queue, rec), disk);
      SettleShape(s, ClearQueue(c1.(panel := ImageUpdate(c1.panel, ack)), rec.client),
        ClearStore(d1, QueueCopy(c1.editor.queue, rec), disk));
    }
  }

  lemma DeletedShape(s: System, page: nat, cl: Client, d: Device, reply: Reply, target: Image, current: Reading, disk: Disk, now: nat)
    requires Ready(s, cl, d) && ReadingTrue(s.server, current)
    ensures EffectShape(s, page, Deleted(cl, d, reply, target, current, disk, now))
  {
    if reply.Removed? {
      var ack := AckRemoval(current, target, reply.revision);
      ReadingImagesTrue(s.server, current);
      WithoutIdMembers(current.images, target.id);
      assert ImagesTrue(s.server, ack.images) by {
        forall i | 0 <= i < |ack.images| ensures EverAttached(s.server, ack.images[i].client) {
          assert ack.images[i] in current.images;
        }
      }
      var next := reply.revision == current.revision + 1;
      AdvanceShape(s, cl, d, Tokens(current), Tokens(ack), now, disk);
      var d1 := if next then AdvanceStore(cl, d, Tokens(current), Tokens(ack), now, disk) else d;
      var c1 := if next then AdvanceAll(cl, Tokens(current), Tokens(ack), now) else cl;
      UpdateShape(s, c1, d1, ack);
      SettleShape(s, c1.(panel := ImageUpdate(c1.panel, ack)), d1);
    }
  }

  /** What an answer says is still true of the server when it arrives. */
  ghost predicate ReplyShape(s: Server, reply: Reply) {
    && (reply.Snapshot? ==> ReadingTrue(s, reply.reading))
    && (reply.Uploaded? ==> EverAttached(s, reply.image.client))
  }

  lemma ImageDoneShape(s: System, page: nat, cl: Client, d: Device, reply: Reply, disk: Disk, now: nat)
    requires Ready(s, cl, d) && ReplyShape(s.server, reply)
    ensures EffectShape(s, page, ImageDone(cl, d, reply, disk, now, |s.calls|))
  {
    match cl.editor.job
    case Preparing(_, purpose) =>
      if reply.Snapshot? && !reply.reading.closed {
        PreparedShape(s, page, cl, d, reply.reading, purpose, disk, now);
      }
    case Checking(_, purpose) =>
      if reply.Snapshot? && !reply.reading.closed {
        if purpose.Removal? {
          CheckedRemovalShape(s, page, cl, d, reply.reading, purpose.image, purpose.seen);
        } else {
          CheckedAgainShape(s, page, cl, d, reply.reading, purpose.record, disk, now);
        }
      }
    case Posting(_, rec, current) => PostedShape(s, page, cl, d, reply, rec, current, disk, now);
    case Deleting(_, target, current) => DeletedShape(s, page, cl, d, reply, target, current, disk, now);
    case _ =>
  }

  lemma SaveReplyShape(s: System, cl: Client, d: Device, reply: Reply)
    requires Ready(s, cl, d) && cl.panel.saving.Some?
    ensures Ready(s, cl.(panel := SaveReply(cl.panel, reply)), d)
  {
  }

  lemma SaveDoneShape(s: System, page: nat, cl: Client, d: Device, reply: Reply)
    requires Ready(s, cl, d) && cl.panel.saving.Some?
    ensures EffectShape(s, page, SaveDone(cl, d, reply, |s.calls|))
  {
    SaveReplyShape(s, cl, d, reply);
    var c1 := cl.(panel := SaveReply(cl.panel, reply));
    if cl.editor.job.SavingFirst? {
      if reply.Saved? {
        var e := SaveDone(cl, d, reply, |s.calls|);
        ClientShapeStable(s.server, s.server, s.calls, SentCalls(s, page, e), c1);
      } else {
        FailShape(s, c1, d, PurposeId(cl.editor.job.purpose), ImageQueue.Failed);
      }
    }
  }

  lemma LoadedShape(s: System, p: Panel, r: Reading, recovered: Option<Envelope>, useServer: bool, seal: Option<Intent>)
    requires PanelShape(s.server, s.calls, p) && ReadingTrue(s.server, r)
    ensures PanelShape(s.server, s.calls, Load(p, r, recovered, useServer, seal))
  {
    ReadingImagesTrue(s.server, r);
  }

  lemma RecheckedShape(s: System, p: Panel, r: Reading, intent: Intent)
    requires PanelShape(s.server, s.calls, p) && RecheckOutcome(r, intent) != StillOpen
    ensures PanelShape(s.server, s.calls, Rechecked(p, r, intent, |s.calls|))
  {
  }

  /** The seal of an open intent is sent again. */
  lemma AskAgainShape(s: System, page: nat, cl: Client, d: Device, intent: Intent)
    requires Ready(s, cl, d)
    ensures EffectShape(s, page, Effect(cl.(panel := cl.panel.(submit := Sealing(|s.calls|, intent))), d, Some(SealRequest(intent))))
  {
    var e := Effect(cl.(panel := cl.panel.(submit := Sealing(|s.calls|, intent))), d, Some(SealRequest(intent)));
    ClientShapeStable(s.server, s.server, s.calls, SentCalls(s, page, e), cl);
  }

  lemma LoadClientShape(s: System, cl: Client, d: Device, r: Reading, useServer: bool, found: Found)
    requires Ready(s, cl, d) && ReadingTrue(s.server, r)
    ensures Ready(s, LoadClient(cl, d, r, useServer, found), LoadDevice(d, r, useServer, found))
  {
    LoadedShape(s, cl.panel, r, FoundCopy(d, r, useServer, found), useServer, FoundIntent(d, found));
  }

  lemma RecheckOpenShape(s: System, page: nat, cl: Client, d: Device, r: Reading, found: Found, intent: Intent)
    requires Ready(s, cl, d) && ReadingTrue(s.server, r) && RecheckOutcome(r, intent) == StillOpen
    ensures EffectShape(s, page, RecheckDone(cl, d, Snapshot(r), found, intent, |s.calls|))
  {
    var c1, d1 := LoadClient(cl, d, r, false, found), LoadDevice(d, r, false, found);
    LoadClientShape(s, cl, d, r, false, found);
    AskAgainShape(s, page, c1, d1, intent);
    assert RecheckDone(cl, d, Snapshot(r), found, intent, |s.calls|) ==
      Effect(c1.(panel := c1.panel.(submit := Sealing(|s.calls|, intent))), d1, Some(SealRequest(intent)));
  }

  lemma RecheckEndShape(s: System, page: nat, cl: Client, d: Device, r: Reading, found: Found, intent: Intent)
    requires Ready(s, cl, d) && ReadingTrue(s.server, r) && RecheckOutcome(r, intent) != StillOpen
    ensures EffectShape(s, page, RecheckDone(cl, d, Snapshot(r), found, intent, |s.calls|))
  {
    LoadClientShape(s, cl, d, r, false, found);
    RecheckedShape(s, LoadClient(cl, d, r, false, found).panel, r, intent);
  }

  lemma RecheckDoneShape(s: System, page: nat, cl: Client, d: Device, reply: Reply, found: Found, intent: Intent)
    requires Ready(s, cl, d) && ReplyShape(s.server, reply)
    ensures EffectShape(s, page, RecheckDone(cl, d, reply, found, intent, |s.calls|))
  {
    if reply.Snapshot? {
      if RecheckOutcome(reply.reading, intent) == StillOpen {
        RecheckOpenShape(s, page, cl, d, reply.reading, found, intent);
      } else {
        RecheckEndShape(s, page, cl, d, reply.reading, found, intent);
      }
    } else {
      QuietShape(s, page, cl.(panel := cl.panel.(submit := NotSubmitting)), d);
    }
  }

  lemma SealDoneShape(s: System, page: nat, cl: Client, d: Device, reply: Reply)
    requires Ready(s, cl, d) && cl.panel.submit.Sealing?
    ensures EffectShape(s, page, SealDone(cl, d, reply, |s.calls|))
  {
    var e := SealDone(cl, d, reply, |s.calls|);
    ClientShapeStable(s.server, s.server, s.calls, SentCalls(s, page, e), cl);
  }

  lemma LoadDoneShape(s: System, page: nat, cl: Client, d: Device, k: nat, reply: Reply, found: Found)
    requires Ready(s, cl, d) && ReplyShape(s.server, reply) && k in cl.loads
    ensures EffectShape(s, page, LoadDone(cl, d, k, reply, found))
  {
    if reply.Snapshot? {
      LoadClientShape(s, cl.(loads := cl.loads - {k}), d, reply.reading, cl.loads[k], found);
    }
  }

  lemma ArriveShape(s: System, page: nat, cl: Client, d: Device, k: nat, reply: Reply, found: Found, disk: Disk, now: nat)
    requires Ready(s, cl, d) && ReplyShape(s.server, reply)
    ensures EffectShape(s, page, Arrive(cl, d, k, reply, found, disk, now, |s.calls|))
  {
    if cl.panel.saving.Some? && cl.panel.saving.value.call == k {
      SaveDoneShape(s, page, cl, d, reply);
    } else if cl.panel.submit.Rechecking? && cl.panel.submit.call == k {
      RecheckDoneShape(s, page, cl, d, reply, found, cl.panel.submit.intent);
    } else if cl.panel.submit.Sealing? && cl.panel.submit.call == k {
      SealDoneShape(s, page, cl, d, reply);
    } else if k in cl.loads {
      LoadDoneShape(s, page, cl, d, k, reply, found);
    } else if JobCall(cl.editor.job) == Some(k) {
      ImageDoneShape(s, page, cl, d, reply, disk, now);
    }
  }

  /** A failed answer leaves the browser's storage alone. */
  lemma FailureDevice(cl: Client, d: Device, k: nat, now: nat, next: nat)
    ensures Failure(cl, d, k, now, next).device == d && Failure(cl, d, k, now, next).send == None
  {
  }

  lemma UploadedAttached(s: Server, v: nat, r: nat, client: nat, digest: nat)
    requires ServerOk(s) && UploadImage(s, v, r, client, digest).1.Uploaded?
    ensures var (t, reply) := UploadImage(s, v, r, client, digest);
      reply.image.client == client && EverAttached(t, client)
  {
    UploadedOnTop(s, v, r, client, digest);
  }

  lemma ReplyIsTrue(s: System, a: Answer)
    requires SystemOk(s) && AnswerShape(s, a)
    ensures ReplyShape(s.server, ReplyTo(s, a))
  {
    var q := s.calls[a.call].request;
    var t := Serve(a.at, q).0;
    match q
    case Read =>
      ReadCurrentTrue(a.at);
      ReadingTrueStable(a.at, s.server, ReadCurrent(a.at));
    case Upload(v, r, x, digest) =>
      if ReplyTo(s, a).Uploaded? {
        UploadedAttached(a.at, v, r, x, digest);
        EverAttachedStable(t, s.server, x);
      }
    case _ =>
  }

  lemma PutAllOk(store: Store, records: seq<Record>, failed: set<nat>)
    requires StoreOk(store)
    ensures StoreOk(PutAll(store, records, failed))
  {
  }

  /** A click that sends the request its submission waits for. */
  lemma AskingShape(s: System, page: nat, cl: Client, d: Device, e: Effect)
    requires Ready(s, cl, d) && e.device.store == d.store && e.send.Some? && !e.send.value.Upload? && !e.send.value.Remove?
    requires e.client.panel == cl.panel.(intent := e.client.panel.intent, submit := e.client.panel.submit)
    requires e.client.loads == cl.loads && e.client.editor == cl.editor
    requires e.client.panel.submit.Rechecking? ==> e.client.panel.submit.call == |s.calls| && e.send == Some(Read)
    requires e.client.panel.submit.Sealing? ==> e.client.panel.submit.call == |s.calls| && e.send == Some(SealRequest(e.client.panel.submit.intent))
    ensures EffectShape(s, page, e)
  {
    ExtendsReflexive(s.server);
    ClientShapeStable(s.server, s.server, s.calls, SentCalls(s, page, e), cl);
  }

  lemma SubmitShape(s: System, page: nat, cl: Client, d: Device, key: nat, written: bool)
    requires Ready(s, cl, d) && cl.panel.pair.version.Some?
    ensures EffectShape(s, page, SubmitClick(cl, d, key, written, |s.calls|))
  {
    AskingShape(s, page, cl, d, SubmitClick(cl, d, key, written, |s.calls|));
  }

  lemma ChooseShape(s: System, page: nat, cl: Client, d: Device, digests: seq<nat>, first: nat, failed: set<nat>, now: nat)
    requires Ready(s, cl, d) && digests != []
    ensures EffectShape(s, page, Choose(cl, d, digests, first, failed, now))
  {
    var records := NewRecords(cl.panel.pair, digests, first, now);
    PutAllOk(d.store, records, failed);
    var queue := cl.editor.queue + Waiters(records);
    SettleShape(s, cl.(editor := cl.editor.(queue := queue, waiting := records)), d);
  }

  lemma RetryShape(s: System, page: nat, cl: Client, d: Device, x: nat)
    requires Ready(s, cl, d)
    ensures EffectShape(s, page, Retry(cl, d, x, |s.calls|))
  {
    var e := Retry(cl, d, x, |s.calls|);
    ClientShapeStable(s.server, s.server, s.calls, SentCalls(s, page, e), cl);
  }

  lemma RemoveClickShape(s: System, page: nat, cl: Client, d: Device, target: Image)
    requires Ready(s, cl, d)
    ensures EffectShape(s, page, RemoveClick(cl, d, target, |s.calls|))
  {
    var e := RemoveClick(cl, d, target, |s.calls|);
    ClientShapeStable(s.server, s.server, s.calls, SentCalls(s, page, e), cl);
  }

  lemma ResolveShape(s: System, page: nat, cl: Client, d: Device, merge: bool)
    requires Ready(s, cl, d) && cl.panel.conflict.Some? && !cl.panel.conflict.value.versionChanged
    ensures EffectShape(s, page, Stay(cl.(panel := Resolve(cl.panel, merge)), d))
  {
  }

  lemma PartialStoreOk(store: Store, part: Store)
    requires StoreOk(store) && forall k :: k in part ==> k in store && part[k] == store[k]
    ensures StoreOk(part)
  {
  }

  /** A step of one page that sends nothing and calls nobody. */
  lemma SilentShape(s: System, page: nat, cl: Client, d: Device, e: Effect)
    requires Ready(s, cl, d) && e.send == None && StoreOk(e.device.store)
    requires PanelShape(s.server, s.calls, e.client.panel) && e.client.loads == cl.loads && e.client.editor.job == cl.editor.job
    requires e.client.editor.recovering.Some? ==> ImagesTrue(s.server, e.client.editor.recovering.value.attached)
    ensures EffectShape(s, page, e)
  {
  }

  lemma RecoveryShape(s: System, page: nat, cl: Client, d: Device, e: Event)
    requires Ready(s, cl, d) && Allowed(cl, d, e) && (e.StartRecovery? || e.EndRecovery?)
    ensures EffectShape(s, page, Act(s, cl, d, e))
  {
    var eff := Act(s, cl, d, e);
    PartialStoreOk(d.store, eff.device.store);
    SilentShape(s, page, cl, d, eff);
  }

  lemma LocalShape(s: System, page: nat, cl: Client, d: Device, e: Event)
    requires Ready(s, cl, d) && Allowed(cl, d, e)
    requires e.Typing? || e.DiscardPending? || e.StoreCopy? || e.FindsLegacyCopy?
    ensures EffectShape(s, page, Act(s, cl, d, e))
  {
    SilentShape(s, page, cl, d, Act(s, cl, d, e));
  }

  lemma AnsweredShape(s: System, page: nat, cl: Client, d: Device, a: Answer, found: Found, disk: Disk, now: nat)
    requires SystemOk(s) && Ready(s, cl, d) && AnswerShape(s, a)
    ensures EffectShape(s, page, Arrive(cl, d, a.call, ReplyTo(s, a), found, disk, now, |s.calls|))
  {
    ReplyIsTrue(s, a);
    ArriveShape(s, page, cl, d, a.call, ReplyTo(s, a), found, disk, now);
  }

  lemma DeliverAct(s: System, cl: Client, d: Device, e: Event)
    requires e.Deliver? && e.answer < |s.answers| && s.answers[e.answer].call < |s.calls|
    ensures var a := s.answers[e.answer]; Act(s, cl, d, e) == Arrive(cl, d, a.call, ReplyTo(s, a), e.found, e.disk, e.now, |s.calls|)
  {
  }

  lemma DeliverNothing(s: System, cl: Client, d: Device, e: Event)
    requires e.Deliver? && !(e.answer < |s.answers| && s.answers[e.answer].call < |s.calls|)
    ensures Act(s, cl, d, e) == Stay(cl, d)
  {
  }

  lemma DeliverShape(s: System, page: nat, cl: Client, d: Device, e: Event)
    requires SystemOk(s) && Ready(s, cl, d) && e.Deliver?
    ensures EffectShape(s, page, Act(s, cl, d, e))
  {
    if e.answer < |s.answers| && s.answers[e.answer].call < |s.calls| {
      DeliverAct(s, cl, d, e);
      assert AnswerShape(s, s.answers[e.answer]);
      AnsweredShape(s, page, cl, d, s.answers[e.answer], e.found, e.disk, e.now);
    } else {
      DeliverNothing(s, cl, d, e);
      QuietShape(s, page, cl, d);
    }
  }

  lemma ImageClickShape(s: System, page: nat, cl: Client, d: Device, e: Event)
    requires Ready(s, cl, d) && Allowed(cl, d, e)
    requires e.ChooseFiles? || e.Proceed? || e.RetryImage? || e.RemoveAttached?
    ensures EffectShape(s, page, Act(s, cl, d, e))
  {
    match e
    case ChooseFiles(_, digests, failed, now) => ChooseShape(s, page, cl, d, digests, s.nextImage, failed, now);
    case Proceed(_) => StartPrepareShape(s, page, cl, d, cl.editor.job.purpose);
    case RetryImage(_, x) => RetryShape(s, page, cl, d, x);
    case RemoveAttached(_, target) => RemoveClickShape(s, page, cl, d, target);
  }

  lemma ReadOrSaveShape(s: System, page: nat, cl: Client, d: Device, e: Event)
    requires Ready(s, cl, d) && Allowed(cl, d, e) && (e.StartLoadUnit? || e.AutosaveTimer? || e.RetrySaveClick?)
    ensures EffectShape(s, page, Act(s, cl, d, e))
  {
    if e.StartLoadUnit? {
      StartLoadShape(s, page, cl, d, false);
    } else {
      StartSaveShape(s, page, cl, d);
    }
  }

  lemma ResolveClickShape(s: System, page: nat, cl: Client, d: Device, e: Event)
    requires Ready(s, cl, d) && Allowed(cl, d, e) && e.ResolveClick?
    ensures EffectShape(s, page, Act(s, cl, d, e))
  {
    if cl.panel.conflict.value.versionChanged {
      StartLoadShape(s, page, cl, d, true);
    } else {
      ResolveShape(s, page, cl, d, e.merge);
    }
  }

  lemma SubmitClickShape(s: System, page: nat, cl: Client, d: Device, e: Event)
    requires Ready(s, cl, d) && Allowed(cl, d, e) && e.Submit?
    ensures EffectShape(s, page, Act(s, cl, d, e))
  {
    SubmitShape(s, page, cl, d, s.nextKey, e.written);
  }

  lemma LoseShape(s: System, page: nat, cl: Client, d: Device, e: Event)
    requires Ready(s, cl, d) && (e.Lose? || e.Unmounts?)
    ensures EffectShape(s, page, Act(s, cl, d, e))
  {
    FailureShape(s, page, cl, d, e.call, e.now);
    FailureDevice(cl, d, e.call, e.now, |s.calls|);
    UnmountShape(s, page, Failure(cl, d, e.call, e.now, |s.calls|));
  }

  lemma FailureShape(s: System, page: nat, cl: Client, d: Device, k: nat, now: nat)
    requires Ready(s, cl, d)
    ensures EffectShape(s, page, Failure(cl, d, k, now, |s.calls|))
  {
    ArriveShape(s, page, cl, d, k, Refused, Found(true, true), Disk(true, true, true), now);
  }

  lemma UnmountShape(s: System, page: nat, e: Effect)
    requires EffectShape(s, page, e) && e.send == None
    ensures EffectShape(s, page, e.(client := Unmount(e.client)))
  {
  }

  lemma IdleShape(s: System, page: nat, cl: Client, d: Device, e: Event)
    requires Ready(s, cl, d) && (e.ServeCall? || e.TeacherDecides? || e.RecordsClose? || e.Open?)
    ensures EffectShape(s, page, Act(s, cl, d, e))
  {
    QuietShape(s, page, cl, d);
  }

  lemma ActShape(s: System, page: nat, cl: Client, d: Device, e: Event)
    requires SystemOk(s) && Ready(s, cl, d) && Allowed(cl, d, e)
    ensures EffectShape(s, page, Act(s, cl, d, e))
  {
    if e.Deliver? {
      DeliverShape(s, page, cl, d, e);
    } else if e.Lose? || e.Unmounts? {
      LoseShape(s, page, cl, d, e);
    } else if e.ServeCall? || e.TeacherDecides? || e.RecordsClose? || e.Open? {
      IdleShape(s, page, cl, d, e);
    } else if e.StartRecovery? || e.EndRecovery? {
      RecoveryShape(s, page, cl, d, e);
    } else if e.Typing? || e.DiscardPending? || e.StoreCopy? || e.FindsLegacyCopy? {
      LocalShape(s, page, cl, d, e);
    } else if e.ChooseFiles? || e.Proceed? || e.RetryImage? || e.RemoveAttached? {
      ImageClickShape(s, page, cl, d, e);
    } else if e.ResolveClick? {
      ResolveClickShape(s, page, cl, d, e);
    } else if e.Submit? {
      SubmitClickShape(s, page, cl, d, e);
    } else {
      ReadOrSaveShape(s, page, cl, d, e);
    }
  }

  lemma ApplyOk(s: System, page: nat, e: Effect)
    requires SystemOk(s) && Live(s, page) && EffectShape(s, page, e) && e.client.device == s.clients[page].device
    ensures SystemOk(Apply(s, page, e))
  {
    var t := Apply(s, page, e);
    forall c | c in t.clients ensures Live(t, c) && ClientShape(t.server, t.calls, t.clients[c]) {
      if c != page {
        ClientShapeStable(s.server, s.server, s.calls, t.calls, s.clients[c]);
      }
    }
    forall i | 0 <= i < |t.answers| ensures AnswerShape(t, t.answers[i]) {
      assert AnswerShape(s, s.answers[i]);
    }
  }

  lemma PageStepOk(s: System, page: nat, e: Event)
    requires SystemOk(s)
    ensures SystemOk(PageStep(s, page, e))
    ensures PageStep(s, page, e).server == s.server
  {
    if Live(s, page) {
      var cl := s.clients[page];
      var d := s.devices[cl.device];
      if Allowed(cl, d, e) {
        ActShape(s, page, cl, d, e);
        ApplyOk(s, page, Act(s, cl, d, e));
        var t := Apply(s, page, Act(s, cl, d, e));
        RenumberOk(t, PageStep(s, page, e));
      }
    }
  }

  lemma RenumberOk(s: System, t: System)
    requires SystemOk(s) && t == s.(nextImage := t.nextImage, nextKey := t.nextKey)
    ensures SystemOk(t)
  {
    forall i | 0 <= i < |t.answers| ensures AnswerShape(t, t.answers[i]) {
      assert AnswerShape(s, s.answers[i]);
    }
  }

  /** The server moves on; everything said about its past stays true. */
  lemma ServerMovesOk(s: System, t: Server)
    requires SystemOk(s) && ServerOk(t) && Extends(s.server, t)
    ensures SystemOk(s.(server := t))
  {
    var u := s.(server := t);
    forall k | 0 <= k < |u.calls| ensures CallShape(t, u.calls[k]) {
      ExtendsTransitive(s.calls[k].floor, s.server, t);
    }
    forall i | 0 <= i < |u.answers| ensures AnswerShape(u, u.answers[i]) {
      assert AnswerShape(s, s.answers[i]);
      ExtendsTransitive(Serve(s.answers[i].at, s.calls[s.answers[i].call].request).0, s.server, t);
    }
    forall c | c in u.clients ensures Live(u, c) && ClientShape(t, u.calls, u.clients[c]) {
      ClientShapeStable(s.server, t, s.calls, s.calls, s.clients[c]);
    }
  }

  lemma ServeOk(s: System, k: nat)
    requires SystemOk(s) && k < |s.calls|
    ensures SystemOk(Next(s, ServeCall(k))) && Extends(s.server, Next(s, ServeCall(k)).server)
  {
    var q := s.calls[k].request;
    ServeKeeps(s.server, q);
    ServerMovesOk(s, Serve(s.server, q).0);
    var t := Next(s, ServeCall(k));
    ExtendsReflexive(t.server);
    forall i | 0 <= i < |t.answers| ensures AnswerShape(t, t.answers[i]) {
      if i < |s.answers| {
        assert AnswerShape(s.(server := t.server), s.answers[i]);
      }
    }
  }

  lemma OpenOk(s: System, e: Event)
    requires SystemOk(s) && e.Open?
    ensures SystemOk(Next(s, e)) && Next(s, e).server == s.server
  {
    var t := Next(s, e);
    forall c | c in t.clients ensures Live(t, c) && ClientShape(t.server, t.calls, t.clients[c]) {
      if c != e.page {
        assert Live(s, c);
      }
    }
    forall i | 0 <= i < |t.answers| ensures AnswerShape(t, t.answers[i]) {
      assert AnswerShape(s, s.answers[i]);
    }
  }

  /** The teacher's decisions and the closing of the records. */
  lemma RulingOk(s: System, e: Event)
    requires SystemOk(s) && (e.TeacherDecides? || e.RecordsClose?)
    ensures SystemOk(Next(s, e)) && Extends(s.server, Next(s, e).server)
  {
    if e.TeacherDecides? {
      DecideKeeps(s.server, e.accept);
      ServerMovesOk(s, Decide(s.server, e.accept));
    } else {
      CloseKeeps(s.server);
      ServerMovesOk(s, CloseRecords(s.server));
    }
  }

  /** Every event keeps the structure, and no event ever takes anything out of the server's history. */
  lemma NextOk(s: System, e: Event)
    requires SystemOk(s)
    ensures SystemOk(Next(s, e)) && Extends(s.server, Next(s, e).server)
  {
    if e.ServeCall? {
      if e.call < |s.calls| {
        ServeOk(s, e.call);
      }
    } else if e.TeacherDecides? || e.RecordsClose? {
      RulingOk(s, e);
    } else if e.Open? {
      OpenOk(s, e);
    } else {
      PageEventOk(s, e);
    }
  }

  lemma PageEventOk(s: System, e: Event)
    requires SystemOk(s) && !e.ServeCall? && !e.TeacherDecides? && !e.RecordsClose? && !e.Open?
    ensures SystemOk(Next(s, e)) && Extends(s.server, Next(s, e).server)
  {
    ExtendsReflexive(s.server);
    if EventPage(s, e).Some? {
      PageStepOk(s, EventPage(s, e).value, e);
    }
  }

  lemma {:induction false} ExecOk(s: System, events: seq<Event>)
    requires SystemOk(s)
    ensures SystemOk(Exec(s, events)) && Extends(s.server, Exec(s, events).server)
  {
    if events == [] {
      ExtendsReflexive(s.server);
    } else {
      var before := Exec(s, events[..|events| - 1]);
      ExecOk(s, events[..|events| - 1]);
      NextOk(before, events[|events| - 1]);
      ExtendsTransitive(s.server, before.server, Next(before, events[|events| - 1]).server);
    }
  }

  lemma InitOk(replays: bool)
    ensures SystemOk(Init(replays))
  {
  }

  // ---------------------------------------------------------------- locality

  /** An event of one page touches that page and its device, and nothing else. */
  lemma PageNext(s: System, e: Event, page: nat)
    requires SystemOk(s) && page in s.clients && EventPage(s, e) == Some(page) && !e.Open?
    ensures var cl := s.clients[page];
      var d := s.devices[cl.device];
      var t := Next(s, e);
      && t.server == s.server && t.answers == s.answers
      && (if Allowed(cl, d, e) then
            var eff := Act(s, cl, d, e);
            && t.clients == s.clients[page := eff.client] && t.devices == s.devices[cl.device := eff.device]
            && t.calls == SentCalls(s, page, eff)
            && t.nextImage == s.nextImage + (if e.ChooseFiles? then |e.digests| else 0)
            && t.nextKey == s.nextKey + (if e.Submit? then 1 else 0)
          else t == s)
  {
    assert Live(s, page);
    LiveNext(s, e, page);
  }

  lemma LiveNext(s: System, e: Event, page: nat)
    requires Live(s, page) && EventPage(s, e) == Some(page) && !e.Open?
    ensures var cl := s.clients[page];
      var d := s.devices[cl.device];
      var t := Next(s, e);
      && t.server == s.server && t.answers == s.answers
      && (if Allowed(cl, d, e) then
            var eff := Act(s, cl, d, e);
            && t.clients == s.clients[page := eff.client] && t.devices == s.devices[cl.device := eff.device]
            && t.calls == SentCalls(s, page, eff)
            && t.nextImage == s.nextImage + (if e.ChooseFiles? then |e.digests| else 0)
            && t.nextKey == s.nextKey + (if e.Submit? then 1 else 0)
          else t == s)
  {
    NextIsPageStep(s, e, page);
  }

  lemma NextIsPageStep(s: System, e: Event, page: nat)
    requires EventPage(s, e) == Some(page) && !e.Open?
    ensures Next(s, e) == PageStep(s, page, e)
  {
  }

  /** Opening a page leaves the others alone, and every device that is known already. */
  lemma OpenNext(s: System, e: Event)
    requires e.Open?
    ensures var t := Next(s, e);
      && t.server == s.server && t.calls == s.calls && t.answers == s.answers && t.nextImage == s.nextImage && t.nextKey == s.nextKey
      && t.clients == s.clients[e.page := t.clients[e.page]] && (forall d :: d in s.devices ==> d in t.devices && t.devices[d] == s.devices[d])
  {
  }

  /** An event of a page that was never opened does nothing. */
  lemma NobodyStays(s: System, e: Event)
    requires !e.Open? && EventPage(s, e).Some? && EventPage(s, e).value !in s.clients
    ensures Next(s, e) == s
  {
  }

  /** An event of the server moves nothing but the server and its answers. */
  lemma ServerFields(s: System, e: Event)
    requires EventPage(s, e) == None && !e.Open?
    ensures Next(s, e) == s.(server := Next(s, e).server, answers := Next(s, e).answers)
  {
  }

  /** Any other event leaves the page alone. */
  lemma OtherNext(s: System, e: Event, page: nat)
    requires SystemOk(s) && page in s.clients
    requires EventPage(s, e) != Some(page)
    ensures page in Next(s, e).clients && Next(s, e).clients[page] == s.clients[page]
  {
    var who := EventPage(s, e);
    if e.Open? {
      OpenNext(s, e);
    } else if who == None {
      ServerFields(s, e);
    } else if who.value !in s.clients {
      NobodyStays(s, e);
    } else {
      PageNext(s, e, who.value);
    }
  }

  /** Events of the server and the opening of pages change nothing on a known device. */
  lemma NobodyNext(s: System, e: Event, device: nat)
    requires device in s.devices
    requires e.Open? || EventPage(s, e) == None || EventPage(s, e).value !in s.clients
    ensures device in Next(s, e).devices && Next(s, e).devices[device] == s.devices[device]
  {
    if e.Open? {
      OpenNext(s, e);
    } else if EventPage(s, e) == None {
      ServerFields(s, e);
    } else {
      NobodyStays(s, e);
    }
  }
}

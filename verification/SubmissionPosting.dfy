/**
 * At most once in a shared browser. Tabs of one browser share the recovery store and so the queued
 * images, and the page does not look at the attachments again before it posts. This module says
 * exactly when a post is safe whatever happened before, and that a run in which every post is safe
 * attaches no id twice, on any devices and without help from the store.
 */
module SubmissionPosting {
  import opened Prelude
  import opened SubmissionServer
  import opened SubmissionHistory
  import opened PracticePanel
  import opened ImageQueue
  import opened PracticeClient
  import opened SubmissionProtocol
  import opened SubmissionStructure
  import opened SubmissionUploads

  // ---------------------------------------------------------------- one post

  /** In every history that can give this reading, the upload based on it keeps ids single. */
  ghost predicate PostKeepsOnce(current: Reading, x: nat, digest: nat)
    requires current.version.Some?
  {
    forall s :: ServerOk(s) && AttachedOnce(s) && ReadingTrue(s, current) ==>
      AttachedOnce(UploadImage(s, current.version.value, current.revision, x, digest).0)
  }

  /** The history that ends with the reading, in a store that replays nothing. */
  function UpTo(s: Server, current: Reading): Server
    requires current.version.Some? && current.version.value < |s.versions| && current.revision <= |s.versions[current.version.value].snaps|
  {
    var v := current.version.value;
    Server(s.versions[..v] + [Version(s.versions[v].snaps[..current.revision], false)], Draft, map[], s.nextImage, false, false)
  }

  lemma UpToOk(s: Server, current: Reading)
    requires ServerOk(s) && AttachedOnce(s) && ReadingTrue(s, current) && current.version.Some? && !current.isSealed
    ensures ServerOk(UpTo(s, current)) && AttachedOnce(UpTo(s, current)) && ReadingTrue(UpTo(s, current), current)
  {
    var t := UpTo(s, current);
    forall w | 0 <= w < |t.versions| ensures VersionOk(t, w) {
      assert VersionOk(s, w);
    }
    forall v, r | 0 <= v < |t.versions| && 0 <= r < |t.versions[v].snaps| ensures Distinct(t.versions[v].snaps[r].images) {
      assert t.versions[v].snaps[r] == s.versions[v].snaps[r];
    }
  }

  lemma TwiceInOne(images: seq<Image>, image: Image)
    requires HasClient(images, image.client)
    ensures !Distinct(images + [image])
  {
    var i :| 0 <= i < |images| && images[i].client == image.client;
    var all := images + [image];
    assert all[i].client == all[|images|].client;
  }

  lemma ListedAttachesTwice(s: Server, current: Reading, x: nat, digest: nat)
    requires ServerOk(s) && AttachedOnce(s) && ReadingTrue(s, current) && current.version.Some? && !current.isSealed
    requires HasClient(current.images, x) && |current.images| < IMAGE_LIMIT
    ensures !AttachedOnce(UploadImage(UpTo(s, current), current.version.value, current.revision, x, digest).0)
  {
    UpToOk(s, current);
    var t := UpTo(s, current);
    var v := current.version.value;
    var u := UploadImage(t, v, current.revision, x, digest).0;
    var image := Image(t.nextImage, x, v, digest);
    assert u.versions[v].snaps[current.revision].images == current.images + [image];
    TwiceInOne(current.images, image);
  }

  lemma FullRefuses(s: Server, current: Reading, x: nat, digest: nat)
    requires ServerOk(s) && ReadingTrue(s, current) && current.version.Some?
    requires |current.images| >= IMAGE_LIMIT && HasClient(current.images, x)
    ensures UploadImage(s, current.version.value, current.revision, x, digest).0 == s
  {
    assert VersionOk(s, current.version.value);
  }

  /**
   * The exact condition for a post: based on an unsealed reading, it keeps every history free of
   * double attachments exactly when the reading does not list the image, or is full, in which case
   * the store refuses.
   */
  lemma PostIff(s: Server, current: Reading, x: nat, digest: nat)
    requires ServerOk(s) && AttachedOnce(s) && ReadingTrue(s, current) && current.version.Some? && !current.isSealed
    ensures PostKeepsOnce(current, x, digest) <==> !HasClient(current.images, x) || |current.images| >= IMAGE_LIMIT
  {
    if !HasClient(current.images, x) || |current.images| >= IMAGE_LIMIT {
      forall t | ServerOk(t) && AttachedOnce(t) && ReadingTrue(t, current)
        ensures AttachedOnce(UploadImage(t, current.version.value, current.revision, x, digest).0)
      {
        if HasClient(current.images, x) {
          FullRefuses(t, current, x, digest);
        } else {
          NotAttachedIsAbsent(t, current, x);
          UploadKeepsAttachedOnce(t, current.version.value, current.revision, x, digest);
        }
      }
    } else {
      UpToOk(s, current);
      ListedAttachesTwice(s, current, x, digest);
    }
  }

  // ---------------------------------------------------------------- whole runs

  /** The upload running on page `page` is based on a reading that does not list its image. */
  ghost predicate PostsUnlisted(s: System, page: nat) {
    page in s.clients && s.clients[page].editor.job.Posting? &&
    !HasClient(s.clients[page].editor.job.current.images, s.clients[page].editor.job.record.client)
  }

  /** If the event sends an upload, it does so on the strength of a reading without the image. */
  ghost predicate Guarded(s: System, e: Event) {
    var t := Next(s, e);
    |t.calls| > |s.calls| && t.calls[|s.calls|].request.Upload? ==> PostsUnlisted(t, t.calls[|s.calls|].client)
  }

  ghost predicate GuardedRun(s: System, events: seq<Event>) {
    events == [] ||
    (GuardedRun(s, events[..|events| - 1]) && Guarded(Exec(s, events[..|events| - 1]), events[|events| - 1]))
  }

  ghost predicate UploadsFresh(s: System) {
    forall k :: 0 <= k < |s.calls| && s.calls[k].request.Upload? ==>
      AbsentAt(s.server, s.calls[k].request.version, s.calls[k].request.revision, s.calls[k].request.client)
  }

  lemma FreshStays(s: System, t: System, k: nat)
    requires UploadsFresh(s) && Extends(s.server, t.server) && k < |s.calls| <= |t.calls| && t.calls[k] == s.calls[k]
    ensures t.calls[k].request.Upload? ==>
      AbsentAt(t.server, t.calls[k].request.version, t.calls[k].request.revision, t.calls[k].request.client)
  {
    var q := s.calls[k].request;
    if q.Upload? {
      AbsentAtStable(s.server, t.server, q.version, q.revision, q.client);
    }
  }

  /** What a posting page was told by its last reading is what its request carries. */
  ghost predicate SentByJob(job: Job, q: Request) {
    job.Posting? && job.current.version.Some? &&
    q == Upload(job.current.version.value, job.current.revision, job.record.client, job.record.digest)
  }

  lemma SentUploadByJob(s: System, e: Event, page: nat)
    requires SystemOk(s) && page in s.clients && EventPage(s, e) == Some(page) && !e.Open?
    requires Allowed(s.clients[page], s.devices[s.clients[page].device], e)
    requires var eff := Act(s, s.clients[page], s.devices[s.clients[page].device], e); eff.send.Some? && eff.send.value.Upload?
    ensures var eff := Act(s, s.clients[page], s.devices[s.clients[page].device], e); SentByJob(eff.client.editor.job, eff.send.value)
  {
    var cl := s.clients[page];
    var d := s.devices[cl.device];
    if e.Deliver? && e.answer < |s.answers| && s.answers[e.answer].call < |s.calls| {
      ArriveUploads(cl, d, s.answers[e.answer].call, ReplyTo(s, s.answers[e.answer]), e.found, e.disk, e.now, |s.calls|);
    } else if e.Lose? || e.Unmounts? {
      FailureDevice(cl, d, e.call, e.now, |s.calls|);
    }
  }

  ghost predicate UploadsByJob(e: Effect) {
    e.send.Some? && e.send.value.Upload? ==> SentByJob(e.client.editor.job, e.send.value)
  }

  lemma ArriveUploads(cl: Client, d: Device, k: nat, reply: Reply, found: Found, disk: Disk, now: nat, next: nat)
    ensures UploadsByJob(Arrive(cl, d, k, reply, found, disk, now, next))
  {
    if cl.panel.saving.Some? && cl.panel.saving.value.call == k {
    } else if cl.panel.submit.Rechecking? && cl.panel.submit.call == k {
    } else if cl.panel.submit.Sealing? && cl.panel.submit.call == k {
    } else if k in cl.loads {
    } else if JobCall(cl.editor.job) == Some(k) {
      ImageUploads(cl, d, reply, disk, now, next);
    }
  }

  lemma PostUploads(cl: Client, d: Device, r: Record, current: Reading, disk: Disk, now: nat, next: nat)
    ensures UploadsByJob(Post(cl, d, r, current, disk, now, next))
  {
  }

  lemma PreparedUploads(cl: Client, d: Device, r: Reading, purpose: Purpose, disk: Disk, now: nat, next: nat)
    ensures UploadsByJob(Prepared(cl, d, r, purpose, disk, now, next))
  {
    if ReadbackMatches(cl.panel, r) && !purpose.Removal? {
      PostUploads(cl.(panel := ImageUpdate(cl.panel, r)), d, purpose.record, r, disk, now, next);
    }
  }

  lemma ImageUploads(cl: Client, d: Device, reply: Reply, disk: Disk, now: nat, next: nat)
    ensures UploadsByJob(ImageDone(cl, d, reply, disk, now, next))
  {
    if reply.Snapshot? && !reply.reading.closed {
      if cl.editor.job.Preparing? {
        PreparedUploads(cl, d, reply.reading, cl.editor.job.purpose, disk, now, next);
      } else if cl.editor.job.Checking? && !cl.editor.job.purpose.Removal? {
        PostUploads(cl, d, cl.editor.job.purpose.record, reply.reading, disk, now, next);
      }
    }
  }

  /** The event's new call is an upload: a page sent it from the job it now runs. */
  lemma NewUpload(s: System, e: Event) returns (page: nat)
    requires SystemOk(s) && |Next(s, e).calls| > |s.calls| && Next(s, e).calls[|s.calls|].request.Upload?
    ensures var t := Next(s, e);
      && page in t.clients && t.calls[|s.calls|].client == page
      && SentByJob(t.clients[page].editor.job, t.calls[|s.calls|].request)
  {
    if e.Open? || EventPage(s, e) == None || EventPage(s, e).value !in s.clients {
      OthersSameCalls(s, e);
    }
    page := EventPage(s, e).value;
    PageNext(s, e, page);
    SentUploadByJob(s, e, page);
  }

  lemma JobReads(s: System, page: nat, q: Request)
    requires SystemOk(s) && page in s.clients && SentByJob(s.clients[page].editor.job, q)
    ensures ReadingTrue(s.server, s.clients[page].editor.job.current)
  {
    assert ClientShape(s.server, s.calls, s.clients[page]);
  }

  lemma UnlistedIsAbsent(s: System, page: nat, q: Request)
    requires SystemOk(s) && page in s.clients && SentByJob(s.clients[page].editor.job, q)
    ensures PostsUnlisted(s, page) <==> AbsentAt(s.server, q.version, q.revision, q.client)
  {
    JobReads(s, page, q);
    var job := s.clients[page].editor.job;
    if !HasClient(job.current.images, job.record.client) {
      NotAttachedIsAbsent(s.server, job.current, job.record.client);
    }
  }

  /** A guarded upload names a snapshot without its id. */
  lemma GuardedCallFresh(s: System, e: Event)
    requires SystemOk(s) && Guarded(s, e) && |Next(s, e).calls| > |s.calls| && Next(s, e).calls[|s.calls|].request.Upload?
    ensures var t := Next(s, e);
      var q := t.calls[|s.calls|].request;
      AbsentAt(t.server, q.version, q.revision, q.client)
  {
    NextOk(s, e);
    var page := NewUpload(s, e);
    UnlistedIsAbsent(Next(s, e), page, Next(s, e).calls[|s.calls|].request);
  }

  lemma PageCallsGrow(s: System, e: Event, page: nat)
    requires SystemOk(s) && page in s.clients && EventPage(s, e) == Some(page) && !e.Open?
    ensures s.calls <= Next(s, e).calls && |Next(s, e).calls| <= |s.calls| + 1
  {
    PageNext(s, e, page);
  }

  lemma CallsGrow(s: System, e: Event)
    requires SystemOk(s)
    ensures s.calls <= Next(s, e).calls && |Next(s, e).calls| <= |s.calls| + 1
  {
    if !e.Open? && EventPage(s, e).Some? && EventPage(s, e).value in s.clients {
      PageCallsGrow(s, e, EventPage(s, e).value);
    } else {
      OthersSameCalls(s, e);
    }
  }

  lemma OthersSameCalls(s: System, e: Event)
    requires e.Open? || EventPage(s, e) == None || EventPage(s, e).value !in s.clients
    ensures Next(s, e).calls == s.calls
  {
  }

  lemma NextGuarded(s: System, e: Event)
    requires SystemOk(s) && AttachedOnce(s.server) && UploadsFresh(s) && Guarded(s, e)
    ensures AttachedOnce(Next(s, e).server) && UploadsFresh(Next(s, e))
  {
    NextGuardedOnce(s, e);
    NextGuardedFresh(s, e);
  }

  lemma NextGuardedOnce(s: System, e: Event)
    requires SystemOk(s) && AttachedOnce(s.server) && UploadsFresh(s)
    ensures AttachedOnce(Next(s, e).server)
  {
    NextAttachedOnce(s, e);
  }

  lemma NextGuardedFresh(s: System, e: Event)
    requires SystemOk(s) && UploadsFresh(s) && Guarded(s, e)
    ensures UploadsFresh(Next(s, e))
  {
    CallsGrow(s, e);
    OldCallsFresh(s, e);
    if |Next(s, e).calls| > |s.calls| && Next(s, e).calls[|s.calls|].request.Upload? {
      GuardedCallFresh(s, e);
    }
    FreshOneMore(s, Next(s, e));
  }

  lemma FreshOneMore(s: System, t: System)
    requires s.calls <= t.calls && |t.calls| <= |s.calls| + 1
    requires forall k :: 0 <= k < |s.calls| && s.calls[k].request.Upload? ==>
      AbsentAt(t.server, s.calls[k].request.version, s.calls[k].request.revision, s.calls[k].request.client)
    requires |t.calls| > |s.calls| && t.calls[|s.calls|].request.Upload? ==>
      AbsentAt(t.server, t.calls[|s.calls|].request.version, t.calls[|s.calls|].request.revision, t.calls[|s.calls|].request.client)
    ensures UploadsFresh(t)
  {
    forall k | 0 <= k < |t.calls| && t.calls[k].request.Upload?
      ensures AbsentAt(t.server, t.calls[k].request.version, t.calls[k].request.revision, t.calls[k].request.client)
    {
      if k < |s.calls| {
        assert t.calls[k] == s.calls[k];
      }
    }
  }

  lemma OldCallsFresh(s: System, e: Event)
    requires SystemOk(s) && UploadsFresh(s) && s.calls <= Next(s, e).calls
    ensures forall k :: 0 <= k < |s.calls| && s.calls[k].request.Upload? ==>
      AbsentAt(Next(s, e).server, s.calls[k].request.version, s.calls[k].request.revision, s.calls[k].request.client)
  {
    NextOk(s, e);
    forall k | 0 <= k < |s.calls| && s.calls[k].request.Upload?
      ensures AbsentAt(Next(s, e).server, s.calls[k].request.version, s.calls[k].request.revision, s.calls[k].request.client)
    {
      FreshStays(s, Next(s, e), k);
    }
  }

  lemma {:induction false} ExecGuarded(s: System, events: seq<Event>)
    requires SystemOk(s) && AttachedOnce(s.server) && UploadsFresh(s) && GuardedRun(s, events)
    ensures AttachedOnce(Exec(s, events).server) && UploadsFresh(Exec(s, events))
  {
    if events != [] {
      ExecGuarded(s, events[..|events| - 1]);
      ExecOk(s, events[..|events| - 1]);
      NextGuarded(Exec(s, events[..|events| - 1]), events[|events| - 1]);
    }
  }

  /**
   * At most once on any devices: in every run of any pages and tabs, shared recovery stores
   * included, in which no page posts an image that the reading it posts with already lists, no
   * snapshot ever holds a client id twice, even without the store's replay branch.
   */
  lemma AttachedOnceIfGuarded(replays: bool, events: seq<Event>)
    requires GuardedRun(Init(replays), events)
    ensures AttachedOnce(Exec(Init(replays), events).server)
  {
    InitOk(replays);
    ExecGuarded(Init(replays), events);
  }

  /** Pages on their own devices need no guard: they never post a listed image. */
  lemma {:induction false} OwnDevicesAreGuarded(s: System, events: seq<Event>)
    requires UploadInv(s) && OwnDevices(events)
    ensures GuardedRun(s, events)
  {
    if events != [] {
      var front := events[..|events| - 1];
      OwnDevicesAreGuarded(s, front);
      ExecUploadInv(s, front);
      OwnStepGuarded(Exec(s, front), events[|events| - 1]);
    }
  }

  lemma OwnStepGuarded(s: System, e: Event)
    requires UploadInv(s) && (e.Open? ==> e.device == e.page)
    ensures Guarded(s, e)
  {
    var t := Next(s, e);
    if |t.calls| > |s.calls| && t.calls[|s.calls|].request.Upload? {
      NextUploadInv(s, e);
      var page := NewUpload(s, e);
      assert CallFresh(t, t.calls[|s.calls|].request);
      UnlistedIsAbsent(t, page, t.calls[|s.calls|].request);
    }
  }
}

/**
 * No lost update. The tokens a page holds always name a server state whose text is the page's
 * persisted text, so an accepted save replaces exactly the text its writer last held. The panel
 * keeps this over every run in which it does not take a text for granted that no answer quoted;
 * `Careful` says when a step does not.
 */
module SubmissionTexts {
  import opened Prelude
  import opened JsText
  import opened SubmissionServer
  import opened SubmissionHistory
  import opened PracticePanel
  import opened ImageQueue
  import opened PracticeClient
  import opened SubmissionProtocol
  import opened SubmissionStructure

  /** The tokens name a state with this text; the server stores the normalised form of what it is sent. */
  ghost predicate Names(s: Server, p: Pair, text: string) {
    TextAt(s, p) == Some(Normalize(text))
  }

  ghost predicate ConflictTrue(s: Server, c: Conflict) {
    c.quoted && !c.versionChanged ==> TextAt(s, Pair(c.about, c.latestRevision)) == Some(c.latestText)
  }

  ghost predicate IntentTrue(s: Server, i: Intent) {
    i.revision >= 1 && Names(s, Pair(Some(i.version), i.revision), i.text)
  }

  ghost predicate PanelTrue(s: Server, p: Panel) {
    && Names(s, p.pair, p.persisted) && (p.base.Some? ==> Names(s, p.base.value, p.over))
    && (p.conflict.Some? ==> ConflictTrue(s, p.conflict.value))
    && (p.intent.Some? ==> IntentTrue(s, p.intent.value))
    && (!p.submit.NotSubmitting? ==> IntentTrue(s, p.submit.intent))
  }

  /** A save or seal in the network is based on the text its sender held. */
  ghost predicate CallTrue(s: Server, c: Call) {
    match c.request
    case Save(_, base) => Names(s, base, c.held)
    case Seal(_, v, r) => r >= 1 && Names(s, Pair(Some(v), r), c.held)
    case _ => true
  }

  /** The base of a stored draft copy names the text the draft was written over. */
  ghost predicate CopyTrue(s: Server, c: Envelope) {
    c.base.Some? ==> Names(s, c.base.value, c.over)
  }

  ghost predicate DeviceTrue(s: Server, d: Device) {
    (d.slot.Some? ==> IntentTrue(s, d.slot.value)) && (d.copy.Some? ==> CopyTrue(s, d.copy.value))
  }

  ghost predicate TextsTrue(s: System) {
    && (forall c :: c in s.clients ==> PanelTrue(s.server, s.clients[c].panel))
    && (forall d :: d in s.devices ==> DeviceTrue(s.server, s.devices[d]))
    && (forall k :: 0 <= k < |s.calls| ==> CallTrue(s.server, s.calls[k]))
  }

  /** The pair the page holds after resolving. */
  function ResolvedPair(p: Panel): Pair
    requires p.conflict.Some?
  {
    Pair(p.pair.version, p.conflict.value.latestRevision)
  }

  /** The pair is known to stand for the text. */
  predicate Stands(pair: Pair, text: string, q: Pair, latest: string) {
    q == pair && Normalize(text) == Normalize(latest)
  }

  predicate IntentStands(i: Intent, q: Pair, latest: string) {
    Stands(Pair(Some(i.version), i.revision), i.text, q, latest)
  }

  /** Something the page holds vouches for the conflict's text at the pair that resolving gives. */
  predicate Vouched(p: Panel)
    requires p.conflict.Some?
  {
    var c := p.conflict.value;
    var q := ResolvedPair(p);
    || (c.quoted && !c.versionChanged && c.about == p.pair.version)
    || (q == Pair(None, 0) && Normalize(c.latestText) == "")
    || Stands(p.pair, p.persisted, q, c.latestText)
    || (p.base.Some? && Stands(p.base.value, p.over, q, c.latestText))
    || (p.intent.Some? && IntentStands(p.intent.value, q, c.latestText))
    || (!p.submit.NotSubmitting? && IntentStands(p.submit.intent, q, c.latestText))
  }

  /** The page reloads a changed version, or takes a text for granted that something it holds vouches for. */
  predicate ResolvesWhatItRead(p: Panel) {
    p.conflict.Some? ==> p.conflict.value.versionChanged || Vouched(p)
  }

  /** The answered revision is the one read, or the one right after it and the file was not listed yet. */
  predicate Adoptable(current: Reading, x: nat, digest: nat, revision: nat) {
    revision == current.revision || (revision == current.revision + 1 && !Lists(current.images, x, digest))
  }

  predicate AdoptsTruly(job: Job, reply: Reply) {
    job.Posting? && reply.Uploaded? ==> Adoptable(job.current, job.record.client, job.record.digest, reply.revision)
  }

  /** The answer about to be delivered is taken by the running image upload. */
  predicate TakenByUpload(cl: Client, k: nat) {
    && !(cl.panel.saving.Some? && cl.panel.saving.value.call == k)
    && !(!cl.panel.submit.NotSubmitting? && cl.panel.submit.call == k)
    && k !in cl.loads && JobCall(cl.editor.job) == Some(k)
  }

  ghost predicate Careful(s: System, e: Event) {
    match e
    case ResolveClick(page, _) => page in s.clients ==> ResolvesWhatItRead(s.clients[page].panel)
    case Deliver(a, _, _, _) =>
      a < |s.answers| && s.answers[a].call < |s.calls| && s.calls[s.answers[a].call].client in s.clients ==>
        var cl := s.clients[s.calls[s.answers[a].call].client];
        TakenByUpload(cl, s.answers[a].call) ==> AdoptsTruly(cl.editor.job, ReplyTo(s, s.answers[a]))
    case _ => true
  }

  ghost predicate CarefulRun(s: System, events: seq<Event>) {
    events == [] ||
    (CarefulRun(s, events[..|events| - 1]) && Careful(Exec(s, events[..|events| - 1]), events[|events| - 1]))
  }

  // ---------------------------------------------------------------- answers

  /** What the answer to `q` says about texts. */
  ghost predicate ReplyTrue(s: Server, q: Request, reply: Reply) {
    match q
    case Save(text, base) =>
      && (reply.Saved? ==> Names(s, Pair(Some(reply.version), reply.revision), text))
      && (reply.StaleRevision? && reply.latestText.Some? ==>
            TextAt(s, Pair(base.version, reply.latestRevision)) == reply.latestText)
    case Seal(_, _, _) => reply.StaleRevision? ==> reply.latestText == None
    case Upload(v, r, x, digest) =>
      reply.Uploaded? && reply.revision == r + 1 && UnlistedAt(s, v, r, x, digest) ==>
        TextAt(s, Pair(Some(v), r + 1)) == TextAt(s, Pair(Some(v), r)) && TextAt(s, Pair(Some(v), r)).Some?
    case Remove(v, r, _) =>
      reply.Removed? ==>
        TextAt(s, Pair(Some(v), reply.revision)) == TextAt(s, Pair(Some(v), r)) && TextAt(s, Pair(Some(v), r)).Some?
    case Read => true
  }

  lemma UnlistedBefore(s: Server, t: Server, v: nat, r: nat, x: nat, digest: nat)
    requires Extends(s, t) && UnlistedAt(t, v, r, x, digest) && v < |s.versions| && r <= |s.versions[v].snaps|
    ensures UnlistedAt(s, v, r, x, digest)
  {
    assert VersionGrows(s.versions[v], t.versions[v]);
  }

  lemma ExtendsThrough(s: System, a: Answer)
    requires SystemOk(s) && AnswerShape(s, a)
    ensures Extends(a.at, s.server)
  {
    ServeKeeps(a.at, s.calls[a.call].request);
    ExtendsTransitive(a.at, Serve(a.at, s.calls[a.call].request).0, s.server);
  }

  lemma UploadReplyTrue(s: System, a: Answer)
    requires SystemOk(s) && AnswerShape(s, a) && s.calls[a.call].request.Upload?
    ensures ReplyTrue(s.server, s.calls[a.call].request, ReplyTo(s, a))
  {
    var q := s.calls[a.call].request;
    var reply := ReplyTo(s, a);
    assert CallShape(s.server, s.calls[a.call]);
    if reply.Uploaded? && reply.revision == q.revision + 1 && UnlistedAt(s.server, q.version, q.revision, q.client, q.digest) {
      ExtendsThrough(s, a);
      assert VersionGrows(s.calls[a.call].floor.versions[q.version], a.at.versions[q.version]);
      UnlistedBefore(a.at, s.server, q.version, q.revision, q.client, q.digest);
      NextAnswerKeepsText(a.at, q.version, q.revision, q.client, q.digest);
      TextAtStable(a.at, s.server, Pair(Some(q.version), q.revision));
      TextAtStable(Serve(a.at, q).0, s.server, Pair(Some(q.version), q.revision + 1));
    }
  }

  lemma AnswerIsTrue(s: System, a: Answer)
    requires SystemOk(s) && AnswerShape(s, a)
    ensures ReplyTrue(s.server, s.calls[a.call].request, ReplyTo(s, a))
  {
    var q := s.calls[a.call].request;
    var reply := ReplyTo(s, a);
    var t := Serve(a.at, q).0;
    ExtendsThrough(s, a);
    match q
    case Read =>
    case Save(text, base) =>
      if reply.Saved? {
        SavedIsTrue(a.at, text, base);
        TextAtStable(t, s.server, Pair(Some(reply.version), reply.revision));
      } else if reply.StaleRevision? {
        StaleSaveIsTrue(a.at, text, base);
        TextAtStable(a.at, s.server, Pair(base.version, reply.latestRevision));
      }
    case Upload(_, _, _, _) => UploadReplyTrue(s, a);
    case Remove(v, r, image) =>
      if reply.Removed? {
        RemovedIsTrue(a.at, v, r, image);
        TextAtStable(t, s.server, Pair(Some(v), reply.revision));
        TextAtStable(a.at, s.server, Pair(Some(v), r));
      }
    case Seal(_, _, _) =>
  }

  // ---------------------------------------------------------------- one page, one step

  ghost predicate EffectTrue(s: System, page: nat, e: Effect) {
    && PanelTrue(s.server, e.client.panel) && DeviceTrue(s.server, e.device)
    && (e.send.Some? ==> CallTrue(s.server, Call(page, e.send.value, e.client.panel.persisted, s.server)))
  }

  ghost predicate TrueBefore(s: System, cl: Client, d: Device) {
    Ready(s, cl, d) && PanelTrue(s.server, cl.panel) && DeviceTrue(s.server, d)
  }

  /** The reading's own tokens name the reading's text. */
  ghost predicate TextsOf(s: Server, r: Reading) {
    TextAt(s, Pair(r.version, r.revision)) == Some(r.text)
  }

  /** And so does the pair that a load continues from, revision 0 of a sealed version included. */
  lemma ReadingTexts(s: Server, r: Reading)
    requires ReadingTrue(s, r)
    ensures TextsOf(s, r) && TextAt(s, LoadedPair(r)) == Some(r.text)
  {
  }

  lemma ReadingNames(s: Server, r: Reading)
    requires ServerOk(s) && ReadingTrue(s, r)
    ensures TextsOf(s, r) && Names(s, LoadedPair(r), r.text) && TextAt(s, LoadedPair(r)) == Some(r.text)
    ensures Normalize(r.text) == r.text
  {
    ReadingTexts(s, r);
    TextAtNormal(s, LoadedPair(r));
  }

  lemma LoadTrue(s: System, p: Panel, r: Reading, recovered: Option<Envelope>, useServer: bool, seal: Option<Intent>)
    requires ServerOk(s.server) && PanelTrue(s.server, p) && ReadingTrue(s.server, r)
    requires seal.Some? ==> IntentTrue(s.server, seal.value)
    requires recovered.Some? ==> CopyTrue(s.server, recovered.value)
    ensures PanelTrue(s.server, Load(p, r, recovered, useServer, seal))
  {
    ReadingNames(s.server, r);
  }

  lemma LoadClientTrue(s: System, cl: Client, d: Device, r: Reading, useServer: bool, found: Found)
    requires ServerOk(s.server) && PanelTrue(s.server, cl.panel) && DeviceTrue(s.server, d) && ReadingTrue(s.server, r)
    ensures PanelTrue(s.server, LoadClient(cl, d, r, useServer, found).panel)
    ensures DeviceTrue(s.server, LoadDevice(d, r, useServer, found))
  {
    LoadTrue(s, cl.panel, r, FoundCopy(d, r, useServer, found), useServer, FoundIntent(d, found));
  }

  /**
   * An image step adopts a reading exactly when it has the page's own text; otherwise pair and
   * texts stay and the conflict quotes the reading. Both keep what the page holds true.
   */
  lemma ImageUpdateTrue(s: System, p: Panel, r: Reading)
    requires ServerOk(s.server) && PanelTrue(s.server, p) && TextsOf(s.server, r)
    ensures PanelTrue(s.server, ImageUpdate(p, r)) && PanelTrue(s.server, ImageConflict(p, r))
    ensures var q := ImageUpdate(p, r);
      && q.draft == p.draft && q.persisted == p.persisted && q.intent == p.intent
      && (r.text == p.persisted ==> q.pair == Pair(r.version, r.revision) && q.conflict == p.conflict)
      && (r.text != p.persisted ==> q.pair == p.pair && q.conflict.Some? && q.conflict.value.quoted && q.conflict.value.latestText == r.text)
  {
    TextAtNormal(s.server, Pair(r.version, r.revision));
  }

  lemma StartSaveTrue(s: System, page: nat, cl: Client, d: Device, next: nat)
    requires TrueBefore(s, cl, d)
    ensures EffectTrue(s, page, StartSave(cl, d, next))
  {
  }

  lemma StartPrepareTrue(s: System, page: nat, cl: Client, d: Device, purpose: Purpose, next: nat)
    requires TrueBefore(s, cl, d)
    ensures EffectTrue(s, page, StartPrepare(cl, d, purpose, next))
  {
  }

  lemma PostTrue(s: System, page: nat, cl: Client, d: Device, r: Record, current: Reading, disk: Disk, now: nat, next: nat)
    requires PanelTrue(s.server, cl.panel) && DeviceTrue(s.server, d)
    ensures EffectTrue(s, page, Post(cl, d, r, current, disk, now, next))
  {
  }

  lemma DeleteTrue(s: System, page: nat, cl: Client, d: Device, target: Image, r: Reading, check: Option<nat>, next: nat)
    requires ServerOk(s.server) && PanelTrue(s.server, cl.panel) && DeviceTrue(s.server, d) && ReadingTrue(s.server, r)
    ensures EffectTrue(s, page, Delete(cl, d, target, r, check, next))
  {
    ReadingNames(s.server, r);
    ImageUpdateTrue(s, cl.panel, r);
    DeleteEffect(cl, d, target, r, check, next);
  }

  lemma DeleteEffect(cl: Client, d: Device, target: Image, r: Reading, check: Option<nat>, next: nat)
    ensures var e := Delete(cl, d, target, r, check, next);
      && e.device == d && (e.send.Some? ==> e.send.value.Remove?)
      && (e.client.panel == cl.panel || e.client.panel == ImageUpdate(cl.panel, r) || e.client.panel == ImageConflict(cl.panel, r))
  {
  }

  lemma PreparedTrue(s: System, page: nat, cl: Client, d: Device, r: Reading, purpose: Purpose, disk: Disk, now: nat, next: nat)
    requires TrueBefore(s, cl, d) && ReadingTrue(s.server, r)
    ensures EffectTrue(s, page, Prepared(cl, d, r, purpose, disk, now, next))
  {
    ReadingNames(s.server, r);
    ImageUpdateTrue(s, cl.panel, r);
    if ReadbackMatches(cl.panel, r) {
      if purpose.Removal? {
        PreparedRemovalTrue(s, page, cl, d, r, purpose, disk, now, next);
      } else {
        PostTrue(s, page, cl.(panel := ImageUpdate(cl.panel, r)), d, purpose.record, r, disk, now, next);
      }
    }
  }

  lemma PreparedRemovalTrue(s: System, page: nat, cl: Client, d: Device, r: Reading, purpose: Purpose, disk: Disk, now: nat, next: nat)
    requires TrueBefore(s, cl, d) && ReadingTrue(s.server, r) && TextsOf(s.server, r) && purpose.Removal? && ReadbackMatches(cl.panel, r)
    ensures EffectTrue(s, page, Prepared(cl, d, r, purpose, disk, now, next))
  {
    var before := Baseline(Some(purpose.image.version), Some(purpose.seen));
    var c1 := cl.(panel := ImageUpdate(cl.panel, r));
    var c2 := AdvanceAll(c1, before, Tokens(r), now);
    var d2 := AdvanceStore(c1, d, before, Tokens(r), now, disk);
    ImageUpdateTrue(s, cl.panel, r);
    ImageUpdateTrue(s, c2.panel, r);
    var copied := FindClient(r.images, purpose.image.client);
    if copied.Some? {
      DeleteTrue(s, page, c2, d2, copied.value, r, None, next);
    }
  }

  lemma CheckedAgainTrue(s: System, page: nat, cl: Client, d: Device, r: Reading, rec: Record, disk: Disk, now: nat, next: nat)
    requires TrueBefore(s, cl, d) && ReadingTrue(s.server, r)
    ensures EffectTrue(s, page, CheckedAgain(cl, d, r, rec, disk, now, next))
  {
    if AttachedIn(r.images, rec) {
      AttachedAgainTrue(s, page, cl, d, r, rec, disk, now, next);
    } else if r.version != rec.version || r.isSealed || (rec.revision.Some? && rec.revision.value != r.revision) {
      ReadingNames(s.server, r);
      ImageUpdateTrue(s, cl.panel, r);
    } else if r.version == None {
      StartPrepareTrue(s, page, cl, d, Again(rec), next);
    } else {
      PostTrue(s, page, cl, d, rec, r, disk, now, next);
    }
  }

  lemma AttachedAgainTrue(s: System, page: nat, cl: Client, d: Device, r: Reading, rec: Record, disk: Disk, now: nat, next: nat)
    requires TrueBefore(s, cl, d) && ReadingTrue(s.server, r) && AttachedIn(r.images, rec)
    ensures EffectTrue(s, page, CheckedAgain(cl, d, r, rec, disk, now, next))
  {
    ReadingNames(s.server, r);
    ImageUpdateTrue(s, cl.panel, r);
  }

  lemma CheckedRemovalTrue(s: System, page: nat, cl: Client, d: Device, r: Reading, image: Image, seen: nat, next: nat)
    requires TrueBefore(s, cl, d) && ReadingTrue(s.server, r)
    ensures EffectTrue(s, page, CheckedRemoval(cl, d, r, image, seen, next))
  {
    if r.isSealed && seen == 0 && r.version == Some(image.version) {
      StartPrepareTrue(s, page, cl, d, Removal(image, seen), next);
    } else {
      DeleteTrue(s, page, cl, d, image, r, Some(seen), next);
    }
  }

  /** What an upload answer moves: the panel, by its acknowledged snapshot. */
  lemma PostedEffect(cl: Client, d: Device, reply: Reply, rec: Record, current: Reading, disk: Disk, now: nat)
    ensures var e := Posted(cl, d, reply, rec, current, disk, now);
      && e.device.slot == d.slot && e.device.copy == d.copy && e.send == None
      && e.client.panel == if reply.Uploaded? then ImageUpdate(cl.panel, AckUpload(current, reply.image, reply.revision, rec.client)) else cl.panel
  {
  }

  /** The acknowledged snapshot names its own text, at the revision read or at the next one. */
  lemma AckNames(s: Server, current: Reading, image: Image, revision: nat, x: nat, digest: nat)
    requires ServerOk(s) && ReadingTrue(s, current) && current.version.Some? && Adoptable(current, x, digest, revision)
    requires ReplyTrue(s, Upload(current.version.value, current.revision, x, digest), Uploaded(image, revision))
    ensures TextsOf(s, AckUpload(current, image, revision, x))
  {
    ReadingNames(s, current);
    if revision != current.revision {
      assert UnlistedAt(s, current.version.value, current.revision, x, digest);
    }
  }

  /** An upload answer is adopted only at a revision that the reply shows to hold the same text. */
  lemma PostedTrue(s: System, page: nat, cl: Client, d: Device, reply: Reply, rec: Record, current: Reading, disk: Disk, now: nat)
    requires TrueBefore(s, cl, d) && ReadingTrue(s.server, current) && current.version.Some?
    requires ReplyTrue(s.server, Upload(current.version.value, current.revision, rec.client, rec.digest), reply)
    requires reply.Uploaded? ==> Adoptable(current, rec.client, rec.digest, reply.revision)
    ensures EffectTrue(s, page, Posted(cl, d, reply, rec, current, disk, now))
  {
    PostedEffect(cl, d, reply, rec, current, disk, now);
    if reply.Uploaded? {
      AckNames(s.server, current, reply.image, reply.revision, rec.client, rec.digest);
      ImageUpdateTrue(s, cl.panel, AckUpload(current, reply.image, reply.revision, rec.client));
    }
  }

  lemma DeletedTrue(s: System, page: nat, cl: Client, d: Device, reply: Reply, target: Image, current: Reading, disk: Disk, now: nat)
    requires TrueBefore(s, cl, d) && ReadingTrue(s.server, current) && current.version == Some(target.version)
    requires ReplyTrue(s.server, Remove(target.version, current.revision, target.id), reply)
    ensures EffectTrue(s, page, Deleted(cl, d, reply, target, current, disk, now))
  {
    if reply.Removed? {
      ReadingNames(s.server, current);
      ImageUpdateTrue(s, cl.panel, AckRemoval(current, target, reply.revision));
    }
  }

  lemma ImageDoneTrue(s: System, page: nat, cl: Client, d: Device, k: nat, reply: Reply, disk: Disk, now: nat, next: nat)
    requires TrueBefore(s, cl, d) && ReplyShape(s.server, reply) && JobCall(cl.editor.job) == Some(k) && k < |s.calls|
    requires ReplyTrue(s.server, s.calls[k].request, reply) && AdoptsTruly(cl.editor.job, reply)
    ensures EffectTrue(s, page, ImageDone(cl, d, reply, disk, now, next))
  {
    match cl.editor.job
    case Preparing(_, purpose) =>
      if reply.Snapshot? && !reply.reading.closed {
        PreparedTrue(s, page, cl, d, reply.reading, purpose, disk, now, next);
      }
    case Checking(_, purpose) =>
      if reply.Snapshot? && !reply.reading.closed {
        if purpose.Removal? {
          CheckedRemovalTrue(s, page, cl, d, reply.reading, purpose.image, purpose.seen, next);
        } else {
          CheckedAgainTrue(s, page, cl, d, reply.reading, purpose.record, disk, now, next);
        }
      }
    case Posting(_, rec, current) => PostedTrue(s, page, cl, d, reply, rec, current, disk, now);
    case Deleting(_, target, current) => DeletedTrue(s, page, cl, d, reply, target, current, disk, now);
    case _ =>
  }

  lemma SavedTrue(s: Server, p: Panel, reply: Reply)
    requires PanelTrue(s, p) && p.saving.Some? && reply.Saved?
    requires Names(s, Pair(Some(reply.version), reply.revision), p.saving.value.text)
    ensures PanelTrue(s, SaveReply(p, reply))
  {
  }

  /** What a panel holds true does not depend on its draft, status or banner, as long as the banner is true. */
  lemma SameTokensTrue(s: Server, p: Panel, q: Panel)
    requires PanelTrue(s, p)
    requires q.pair == p.pair && q.persisted == p.persisted && q.base == p.base && q.over == p.over
    requires q.intent == p.intent && q.submit == p.submit && (q.conflict.Some? ==> ConflictTrue(s, q.conflict.value))
    ensures PanelTrue(s, q)
  {
  }

  lemma StaleEffect(p: Panel, reply: Reply)
    requires p.saving.Some? && (reply.StaleVersion? || reply.StaleRevision?)
    ensures SaveReply(p, reply) ==
      p.(saving := None, conflict := Some(StaleConflict(reply, p.saving.value.base.version)), status := Conflicted)
  {
  }

  lemma StaleTrue(s: Server, p: Panel, reply: Reply)
    requires PanelTrue(s, p) && p.saving.Some? && (reply.StaleVersion? || reply.StaleRevision?)
    requires ConflictTrue(s, StaleConflict(reply, p.saving.value.base.version))
    ensures PanelTrue(s, SaveReply(p, reply))
  {
    StaleEffect(p, reply);
    SameTokensTrue(s, p, SaveReply(p, reply));
  }

  lemma SaveReplyTrue(s: System, p: Panel, reply: Reply)
    requires PanelTrue(s.server, p) && p.saving.Some?
    requires ReplyTrue(s.server, Save(p.saving.value.text, p.saving.value.base), reply)
    ensures PanelTrue(s.server, SaveReply(p, reply))
  {
    if reply.Saved? {
      SavedTrue(s.server, p, reply);
    } else if reply.StaleVersion? || reply.StaleRevision? {
      StaleTrue(s.server, p, reply);
    }
  }

  lemma SaveDoneTrue(s: System, page: nat, cl: Client, d: Device, reply: Reply, next: nat)
    requires TrueBefore(s, cl, d) && cl.panel.saving.Some?
    requires ReplyTrue(s.server, Save(cl.panel.saving.value.text, cl.panel.saving.value.base), reply)
    ensures EffectTrue(s, page, SaveDone(cl, d, reply, next))
  {
    SaveReplyTrue(s, cl.panel, reply);
  }

  lemma SealDoneTrue(s: System, page: nat, cl: Client, d: Device, reply: Reply, next: nat)
    requires TrueBefore(s, cl, d) && cl.panel.submit.Sealing?
    requires ReplyTrue(s.server, SealRequest(cl.panel.submit.intent), reply)
    ensures EffectTrue(s, page, SealDone(cl, d, reply, next))
  {
  }

  lemma RecheckDoneTrue(s: System, page: nat, cl: Client, d: Device, reply: Reply, found: Found, intent: Intent, next: nat)
    requires TrueBefore(s, cl, d) && ReplyShape(s.server, reply) && IntentTrue(s.server, intent)
    ensures EffectTrue(s, page, RecheckDone(cl, d, reply, found, intent, next))
  {
    if reply.Snapshot? {
      var r := reply.reading;
      LoadClientTrue(s, cl, d, r, false, found);
      ReadingNames(s.server, r);
      RecheckedTrue(s, page, LoadClient(cl, d, r, false, found).panel, r, intent, next);
      RecheckEffect(cl, d, reply, found, intent, next);
    }
  }

  lemma RecheckEffect(cl: Client, d: Device, reply: Reply, found: Found, intent: Intent, next: nat)
    requires reply.Snapshot?
    ensures var e := RecheckDone(cl, d, reply, found, intent, next);
      && e.client.panel == Rechecked(LoadClient(cl, d, reply.reading, false, found).panel, reply.reading, intent, next)
      && (e.device.slot == None || e.device.slot == d.slot)
      && (e.device.copy == None || e.device.copy == d.copy)
      && (e.send.Some? ==> RecheckOutcome(reply.reading, intent) == StillOpen && e.send.value == SealRequest(intent))
  {
  }

  lemma RecheckedTrue(s: System, page: nat, p: Panel, r: Reading, intent: Intent, next: nat)
    requires PanelTrue(s.server, p) && ReadingTrue(s.server, r) && TextsOf(s.server, r) && IntentTrue(s.server, intent)
    requires p.persisted == r.text && Normalize(r.text) == r.text
    ensures PanelTrue(s.server, Rechecked(p, r, intent, next))
    ensures RecheckOutcome(r, intent) == StillOpen ==>
      CallTrue(s.server, Call(page, SealRequest(intent), Rechecked(p, r, intent, next).persisted, s.server))
  {
    if RecheckOutcome(r, intent) == StillOpen {
      AskAgainTrue(s, page, p, r, intent);
    } else {
      RecheckEndTrue(s, p, r, intent, next);
    }
  }

  lemma RecheckEndTrue(s: System, p: Panel, r: Reading, intent: Intent, next: nat)
    requires PanelTrue(s.server, p) && TextsOf(s.server, r) && RecheckOutcome(r, intent) != StillOpen
    ensures PanelTrue(s.server, Rechecked(p, r, intent, next))
  {
  }

  /** The panel is still at the intent's pair, so the text it holds is the one the intent names. */
  lemma AskAgainTrue(s: System, page: nat, p: Panel, r: Reading, intent: Intent)
    requires TextsOf(s.server, r) && IntentTrue(s.server, intent) && RecheckOutcome(r, intent) == StillOpen
    requires p.persisted == r.text && Normalize(r.text) == r.text
    ensures CallTrue(s.server, Call(page, SealRequest(intent), p.persisted, s.server))
  {
  }

  lemma LoadDoneTrue(s: System, page: nat, cl: Client, d: Device, k: nat, reply: Reply, found: Found)
    requires TrueBefore(s, cl, d) && ReplyShape(s.server, reply) && k in cl.loads
    ensures EffectTrue(s, page, LoadDone(cl, d, k, reply, found))
  {
    if reply.Snapshot? {
      LoadClientTrue(s, cl.(loads := cl.loads - {k}), d, reply.reading, cl.loads[k], found);
    }
  }

  lemma ArriveTrue(s: System, page: nat, cl: Client, d: Device, k: nat, reply: Reply, found: Found, disk: Disk, now: nat, next: nat)
    requires TrueBefore(s, cl, d) && ReplyShape(s.server, reply) && k < |s.calls|
    requires ReplyTrue(s.server, s.calls[k].request, reply)
    requires TakenByUpload(cl, k) ==> AdoptsTruly(cl.editor.job, reply)
    ensures EffectTrue(s, page, Arrive(cl, d, k, reply, found, disk, now, next))
  {
    if cl.panel.saving.Some? && cl.panel.saving.value.call == k {
      SaveDoneTrue(s, page, cl, d, reply, next);
    } else if cl.panel.submit.Rechecking? && cl.panel.submit.call == k {
      RecheckDoneTrue(s, page, cl, d, reply, found, cl.panel.submit.intent, next);
    } else if cl.panel.submit.Sealing? && cl.panel.submit.call == k {
      SealDoneTrue(s, page, cl, d, reply, next);
    } else if k in cl.loads {
      LoadDoneTrue(s, page, cl, d, k, reply, found);
    } else if JobCall(cl.editor.job) == Some(k) {
      ImageDoneTrue(s, page, cl, d, k, reply, disk, now, next);
    }
  }

  lemma ResolveTrue(s: System, p: Panel, merge: bool)
    requires ServerOk(s.server) && PanelTrue(s.server, p)
    requires p.conflict.Some? && !p.conflict.value.versionChanged && ResolvesWhatItRead(p)
    ensures PanelTrue(s.server, Resolve(p, merge))
  {
    VouchedNames(s.server, p);
  }

  lemma VouchedNames(s: Server, p: Panel)
    requires ServerOk(s) && PanelTrue(s, p) && p.conflict.Some? && !p.conflict.value.versionChanged && Vouched(p)
    ensures Names(s, ResolvedPair(p), p.conflict.value.latestText)
  {
    var c := p.conflict.value;
    if c.quoted && c.about == p.pair.version {
      TextAtNormal(s, ResolvedPair(p));
    }
  }

  lemma SubmitTrue(s: System, page: nat, cl: Client, d: Device, key: nat, written: bool, next: nat)
    requires TrueBefore(s, cl, d) && cl.panel.pair.version.Some? && cl.panel.pair.revision >= 1
    ensures EffectTrue(s, page, SubmitClick(cl, d, key, written, next))
  {
  }

  lemma DeliverTrue(s: System, page: nat, cl: Client, d: Device, e: Event)
    requires SystemOk(s) && TrueBefore(s, cl, d) && e.Deliver?
    requires e.answer < |s.answers| && TakenByUpload(cl, s.answers[e.answer].call) ==>
      AnswerShape(s, s.answers[e.answer]) && AdoptsTruly(cl.editor.job, ReplyTo(s, s.answers[e.answer]))
    ensures EffectTrue(s, page, Act(s, cl, d, e))
  {
    if e.answer < |s.answers| && s.answers[e.answer].call < |s.calls| {
      DeliverAct(s, cl, d, e);
      var a := s.answers[e.answer];
      assert AnswerShape(s, a);
      ReplyIsTrue(s, a);
      AnswerIsTrue(s, a);
      ArriveTrue(s, page, cl, d, a.call, ReplyTo(s, a), e.found, e.disk, e.now, |s.calls|);
    } else {
      DeliverNothing(s, cl, d, e);
    }
  }

  lemma FailureTrue(s: System, page: nat, cl: Client, d: Device, k: nat, now: nat)
    requires TrueBefore(s, cl, d)
    ensures EffectTrue(s, page, Failure(cl, d, k, now, |s.calls|))
  {
    if k < |s.calls| {
      ArriveTrue(s, page, cl, d, k, Refused, Found(true, true), Disk(true, true, true), now, |s.calls|);
    }
  }

  lemma LoseTrue(s: System, page: nat, cl: Client, d: Device, e: Event)
    requires TrueBefore(s, cl, d) && (e.Lose? || e.Unmounts?)
    ensures EffectTrue(s, page, Act(s, cl, d, e))
  {
    var lost := Failure(cl, d, e.call, e.now, |s.calls|);
    FailureTrue(s, page, cl, d, e.call, e.now);
    FailureDevice(cl, d, e.call, e.now, |s.calls|);
    UnmountTrue(s, page, lost);
    assert Act(s, cl, d, e) == if e.Unmounts? then lost.(client := Unmount(lost.client)) else lost;
  }

  lemma UnmountTrue(s: System, page: nat, e: Effect)
    requires EffectTrue(s, page, e) && e.send == None
    ensures EffectTrue(s, page, e.(client := Unmount(e.client)))
  {
  }

  /** A step that leaves panel, slot and copy as they are, and saves or seals nothing. */
  lemma SamePanelTrue(s: System, page: nat, cl: Client, d: Device, e: Effect)
    requires TrueBefore(s, cl, d) && e.client.panel == cl.panel && e.device.slot == d.slot && e.device.copy == d.copy
    requires e.send.Some? ==> !e.send.value.Save? && !e.send.value.Seal?
    ensures EffectTrue(s, page, e)
  {
  }

  /** Clicks on the panel and the timer. */
  lemma ResolveClickTrue(s: System, page: nat, cl: Client, d: Device, e: Event)
    requires TrueBefore(s, cl, d) && Allowed(cl, d, e) && e.ResolveClick? && ResolvesWhatItRead(cl.panel)
    ensures EffectTrue(s, page, Act(s, cl, d, e))
  {
    if !cl.panel.conflict.value.versionChanged {
      ResolveTrue(s, cl.panel, e.merge);
    }
  }

  lemma SubmitClickTrue(s: System, page: nat, cl: Client, d: Device, e: Event)
    requires TrueBefore(s, cl, d) && Allowed(cl, d, e) && e.Submit?
    ensures EffectTrue(s, page, Act(s, cl, d, e))
  {
    SubmitTrue(s, page, cl, d, s.nextKey, e.written, |s.calls|);
  }

  lemma PanelClickTrue(s: System, page: nat, cl: Client, d: Device, e: Event)
    requires TrueBefore(s, cl, d) && Allowed(cl, d, e)
    requires e.StartLoadUnit? || e.Typing? || e.StoreCopy? || e.FindsLegacyCopy?
    ensures EffectTrue(s, page, Act(s, cl, d, e))
  {
  }

  lemma SaveClickTrue(s: System, page: nat, cl: Client, d: Device, e: Event)
    requires TrueBefore(s, cl, d) && Allowed(cl, d, e) && (e.AutosaveTimer? || e.RetrySaveClick?)
    ensures EffectTrue(s, page, Act(s, cl, d, e))
  {
    StartSaveTrue(s, page, cl, d, |s.calls|);
  }

  lemma ProceedTrue(s: System, page: nat, cl: Client, d: Device, e: Event)
    requires TrueBefore(s, cl, d) && Allowed(cl, d, e) && e.Proceed?
    ensures EffectTrue(s, page, Act(s, cl, d, e))
  {
    StartPrepareTrue(s, page, cl, d, cl.editor.job.purpose, |s.calls|);
  }

  /** Clicks on the image editor, and events without a page. */
  lemma ImageClickTrue(s: System, page: nat, cl: Client, d: Device, e: Event)
    requires TrueBefore(s, cl, d) && Allowed(cl, d, e)
    requires e.ChooseFiles? || e.RetryImage? || e.RemoveAttached? || e.DiscardPending? || e.StartRecovery? || e.EndRecovery? ||
      e.ServeCall? || e.TeacherDecides? || e.RecordsClose? || e.Open?
    ensures EffectTrue(s, page, Act(s, cl, d, e))
  {
    SamePanelTrue(s, page, cl, d, Act(s, cl, d, e));
  }

  lemma ActTrue(s: System, page: nat, cl: Client, d: Device, e: Event)
    requires SystemOk(s) && TrueBefore(s, cl, d) && Allowed(cl, d, e)
    requires e.ResolveClick? ==> ResolvesWhatItRead(cl.panel)
    requires e.Deliver? && e.answer < |s.answers| && TakenByUpload(cl, s.answers[e.answer].call) ==>
      AnswerShape(s, s.answers[e.answer]) && AdoptsTruly(cl.editor.job, ReplyTo(s, s.answers[e.answer]))
    ensures EffectTrue(s, page, Act(s, cl, d, e))
  {
    if e.Deliver? {
      DeliverTrue(s, page, cl, d, e);
    } else if e.Lose? || e.Unmounts? {
      LoseTrue(s, page, cl, d, e);
    } else if e.StartLoadUnit? || e.Typing? || e.StoreCopy? || e.FindsLegacyCopy? {
      PanelClickTrue(s, page, cl, d, e);
    } else if e.AutosaveTimer? || e.RetrySaveClick? {
      SaveClickTrue(s, page, cl, d, e);
    } else if e.ResolveClick? {
      ResolveClickTrue(s, page, cl, d, e);
    } else if e.Submit? {
      SubmitClickTrue(s, page, cl, d, e);
    } else if e.Proceed? {
      ProceedTrue(s, page, cl, d, e);
    } else {
      ImageClickTrue(s, page, cl, d, e);
    }
  }

  lemma ApplyTrue(s: System, page: nat, e: Effect)
    requires TextsTrue(s) && EffectTrue(s, page, e)
    ensures TextsTrue(Apply(s, page, e))
  {
  }

  lemma PanelTrueStable(s: Server, t: Server, p: Panel)
    requires Extends(s, t) && PanelTrue(s, p)
    ensures PanelTrue(t, p)
  {
    TextAtStable(s, t, p.pair);
    if p.base.Some? {
      TextAtStable(s, t, p.base.value);
    }
    if p.conflict.Some? && p.conflict.value.quoted && !p.conflict.value.versionChanged {
      TextAtStable(s, t, Pair(p.conflict.value.about, p.conflict.value.latestRevision));
    }
    if p.intent.Some? {
      IntentTrueStable(s, t, p.intent.value);
    }
    if !p.submit.NotSubmitting? {
      IntentTrueStable(s, t, p.submit.intent);
    }
  }

  lemma IntentTrueStable(s: Server, t: Server, i: Intent)
    requires Extends(s, t) && IntentTrue(s, i)
    ensures IntentTrue(t, i)
  {
    TextAtStable(s, t, Pair(Some(i.version), i.revision));
  }

  lemma DeviceTrueStable(s: Server, t: Server, d: Device)
    requires Extends(s, t) && DeviceTrue(s, d)
    ensures DeviceTrue(t, d)
  {
    if d.slot.Some? {
      IntentTrueStable(s, t, d.slot.value);
    }
    if d.copy.Some? && d.copy.value.base.Some? {
      TextAtStable(s, t, d.copy.value.base.value);
    }
  }

  lemma ServerMovesTrue(s: System, t: Server)
    requires TextsTrue(s) && Extends(s.server, t)
    ensures TextsTrue(s.(server := t))
  {
    var u := s.(server := t);
    forall c | c in u.clients ensures PanelTrue(t, u.clients[c].panel) {
      PanelTrueStable(s.server, t, s.clients[c].panel);
    }
    forall d | d in u.devices ensures DeviceTrue(t, u.devices[d]) {
      DeviceTrueStable(s.server, t, s.devices[d]);
    }
    forall k | 0 <= k < |u.calls| ensures CallTrue(t, u.calls[k]) {
      match s.calls[k].request
      case Save(_, base) => TextAtStable(s.server, t, base);
      case Seal(_, v, r) => TextAtStable(s.server, t, Pair(Some(v), r));
      case _ =>
    }
  }

  lemma PageStepTrue(s: System, page: nat, e: Event)
    requires SystemOk(s) && TextsTrue(s) && Careful(s, e) && EventPage(s, e) == Some(page)
    ensures TextsTrue(PageStep(s, page, e))
  {
    if Live(s, page) {
      var cl := s.clients[page];
      var d := s.devices[cl.device];
      if Allowed(cl, d, e) {
        if e.Deliver? {
          assert AnswerShape(s, s.answers[e.answer]);
        }
        ActTrue(s, page, cl, d, e);
        ApplyTrue(s, page, Act(s, cl, d, e));
      }
    }
  }

  lemma ServerEventTrue(s: System, e: Event)
    requires SystemOk(s) && TextsTrue(s) && (e.ServeCall? || e.TeacherDecides? || e.RecordsClose?)
    ensures TextsTrue(Next(s, e))
  {
    NextOk(s, e);
    ServerMovesTrue(s, Next(s, e).server);
  }

  lemma OpenTrue(s: System, e: Event)
    requires SystemOk(s) && TextsTrue(s) && e.Open?
    ensures TextsTrue(Next(s, e))
  {
  }

  /** Every careful step keeps what the pages hold true to the server's history. */
  lemma NextTrue(s: System, e: Event)
    requires SystemOk(s) && TextsTrue(s) && Careful(s, e)
    ensures TextsTrue(Next(s, e))
  {
    if e.ServeCall? || e.TeacherDecides? || e.RecordsClose? {
      ServerEventTrue(s, e);
    } else if e.Open? {
      OpenTrue(s, e);
    } else if EventPage(s, e).Some? {
      PageStepTrue(s, EventPage(s, e).value, e);
    }
  }

  lemma {:induction false} CarefulRunTrue(s: System, events: seq<Event>)
    requires SystemOk(s) && TextsTrue(s) && CarefulRun(s, events)
    ensures SystemOk(Exec(s, events)) && TextsTrue(Exec(s, events))
  {
    ExecOk(s, events);
    if events != [] {
      CarefulRunTrue(s, events[..|events| - 1]);
      NextTrue(Exec(s, events[..|events| - 1]), events[|events| - 1]);
    }
  }

  // ---------------------------------------------------------------- main results

  /**
   * No lost update, for the pages: in every careful run of any number of pages, each page's pair
   * names a server state, and that state's text is the page's persisted text.
   */
  lemma PagesHoldServerText(replays: bool, events: seq<Event>, page: nat)
    requires CarefulRun(Init(replays), events)
    requires page in Exec(Init(replays), events).clients
    ensures var s := Exec(Init(replays), events);
      TextAt(s.server, s.clients[page].panel.pair) == Some(Normalize(s.clients[page].panel.persisted))
  {
    InitOk(replays);
    CarefulRunTrue(Init(replays), events);
  }

  /**
   * No lost update, for the server: in every careful run, whenever a save is accepted, at once or
   * after any delay, the text it replaces is the text its sender held when it was sent.
   */
  lemma AcceptedSaveReplacesHeldText(replays: bool, events: seq<Event>, k: nat)
    requires CarefulRun(Init(replays), events)
    requires k < |Exec(Init(replays), events).calls| && Exec(Init(replays), events).calls[k].request.Save?
    requires WriteAccepted(Exec(Init(replays), events).server, Exec(Init(replays), events).calls[k].request)
    ensures var s := Exec(Init(replays), events);
      && CurrentText(s.server) == Normalize(s.calls[k].held)
      && CurrentText(Next(s, ServeCall(k)).server) == Normalize(s.calls[k].request.text)
  {
    InitOk(replays);
    CarefulRunTrue(Init(replays), events);
    var s := Exec(Init(replays), events);
    assert CallTrue(s.server, s.calls[k]);
    AcceptedSaveReplaces(s.server, s.calls[k].request.text, s.calls[k].request.base);
  }
}

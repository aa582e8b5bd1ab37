/**
 * What the clicks on the image editor do, and the answers it waits for, told by what the page then
 * queues, shows, stores and sends; in every state, so at every moment of every run.
 */
module SubmissionImageSteps {
  import opened Prelude
  import opened SubmissionServer
  import opened PracticePanel
  import opened ImageQueue
  import opened PracticeClient
  import opened SubmissionProtocol
  import opened SubmissionTexts
  import opened SubmissionWrites
  import opened SubmissionSteps

  function EditorOf(s: System, page: nat): Editor
    requires page in s.clients
  {
    s.clients[page].editor
  }

  // ---------------------------------------------------------------- how an operation ends

  /** The records of the queue are as they were; only the item of this id, if one is meant, shows another note. */
  ghost predicate OnlyMarks(before: seq<Item>, after: seq<Item>, x: Option<nat>, note: Note) {
    |after| == |before| && forall i :: 0 <= i < |before| ==>
      after[i] == if x == Some(before[i].record.client) then Item(before[i].record, note) else before[i]
  }

  /** The operation ends without success: its item stays queued, and the rest of the batch is not tried. */
  ghost predicate Stopped(before: Editor, after: Editor, x: Option<nat>, note: Note) {
    && after.job == Idle && after.waiting == [] && OnlyMarks(before.queue, after.queue, x, note)
    && after.recovering == before.recovering && after.ready == before.ready
  }

  lemma FailStops(cl: Client, x: Option<nat>, note: Note)
    ensures Stopped(cl.editor, FailImage(cl, x, note).editor, x, note) && FailImage(cl, x, note).panel == cl.panel
  {
  }

  /** One item has gone, and the others are as and where they were. */
  ghost predicate CutAt(before: seq<Item>, after: seq<Item>, i: nat, x: nat) {
    i < |before| && before[i].record.client == x && after == before[..i] + before[i + 1..]
  }

  lemma {:induction false} WithoutAbsent(queue: seq<Item>, x: nat)
    requires forall i :: 0 <= i < |queue| ==> queue[i].record.client != x
    ensures Without(queue, x) == queue
  {
    if queue != [] {
      WithoutAbsent(queue[1..], x);
    }
  }

  lemma {:induction false} WithoutCuts(queue: seq<Item>, x: nat) returns (i: nat)
    requires DistinctIds(queue) && x in Ids(queue)
    ensures CutAt(queue, Without(queue, x), i, x)
  {
    IdsHead(queue);
    if queue[0].record.client == x {
      i := 0;
      assert forall j :: 0 <= j < |queue[1..]| ==> queue[1..][j] == queue[j + 1];
      WithoutAbsent(queue[1..], x);
    } else {
      assert forall j :: 0 <= j < |queue[1..]| ==> queue[1..][j] == queue[j + 1];
      var j := WithoutCuts(queue[1..], x);
      i := j + 1;
      assert queue[..i] == [queue[0]] + queue[1..][..j];
      assert queue[1..][j + 1..] == queue[i + 1..];
    }
  }

  /** The queue has lost exactly the item of this id, if it had one, wherever its records' tokens moved to. */
  ghost predicate LosesItem(before: seq<Item>, after: seq<Item>, x: nat) {
    if x in Ids(before) then exists i: nat :: CutAt(before, after, i, x) else after == before
  }

  lemma WithoutLoses(queue: seq<Item>, x: nat)
    requires DistinctIds(queue)
    ensures LosesItem(queue, Without(queue, x), x)
  {
    if x in Ids(queue) {
      var i := WithoutCuts(queue, x);
    } else {
      forall i | 0 <= i < |queue| ensures queue[i].record.client != x {
        assert queue[i].record.client in Ids(queue);
      }
      WithoutAbsent(queue, x);
    }
  }

  /** The next file of the batch starts with the record the queue has for it; without one the editor is free. */
  ghost predicate GoesOn(waiting: seq<Record>, queue: seq<Item>, after: Editor) {
    if waiting == [] then after.job == Idle && after.waiting == [] && after.queue == queue
    else
      && after.waiting == waiting[1..] && after.job.Starting? && after.job.purpose.Fresh?
      && after.job.purpose.record == QueueCopy(queue, waiting[0])
      && OnlyMarks(queue, after.queue, Some(after.job.purpose.record.client), Uploading)
  }

  lemma BatchGoesOn(cl: Client)
    ensures GoesOn(cl.editor.waiting, cl.editor.queue, NextInBatch(cl).editor) && NextInBatch(cl).panel == cl.panel
  {
  }

  /** What the page makes of a snapshot: its attachments, and its pair if the text is the page's own; otherwise a banner that quotes it. */
  ghost predicate TakesSnapshot(p: Panel, q: Panel, r: Reading) {
    && q.images == r.images && q.draft == p.draft && q.persisted == p.persisted
    && (if r.text == p.persisted then q.pair == Pair(r.version, r.revision) && q.base == Some(q.pair) && q.conflict == p.conflict
        else q.pair == p.pair && ShowsBanner(q, r))
  }

  ghost predicate ShowsBanner(q: Panel, r: Reading) {
    && q.status == Conflicted && q.conflict.Some? && q.conflict.value.latestText == r.text && q.conflict.value.latestRevision == r.revision
    && (q.conflict.value.versionChanged <==> r.version != q.pair.version || r.isSealed)
  }

  lemma UpdateTakes(p: Panel, r: Reading)
    ensures TakesSnapshot(p, ImageUpdate(p, r), r)
  {
  }

  // ---------------------------------------------------------------- preparing

  /** With a save running or an intent open the operation stops, an unsaved draft is saved first, and otherwise the page reads back. */
  ghost predicate Prepares(s: System, t: System, page: nat, purpose: Purpose) {
    && page in s.clients && page in t.clients && t.devices == s.devices
    && var p, ed := PanelOf(s, page), EditorOf(s, page);
    if p.saving.Some? || p.intent.Some? then
      t.calls == s.calls && PanelOf(t, page) == p && Stopped(ed, EditorOf(t, page), PurposeId(purpose), ImageQueue.Failed)
    else if p.pair.version == None || p.pair.revision < 1 || p.draft != p.persisted then
      Requests(s, t, page, Save(p.draft, p.pair)) && EditorOf(t, page) == ed.(job := SavingFirst(purpose))
    else Requests(s, t, page, Read) && PanelOf(t, page) == p && EditorOf(t, page) == ed.(job := Preparing(|s.calls|, purpose))
  }

  lemma PrepareMoves(s: System, t: System, page: nat, purpose: Purpose, eff: Effect)
    requires Live(s, page) && eff == StartPrepare(s.clients[page], DeviceOf(s, page), purpose, |s.calls|) && Moves(s, t, page, eff)
    ensures Prepares(s, t, page, purpose)
  {
    FailStops(s.clients[page], PurposeId(purpose), ImageQueue.Failed);
  }

  /** The next file of a batch starts. */
  lemma ProceedShows(s: System, e: Event, page: nat)
    requires Takes(s, e, page) && e.Proceed?
    ensures Prepares(s, Next(s, e), page, EditorOf(s, page).job.purpose)
  {
    var eff := StepMoves(s, e, page);
    PrepareMoves(s, Next(s, e), page, EditorOf(s, page).job.purpose, eff);
  }

  /** The save that an operation began with: on success the page reads back, otherwise the operation stops. */
  lemma FirstSaveShows(s: System, e: Event, page: nat, reply: Reply)
    requires AnswersSave(s, e, page, reply) && EditorOf(s, page).job.SavingFirst?
    ensures var t := Next(s, e);
      && page in t.clients
      && var ed := EditorOf(s, page);
      if reply.Saved? then Requests(s, t, page, Read) && EditorOf(t, page) == ed.(job := Preparing(|s.calls|, ed.job.purpose))
      else t.calls == s.calls && Stopped(ed, EditorOf(t, page), PurposeId(ed.job.purpose), ImageQueue.Failed)
  {
    var eff := AnswerMoves(s, e, page, PanelOf(s, page).saving.value.call, reply);
    FailStops(s.clients[page].(panel := SaveReply(PanelOf(s, page), reply)), PurposeId(EditorOf(s, page).job.purpose), ImageQueue.Failed);
  }

  /** The answer to the call the running operation waits for. */
  ghost predicate AnswersJob(s: System, e: Event, page: nat, reply: Reply) {
    && page in s.clients && JobCall(EditorOf(s, page).job).Some?
    && Answers(s, e, page, JobCall(EditorOf(s, page).job).value, reply)
    && TakenByUpload(s.clients[page], JobCall(EditorOf(s, page).job).value)
  }

  lemma JobMoves(s: System, e: Event, page: nat, reply: Reply) returns (eff: Effect)
    requires AnswersJob(s, e, page, reply)
    ensures eff == ImageDone(s.clients[page], DeviceOf(s, page), reply, e.disk, e.now, |s.calls|) && Moves(s, Next(s, e), page, eff)
  {
    eff := AnswerMoves(s, e, page, JobCall(EditorOf(s, page).job).value, reply);
  }

  /** The read-back is exactly what the page holds. */
  predicate SameAsHeld(p: Panel, r: Reading) {
    r.version == p.pair.version && r.revision == p.pair.revision && r.text == p.persisted && !r.isSealed
  }

  /** The request that posts record `r`, as it is queued, with the pair of the reading. */
  ghost predicate PostsRecord(s: System, t: System, page: nat, r: Record, current: Reading, now: nat) {
    && page in s.clients && page in t.clients && current.version.Some?
    && var queued := QueueCopy(EditorOf(s, page).queue, r);
    && Requests(s, t, page, Upload(current.version.value, current.revision, queued.client, queued.digest))
    && EditorOf(t, page).job.Posting? && EditorOf(t, page).job.call == |s.calls| && EditorOf(t, page).job.current == current
    && var bound := EditorOf(t, page).job.record;
    && bound.client == queued.client && bound.digest == queued.digest && TokensOf(bound) == Tokens(current) && bound.stamp == now
    && PostsFrom(EditorOf(s, page).queue, EditorOf(t, page).queue, bound, TokensOf(r), Tokens(current), now)
  }

  /** Its item shows the bound record on its way; the others at the record's old tokens follow it, the rest stays. */
  ghost predicate PostsFrom(before: seq<Item>, after: seq<Item>, bound: Record, from: Baseline, to: Baseline, now: nat) {
    |after| == |before| && forall i :: 0 <= i < |before| ==>
      after[i] == if before[i].record.client == bound.client then Item(bound, Uploading) else MovedItem(before[i], true, from, to, now)
  }

  /** The queue's copy of a record survives a rebase but for its tokens. */
  lemma {:induction false} FindAdvanced(queue: seq<Item>, next: seq<Item>, x: nat)
    requires |next| == |queue|
    requires forall i :: 0 <= i < |queue| ==> next[i].record.client == queue[i].record.client && next[i].record.digest == queue[i].record.digest
    ensures Find(queue, x).Some? <==> Find(next, x).Some?
    ensures Find(queue, x).Some? ==> Find(next, x).value.client == Find(queue, x).value.client && Find(next, x).value.digest == Find(queue, x).value.digest
  {
    if queue != [] {
      FindAdvanced(queue[1..], next[1..], x);
    }
  }

  lemma PostSends(cl: Client, d: Device, r: Record, current: Reading, disk: Disk, now: nat, next: nat)
    requires current.version.Some? && !current.isSealed
    ensures var e := Post(cl, d, r, current, disk, now, next);
      var queued := QueueCopy(cl.editor.queue, r);
      && e.send == Some(Upload(current.version.value, current.revision, queued.client, queued.digest))
      && e.client.editor.job.Posting? && e.client.editor.job.call == next && e.client.editor.job.current == current
      && var bound := e.client.editor.job.record;
      && bound.client == queued.client && bound.digest == queued.digest && TokensOf(bound) == Tokens(current) && bound.stamp == now
      && PostsFrom(cl.editor.queue, e.client.editor.queue, bound, TokensOf(r), Tokens(current), now)
  {
    AdvanceFrame(cl.editor.queue, TokensOf(r), Tokens(current), now);
    FindAdvanced(cl.editor.queue, Advance(cl.editor.queue, TokensOf(r), Tokens(current), now), r.client);
  }

  /** The purpose is to upload a file. */
  predicate Uploads(purpose: Purpose) {
    !purpose.Removal?
  }

  /** A read-back that is what the page holds: the file is posted with exactly its pair. */
  lemma ReadBackPosts(s: System, e: Event, page: nat, r: Reading)
    requires AnswersJob(s, e, page, Snapshot(r)) && EditorOf(s, page).job.Preparing? && Uploads(EditorOf(s, page).job.purpose)
    requires !r.closed && SameAsHeld(PanelOf(s, page), r) && r.version.Some?
    ensures PostsRecord(s, Next(s, e), page, EditorOf(s, page).job.purpose.record, r, e.now)
    ensures PanelOf(Next(s, e), page).images == r.images && PanelOf(Next(s, e), page).pair == PanelOf(s, page).pair
  {
    var eff := JobMoves(s, e, page, Snapshot(r));
    var cl := s.clients[page];
    PostSends(cl.(panel := ImageUpdate(cl.panel, r)), DeviceOf(s, page), EditorOf(s, page).job.purpose.record, r, e.disk, e.now, |s.calls|);
  }

  /** Any other read-back stops the operation with a banner that quotes it; nothing is sent. */
  lemma ReadBackStops(s: System, e: Event, page: nat, r: Reading)
    requires AnswersJob(s, e, page, Snapshot(r)) && EditorOf(s, page).job.Preparing? && !r.closed && !SameAsHeld(PanelOf(s, page), r)
    ensures var t := Next(s, e);
      && page in t.clients && t.calls == s.calls && t.devices == s.devices && ShowsBanner(PanelOf(t, page), r)
      && PanelOf(t, page).draft == PanelOf(s, page).draft && PanelOf(t, page).pair == PanelOf(s, page).pair
      && Stopped(EditorOf(s, page), EditorOf(t, page), PurposeId(EditorOf(s, page).job.purpose), ImageQueue.Failed)
  {
    var eff := JobMoves(s, e, page, Snapshot(r));
    var cl := s.clients[page];
    FailStops(cl.(panel := ImageConflict(cl.panel, r)), PurposeId(EditorOf(s, page).job.purpose), ImageQueue.Failed);
  }

  /** A read that fails, or finds the records closed, stops the operation; closed records end the editing. */
  lemma ReadFails(s: System, e: Event, page: nat, reply: Reply)
    requires AnswersJob(s, e, page, reply) && (EditorOf(s, page).job.Preparing? || EditorOf(s, page).job.Checking?)
    requires !reply.Snapshot? || reply.reading.closed
    ensures var t := Next(s, e);
      && page in t.clients && t.calls == s.calls && t.devices == s.devices
      && PanelOf(t, page) == PanelOf(s, page).(readOnly := PanelOf(s, page).readOnly || reply.Snapshot?)
      && Stopped(EditorOf(s, page), EditorOf(t, page), PurposeId(EditorOf(s, page).job.purpose), ImageQueue.Failed)
  {
    var eff := JobMoves(s, e, page, reply);
    var cl := s.clients[page];
    FailStops(cl, PurposeId(EditorOf(s, page).job.purpose), ImageQueue.Failed);
    FailStops(cl.(panel := cl.panel.(readOnly := true)), PurposeId(EditorOf(s, page).job.purpose), ImageQueue.Failed);
  }

  // ---------------------------------------------------------------- an upload's end

  /** The attachments after an acknowledged upload: those read before, without any under this id, and then the answered one. */
  ghost predicate ListsUploaded(before: seq<Image>, image: Image, client: nat, after: seq<Image>) {
    && |after| >= 1 && after[|after| - 1] == image
    && (!HasClient(before, client) ==> after == before + [image])
    && (forall i: Image :: i in after <==> i == image || (i in before && i.client != client))
  }

  lemma {:induction false} WithoutClientIs(images: seq<Image>, client: nat)
    ensures forall i: Image :: i in WithoutClient(images, client) <==> i in images && i.client != client
    ensures !HasClient(images, client) ==> WithoutClient(images, client) == images
  {
    if images != [] {
      WithoutClientIs(images[1..], client);
      assert images == [images[0]] + images[1..];
      if !HasClient(images, client) {
        assert images[0].client != client;
        assert forall i :: 0 <= i < |images[1..]| ==> images[1..][i] == images[i + 1];
      }
    }
  }

  lemma AckLists(current: Reading, image: Image, revision: nat, client: nat)
    ensures var ack := AckUpload(current, image, revision, client);
      ListsUploaded(current.images, image, client, ack.images) && ack == current.(revision := revision, images := ack.images)
  {
    WithoutClientIs(current.images, client);
  }

  /** The item after a rebase: at the baseline it takes the new tokens and the time, and keeps its id, file and note; otherwise it stays. */
  function MovedItem(item: Item, rebase: bool, from: Baseline, to: Baseline, now: nat): Item {
    if rebase && from != to && item.record.version == from.version && item.record.revision == from.revision
    then Item(Record(item.record.client, item.record.digest, to.version, to.revision, now), item.note) else item
  }

  ghost predicate Rebases(before: seq<Item>, after: seq<Item>, rebase: bool, from: Baseline, to: Baseline, now: nat) {
    |after| == |before| && forall i :: 0 <= i < |before| ==> after[i] == MovedItem(before[i], rebase, from, to, now)
  }

  lemma AdvanceRebases(cl: Client, rebase: bool, from: Baseline, to: Baseline, now: nat)
    ensures Rebases(cl.editor.queue, (if rebase then AdvanceAll(cl, from, to, now) else cl).editor.queue, rebase, from, to, now)
  {
  }

  /** The queue follows the page's own write, if it did one, then the item leaves it, and the batch goes on. */
  ghost predicate Settles(before: Editor, after: Editor, x: nat, rebase: bool, from: Baseline, to: Baseline, now: nat) {
    exists queue: seq<Item>, rest: seq<Item> ::
      Rebases(before.queue, queue, rebase, from, to, now) && LosesItem(queue, rest, x) && GoesOn(before.waiting, rest, after)
  }

  /** The queue follows the page's own write, if it did one, and the batch goes on. */
  ghost predicate Follows(before: Editor, after: Editor, rebase: bool, from: Baseline, to: Baseline, now: nat) {
    exists queue: seq<Item> :: Rebases(before.queue, queue, rebase, from, to, now) && GoesOn(before.waiting, queue, after)
  }

  lemma SettledBy(cl: Client, p: Panel, rebase: bool, before: Baseline, to: Baseline, rec: Record, now: nat)
    requires DistinctIds(cl.editor.queue)
    ensures var c1 := if rebase then AdvanceAll(cl, before, to, now) else cl;
      var after := NextInBatch(ClearQueue(c1.(panel := p), rec.client));
      after.panel == p && Settles(cl.editor, after.editor, rec.client, rebase, before, to, now)
  {
    AdvanceFrame(cl.editor.queue, before, to, now);
    AdvanceRebases(cl, rebase, before, to, now);
    var c1 := if rebase then AdvanceAll(cl, before, to, now) else cl;
    WithoutLoses(c1.editor.queue, rec.client);
    BatchGoesOn(ClearQueue(c1.(panel := p), rec.client));
  }

  /** The store has followed: what the queue rebased is stored with its new tokens, but for the record of this id. */
  ghost predicate StoreFollows(before: seq<Item>, after: Store, x: nat, from: Baseline, to: Baseline, now: nat) {
    forall i :: 0 <= i < |before| && before[i].record.client != x && TokensOf(before[i].record) == from ==>
      HasRecord(after, Rebased(before[i].record, to, now))
  }

  lemma ClearedFollows(cl: Client, d: Device, from: Baseline, to: Baseline, rec: Record, disk: Disk, now: nat)
    requires DistinctIds(cl.editor.queue) && from != to && disk.replace
    ensures var d1 := AdvanceStore(cl, d, from, to, now, disk);
      StoreFollows(cl.editor.queue, ClearStore(d1, rec, disk).store, rec.client, from, to, now)
  {
    var queue := cl.editor.queue;
    var d1 := AdvanceStore(cl, d, from, to, now, disk);
    forall i | 0 <= i < |queue| && queue[i].record.client != rec.client && TokensOf(queue[i].record) == from
      ensures HasRecord(ClearStore(d1, rec, disk).store, Rebased(queue[i].record, to, now))
    {
      StoreAdvanceStores(d.store, queue, from, to, now, i);
    }
  }

  /** A rebase within a version leaves a record under its key. */
  lemma {:induction false} FindKeepsVersion(queue: seq<Item>, before: Baseline, to: Baseline, now: nat, x: nat)
    requires before.version == to.version
    ensures var found := Find(Advance(queue, before, to, now), x);
      (found.Some? <==> Find(queue, x).Some?) && (found.Some? ==> StoreKey(found.value) == StoreKey(Find(queue, x).value))
  {
    if queue != [] {
      var next := Advance(queue, before, to, now);
      FindKeepsVersion(queue[1..], before, to, now, x);
      assert next[1..] == Advance(queue[1..], before, to, now);
    }
  }

  /**
   * An acknowledged upload: the item leaves the queue and, if the deletion succeeds, its record the
   * store; the batch goes on; and the page takes over what it had read, with the image attached.
   */
  lemma UploadShows(s: System, e: Event, page: nat, image: Image, revision: nat)
    requires AnswersJob(s, e, page, Uploaded(image, revision)) && EditorOf(s, page).job.Posting? && DistinctIds(EditorOf(s, page).queue)
    ensures var t := Next(s, e);
      var job := EditorOf(s, page).job;
      && Live(t, page) && t.calls == s.calls
      && Settles(EditorOf(s, page), EditorOf(t, page), job.record.client, revision == job.current.revision + 1,
                 Baseline(job.current.version, Some(job.current.revision)), Baseline(job.current.version, Some(revision)), e.now)
      && var p, q := PanelOf(s, page), PanelOf(t, page);
      && ListsUploaded(job.current.images, image, job.record.client, q.images)
      && TakesSnapshot(p, q, job.current.(revision := revision, images := q.images))
    ensures var job := EditorOf(s, page).job;
      && (e.disk.remove ==> StoreKey(QueueCopy(EditorOf(s, page).queue, job.record)) !in DeviceOf(Next(s, e), page).store)
      && (e.disk.replace && revision == job.current.revision + 1 ==>
            StoreFollows(EditorOf(s, page).queue, DeviceOf(Next(s, e), page).store, job.record.client,
                         Tokens(job.current), Baseline(job.current.version, Some(revision)), e.now))
  {
    var cl := s.clients[page];
    var eff := JobMoves(s, e, page, Uploaded(image, revision));
    UploadDone(cl, DeviceOf(s, page), image, revision, cl.editor.job.record, cl.editor.job.current, e.disk, e.now);
  }

  lemma UploadDone(cl: Client, d: Device, image: Image, revision: nat, rec: Record, current: Reading, disk: Disk, now: nat)
    requires DistinctIds(cl.editor.queue)
    ensures var after := Posted(cl, d, Uploaded(image, revision), rec, current, disk, now);
      && after.send == None
      && Settles(cl.editor, after.client.editor, rec.client, revision == current.revision + 1,
                 Tokens(current), Baseline(current.version, Some(revision)), now)
      && ListsUploaded(current.images, image, rec.client, after.client.panel.images)
      && TakesSnapshot(cl.panel, after.client.panel, current.(revision := revision, images := after.client.panel.images))
      && (disk.remove ==> StoreKey(QueueCopy(cl.editor.queue, rec)) !in after.device.store)
      && (disk.replace && revision == current.revision + 1 ==>
            StoreFollows(cl.editor.queue, after.device.store, rec.client, Tokens(current), Baseline(current.version, Some(revision)), now))
  {
    var ack := AckUpload(current, image, revision, rec.client);
    AckLists(current, image, revision, rec.client);
    UpdateTakes(cl.panel, ack);
    SettledBy(cl, ImageUpdate(cl.panel, ack), revision == current.revision + 1, Tokens(current), Tokens(ack), rec, now);
    FindKeepsVersion(cl.editor.queue, Tokens(current), Tokens(ack), now, rec.client);
    if disk.replace && revision == current.revision + 1 {
      var c1 := AdvanceAll(cl, Tokens(current), Tokens(ack), now);
      FindIsQueued(c1.editor.queue, rec.client);
      ClearedFollows(cl, d, Tokens(current), Tokens(ack), QueueCopy(c1.editor.queue, rec), disk, now);
    }
  }

  /** An upload that fails, or whose answer is lost: the item stays queued for another try, and nothing else changes. */
  lemma UploadFailShows(s: System, e: Event, page: nat, reply: Reply)
    requires AnswersJob(s, e, page, reply) && EditorOf(s, page).job.Posting? && !reply.Uploaded?
    ensures var t := Next(s, e);
      && page in t.clients && t.calls == s.calls && t.devices == s.devices && PanelOf(t, page) == PanelOf(s, page)
      && Stopped(EditorOf(s, page), EditorOf(t, page), Some(EditorOf(s, page).job.record.client), ImageQueue.Failed)
  {
    var eff := JobMoves(s, e, page, reply);
    FailStops(s.clients[page], Some(EditorOf(s, page).job.record.client), ImageQueue.Failed);
  }

  // ---------------------------------------------------------------- trying again

  /** A retry reads first, for the record that is queued. */
  lemma RetryShows(s: System, e: Event, page: nat)
    requires Takes(s, e, page) && e.RetryImage?
    ensures var t := Next(s, e);
      && page in t.clients && t.devices == s.devices && Requests(s, t, page, Read) && PanelOf(t, page) == PanelOf(s, page)
      && var queued := Find(EditorOf(s, page).queue, e.image);
      && queued.Some? && queued.value.client == e.image && EditorOf(t, page).job == Checking(|s.calls|, Again(queued.value))
      && OnlyMarks(EditorOf(s, page).queue, EditorOf(t, page).queue, Some(e.image), Uploading)
  {
    var queue := EditorOf(s, page).queue;
    var i :| 0 <= i < |queue| && queue[i].record.client == e.image;
    assert e.image in Ids(queue);
    FindIsQueued(queue, e.image);
    var eff := StepMoves(s, e, page);
  }

  /** The read of a retry, while the records are open. */
  ghost predicate Rechecks(s: System, e: Event, page: nat, rec: Record, r: Reading) {
    && AnswersJob(s, e, page, Snapshot(r)) && !r.closed
    && EditorOf(s, page).job.Checking? && EditorOf(s, page).job.purpose == Again(rec)
  }

  /** The reading already lists the image under the record's version: it is settled without another post. */
  lemma RetryFindsAttached(s: System, e: Event, page: nat, rec: Record, r: Reading)
    requires Rechecks(s, e, page, rec, r) && DistinctIds(EditorOf(s, page).queue)
    requires exists i :: 0 <= i < |r.images| && r.images[i].client == rec.client && Some(r.images[i].version) == rec.version
    ensures var t := Next(s, e);
      && page in t.clients
      && Settles(EditorOf(s, page), EditorOf(t, page), rec.client, rec.revision.Some? && r.revision == rec.revision.value + 1,
                 Baseline(rec.version, rec.revision), Baseline(r.version, Some(r.revision)), e.now)
      && TakesSnapshot(PanelOf(s, page), PanelOf(t, page), r)
      && (if r.text == PanelOf(s, page).persisted && r.isSealed then Requests(s, t, page, Read) else t.calls == s.calls)
  {
    var cl := s.clients[page];
    var eff := JobMoves(s, e, page, Snapshot(r));
    FoundAttached(cl, DeviceOf(s, page), r, rec, e.disk, e.now, |s.calls|);
  }

  lemma FoundAttached(cl: Client, d: Device, r: Reading, rec: Record, disk: Disk, now: nat, next: nat)
    requires AttachedIn(r.images, rec) && DistinctIds(cl.editor.queue)
    ensures var after := CheckedAgain(cl, d, r, rec, disk, now, next);
      && Settles(cl.editor, after.client.editor, rec.client, rec.revision.Some? && r.revision == rec.revision.value + 1, TokensOf(rec), Tokens(r), now)
      && TakesSnapshot(cl.panel, after.client.panel, r)
      && after.send == if r.text == cl.panel.persisted && r.isSealed then Some(Read) else None
  {
    UpdateTakes(cl.panel, r);
    SettledBy(cl, ImageUpdate(cl.panel, r), rec.revision.Some? && r.revision == rec.revision.value + 1, TokensOf(rec), Tokens(r), rec, now);
  }

  /** The submission has moved on without it: a banner quotes the reading, the item is out of date, and nothing is sent. */
  lemma RetryFindsMoved(s: System, e: Event, page: nat, rec: Record, r: Reading)
    requires Rechecks(s, e, page, rec, r)
    requires forall i :: 0 <= i < |r.images| && r.images[i].client == rec.client ==> Some(r.images[i].version) != rec.version
    requires r.version != rec.version || r.isSealed || (rec.revision.Some? && rec.revision.value != r.revision)
    ensures var t := Next(s, e);
      && page in t.clients && t.calls == s.calls && t.devices == s.devices && ShowsBanner(PanelOf(t, page), r)
      && PanelOf(t, page).draft == PanelOf(s, page).draft && PanelOf(t, page).pair == PanelOf(s, page).pair
      && Stopped(EditorOf(s, page), EditorOf(t, page), Some(rec.client), Outdated)
  {
    var cl := s.clients[page];
    var eff := JobMoves(s, e, page, Snapshot(r));
    FailStops(cl.(panel := ImageConflict(cl.panel, r)), Some(rec.client), Outdated);
  }

  /** Otherwise it is posted with the pair just read, or, before the first save, prepared like a new one. */
  lemma RetryPosts(s: System, e: Event, page: nat, rec: Record, r: Reading)
    requires Rechecks(s, e, page, rec, r)
    requires forall i :: 0 <= i < |r.images| && r.images[i].client == rec.client ==> Some(r.images[i].version) != rec.version
    requires r.version == rec.version && !r.isSealed && (rec.revision.Some? ==> rec.revision.value == r.revision)
    ensures var t := Next(s, e);
      if r.version.Some? then PostsRecord(s, t, page, rec, r, e.now) && PanelOf(t, page) == PanelOf(s, page) else Prepares(s, t, page, Again(rec))
  {
    var eff := JobMoves(s, e, page, Snapshot(r));
    if r.version.Some? {
      PostSends(s.clients[page], DeviceOf(s, page), rec, r, e.disk, e.now, |s.calls|);
    } else {
      PrepareMoves(s, Next(s, e), page, Again(rec), eff);
    }
  }

  // ---------------------------------------------------------------- removing an attachment

  /** A click on "remove" reads first, for the image clicked and the revision on screen. */
  lemma RemoveShows(s: System, e: Event, page: nat)
    requires Takes(s, e, page) && e.RemoveAttached?
    ensures var t := Next(s, e);
      && page in t.clients && t.devices == s.devices && Requests(s, t, page, Read) && PanelOf(t, page) == PanelOf(s, page)
      && EditorOf(t, page) == EditorOf(s, page).(job := Checking(|s.calls|, Removal(e.target, PanelOf(s, page).pair.revision)))
  {
    var eff := StepMoves(s, e, page);
  }

  /** The read of a removal, while the records are open. */
  ghost predicate ChecksRemoval(s: System, e: Event, page: nat, image: Image, seen: nat, r: Reading) {
    && AnswersJob(s, e, page, Snapshot(r)) && !r.closed
    && EditorOf(s, page).job.Checking? && EditorOf(s, page).job.purpose == Removal(image, seen)
  }

  /** Only the image clicked is removed, only from its own open version, and only at the revision that was on screen. */
  lemma RemovalSends(s: System, e: Event, page: nat, image: Image, seen: nat, r: Reading)
    requires ChecksRemoval(s, e, page, image, seen, r)
    requires r.version == Some(image.version) && !r.isSealed && r.revision == seen && HasId(r.images, image.id)
    ensures var t := Next(s, e);
      && page in t.clients && t.devices == s.devices && PanelOf(t, page) == PanelOf(s, page)
      && Requests(s, t, page, Remove(image.version, r.revision, image.id))
      && EditorOf(t, page) == EditorOf(s, page).(job := Deleting(|s.calls|, image, r))
  {
    var eff := JobMoves(s, e, page, Snapshot(r));
  }

  /** Work under revision gets its new draft first. */
  lemma RemovalPrepares(s: System, e: Event, page: nat, image: Image, seen: nat, r: Reading)
    requires ChecksRemoval(s, e, page, image, seen, r) && r.version == Some(image.version) && r.isSealed && seen == 0
    ensures Prepares(s, Next(s, e), page, Removal(image, seen))
  {
    var eff := JobMoves(s, e, page, Snapshot(r));
    PrepareMoves(s, Next(s, e), page, Removal(image, seen), eff);
  }

  /** In every other case nothing is sent, and the page shows why: what is listed now, or a banner. */
  lemma RemovalHolds(s: System, e: Event, page: nat, image: Image, seen: nat, r: Reading)
    requires ChecksRemoval(s, e, page, image, seen, r) && !(r.version == Some(image.version) && r.isSealed && seen == 0)
    requires r.version != Some(image.version) || r.isSealed || r.revision != seen || !HasId(r.images, image.id)
    ensures var t := Next(s, e);
      && page in t.clients && t.calls == s.calls && t.devices == s.devices && Stopped(EditorOf(s, page), EditorOf(t, page), None, Waiting)
      && (if r.version == Some(image.version) && !r.isSealed && !HasId(r.images, image.id)
          then TakesSnapshot(PanelOf(s, page), PanelOf(t, page), r) else ShowsBanner(PanelOf(t, page), r))
  {
    var eff := JobMoves(s, e, page, Snapshot(r));
    DeleteHolds(s.clients[page], DeviceOf(s, page), image, r, seen, |s.calls|);
  }

  lemma DeleteHolds(cl: Client, d: Device, image: Image, r: Reading, seen: nat, next: nat)
    requires r.version != Some(image.version) || r.isSealed || r.revision != seen || !HasId(r.images, image.id)
    ensures var after := Delete(cl, d, image, r, Some(seen), next);
      && after.send == None && after.device == d && Stopped(cl.editor, after.client.editor, None, Waiting)
      && (if r.version == Some(image.version) && !r.isSealed && !HasId(r.images, image.id)
          then TakesSnapshot(cl.panel, after.client.panel, r) else ShowsBanner(after.client.panel, r))
  {
    UpdateTakes(cl.panel, r);
    FailStops(cl.(panel := ImageConflict(cl.panel, r)), None, Outdated);
    FailStops(cl.(panel := ImageUpdate(cl.panel, r)), None, Waiting);
  }

  /** After the new draft was made, it is the copy of the same file in the new version that is removed. */
  lemma CopyIsRemoved(s: System, e: Event, page: nat, r: Reading)
    requires AnswersJob(s, e, page, Snapshot(r)) && EditorOf(s, page).job.Preparing? && EditorOf(s, page).job.purpose.Removal?
    requires !r.closed && SameAsHeld(PanelOf(s, page), r) && r.version.Some?
    requires forall i :: 0 <= i < |r.images| ==> r.images[i].version == r.version.value
    ensures var t := Next(s, e);
      var image := EditorOf(s, page).job.purpose.image;
      && page in t.clients
      && (if HasClient(r.images, image.client) then
            && EditorOf(t, page).job.Deleting? && EditorOf(t, page).job.target in r.images && EditorOf(t, page).job.target.client == image.client
            && Requests(s, t, page, Remove(r.version.value, r.revision, EditorOf(t, page).job.target.id))
          else t.calls == s.calls && EditorOf(t, page).job == Idle)
      && Rebases(EditorOf(s, page).queue, EditorOf(t, page).queue, true, Baseline(Some(image.version), Some(EditorOf(s, page).job.purpose.seen)), Tokens(r), e.now)
  {
    var eff := JobMoves(s, e, page, Snapshot(r));
    var purpose := EditorOf(s, page).job.purpose;
    CopyFound(s.clients[page], DeviceOf(s, page), r, purpose.image, purpose.seen, e.disk, e.now, |s.calls|);
  }

  lemma CopyFound(cl: Client, d: Device, r: Reading, image: Image, seen: nat, disk: Disk, now: nat, next: nat)
    requires SameAsHeld(cl.panel, r) && r.version.Some? && forall i :: 0 <= i < |r.images| ==> r.images[i].version == r.version.value
    ensures var after := Prepared(cl, d, r, Removal(image, seen), disk, now, next);
      && Rebases(cl.editor.queue, after.client.editor.queue, true, Baseline(Some(image.version), Some(seen)), Tokens(r), now)
      && (if HasClient(r.images, image.client) then
            && after.client.editor.job.Deleting? && after.client.editor.job.target in r.images && after.client.editor.job.target.client == image.client
            && after.send == Some(Remove(r.version.value, r.revision, after.client.editor.job.target.id))
          else after.send == None && after.client.editor.job == Idle)
  {
    var found := FindClient(r.images, image.client);
    if found.Some? {
      var i :| 0 <= i < |r.images| && r.images[i] == found.value;
      CopyDeletes(AdvanceAll(cl.(panel := ImageUpdate(cl.panel, r)), Baseline(Some(image.version), Some(seen)), Tokens(r), now),
        AdvanceStore(cl, d, Baseline(Some(image.version), Some(seen)), Tokens(r), now, disk), found.value, r, next, i);
    }
  }

  lemma CopyDeletes(cl: Client, d: Device, target: Image, r: Reading, next: nat, i: nat)
    requires i < |r.images| && r.images[i] == target && r.version == Some(target.version) && !r.isSealed
    ensures Delete(cl, d, target, r, None, next) ==
      Effect(cl.(editor := cl.editor.(job := Deleting(next, target, r))), d, Some(Remove(target.version, r.revision, target.id)))
  {
    assert HasId(r.images, target.id);
  }

  /** An acknowledged removal: exactly this attachment goes from what the page had read, and it takes over the answered revision. */
  lemma RemovalShows(s: System, e: Event, page: nat, revision: nat)
    requires AnswersJob(s, e, page, Removed(revision)) && EditorOf(s, page).job.Deleting?
    ensures var t := Next(s, e);
      var job := EditorOf(s, page).job;
      && page in t.clients && t.calls == s.calls
      && DropsOnly(job.current.images, job.target.id, PanelOf(t, page).images)
      && TakesSnapshot(PanelOf(s, page), PanelOf(t, page), job.current.(revision := revision, images := PanelOf(t, page).images))
      && Follows(EditorOf(s, page), EditorOf(t, page), revision == job.current.revision + 1,
                 Tokens(job.current), Baseline(job.current.version, Some(revision)), e.now)
  {
    var cl := s.clients[page];
    var eff := JobMoves(s, e, page, Removed(revision));
    RemovalDone(cl, DeviceOf(s, page), cl.editor.job.target, cl.editor.job.current, revision, e.disk, e.now);
  }

  lemma RemovalDone(cl: Client, d: Device, target: Image, current: Reading, revision: nat, disk: Disk, now: nat)
    ensures var after := Deleted(cl, d, Removed(revision), target, current, disk, now);
      && after.send == None && DropsOnly(current.images, target.id, after.client.panel.images)
      && TakesSnapshot(cl.panel, after.client.panel, current.(revision := revision, images := after.client.panel.images))
      && Follows(cl.editor, after.client.editor, revision == current.revision + 1, Tokens(current), Baseline(current.version, Some(revision)), now)
  {
    var ack := AckRemoval(current, target, revision);
    var at := WithoutIdDrops(current.images, target.id);
    UpdateTakes(cl.panel, ack);
    AdvanceRebases(cl, revision == current.revision + 1, Tokens(current), Tokens(ack), now);
    var c1 := if revision == current.revision + 1 then AdvanceAll(cl, Tokens(current), Tokens(ack), now) else cl;
    BatchGoesOn(c1.(panel := ImageUpdate(c1.panel, ack)));
  }

  lemma RemovalFailShows(s: System, e: Event, page: nat, reply: Reply)
    requires AnswersJob(s, e, page, reply) && EditorOf(s, page).job.Deleting? && !reply.Removed?
    ensures var t := Next(s, e);
      && page in t.clients && t.calls == s.calls && t.devices == s.devices && PanelOf(t, page) == PanelOf(s, page)
      && Stopped(EditorOf(s, page), EditorOf(t, page), None, Waiting)
  {
    var eff := JobMoves(s, e, page, reply);
    FailStops(s.clients[page], None, Waiting);
  }

  // ---------------------------------------------------------------- discarding and recovering

  /** Discarding takes exactly this item out of the queue, and exactly its record out of the store if the deletion succeeds. */
  lemma DiscardShows(s: System, e: Event, page: nat)
    requires Takes(s, e, page) && e.DiscardPending? && DistinctIds(EditorOf(s, page).queue)
    ensures var t := Next(s, e);
      && Live(t, page) && t.calls == s.calls && PanelOf(t, page) == PanelOf(s, page)
      && var before, after := EditorOf(s, page), EditorOf(t, page);
      && after == before.(queue := after.queue) && LosesItem(before.queue, after.queue, e.image)
      && var queued := Find(before.queue, e.image);
      DeviceOf(t, page) == DeviceOf(s, page).(store :=
        if queued.Some? && e.disk.remove then DeviceOf(s, page).store - {(queued.value.version, e.image)} else DeviceOf(s, page).store)
  {
    var eff := StepMoves(s, e, page);
    FindIsQueued(EditorOf(s, page).queue, e.image);
    WithoutLoses(EditorOf(s, page).queue, e.image);
    WithoutUnqueued(EditorOf(s, page).queue, e.image);
  }

  lemma WithoutUnqueued(queue: seq<Item>, x: nat)
    ensures x !in Ids(queue) ==> Without(queue, x) == queue
  {
    if x !in Ids(queue) {
      forall i | 0 <= i < |queue| ensures queue[i].record.client != x {
        assert queue[i].record.client in Ids(queue);
      }
      WithoutAbsent(queue, x);
    }
  }

  /** A recovery read keeps what is at most seven days old and remembers the attachments on screen. */
  lemma StartRecoveryShows(s: System, e: Event, page: nat)
    requires Takes(s, e, page) && e.StartRecovery?
    ensures var t := Next(s, e);
      && Live(t, page) && t.calls == s.calls && PanelOf(t, page) == PanelOf(s, page)
      && EditorOf(t, page) == EditorOf(s, page).(recovering := Some(Recovery(e.selected, PanelOf(s, page).images)))
      && var before, after := DeviceOf(s, page).store, DeviceOf(t, page).store;
      forall k :: (k in after <==> k in before && !(e.available && e.disk.remove && e.now > before[k].stamp + 604_800_000)) &&
                  (k in after ==> after[k] == before[k])
  {
    var eff := StepMoves(s, e, page);
  }

  /** What a recovery read brings: one newest copy of every stored image that is neither too old nor from the future. */
  lemma RecoveryReads(s: System, e: Event, page: nat, k: (Option<nat>, nat))
    requires Takes(s, e, page) && e.StartRecovery? && e.available && StoreOk(DeviceOf(s, page).store)
    requires var store := DeviceOf(s, page).store;
      k in store && e.now <= store[k].stamp + 604_800_000 && store[k].stamp <= e.now + 60_000
    ensures var store := DeviceOf(s, page).store;
      exists i :: 0 <= i < |e.selected| && e.selected[i].client == store[k].client && store[k].stamp <= e.selected[i].stamp &&
        StoreKey(e.selected[i]) in store && store[StoreKey(e.selected[i])] == e.selected[i]
  {
    var store := DeviceOf(s, page).store;
    var part := Recoverable(store, e.now);
    assert k in part && part[k] == store[k];
    assert store[k].client in StoreIds(part);
    var i :| 0 <= i < |e.selected| && e.selected[i].client == store[k].client;
  }

  /** `at` are the places, in order, of the records that are neither attached nor queued already. */
  ghost predicate Unsettled(selected: seq<Record>, attached: seq<Image>, queue: seq<Item>, at: seq<nat>) {
    && (forall j, k :: 0 <= j < k < |at| ==> at[j] < at[k])
    && (forall i: nat :: i in at <==> i < |selected| && !AttachedIn(attached, selected[i]) && selected[i].client !in Ids(queue))
  }

  /** The items are these records as they were stored, each waiting for a retry. */
  ghost predicate Offers(selected: seq<Record>, at: seq<nat>, front: seq<Item>) {
    |front| == |at| && forall k :: 0 <= k < |at| ==> at[k] < |selected| && front[k] == Item(selected[at[k]], ImageQueue.Failed)
  }

  lemma {:induction false} RemainingOffers(selected: seq<Record>, attached: seq<Image>, queue: seq<Item>) returns (at: seq<nat>)
    ensures Unsettled(selected, attached, queue, at) && Offers(selected, at, Remaining(selected, attached, queue))
  {
    if selected == [] {
      at := [];
    } else {
      var later := RemainingOffers(selected[1..], attached, queue);
      var kept := !AttachedIn(attached, selected[0]) && selected[0].client !in Ids(queue);
      at := Moved(later, kept);
      MovedPlaces(selected, attached, queue, later, kept);
      MovedOffers(selected, later, Remaining(selected[1..], attached, queue), kept);
    }
  }

  /** The places in a list, from those in its tail. */
  function Moved(later: seq<nat>, kept: bool): seq<nat> {
    (if kept then [0] else []) + seq(|later|, k requires 0 <= k < |later| => later[k] + 1)
  }

  lemma MovedHas(later: seq<nat>, kept: bool, i: nat)
    ensures i in Moved(later, kept) <==> (i == 0 && kept) || (i > 0 && i - 1 in later)
  {
    var at := Moved(later, kept);
    var n := |at| - |later|;
    if i > 0 && i - 1 in later {
      var k :| 0 <= k < |later| && later[k] == i - 1;
      assert at[n + k] == i;
    }
    if i == 0 && kept {
      assert at[0] == 0;
    }
  }

  lemma MovedPlaces(selected: seq<Record>, attached: seq<Image>, queue: seq<Item>, later: seq<nat>, kept: bool)
    requires selected != [] && Unsettled(selected[1..], attached, queue, later)
    requires kept == (!AttachedIn(attached, selected[0]) && selected[0].client !in Ids(queue))
    ensures Unsettled(selected, attached, queue, Moved(later, kept))
  {
    var at := Moved(later, kept);
    forall i: nat ensures i in at <==> i < |selected| && !AttachedIn(attached, selected[i]) && selected[i].client !in Ids(queue) {
      MovedHas(later, kept, i);
      if 0 < i < |selected| {
        assert selected[1..][i - 1] == selected[i];
      }
    }
  }

  lemma MovedOffers(selected: seq<Record>, later: seq<nat>, front: seq<Item>, kept: bool)
    requires selected != [] && Offers(selected[1..], later, front)
    ensures Offers(selected, Moved(later, kept), if kept then [Item(selected[0], ImageQueue.Failed)] + front else front)
  {
    var at := Moved(later, kept);
    var n := |at| - |later|;
    var all := if kept then [Item(selected[0], ImageQueue.Failed)] + front else front;
    forall k | 0 <= k < |at| ensures at[k] < |selected| && all[k] == Item(selected[at[k]], ImageQueue.Failed) {
      if k >= n {
        assert at[k] == later[k - n] + 1 && all[k] == front[k - n];
        assert selected[1..][later[k - n]] == selected[at[k]];
      }
    }
  }

  /**
   * The end of a recovery: in front of the queue, as it now is, come exactly the records read that
   * are neither attached nor queued; exactly the attached ones leave the store; and the editor is ready.
   */
  lemma EndRecoveryShows(s: System, e: Event, page: nat)
    requires Takes(s, e, page) && e.EndRecovery?
    ensures var t := Next(s, e);
      var found := EditorOf(s, page).recovering.value;
      && Live(t, page) && t.calls == s.calls && PanelOf(t, page) == PanelOf(s, page)
      && var before, after := EditorOf(s, page), EditorOf(t, page);
      && after == before.(queue := after.queue, recovering := None, ready := true)
      && exists at: seq<nat>, front: seq<Item> ::
           Unsettled(found.selected, found.attached, before.queue, at) && Offers(found.selected, at, front) && after.queue == front + before.queue
    ensures var found := EditorOf(s, page).recovering.value;
      var before, after := DeviceOf(s, page).store, DeviceOf(Next(s, e), page).store;
      forall k :: (k in after ==> k in before && after[k] == before[k]) &&
        (k in before && k !in after <==>
           k in before && e.disk.remove && exists i :: 0 <= i < |found.selected| && StoreKey(found.selected[i]) == k && AttachedIn(found.attached, found.selected[i]))
  {
    var eff := StepMoves(s, e, page);
    var found := EditorOf(s, page).recovering.value;
    var at := RemainingOffers(found.selected, found.attached, EditorOf(s, page).queue);
  }
}

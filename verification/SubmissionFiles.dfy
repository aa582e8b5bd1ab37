/**
 * From the chosen file to the attachment: what choosing files does to queue and store, item by
 * item, and that in every run whatever is queued, stored, posted or attached under a client id is
 * the file that was chosen under it. A file stands here for its content; two files with one digest
 * are the same file.
 */
module SubmissionFiles {
  import opened Prelude
  import opened JsText
  import opened SubmissionServer
  import opened PracticePanel
  import opened ImageQueue
  import opened PracticeClient
  import opened SubmissionProtocol
  import opened SubmissionStructure

  // ---------------------------------------------------------------- choosing

  /** The event is a choice of files that its page accepts. */
  ghost predicate Chooses(s: System, e: Event) {
    e.ChooseFiles? && Live(s, e.page) && Allowed(s.clients[e.page], s.devices[s.clients[e.page].device], e)
  }

  /** The record made of file `i` of a choice: a new id, this file, the pair on screen, the time of the choice. */
  function ChosenRecord(s: System, e: Event, i: nat): Record
    requires e.ChooseFiles? && e.page in s.clients && i < |e.digests|
  {
    var pair := s.clients[e.page].panel.pair;
    Record(s.nextImage + i, e.digests[i], pair.version, Some(pair.revision), e.now)
  }

  /** The store has the record of every file whose save succeeded, and everything else it had. */
  ghost predicate StoredChosen(before: Store, after: Store, records: seq<Record>, failed: set<nat>) {
    && (forall i :: 0 <= i < |records| && records[i].client !in failed ==> HasRecord(after, records[i]))
    && (forall k :: k in before && !HasKey(records, k) ==> k in after && after[k] == before[k])
    && (forall k :: k in after && !HasKey(records, k) ==> k in before)
  }

  predicate HasKey(records: seq<Record>, k: (Option<nat>, nat)) {
    exists i :: 0 <= i < |records| && StoreKey(records[i]) == k
  }

  lemma {:induction false} PutAllHolds(store: Store, records: seq<Record>, failed: set<nat>, i: nat)
    requires forall i, j :: 0 <= i < j < |records| ==> StoreKey(records[i]) != StoreKey(records[j])
    requires i < |records| && records[i].client !in failed
    ensures HasRecord(PutAll(store, records, failed), records[i])
  {
    var n := |records| - 1;
    if i < n {
      PutAllHolds(store, records[..n], failed, i);
    }
  }

  lemma {:induction false} PutAllOthers(store: Store, records: seq<Record>, failed: set<nat>, k: (Option<nat>, nat))
    requires !HasKey(records, k)
    ensures var all := PutAll(store, records, failed); (k in all <==> k in store) && (k in all ==> all[k] == store[k])
  {
    if records != [] {
      var n := |records| - 1;
      assert StoreKey(records[n]) != k;
      assert forall i :: 0 <= i < n ==> records[..n][i] == records[i];
      PutAllOthers(store, records[..n], failed, k);
    }
  }

  lemma PutAllStores(store: Store, records: seq<Record>, failed: set<nat>)
    requires forall i, j :: 0 <= i < j < |records| ==> StoreKey(records[i]) != StoreKey(records[j])
    ensures StoredChosen(store, PutAll(store, records, failed), records, failed)
  {
    forall i | 0 <= i < |records| && records[i].client !in failed ensures HasRecord(PutAll(store, records, failed), records[i]) {
      PutAllHolds(store, records, failed, i);
    }
    forall k | k in store && !HasKey(records, k) ensures k in PutAll(store, records, failed) && PutAll(store, records, failed)[k] == store[k] {
      PutAllOthers(store, records, failed, k);
    }
    forall k | k in PutAll(store, records, failed) && !HasKey(records, k) ensures k in store {
      PutAllOthers(store, records, failed, k);
    }
  }

  /** The records of a choice, in the order of the files. */
  function ChosenRecords(s: System, e: Event): seq<Record>
    requires e.ChooseFiles? && e.page in s.clients
  {
    seq(|e.digests|, i requires 0 <= i < |e.digests| => ChosenRecord(s, e, i))
  }

  /** The queue went on with these records, in this order, and none was changed. */
  ghost predicate QueuedBehind(before: seq<Item>, records: seq<Record>, after: seq<Item>) {
    && |after| == |before| + |records|
    && (forall i :: 0 <= i < |before| ==> after[i].record == before[i].record)
    && (forall i :: 0 <= i < |records| ==> after[|before| + i].record == records[i])
  }

  lemma ChooseQueues(cl: Client, d: Device, digests: seq<nat>, first: nat, failed: set<nat>, now: nat)
    requires digests != []
    ensures var records := NewRecords(cl.panel.pair, digests, first, now);
      var e := Choose(cl, d, digests, first, failed, now);
      && e.send == None && e.client.panel == cl.panel && QueuedBehind(cl.editor.queue, records, e.client.editor.queue)
      && e.client.editor.waiting == records[1..] && StoredChosen(d.store, e.device.store, records, failed)
  {
    PutAllStores(d.store, NewRecords(cl.panel.pair, digests, first, now), failed);
  }

  /**
   * What an accepted choice does: the queue is the old one followed by one item for every file, in
   * order, and the same records are stored, as far as their saves succeed; those behind the first
   * wait for their turn. Nothing is sent yet, and the panel stays as it is.
   */
  lemma ChooseShows(s: System, e: Event)
    requires Chooses(s, e)
    ensures var t := Next(s, e);
      var records := ChosenRecords(s, e);
      && e.page in t.clients && t.calls == s.calls && t.nextImage == s.nextImage + |e.digests|
      && var before, after := s.clients[e.page], t.clients[e.page];
      && after.panel == before.panel && QueuedBehind(before.editor.queue, records, after.editor.queue)
      && after.editor.waiting == records[1..]
      && before.device in t.devices && StoredChosen(s.devices[before.device].store, t.devices[before.device].store, records, e.failed)
  {
    var cl := s.clients[e.page];
    LiveNext(s, e, e.page);
    assert NewRecords(cl.panel.pair, e.digests, s.nextImage, e.now) == ChosenRecords(s, e);
    ChooseQueues(cl, s.devices[cl.device], e.digests, s.nextImage, e.failed, e.now);
  }

  /** The first file starts at once, with its own record, if no item of the queue has its id. */
  lemma FirstStarts(s: System, e: Event)
    requires Chooses(s, e) && forall i :: 0 <= i < |s.clients[e.page].editor.queue| ==> s.clients[e.page].editor.queue[i].record.client < s.nextImage
    ensures e.page in Next(s, e).clients && Next(s, e).clients[e.page].editor.job == Starting(Fresh(ChosenRecord(s, e, 0)))
  {
    var cl := s.clients[e.page];
    LiveNext(s, e, e.page);
    var records := NewRecords(cl.panel.pair, e.digests, s.nextImage, e.now);
    assert records[0] == ChosenRecord(s, e, 0);
    FindBehind(cl.editor.queue, Waiters(records), s.nextImage);
  }

  lemma {:induction false} FindBehind(queue: seq<Item>, items: seq<Item>, x: nat)
    requires (forall i :: 0 <= i < |queue| ==> queue[i].record.client != x) && items != [] && items[0].record.client == x
    ensures Find(queue + items, x) == Some(items[0].record)
  {
    if queue != [] {
      assert (queue + items)[1..] == queue[1..] + items;
      FindBehind(queue[1..], items, x);
    } else {
      assert queue + items == items;
    }
  }

  // ---------------------------------------------------------------- the files of a run

  /** The files under the ids from `first` on. */
  function Numbered(first: nat, digests: seq<nat>): map<nat, nat> {
    if digests == [] then map[]
    else
      var n := |digests| - 1;
      Numbered(first, digests[..n])[first + n := digests[n]]
  }

  lemma {:induction false} NumberedAre(first: nat, digests: seq<nat>)
    ensures forall x :: x in Numbered(first, digests) <==> first <= x < first + |digests|
    ensures forall i :: 0 <= i < |digests| ==> IsFile(Numbered(first, digests), first + i, digests[i])
  {
    if digests != [] {
      NumberedAre(first, digests[..|digests| - 1]);
    }
  }

  /** The files an event brings in, by the ids it gives them. */
  ghost function NewFiles(s: System, e: Event): map<nat, nat> {
    if Chooses(s, e) then Numbered(s.nextImage, e.digests) else map[]
  }

  /** Every file chosen in a run. */
  ghost function ChosenFiles(s: System, events: seq<Event>): map<nat, nat> {
    if events == [] then map[]
    else
      var front := events[..|events| - 1];
      ChosenFiles(s, front) + NewFiles(Exec(s, front), events[|events| - 1])
  }

  ghost predicate IsFile(files: map<nat, nat>, client: nat, digest: nat) {
    client in files && files[client] == digest
  }

  ghost predicate RecordFile(files: map<nat, nat>, r: Record) {
    IsFile(files, r.client, r.digest)
  }

  ghost predicate ItemFiles(files: map<nat, nat>, queue: seq<Item>) {
    forall i :: 0 <= i < |queue| ==> RecordFile(files, queue[i].record)
  }

  ghost predicate RecordFiles(files: map<nat, nat>, records: seq<Record>) {
    forall i :: 0 <= i < |records| ==> RecordFile(files, records[i])
  }

  ghost predicate StoreFiles(files: map<nat, nat>, store: Store) {
    forall k :: k in store ==> RecordFile(files, store[k])
  }

  ghost predicate PurposeFile(files: map<nat, nat>, p: Purpose) {
    !p.Removal? ==> RecordFile(files, p.record)
  }

  ghost predicate JobFile(files: map<nat, nat>, job: Job) {
    match job
    case Idle => true
    case Starting(p) => PurposeFile(files, p)
    case SavingFirst(p) => PurposeFile(files, p)
    case Preparing(_, p) => PurposeFile(files, p)
    case Checking(_, p) => PurposeFile(files, p)
    case Posting(_, r, _) => RecordFile(files, r)
    case Deleting(_, _, _) => true
  }

  ghost predicate EditorFiles(files: map<nat, nat>, ed: Editor) {
    && ItemFiles(files, ed.queue) && RecordFiles(files, ed.waiting) && JobFile(files, ed.job)
    && (ed.recovering.Some? ==> RecordFiles(files, ed.recovering.value.selected))
  }

  ghost predicate RequestFile(files: map<nat, nat>, q: Request) {
    q.Upload? ==> IsFile(files, q.client, q.digest)
  }

  ghost predicate ImageFiles(files: map<nat, nat>, images: seq<Image>) {
    forall i :: 0 <= i < |images| ==> IsFile(files, images[i].client, images[i].digest)
  }

  ghost predicate ServerFiles(files: map<nat, nat>, s: Server) {
    forall v: nat, r: nat :: v < |s.versions| && r < |s.versions[v].snaps| ==> ImageFiles(files, s.versions[v].snaps[r].images)
  }

  /** Everywhere in the system, an id stands for its file. */
  ghost predicate FilesInv(s: System, files: map<nat, nat>) {
    && (forall c :: c in s.clients ==> EditorFiles(files, s.clients[c].editor))
    && (forall d :: d in s.devices ==> StoreFiles(files, s.devices[d].store))
    && (forall k :: 0 <= k < |s.calls| ==> RequestFile(files, s.calls[k].request))
    && ServerFiles(files, s.server)
    && (forall x :: x in files ==> x < s.nextImage)
  }

  // ---------------------------------------------------------------- one step of a page

  ghost predicate EffectFiles(files: map<nat, nat>, e: Effect) {
    EditorFiles(files, e.client.editor) && StoreFiles(files, e.device.store) && (e.send.Some? ==> RequestFile(files, e.send.value))
  }

  lemma {:induction false} FindFile(files: map<nat, nat>, queue: seq<Item>, client: nat)
    requires ItemFiles(files, queue)
    ensures Find(queue, client).Some? ==> RecordFile(files, Find(queue, client).value)
  {
    if queue != [] {
      FindFile(files, queue[1..], client);
    }
  }

  lemma {:induction false} WithoutFiles(files: map<nat, nat>, queue: seq<Item>, client: nat)
    requires ItemFiles(files, queue)
    ensures ItemFiles(files, Without(queue, client))
  {
    if queue != [] {
      WithoutFiles(files, queue[1..], client);
    }
  }

  lemma {:induction false} StoreAdvanceFiles(files: map<nat, nat>, store: Store, queue: seq<Item>, before: Baseline, to: Baseline, now: nat)
    requires StoreFiles(files, store) && ItemFiles(files, queue)
    ensures StoreFiles(files, StoreAdvance(store, queue, before, to, now))
  {
    if before != to && queue != [] {
      StoreAdvanceFiles(files, store, queue[..|queue| - 1], before, to, now);
    }
  }

  lemma AdvanceFiles(files: map<nat, nat>, cl: Client, d: Device, before: Baseline, to: Baseline, now: nat, disk: Disk)
    requires EditorFiles(files, cl.editor) && StoreFiles(files, d.store)
    ensures EditorFiles(files, AdvanceAll(cl, before, to, now).editor) && StoreFiles(files, AdvanceStore(cl, d, before, to, now, disk).store)
  {
    StoreAdvanceFiles(files, d.store, cl.editor.queue, before, to, now);
  }

  lemma FailFiles(files: map<nat, nat>, cl: Client, x: Option<nat>, note: Note)
    requires EditorFiles(files, cl.editor)
    ensures EditorFiles(files, FailImage(cl, x, note).editor)
  {
  }

  lemma BatchFiles(files: map<nat, nat>, cl: Client)
    requires EditorFiles(files, cl.editor)
    ensures EditorFiles(files, NextInBatch(cl).editor)
  {
    if cl.editor.waiting != [] {
      FindFile(files, cl.editor.queue, cl.editor.waiting[0].client);
    }
  }

  lemma PrepareFiles(files: map<nat, nat>, cl: Client, d: Device, purpose: Purpose, next: nat)
    requires EditorFiles(files, cl.editor) && StoreFiles(files, d.store) && PurposeFile(files, purpose)
    ensures EffectFiles(files, StartPrepare(cl, d, purpose, next))
  {
  }

  lemma BindFiles(files: map<nat, nat>, d: Device, from: Record, bound: Record, disk: Disk)
    requires StoreFiles(files, d.store) && RecordFile(files, bound)
    ensures StoreFiles(files, BindStore(d, from, bound, disk).store)
  {
  }

  /** The request carries the file of its record. */
  lemma PostFiles(files: map<nat, nat>, cl: Client, d: Device, r: Record, current: Reading, disk: Disk, now: nat, next: nat)
    requires EditorFiles(files, cl.editor) && StoreFiles(files, d.store) && RecordFile(files, r)
    ensures EffectFiles(files, Post(cl, d, r, current, disk, now, next))
  {
    if current.version.Some? && !current.isSealed {
      AdvanceFiles(files, cl, d, TokensOf(r), Tokens(current), now, disk);
      var c1 := AdvanceAll(cl, TokensOf(r), Tokens(current), now);
      FindFile(files, c1.editor.queue, r.client);
      var rebased := QueueCopy(c1.editor.queue, r);
      BindFiles(files, AdvanceStore(cl, d, TokensOf(r), Tokens(current), now, disk), rebased, Rebased(rebased, Tokens(current), now), disk);
    }
  }

  lemma DeleteFiles(files: map<nat, nat>, cl: Client, d: Device, target: Image, r: Reading, check: Option<nat>, next: nat)
    requires EditorFiles(files, cl.editor) && StoreFiles(files, d.store)
    ensures EffectFiles(files, Delete(cl, d, target, r, check, next))
  {
  }

  lemma PreparedFiles(files: map<nat, nat>, cl: Client, d: Device, r: Reading, purpose: Purpose, disk: Disk, now: nat, next: nat)
    requires EditorFiles(files, cl.editor) && StoreFiles(files, d.store) && PurposeFile(files, purpose)
    ensures EffectFiles(files, Prepared(cl, d, r, purpose, disk, now, next))
  {
    if ReadbackMatches(cl.panel, r) {
      var c1 := cl.(panel := ImageUpdate(cl.panel, r));
      match purpose
      case Fresh(rec) => PostFiles(files, c1, d, rec, r, disk, now, next);
      case Again(rec) => PostFiles(files, c1, d, rec, r, disk, now, next);
      case Removal(image, seen) => PreparedRemovalFiles(files, c1, d, r, image, seen, disk, now, next);
    }
  }

  lemma PreparedRemovalFiles(files: map<nat, nat>, cl: Client, d: Device, r: Reading, image: Image, seen: nat, disk: Disk, now: nat, next: nat)
    requires EditorFiles(files, cl.editor) && StoreFiles(files, d.store)
    ensures var before := Baseline(Some(image.version), Some(seen));
      var d2 := AdvanceStore(cl, d, before, Tokens(r), now, disk);
      var c2 := AdvanceAll(cl, before, Tokens(r), now);
      && EditorFiles(files, c2.editor) && StoreFiles(files, d2.store)
      && forall target :: EffectFiles(files, Delete(c2, d2, target, r, None, next))
  {
    var before := Baseline(Some(image.version), Some(seen));
    AdvanceFiles(files, cl, d, before, Tokens(r), now, disk);
    var d2 := AdvanceStore(cl, d, before, Tokens(r), now, disk);
    var c2 := AdvanceAll(cl, before, Tokens(r), now);
    forall target ensures EffectFiles(files, Delete(c2, d2, target, r, None, next)) {
      DeleteFiles(files, c2, d2, target, r, None, next);
    }
  }

  /** A settled upload leaves queue and store; the rest is as it was. */
  lemma SettleFiles(files: map<nat, nat>, cl: Client, d: Device, p: Panel, rebase: bool, before: Baseline, to: Baseline, rec: Record, disk: Disk, now: nat)
    requires EditorFiles(files, cl.editor) && StoreFiles(files, d.store)
    ensures var d1 := if rebase then AdvanceStore(cl, d, before, to, now, disk) else d;
      var c1 := if rebase then AdvanceAll(cl, before, to, now) else cl;
      && EditorFiles(files, NextInBatch(ClearQueue(c1.(panel := p), rec.client)).editor)
      && StoreFiles(files, ClearStore(d1, QueueCopy(c1.editor.queue, rec), disk).store)
  {
    AdvanceFiles(files, cl, d, before, to, now, disk);
    var c1 := if rebase then AdvanceAll(cl, before, to, now) else cl;
    WithoutFiles(files, c1.editor.queue, rec.client);
    BatchFiles(files, ClearQueue(c1.(panel := p), rec.client));
  }

  lemma CheckedAgainFiles(files: map<nat, nat>, cl: Client, d: Device, r: Reading, rec: Record, disk: Disk, now: nat, next: nat)
    requires EditorFiles(files, cl.editor) && StoreFiles(files, d.store) && RecordFile(files, rec)
    ensures EffectFiles(files, CheckedAgain(cl, d, r, rec, disk, now, next))
  {
    if AttachedIn(r.images, rec) {
      var ack := rec.revision.Some? && r.revision == rec.revision.value + 1;
      SettleFiles(files, cl, d, ImageUpdate(cl.panel, r), ack, TokensOf(rec), Tokens(r), rec, disk, now);
    } else if r.version != rec.version || r.isSealed || (rec.revision.Some? && rec.revision.value != r.revision) {
      FailFiles(files, cl, Some(rec.client), Outdated);
    } else if r.version == None {
      PrepareFiles(files, cl, d, Again(rec), next);
    } else {
      PostFiles(files, cl, d, rec, r, disk, now, next);
    }
  }

  lemma PostedFiles(files: map<nat, nat>, cl: Client, d: Device, reply: Reply, rec: Record, current: Reading, disk: Disk, now: nat)
    requires EditorFiles(files, cl.editor) && StoreFiles(files, d.store)
    ensures EffectFiles(files, Posted(cl, d, reply, rec, current, disk, now))
  {
    if reply.Uploaded? {
      var ack := AckUpload(current, reply.image, reply.revision, rec.client);
      SettleFiles(files, cl, d, ImageUpdate(cl.panel, ack), reply.revision == current.revision + 1, Tokens(current), Tokens(ack), rec, disk, now);
    }
  }

  lemma DeletedFiles(files: map<nat, nat>, cl: Client, d: Device, reply: Reply, target: Image, current: Reading, disk: Disk, now: nat)
    requires EditorFiles(files, cl.editor) && StoreFiles(files, d.store)
    ensures EffectFiles(files, Deleted(cl, d, reply, target, current, disk, now))
  {
    if reply.Removed? {
      var ack := AckRemoval(current, target, reply.revision);
      AdvanceFiles(files, cl, d, Tokens(current), Tokens(ack), now, disk);
      var c1 := if reply.revision == current.revision + 1 then AdvanceAll(cl, Tokens(current), Tokens(ack), now) else cl;
      BatchFiles(files, c1.(panel := ImageUpdate(c1.panel, ack)));
    }
  }

  lemma ImageDoneFiles(files: map<nat, nat>, cl: Client, d: Device, reply: Reply, disk: Disk, now: nat, next: nat)
    requires EditorFiles(files, cl.editor) && StoreFiles(files, d.store)
    ensures EffectFiles(files, ImageDone(cl, d, reply, disk, now, next))
  {
    match cl.editor.job
    case Preparing(_, purpose) =>
      if reply.Snapshot? && !reply.reading.closed {
        PreparedFiles(files, cl, d, reply.reading, purpose, disk, now, next);
      }
    case Checking(_, purpose) => CheckedFiles(files, cl, d, reply, purpose, disk, now, next);
    case Posting(_, rec, current) => PostedFiles(files, cl, d, reply, rec, current, disk, now);
    case Deleting(_, target, current) => DeletedFiles(files, cl, d, reply, target, current, disk, now);
    case _ =>
  }

  lemma CheckedFiles(files: map<nat, nat>, cl: Client, d: Device, reply: Reply, purpose: Purpose, disk: Disk, now: nat, next: nat)
    requires EditorFiles(files, cl.editor) && StoreFiles(files, d.store) && cl.editor.job.Checking? && cl.editor.job.purpose == purpose
    ensures EffectFiles(files, ImageDone(cl, d, reply, disk, now, next))
  {
    if reply.Snapshot? && !reply.reading.closed {
      if !purpose.Removal? {
        CheckedAgainFiles(files, cl, d, reply.reading, purpose.record, disk, now, next);
      } else if reply.reading.isSealed && purpose.seen == 0 && reply.reading.version == Some(purpose.image.version) {
        PrepareFiles(files, cl, d, purpose, next);
      } else {
        DeleteFiles(files, cl, d, purpose.image, reply.reading, Some(purpose.seen), next);
      }
    }
  }

  lemma SaveDoneFiles(files: map<nat, nat>, cl: Client, d: Device, reply: Reply, next: nat)
    requires EditorFiles(files, cl.editor) && StoreFiles(files, d.store) && cl.panel.saving.Some?
    ensures EffectFiles(files, SaveDone(cl, d, reply, next))
  {
  }

  /** Answers to the panel's own calls leave the editor and the image store alone. */
  lemma PanelAnswerFiles(files: map<nat, nat>, cl: Client, d: Device, e: Effect)
    requires EditorFiles(files, cl.editor) && StoreFiles(files, d.store)
    requires e.client.editor == cl.editor && e.device.store == d.store && (e.send.Some? ==> !e.send.value.Upload?)
    ensures EffectFiles(files, e)
  {
  }

  lemma RecheckDoneFiles(files: map<nat, nat>, cl: Client, d: Device, reply: Reply, found: Found, intent: Intent, next: nat)
    requires EditorFiles(files, cl.editor) && StoreFiles(files, d.store)
    ensures EffectFiles(files, RecheckDone(cl, d, reply, found, intent, next))
  {
    PanelAnswerFiles(files, cl, d, RecheckDone(cl, d, reply, found, intent, next));
  }

  lemma SealDoneFiles(files: map<nat, nat>, cl: Client, d: Device, reply: Reply, next: nat)
    requires EditorFiles(files, cl.editor) && StoreFiles(files, d.store) && cl.panel.submit.Sealing?
    ensures EffectFiles(files, SealDone(cl, d, reply, next))
  {
    PanelAnswerFiles(files, cl, d, SealDone(cl, d, reply, next));
  }

  lemma ArriveFiles(files: map<nat, nat>, cl: Client, d: Device, k: nat, reply: Reply, found: Found, disk: Disk, now: nat, next: nat)
    requires EditorFiles(files, cl.editor) && StoreFiles(files, d.store)
    ensures EffectFiles(files, Arrive(cl, d, k, reply, found, disk, now, next))
  {
    if cl.panel.saving.Some? && cl.panel.saving.value.call == k {
      SaveDoneFiles(files, cl, d, reply, next);
    } else if cl.panel.submit.Rechecking? && cl.panel.submit.call == k {
      RecheckDoneFiles(files, cl, d, reply, found, cl.panel.submit.intent, next);
    } else if cl.panel.submit.Sealing? && cl.panel.submit.call == k {
      SealDoneFiles(files, cl, d, reply, next);
    } else {
      ArriveElsewhereFiles(files, cl, d, k, reply, found, disk, now, next);
    }
  }

  lemma ArriveElsewhereFiles(files: map<nat, nat>, cl: Client, d: Device, k: nat, reply: Reply, found: Found, disk: Disk, now: nat, next: nat)
    requires EditorFiles(files, cl.editor) && StoreFiles(files, d.store)
    requires (cl.panel.saving.Some? ==> cl.panel.saving.value.call != k) && (!cl.panel.submit.NotSubmitting? ==> cl.panel.submit.call != k)
    ensures EffectFiles(files, Arrive(cl, d, k, reply, found, disk, now, next))
  {
    if k in cl.loads {
      PanelAnswerFiles(files, cl, d, LoadDone(cl, d, k, reply, found));
    } else if JobCall(cl.editor.job) == Some(k) {
      ImageDoneFiles(files, cl, d, reply, disk, now, next);
    }
  }

  // ---------------------------------------------------------------- clicks

  lemma {:induction false} RemainingFiles(files: map<nat, nat>, selected: seq<Record>, images: seq<Image>, queue: seq<Item>)
    requires RecordFiles(files, selected)
    ensures ItemFiles(files, Remaining(selected, images, queue))
  {
    if selected != [] {
      RemainingFiles(files, selected[1..], images, queue);
    }
  }

  lemma {:induction false} PutAllFiles(files: map<nat, nat>, store: Store, records: seq<Record>, failed: set<nat>)
    requires StoreFiles(files, store) && RecordFiles(files, records)
    ensures StoreFiles(files, PutAll(store, records, failed))
  {
    if records != [] {
      PutAllFiles(files, store, records[..|records| - 1], failed);
    }
  }

  lemma ChooseFilesOk(files: map<nat, nat>, cl: Client, d: Device, digests: seq<nat>, first: nat, failed: set<nat>, now: nat)
    requires EditorFiles(files, cl.editor) && StoreFiles(files, d.store) && digests != []
    requires forall i :: 0 <= i < |digests| ==> IsFile(files, first + i, digests[i])
    ensures EffectFiles(files, Choose(cl, d, digests, first, failed, now))
  {
    var records := NewRecords(cl.panel.pair, digests, first, now);
    PutAllFiles(files, d.store, records, failed);
    BatchFiles(files, cl.(editor := cl.editor.(queue := cl.editor.queue + Waiters(records), waiting := records)));
  }

  lemma RetryFiles(files: map<nat, nat>, cl: Client, d: Device, x: nat, next: nat)
    requires EditorFiles(files, cl.editor) && StoreFiles(files, d.store)
    ensures EffectFiles(files, Retry(cl, d, x, next))
  {
    FindFile(files, cl.editor.queue, x);
  }

  lemma DiscardFiles(files: map<nat, nat>, cl: Client, d: Device, x: nat, disk: Disk)
    requires EditorFiles(files, cl.editor) && StoreFiles(files, d.store)
    ensures EffectFiles(files, Discard(cl, d, x, disk))
  {
    WithoutFiles(files, cl.editor.queue, x);
  }

  lemma SelectionFiles(files: map<nat, nat>, store: Store, now: nat, selected: seq<Record>)
    requires StoreFiles(files, store) && IsSelection(Recoverable(store, now), selected)
    ensures RecordFiles(files, selected)
  {
  }

  lemma FinishRecoveryFiles(files: map<nat, nat>, cl: Client, d: Device, disk: Disk)
    requires EditorFiles(files, cl.editor) && StoreFiles(files, d.store) && cl.editor.recovering.Some?
    ensures EffectFiles(files, FinishRecovery(cl, d, disk))
  {
    RemainingFiles(files, cl.editor.recovering.value.selected, cl.editor.recovering.value.attached, cl.editor.queue);
  }

  lemma RecoveryEventFiles(files: map<nat, nat>, s: System, cl: Client, d: Device, e: Event)
    requires EditorFiles(files, cl.editor) && StoreFiles(files, d.store) && Allowed(cl, d, e) && (e.StartRecovery? || e.EndRecovery?)
    ensures EffectFiles(files, Act(s, cl, d, e))
  {
    if e.EndRecovery? {
      FinishRecoveryFiles(files, cl, d, e.disk);
    } else if e.available {
      SelectionFiles(files, d.store, e.now, e.selected);
    }
  }

  lemma ImageClickFiles(files: map<nat, nat>, s: System, cl: Client, d: Device, e: Event)
    requires EditorFiles(files, cl.editor) && StoreFiles(files, d.store) && Allowed(cl, d, e)
    requires e.ChooseFiles? || e.Proceed? || e.RetryImage? || e.DiscardPending?
    requires e.ChooseFiles? ==> forall i :: 0 <= i < |e.digests| ==> IsFile(files, s.nextImage + i, e.digests[i])
    ensures EffectFiles(files, Act(s, cl, d, e))
  {
    match e
    case ChooseFiles(_, digests, failed, now) => ChooseFilesOk(files, cl, d, digests, s.nextImage, failed, now);
    case Proceed(_) => PrepareFiles(files, cl, d, cl.editor.job.purpose, |s.calls|);
    case RetryImage(_, x) => RetryFiles(files, cl, d, x, |s.calls|);
    case DiscardPending(_, x, disk) => DiscardFiles(files, cl, d, x, disk);
  }

  lemma QuietFiles(files: map<nat, nat>, s: System, cl: Client, d: Device, e: Event)
    requires EditorFiles(files, cl.editor) && StoreFiles(files, d.store) && Allowed(cl, d, e)
    requires e.StartLoadUnit? || e.Typing? || e.AutosaveTimer? || e.RetrySaveClick? || e.ResolveClick? || e.Submit? || e.StoreCopy? ||
      e.FindsLegacyCopy? || e.RemoveAttached? || e.ServeCall? || e.TeacherDecides? || e.RecordsClose? || e.Open?
    ensures EffectFiles(files, Act(s, cl, d, e))
  {
    var eff := Act(s, cl, d, e);
    assert eff.device.store == d.store;
    assert eff.client.editor == cl.editor || (e.RemoveAttached? && eff.client.editor == cl.editor.(job := eff.client.editor.job) && eff.client.editor.job.Checking?);
  }

  lemma DeliverFiles(files: map<nat, nat>, s: System, cl: Client, d: Device, e: Event)
    requires EditorFiles(files, cl.editor) && StoreFiles(files, d.store) && e.Deliver?
    ensures EffectFiles(files, Act(s, cl, d, e))
  {
    if e.answer < |s.answers| && s.answers[e.answer].call < |s.calls| {
      DeliverAct(s, cl, d, e);
      var a := s.answers[e.answer];
      ArriveFiles(files, cl, d, a.call, ReplyTo(s, a), e.found, e.disk, e.now, |s.calls|);
    } else {
      DeliverNothing(s, cl, d, e);
    }
  }

  lemma LoseFiles(files: map<nat, nat>, s: System, cl: Client, d: Device, e: Event)
    requires EditorFiles(files, cl.editor) && StoreFiles(files, d.store) && (e.Lose? || e.Unmounts?)
    ensures EffectFiles(files, Act(s, cl, d, e))
  {
    ArriveFiles(files, cl, d, e.call, Refused, Found(true, true), Disk(true, true, true), e.now, |s.calls|);
  }

  lemma ActFiles(files: map<nat, nat>, s: System, cl: Client, d: Device, e: Event)
    requires EditorFiles(files, cl.editor) && StoreFiles(files, d.store) && Allowed(cl, d, e)
    requires e.ChooseFiles? ==> forall i :: 0 <= i < |e.digests| ==> IsFile(files, s.nextImage + i, e.digests[i])
    ensures EffectFiles(files, Act(s, cl, d, e))
  {
    if e.Deliver? {
      DeliverFiles(files, s, cl, d, e);
    } else if e.Lose? || e.Unmounts? {
      LoseFiles(files, s, cl, d, e);
    } else if e.StartRecovery? || e.EndRecovery? {
      RecoveryEventFiles(files, s, cl, d, e);
    } else if e.ChooseFiles? || e.Proceed? || e.RetryImage? || e.DiscardPending? {
      ImageClickFiles(files, s, cl, d, e);
    } else {
      QuietFiles(files, s, cl, d, e);
    }
  }

  // ---------------------------------------------------------------- the server

  lemma PushFiles(files: map<nat, nat>, s: Server, v: nat, snap: Snap)
    requires ServerFiles(files, s) && v < |s.versions| && ImageFiles(files, snap.images)
    ensures ServerFiles(files, PushSnap(s, v, snap))
  {
  }

  lemma LastFiles(files: map<nat, nat>, s: Server, v: nat)
    requires ServerFiles(files, s) && v < |s.versions|
    ensures ImageFiles(files, LastSnap(s.versions[v]).images)
  {
  }

  lemma {:induction false} WithoutIdFiles(files: map<nat, nat>, images: seq<Image>, id: nat)
    requires ImageFiles(files, images)
    ensures ImageFiles(files, WithoutId(images, id))
  {
    if images != [] {
      WithoutIdFiles(files, images[1..], id);
    }
  }

  lemma SaveFiles(files: map<nat, nat>, s: Server, text: string, base: Pair)
    requires ServerFiles(files, s)
    ensures ServerFiles(files, SaveDraft(s, text, base).0)
  {
    if s.versions != [] {
      LastFiles(files, s, |s.versions| - 1);
      PushFiles(files, s, |s.versions| - 1, Snap(Normalize(text), LastSnap(s.versions[|s.versions| - 1]).images));
    }
  }

  lemma UploadFiles(files: map<nat, nat>, s: Server, v: nat, r: nat, client: nat, digest: nat)
    requires ServerFiles(files, s) && IsFile(files, client, digest)
    ensures ServerFiles(files, UploadImage(s, v, r, client, digest).0)
  {
    if v < |s.versions| {
      LastFiles(files, s, v);
      var last := LastSnap(s.versions[v]);
      PushFiles(files, s, v, Snap(last.text, last.images + [Image(s.nextImage, client, v, digest)]));
    }
  }

  lemma RemoveFiles(files: map<nat, nat>, s: Server, v: nat, r: nat, image: nat)
    requires ServerFiles(files, s)
    ensures ServerFiles(files, RemoveImage(s, v, r, image).0)
  {
    if v < |s.versions| {
      LastFiles(files, s, v);
      var last := LastSnap(s.versions[v]);
      WithoutIdFiles(files, last.images, image);
      PushFiles(files, s, v, Snap(last.text, WithoutId(last.images, image)));
    }
  }

  lemma ServeFiles(files: map<nat, nat>, s: Server, q: Request)
    requires ServerFiles(files, s) && RequestFile(files, q)
    ensures ServerFiles(files, Serve(s, q).0)
  {
    match q
    case Read =>
    case Save(text, base) => SaveFiles(files, s, text, base);
    case Upload(v, r, client, digest) => UploadFiles(files, s, v, r, client, digest);
    case Remove(v, r, image) => RemoveFiles(files, s, v, r, image);
    case Seal(key, v, r) =>
  }

  // ---------------------------------------------------------------- whole runs

  /** More files with new ids do not disturb what is there. */
  lemma MoreFiles(s: System, files: map<nat, nat>, more: map<nat, nat>, bound: nat)
    requires FilesInv(s, files) && bound >= s.nextImage && forall x :: x in more ==> s.nextImage <= x < bound
    ensures FilesInv(s.(nextImage := bound), files + more)
  {
  }

  /** What a page holds once the files of the event are known. */
  lemma KnownFiles(s: System, e: Event, page: nat, files: map<nat, nat>, all: map<nat, nat>, bound: nat)
    requires Live(s, page) && EventPage(s, e) == Some(page) && FilesInv(s, files) && Allowed(s.clients[page], s.devices[s.clients[page].device], e)
    requires all == files + NewFiles(s, e) && bound == s.nextImage + (if e.ChooseFiles? then |e.digests| else 0)
    ensures FilesInv(s.(nextImage := bound), all)
    ensures EditorFiles(all, s.clients[page].editor) && StoreFiles(all, s.devices[s.clients[page].device].store)
    ensures e.ChooseFiles? ==> forall i :: 0 <= i < |e.digests| ==> IsFile(all, s.nextImage + i, e.digests[i])
  {
    if e.ChooseFiles? {
      NumberedAre(s.nextImage, e.digests);
    }
    MoreFiles(s, files, NewFiles(s, e), bound);
  }

  /** The step of a page whose event is allowed. */
  lemma PageActs(s: System, e: Event, page: nat, all: map<nat, nat>) returns (eff: Effect)
    requires Live(s, page) && EventPage(s, e) == Some(page) && !e.Open? && Allowed(s.clients[page], s.devices[s.clients[page].device], e)
    requires EditorFiles(all, s.clients[page].editor) && StoreFiles(all, s.devices[s.clients[page].device].store)
    requires e.ChooseFiles? ==> forall i :: 0 <= i < |e.digests| ==> IsFile(all, s.nextImage + i, e.digests[i])
    ensures EffectFiles(all, eff)
    ensures var t := Next(s, e);
      && t.server == s.server && t.nextImage == s.nextImage + (if e.ChooseFiles? then |e.digests| else 0)
      && t.clients == s.clients[page := eff.client] && t.devices == s.devices[eff.client.device := eff.device] && t.calls == SentCalls(s, page, eff)
  {
    LiveNext(s, e, page);
    eff := Act(s, s.clients[page], s.devices[s.clients[page].device], e);
    ActFiles(all, s, s.clients[page], s.devices[s.clients[page].device], e);
  }

  lemma NotAllowedFiles(s: System, e: Event, page: nat)
    requires Live(s, page) && EventPage(s, e) == Some(page) && !e.Open? && !Allowed(s.clients[page], s.devices[s.clients[page].device], e)
    ensures Next(s, e) == s && NewFiles(s, e) == map[]
  {
    LiveNext(s, e, page);
  }

  lemma PageStepFiles(s: System, e: Event, page: nat, files: map<nat, nat>)
    requires Live(s, page) && EventPage(s, e) == Some(page) && !e.Open? && FilesInv(s, files)
    ensures FilesInv(Next(s, e), files + NewFiles(s, e))
  {
    if Allowed(s.clients[page], s.devices[s.clients[page].device], e) {
      var all := files + NewFiles(s, e);
      var bound := s.nextImage + (if e.ChooseFiles? then |e.digests| else 0);
      KnownFiles(s, e, page, files, all, bound);
      var eff := PageActs(s, e, page, all);
      StepFiles(s.(nextImage := bound), Next(s, e), page, eff, all);
    } else {
      NotAllowedFiles(s, e, page);
      assert files + map[] == files;
    }
  }

  lemma StepFiles(s: System, t: System, page: nat, eff: Effect, files: map<nat, nat>)
    requires FilesInv(s, files) && EffectFiles(files, eff) && t.server == s.server && t.nextImage == s.nextImage
    requires t.clients == s.clients[page := eff.client] && t.devices == s.devices[eff.client.device := eff.device] && t.calls == SentCalls(s, page, eff)
    ensures FilesInv(t, files)
  {
  }

  lemma ServeCallFiles(s: System, e: Event, files: map<nat, nat>)
    requires FilesInv(s, files) && e.ServeCall?
    ensures FilesInv(Next(s, e), files)
  {
    if e.call < |s.calls| {
      ServeFiles(files, s.server, s.calls[e.call].request);
    }
  }

  lemma OtherStepFiles(s: System, e: Event, files: map<nat, nat>)
    requires FilesInv(s, files) && (e.Open? || EventPage(s, e) == None || !Live(s, EventPage(s, e).value))
    ensures FilesInv(Next(s, e), files) && NewFiles(s, e) == map[]
  {
    if e.ServeCall? {
      ServeCallFiles(s, e, files);
    } else if e.Open? {
      OpenFiles(s, e, files);
    }
  }

  lemma OpenFiles(s: System, e: Event, files: map<nat, nat>)
    requires FilesInv(s, files) && e.Open?
    ensures FilesInv(Next(s, e), files)
  {
  }

  lemma NextFiles(s: System, e: Event, files: map<nat, nat>)
    requires FilesInv(s, files)
    ensures FilesInv(Next(s, e), files + NewFiles(s, e))
  {
    if !e.Open? && EventPage(s, e).Some? && Live(s, EventPage(s, e).value) {
      PageStepFiles(s, e, EventPage(s, e).value, files);
    } else {
      OtherStepFiles(s, e, files);
      assert files + map[] == files;
    }
  }

  lemma {:induction false} RunFiles(replays: bool, events: seq<Event>)
    ensures FilesInv(Exec(Init(replays), events), ChosenFiles(Init(replays), events))
  {
    if events != [] {
      var front := events[..|events| - 1];
      RunFiles(replays, front);
      NextFiles(Exec(Init(replays), front), events[|events| - 1], ChosenFiles(Init(replays), front));
    }
  }

  /**
   * The right file, over whole runs: whatever is ever attached on the server under a client id,
   * posted in any request, queued on any page or stored in any browser, its content is the file
   * that was chosen under that id.
   */
  lemma RightFile(replays: bool, events: seq<Event>)
    ensures var s := Exec(Init(replays), events);
      var files := ChosenFiles(Init(replays), events);
      && (forall v: nat, r: nat, i: nat ::
            v < |s.server.versions| && r < |s.server.versions[v].snaps| && i < |s.server.versions[v].snaps[r].images| ==>
              IsFile(files, s.server.versions[v].snaps[r].images[i].client, s.server.versions[v].snaps[r].images[i].digest))
      && (forall k: nat :: k < |s.calls| && s.calls[k].request.Upload? ==> IsFile(files, s.calls[k].request.client, s.calls[k].request.digest))
      && (forall page, i: nat :: page in s.clients && i < |s.clients[page].editor.queue| ==>
            IsFile(files, s.clients[page].editor.queue[i].record.client, s.clients[page].editor.queue[i].record.digest))
      && (forall d, k :: d in s.devices && k in s.devices[d].store ==>
            IsFile(files, s.devices[d].store[k].client, s.devices[d].store[k].digest))
  {
    RunFiles(replays, events);
    var s := Exec(Init(replays), events);
    var files := ChosenFiles(Init(replays), events);
    forall page, i: nat | page in s.clients && i < |s.clients[page].editor.queue|
      ensures IsFile(files, s.clients[page].editor.queue[i].record.client, s.clients[page].editor.queue[i].record.digest)
    {
      assert RecordFile(files, s.clients[page].editor.queue[i].record);
    }
    forall d, k | d in s.devices && k in s.devices[d].store
      ensures IsFile(files, s.devices[d].store[k].client, s.devices[d].store[k].digest)
    {
      assert RecordFile(files, s.devices[d].store[k]);
    }
    forall v: nat, r: nat, i: nat | v < |s.server.versions| && r < |s.server.versions[v].snaps| && i < |s.server.versions[v].snaps[r].images|
      ensures IsFile(files, s.server.versions[v].snaps[r].images[i].client, s.server.versions[v].snaps[r].images[i].digest)
    {
      assert ImageFiles(files, s.server.versions[v].snaps[r].images);
    }
  }
}

/**
 * When an image can be lost. Until its upload is acknowledged or seen on the server, or the learner
 * discards it, a chosen image stays in the page's queue or in the recovery store, across reloads,
 * sign-outs and crashes; with two exceptions, stated exactly: the queue goes with its editor while
 * the record is not stored, and a recovery read deletes the last stored copy as too old.
 */
module SubmissionImages {
  import opened Prelude
  import opened SubmissionServer
  import opened SubmissionHistory
  import opened PracticePanel
  import opened ImageQueue
  import opened PracticeClient
  import opened SubmissionProtocol
  import opened SubmissionStructure

  function PurposeIds(p: Purpose): set<nat> {
    if PurposeId(p).Some? then {PurposeId(p).value} else {}
  }

  function JobIds(job: Job): set<nat> {
    match job
    case Idle => {}
    case Starting(p) => PurposeIds(p)
    case SavingFirst(p) => PurposeIds(p)
    case Preparing(_, p) => PurposeIds(p)
    case Checking(_, p) => PurposeIds(p)
    case Posting(_, r, _) => {r.client}
    case Deleting(_, _, _) => {}
  }

  function RecoveryIds(r: Option<Recovery>): set<nat> {
    if r.Some? then RecordIds(r.value.selected) else {}
  }

  /** Every image id a page and its storage know. */
  function PageIds(cl: Client, d: Device): set<nat> {
    Ids(cl.editor.queue) + StoreIds(d.store) + RecordIds(cl.editor.waiting) + JobIds(cl.editor.job) + RecoveryIds(cl.editor.recovering)
  }

  /** Outside `settled`, nothing leaves the queue or the store; no id is invented. */
  ghost predicate Frame(cl: Client, d: Device, e: Effect, settled: set<nat>) {
    && Ids(cl.editor.queue) - settled <= Ids(e.client.editor.queue)
    && StoreIds(d.store) - settled <= StoreIds(e.device.store)
    && PageIds(e.client, e.device) <= PageIds(cl, d)
    && StoreOk(e.device.store)
  }

  lemma FailFrame(cl: Client, d: Device, x: Option<nat>, note: Note)
    requires StoreOk(d.store)
    ensures Frame(cl, d, Stay(FailImage(cl, x, note), d), {})
  {
    if x.Some? {
      MarkFrame(cl.editor.queue, x.value, note);
    }
  }

  lemma PanelFrame(cl: Client, d: Device, p: Panel)
    requires StoreOk(d.store)
    ensures Frame(cl, d, Stay(cl.(panel := p), d), {})
  {
  }

  lemma QueueCopyId(queue: seq<Item>, r: Record)
    ensures QueueCopy(queue, r).client == r.client
  {
    FindIsQueued(queue, r.client);
  }

  lemma TailIds(records: seq<Record>)
    requires records != []
    ensures RecordIds(records) == {records[0].client} + RecordIds(records[1..])
  {
    forall x | x in RecordIds(records) ensures x in {records[0].client} + RecordIds(records[1..]) {
      var i :| 0 <= i < |records| && records[i].client == x;
      if i > 0 {
        assert records[1..][i - 1] == records[i];
      }
    }
    forall x | x in RecordIds(records[1..]) ensures x in RecordIds(records) {
      var i :| 0 <= i < |records[1..]| && records[1..][i].client == x;
      assert records[i + 1].client == x;
    }
  }

  lemma BatchFrame(cl: Client, d: Device)
    requires StoreOk(d.store)
    ensures Frame(cl, d, Stay(NextInBatch(cl), d), {})
    ensures Ids(NextInBatch(cl).editor.queue) == Ids(cl.editor.queue)
  {
    if cl.editor.waiting != [] {
      QueueCopyId(cl.editor.queue, cl.editor.waiting[0]);
      TailIds(cl.editor.waiting);
      MarkFrame(cl.editor.queue, cl.editor.waiting[0].client, Uploading);
    }
  }

  lemma {:induction false} StoreAdvanceBound(store: Store, queue: seq<Item>, before: Baseline, to: Baseline, now: nat)
    requires StoreOk(store)
    ensures StoreIds(StoreAdvance(store, queue, before, to, now)) <= StoreIds(store) + Ids(queue)
  {
    if before != to && queue != [] {
      var front := queue[..|queue| - 1];
      var last := queue[|queue| - 1];
      StoreAdvanceBound(store, front, before, to, now);
      StoreAdvanceKeepsIds(store, front, before, to, now);
      IdsConcat(front, [last]);
      assert front + [last] == queue;
      assert Ids([last]) == {last.record.client} by {
        assert [last][0].record.client in Ids([last]);
      }
      StoreChangeBound(StoreAdvance(store, front, before, to, now), last.record, before, to, now);
    }
  }

  lemma StoreChangeBound(store: Store, r: Record, before: Baseline, to: Baseline, now: nat)
    ensures StoreIds(StoreChange(store, r, before, to, now)) <= StoreIds(store) + {r.client}
  {
  }

  lemma AdvanceAllFrame(cl: Client, d: Device, before: Baseline, to: Baseline, now: nat, disk: Disk)
    requires StoreOk(d.store)
    ensures Frame(cl, d, Stay(AdvanceAll(cl, before, to, now), AdvanceStore(cl, d, before, to, now, disk)), {})
  {
    AdvanceFrame(cl.editor.queue, before, to, now);
    StoreAdvanceKeepsIds(d.store, cl.editor.queue, before, to, now);
    StoreAdvanceBound(d.store, cl.editor.queue, before, to, now);
  }

  lemma BindStoreFrame(d: Device, from: Record, bound: Record, disk: Disk)
    requires StoreOk(d.store) && from.client == bound.client
    ensures var after := BindStore(d, from, bound, disk).store;
      StoreOk(after) && StoreIds(d.store) <= StoreIds(after) <= StoreIds(d.store) + {bound.client}
  {
    var after := BindStore(d, from, bound, disk).store;
    if disk.save {
      forall x | x in StoreIds(d.store) ensures x in StoreIds(after) {
        var k :| k in d.store && d.store[k].client == x;
        if k == StoreKey(from) || k == StoreKey(bound) {
          assert after[StoreKey(bound)].client == x;
        } else {
          assert after[k].client == x;
        }
      }
    }
  }

  lemma PostFrame(cl: Client, d: Device, r: Record, current: Reading, disk: Disk, now: nat, next: nat)
    requires StoreOk(d.store) && r.client in PageIds(cl, d)
    ensures Frame(cl, d, Post(cl, d, r, current, disk, now, next), {})
  {
    if current.version == None || current.isSealed {
      FailFrame(cl, d, Some(r.client), Outdated);
    } else {
      AdvanceAllFrame(cl, d, TokensOf(r), Tokens(current), now, disk);
      var c1 := AdvanceAll(cl, TokensOf(r), Tokens(current), now);
      var d1 := AdvanceStore(cl, d, TokensOf(r), Tokens(current), now, disk);
      QueueCopyId(c1.editor.queue, r);
      var rebased := QueueCopy(c1.editor.queue, r);
      var bound := Rebased(rebased, Tokens(current), now);
      BindFrame(c1.editor.queue, bound);
      BindStoreFrame(d1, rebased, bound, disk);
    }
  }

  lemma PrepareFrame(cl: Client, d: Device, purpose: Purpose, next: nat)
    requires StoreOk(d.store) && PurposeIds(purpose) <= PageIds(cl, d)
    ensures Frame(cl, d, StartPrepare(cl, d, purpose, next), {})
  {
    if cl.panel.saving.Some? || cl.panel.intent.Some? {
      FailFrame(cl, d, PurposeId(purpose), ImageQueue.Failed);
    } else {
      var e := StartPrepare(cl, d, purpose, next);
      assert e.device == d && e.client.editor.queue == cl.editor.queue && e.client.editor.waiting == cl.editor.waiting;
      assert JobIds(e.client.editor.job) == PurposeIds(purpose) && e.client.editor.recovering == cl.editor.recovering;
    }
  }

  lemma DeleteFrame(cl: Client, d: Device, target: Image, r: Reading, check: Option<nat>, next: nat)
    requires StoreOk(d.store)
    ensures Frame(cl, d, Delete(cl, d, target, r, check, next), {})
  {
    var e := Delete(cl, d, target, r, check, next);
    assert e.client.editor.job.Idle? || e.client.editor.job.Deleting?;
    QueueStaysFrame(cl, d, e);
  }

  /** Nothing changes but the panel and the job, which holds no image; files still waiting may be given up. */
  lemma QueueStaysFrame(cl: Client, d: Device, e: Effect)
    requires StoreOk(d.store) && e.device == d && JobIds(e.client.editor.job) == {}
    requires e.client.editor.queue == cl.editor.queue && e.client.editor.recovering == cl.editor.recovering
    requires e.client.editor.waiting == cl.editor.waiting || e.client.editor.waiting == []
    ensures Frame(cl, d, e, {})
  {
  }

  lemma PreparedFrame(cl: Client, d: Device, r: Reading, purpose: Purpose, disk: Disk, now: nat, next: nat)
    requires StoreOk(d.store) && PurposeIds(purpose) <= PageIds(cl, d)
    ensures Frame(cl, d, Prepared(cl, d, r, purpose, disk, now, next), {})
  {
    if !ReadbackMatches(cl.panel, r) {
      PanelFrame(cl, d, ImageConflict(cl.panel, r));
      FailFrame(cl.(panel := ImageConflict(cl.panel, r)), d, PurposeId(purpose), ImageQueue.Failed);
    } else {
      var c1 := cl.(panel := ImageUpdate(cl.panel, r));
      PanelFrame(cl, d, c1.panel);
      match purpose
      case Fresh(rec) => PostFrame(c1, d, rec, r, disk, now, next);
      case Again(rec) => PostFrame(c1, d, rec, r, disk, now, next);
      case Removal(image, seen) =>
        var before := Baseline(Some(image.version), Some(seen));
        AdvanceAllFrame(c1, d, before, Tokens(r), now, disk);
        var c2 := AdvanceAll(c1, before, Tokens(r), now);
        var d2 := AdvanceStore(c1, d, before, Tokens(r), now, disk);
        var copied := FindClient(r.images, image.client);
        if copied == None {
          PanelFrame(c2, d2, ImageUpdate(c2.panel, r));
          FailFrame(c2.(panel := ImageUpdate(c2.panel, r)), d2, None, Waiting);
        } else {
          DeleteFrame(c2, d2, copied.value, r, None, next);
        }
    }
  }

  lemma ClearFrame(cl: Client, d: Device, x: nat, r: Record, disk: Disk)
    requires StoreOk(d.store) && r.client == x
    ensures Frame(cl, d, Stay(ClearQueue(cl, x), ClearStore(d, r, disk)), {x})
  {
    WithoutFrame(cl.editor.queue, x);
    forall y | y in StoreIds(d.store) - {x} ensures y in StoreIds(ClearStore(d, r, disk).store) {
      var k :| k in d.store && d.store[k].client == y;
      assert ClearStore(d, r, disk).store[k].client == y;
    }
  }

  /** A settled upload: the queue is rebased if asked to, then the item and its stored copy go. */
  lemma SettleFrame(cl: Client, d: Device, p: Panel, rebase: bool, before: Baseline, to: Baseline, rec: Record, disk: Disk, now: nat)
    requires StoreOk(d.store)
    ensures var d1 := if rebase then AdvanceStore(cl, d, before, to, now, disk) else d;
      var c1 := if rebase then AdvanceAll(cl, before, to, now) else cl;
      Frame(cl, d, Stay(NextInBatch(ClearQueue(c1.(panel := p), rec.client)), ClearStore(d1, QueueCopy(c1.editor.queue, rec), disk)), {rec.client})
  {
    var d1 := if rebase then AdvanceStore(cl, d, before, to, now, disk) else d;
    var c1 := if rebase then AdvanceAll(cl, before, to, now) else cl;
    AdvanceAllFrame(cl, d, before, to, now, disk);
    assert Frame(cl, d, Stay(c1, d1), {});
    PanelFrame(c1, d1, p);
    QueueCopyId(c1.editor.queue, rec);
    ClearFrame(c1.(panel := p), d1, rec.client, QueueCopy(c1.editor.queue, rec), disk);
    BatchFrame(ClearQueue(c1.(panel := p), rec.client), ClearStore(d1, QueueCopy(c1.editor.queue, rec), disk));
  }

  lemma CheckedAgainFrame(cl: Client, d: Device, r: Reading, rec: Record, disk: Disk, now: nat, next: nat)
    requires StoreOk(d.store) && rec.client in PageIds(cl, d)
    ensures Frame(cl, d, CheckedAgain(cl, d, r, rec, disk, now, next), if AttachedIn(r.images, rec) then {rec.client} else {})
  {
    if AttachedIn(r.images, rec) {
      var ack := rec.revision.Some? && r.revision == rec.revision.value + 1;
      SettleFrame(cl, d, ImageUpdate(cl.panel, r), ack, TokensOf(rec), Tokens(r), rec, disk, now);
    } else if r.version != rec.version || r.isSealed || (rec.revision.Some? && rec.revision.value != r.revision) {
      FailFrame(cl.(panel := ImageConflict(cl.panel, r)), d, Some(rec.client), Outdated);
    } else if r.version == None {
      PrepareFrame(cl, d, Again(rec), next);
    } else {
      PostFrame(cl, d, rec, r, disk, now, next);
    }
  }

  lemma PostedFrame(cl: Client, d: Device, reply: Reply, rec: Record, current: Reading, disk: Disk, now: nat)
    requires StoreOk(d.store)
    ensures Frame(cl, d, Posted(cl, d, reply, rec, current, disk, now), if reply.Uploaded? then {rec.client} else {})
  {
    if reply.Uploaded? {
      var ack := AckUpload(current, reply.image, reply.revision, rec.client);
      SettleFrame(cl, d, ImageUpdate(cl.panel, ack), reply.revision == current.revision + 1, Tokens(current), Tokens(ack), rec, disk, now);
    } else {
      FailFrame(cl, d, Some(rec.client), ImageQueue.Failed);
    }
  }

  lemma DeletedFrame(cl: Client, d: Device, reply: Reply, target: Image, current: Reading, disk: Disk, now: nat)
    requires StoreOk(d.store)
    ensures Frame(cl, d, Deleted(cl, d, reply, target, current, disk, now), {})
  {
    if reply.Removed? {
      var ack := AckRemoval(current, target, reply.revision);
      var rebase := reply.revision == current.revision + 1;
      AdvanceAllFrame(cl, d, Tokens(current), Tokens(ack), now, disk);
      var d1 := if rebase then AdvanceStore(cl, d, Tokens(current), Tokens(ack), now, disk) else d;
      var c1 := if rebase then AdvanceAll(cl, Tokens(current), Tokens(ack), now) else cl;
      PanelFrame(c1, d1, ImageUpdate(c1.panel, ack));
      BatchFrame(c1.(panel := ImageUpdate(c1.panel, ack)), d1);
    } else {
      FailFrame(cl, d, None, Waiting);
    }
  }

  // ---------------------------------------------------------------- one step of a page

  /** The ids that the arrival of an answer settles. */
  function SettledByImage(cl: Client, reply: Reply): set<nat> {
    match cl.editor.job
    case Checking(_, purpose) =>
      if !purpose.Removal? && reply.Snapshot? && !reply.reading.closed && AttachedIn(reply.reading.images, purpose.record)
      then {purpose.record.client} else {}
    case Posting(_, rec, _) => if reply.Uploaded? then {rec.client} else {}
    case _ => {}
  }

  lemma ImageDoneFrame(cl: Client, d: Device, reply: Reply, disk: Disk, now: nat, next: nat)
    requires StoreOk(d.store)
    ensures Frame(cl, d, ImageDone(cl, d, reply, disk, now, next), SettledByImage(cl, reply))
  {
    match cl.editor.job
    case Preparing(_, purpose) =>
      if reply.Snapshot? && !reply.reading.closed {
        PreparedFrame(cl, d, reply.reading, purpose, disk, now, next);
      } else {
        FailFrame(cl.(panel := cl.panel.(readOnly := true)), d, PurposeId(purpose), ImageQueue.Failed);
        FailFrame(cl, d, PurposeId(purpose), ImageQueue.Failed);
      }
    case Checking(_, purpose) =>
      if reply.Snapshot? && !reply.reading.closed {
        if purpose.Removal? {
          if reply.reading.isSealed && purpose.seen == 0 && reply.reading.version == Some(purpose.image.version) {
            PrepareFrame(cl, d, purpose, next);
          } else {
            DeleteFrame(cl, d, purpose.image, reply.reading, Some(purpose.seen), next);
          }
        } else {
          CheckedAgainFrame(cl, d, reply.reading, purpose.record, disk, now, next);
        }
      } else {
        FailFrame(cl.(panel := cl.panel.(readOnly := true)), d, PurposeId(purpose), ImageQueue.Failed);
        FailFrame(cl, d, PurposeId(purpose), ImageQueue.Failed);
      }
    case Posting(_, rec, current) => PostedFrame(cl, d, reply, rec, current, disk, now);
    case Deleting(_, target, current) => DeletedFrame(cl, d, reply, target, current, disk, now);
    case _ =>
  }

  lemma ArriveFrame(cl: Client, d: Device, k: nat, reply: Reply, found: Found, disk: Disk, now: nat, next: nat)
    requires StoreOk(d.store)
    ensures Frame(cl, d, Arrive(cl, d, k, reply, found, disk, now, next),
                  if JobCall(cl.editor.job) == Some(k) then SettledByImage(cl, reply) else {})
  {
    if cl.panel.saving.Some? && cl.panel.saving.value.call == k {
      SaveDoneFrame(cl, d, reply, next);
    } else if cl.panel.submit.Rechecking? && cl.panel.submit.call == k {
      RecheckDoneFrame(cl, d, reply, found, cl.panel.submit.intent, next);
    } else if cl.panel.submit.Sealing? && cl.panel.submit.call == k {
      SealDoneFrame(cl, d, reply, next);
    } else if k in cl.loads {
      LoadDoneFrame(cl, d, k, reply, found);
    } else if JobCall(cl.editor.job) == Some(k) {
      ImageDoneFrame(cl, d, reply, disk, now, next);
    }
  }

  lemma SealDoneFrame(cl: Client, d: Device, reply: Reply, next: nat)
    requires StoreOk(d.store) && cl.panel.submit.Sealing?
    ensures Frame(cl, d, SealDone(cl, d, reply, next), {})
  {
    var e := SealDone(cl, d, reply, next);
    assert e.client.editor == cl.editor && e.device.store == d.store;
  }

  lemma LoadDoneFrame(cl: Client, d: Device, k: nat, reply: Reply, found: Found)
    requires StoreOk(d.store) && k in cl.loads
    ensures Frame(cl, d, LoadDone(cl, d, k, reply, found), {})
  {
    var e := LoadDone(cl, d, k, reply, found);
    assert e.client.editor == cl.editor && e.device.store == d.store;
  }

  lemma SaveDoneFrame(cl: Client, d: Device, reply: Reply, next: nat)
    requires StoreOk(d.store) && cl.panel.saving.Some?
    ensures Frame(cl, d, SaveDone(cl, d, reply, next), {})
  {
    var c1 := cl.(panel := SaveReply(cl.panel, reply));
    if cl.editor.job.SavingFirst? && !reply.Saved? {
      FailFrame(c1, d, PurposeId(cl.editor.job.purpose), ImageQueue.Failed);
    }
  }

  lemma RecheckDoneFrame(cl: Client, d: Device, reply: Reply, found: Found, intent: Intent, next: nat)
    requires StoreOk(d.store)
    ensures Frame(cl, d, RecheckDone(cl, d, reply, found, intent, next), {})
  {
    var e := RecheckDone(cl, d, reply, found, intent, next);
    assert e.client.editor == cl.editor;
    assert e.device.store == d.store;
  }

  /** The ids an event brings into the page. */
  function NewIds(s: System, cl: Client, e: Event): set<nat> {
    if e.ChooseFiles? then RecordIds(NewRecords(cl.panel.pair, e.digests, s.nextImage, e.now)) else {}
  }

  /** The ids an event takes out of the page's queue or store. */
  ghost function Settled(s: System, cl: Client, e: Event): set<nat> {
    match e
    case DiscardPending(_, x, _) => if x in Ids(cl.editor.queue) then {x} else {}
    case EndRecovery(_, _) =>
      if cl.editor.recovering.None? then {} else
      set i | 0 <= i < |cl.editor.recovering.value.selected| &&
        AttachedIn(cl.editor.recovering.value.attached, cl.editor.recovering.value.selected[i])
        :: cl.editor.recovering.value.selected[i].client
    case Deliver(a, _, _, _) =>
      if a < |s.answers| && s.answers[a].call < |s.calls| && JobCall(cl.editor.job) == Some(s.answers[a].call)
      then SettledByImage(cl, ReplyTo(s, s.answers[a])) else {}
    case _ => {}
  }

  /**
   * The frame of a whole event: what leaves is settled, what comes is new. Only an unmount empties
   * the queue, and only a recovery read drops old records from the store.
   */
  ghost predicate EventFrame(s: System, cl: Client, d: Device, e: Event, eff: Effect) {
    && (e.Unmounts? || Ids(cl.editor.queue) - Settled(s, cl, e) <= Ids(eff.client.editor.queue))
    && (e.StartRecovery? || StoreIds(d.store) - Settled(s, cl, e) <= StoreIds(eff.device.store))
    && PageIds(eff.client, eff.device) <= PageIds(cl, d) + NewIds(s, cl, e)
  }

  lemma {:induction false} PutAllIds(store: Store, records: seq<Record>, failed: set<nat>)
    requires StoreOk(store)
    ensures StoreIds(store) <= StoreIds(PutAll(store, records, failed)) <= StoreIds(store) + RecordIds(records)
    ensures RecordIds(records) - failed <= StoreIds(PutAll(store, records, failed))
  {
    if records != [] {
      var front := records[..|records| - 1];
      var r := records[|records| - 1];
      PutAllIds(store, front, failed);
      var rest := PutAll(store, front, failed);
      var all := PutAll(store, records, failed);
      assert RecordIds(records) == RecordIds(front) + {r.client} by {
        forall x | x in RecordIds(front) + {r.client} ensures x in RecordIds(records) {
          if x in RecordIds(front) {
            var i :| 0 <= i < |front| && front[i].client == x;
            assert records[i].client == x;
          } else {
            assert records[|records| - 1].client == x;
          }
        }
      }
      PutAllOk(store, front, failed);
      PutOne(rest, r);
      assert StoreIds(rest) <= StoreIds(store) + RecordIds(front);
    }
  }

  lemma PutOne(store: Store, r: Record)
    requires StoreKey(r) in store ==> store[StoreKey(r)].client == r.client
    ensures StoreIds(store[StoreKey(r) := r]) == StoreIds(store) + {r.client}
  {
    var all := store[StoreKey(r) := r];
    forall x | x in StoreIds(store) + {r.client} ensures x in StoreIds(all) {
      if x == r.client {
        assert all[StoreKey(r)].client == x;
      } else {
        var k :| k in store && store[k].client == x;
        assert all[k].client == x;
      }
    }
  }

  lemma WaitersIds(records: seq<Record>)
    ensures Ids(Waiters(records)) == RecordIds(records)
  {
    forall x | x in RecordIds(records) ensures x in Ids(Waiters(records)) {
      var i :| 0 <= i < |records| && records[i].client == x;
      assert Waiters(records)[i].record.client == x;
    }
    forall x | x in Ids(Waiters(records)) ensures x in RecordIds(records) {
      var i :| 0 <= i < |records| && Waiters(records)[i].record.client == x;
      assert records[i].client == x;
    }
  }

  lemma ChooseEventFrame(s: System, cl: Client, d: Device, e: Event)
    requires StoreOk(d.store) && e.ChooseFiles? && e.digests != [] && cl.editor.job == Idle
    ensures EventFrame(s, cl, d, e, Choose(cl, d, e.digests, s.nextImage, e.failed, e.now))
    ensures NewIds(s, cl, e) <= Ids(Choose(cl, d, e.digests, s.nextImage, e.failed, e.now).client.editor.queue)
    ensures NewIds(s, cl, e) - e.failed <= StoreIds(Choose(cl, d, e.digests, s.nextImage, e.failed, e.now).device.store)
  {
    var records := NewRecords(cl.panel.pair, e.digests, s.nextImage, e.now);
    PutAllIds(d.store, records, e.failed);
    PutAllOk(d.store, records, e.failed);
    var queue := cl.editor.queue + Waiters(records);
    WaitersIds(records);
    IdsConcat(cl.editor.queue, Waiters(records));
    BatchFrame(cl.(editor := cl.editor.(queue := queue, waiting := records)), d.(store := PutAll(d.store, records, e.failed)));
  }

  lemma RetryEventFrame(s: System, cl: Client, d: Device, e: Event, next: nat)
    requires StoreOk(d.store) && e.RetryImage? && cl.editor.job == Idle
    ensures EventFrame(s, cl, d, e, Retry(cl, d, e.image, next))
  {
    FindIsQueued(cl.editor.queue, e.image);
    MarkFrame(cl.editor.queue, e.image, Uploading);
  }

  lemma DiscardEventFrame(s: System, cl: Client, d: Device, e: Event)
    requires StoreOk(d.store) && e.DiscardPending?
    ensures EventFrame(s, cl, d, e, Discard(cl, d, e.image, e.disk))
  {
    FindIsQueued(cl.editor.queue, e.image);
    var found := Find(cl.editor.queue, e.image);
    if found.Some? {
      ClearFrame(cl, d, e.image, found.value, e.disk);
    }
  }

  lemma StartRecoveryFrame(s: System, cl: Client, d: Device, e: Event)
    requires StoreOk(d.store) && e.StartRecovery? && Allowed(cl, d, e)
    ensures EventFrame(s, cl, d, e, Act(s, cl, d, e))
  {
    PartialIds(d.store, DropExpired(d.store, e.now));
    PartialIds(d.store, Recoverable(d.store, e.now));
  }

  lemma PartialIds(store: Store, part: Store)
    requires forall k :: k in part ==> k in store && part[k] == store[k]
    ensures StoreIds(part) <= StoreIds(store)
  {
    forall x | x in StoreIds(part) ensures x in StoreIds(store) {
      var k :| k in part && part[k].client == x;
      assert store[k].client == x;
    }
  }

  /** The stored copies of an id are all older than the limit. */
  ghost predicate AllExpired(store: Store, x: nat, now: nat) {
    forall k :: k in store && store[k].client == x ==> Expired(store[k], now)
  }

  /** A stored image survives the recovery read exactly while one of its copies is within the age limit. */
  lemma SurvivesReadIff(store: Store, x: nat, now: nat)
    requires x in StoreIds(store)
    ensures x in StoreIds(DropExpired(store, now)) <==> !AllExpired(store, x, now)
  {
    var part := DropExpired(store, now);
    if x in StoreIds(part) {
      var k :| k in part && part[k].client == x;
      assert !Expired(store[k], now);
    }
    if !AllExpired(store, x, now) {
      var k :| k in store && store[k].client == x && !Expired(store[k], now);
      assert part[k].client == x;
    }
  }

  lemma UnmountFrame(s: System, cl: Client, d: Device, e: Event)
    requires StoreOk(d.store) && e.Unmounts?
    ensures EventFrame(s, cl, d, e, Act(s, cl, d, e))
    ensures Act(s, cl, d, e).client.editor.queue == [] && Act(s, cl, d, e).device == d
  {
    FailureDevice(cl, d, e.call, e.now, |s.calls|);
  }

  lemma EndRecoveryFrame(s: System, cl: Client, d: Device, e: Event)
    requires StoreOk(d.store) && e.EndRecovery? && Allowed(cl, d, e)
    ensures EventFrame(s, cl, d, e, Act(s, cl, d, e))
  {
    var found := cl.editor.recovering.value;
    MergeFrame(found.selected, found.attached, cl.editor.queue);
    var after := Act(s, cl, d, e).device.store;
    forall x | x in StoreIds(d.store) - Settled(s, cl, e) ensures x in StoreIds(after) {
      var k :| k in d.store && d.store[k].client == x;
      assert after[k].client == x;
    }
  }

  lemma LoseFrame(s: System, cl: Client, d: Device, e: Event)
    requires StoreOk(d.store) && e.Lose?
    ensures EventFrame(s, cl, d, e, Act(s, cl, d, e))
  {
    ArriveFrame(cl, d, e.call, Refused, Found(true, true), Disk(true, true, true), e.now, |s.calls|);
  }

  lemma DeliverFrame(s: System, cl: Client, d: Device, e: Event)
    requires StoreOk(d.store) && e.Deliver?
    ensures EventFrame(s, cl, d, e, Act(s, cl, d, e))
  {
    if e.answer < |s.answers| && s.answers[e.answer].call < |s.calls| {
      DeliverAct(s, cl, d, e);
      var a := s.answers[e.answer];
      ArriveFrame(cl, d, a.call, ReplyTo(s, a), e.found, e.disk, e.now, |s.calls|);
    } else {
      DeliverNothing(s, cl, d, e);
    }
  }

  /** The events that only the panel is concerned with. */
  lemma QuietFrame(s: System, cl: Client, d: Device, e: Event)
    requires StoreOk(d.store) && Allowed(cl, d, e)
    requires e.StartLoadUnit? || e.Typing? || e.AutosaveTimer? || e.RetrySaveClick? || e.ResolveClick? || e.Submit? || e.StoreCopy? ||
      e.FindsLegacyCopy? || e.RemoveAttached? || e.ServeCall? || e.TeacherDecides? || e.RecordsClose? || e.Open?
    ensures EventFrame(s, cl, d, e, Act(s, cl, d, e))
  {
    var eff := Act(s, cl, d, e);
    assert eff.device.store == d.store && eff.client.editor.queue == cl.editor.queue;
    assert eff.client.editor == cl.editor || (e.RemoveAttached? && eff.client.editor == cl.editor.(job := eff.client.editor.job));
  }

  /** Choosing, trying again and discarding images. */
  lemma ImageClickFrame(s: System, cl: Client, d: Device, e: Event)
    requires StoreOk(d.store) && Allowed(cl, d, e) && (e.ChooseFiles? || e.Proceed? || e.RetryImage? || e.DiscardPending?)
    ensures EventFrame(s, cl, d, e, Act(s, cl, d, e))
  {
    match e
    case ChooseFiles(_, _, _, _) => ChooseEventFrame(s, cl, d, e);
    case Proceed(_) => PrepareFrame(cl, d, cl.editor.job.purpose, |s.calls|);
    case RetryImage(_, _) => RetryEventFrame(s, cl, d, e, |s.calls|);
    case DiscardPending(_, _, _) => DiscardEventFrame(s, cl, d, e);
  }

  lemma ActFrame(s: System, cl: Client, d: Device, e: Event)
    requires StoreOk(d.store) && Allowed(cl, d, e)
    ensures EventFrame(s, cl, d, e, Act(s, cl, d, e))
  {
    if e.Deliver? {
      DeliverFrame(s, cl, d, e);
    } else if e.Lose? {
      LoseFrame(s, cl, d, e);
    } else if e.Unmounts? {
      UnmountFrame(s, cl, d, e);
    } else if e.StartRecovery? {
      StartRecoveryFrame(s, cl, d, e);
    } else if e.EndRecovery? {
      EndRecoveryFrame(s, cl, d, e);
    } else if e.ChooseFiles? || e.Proceed? || e.RetryImage? || e.DiscardPending? {
      ImageClickFrame(s, cl, d, e);
    } else {
      QuietFrame(s, cl, d, e);
    }
  }

  // ---------------------------------------------------------------- what settles an image

  lemma AttachedIsEver(s: Server, images: seq<Image>, r: Record)
    requires ImagesTrue(s, images) && AttachedIn(images, r)
    ensures EverAttached(s, r.client)
  {
  }

  /** An id leaves the page's care only when it is on the server, or by the learner's discard. */
  lemma SettledIsAttached(s: System, page: nat, e: Event, x: nat)
    requires SystemOk(s) && Live(s, page) && EventPage(s, e) == Some(page)
    requires x in Settled(s, s.clients[page], e) && !e.DiscardPending?
    ensures EverAttached(s.server, x)
  {
    var cl := s.clients[page];
    match e
    case EndRecovery(_, _) =>
      var found := cl.editor.recovering.value;
      var i :| 0 <= i < |found.selected| && AttachedIn(found.attached, found.selected[i]) && found.selected[i].client == x;
      AttachedIsEver(s.server, found.attached, found.selected[i]);
    case Deliver(a, _, _, _) =>
      var answer := s.answers[a];
      assert AnswerShape(s, answer);
      ReplyIsTrue(s, answer);
      var reply := ReplyTo(s, answer);
      match cl.editor.job {
        case Checking(_, purpose) =>
          ReadingImagesTrue(s.server, reply.reading);
          AttachedIsEver(s.server, reply.reading.images, purpose.record);
        case Posting(_, rec, current) =>
          UploadedAttached(answer.at, current.version.value, current.revision, rec.client, rec.digest);
        case _ =>
      }
    case _ =>
  }

  /** The learner discards the image on this page: the click is allowed, and the page queues the image. */
  ghost predicate DiscardsHere(s: System, e: Event, page: nat, x: nat) {
    && e.DiscardPending? && e.page == page && e.image == x && Live(s, page)
    && Allowed(s.clients[page], s.devices[s.clients[page].device], e) && x in Ids(s.clients[page].editor.queue)
  }

  /** The learner discards the image on some page of this browser. */
  ghost predicate DiscardsOn(s: System, e: Event, device: nat, x: nat) {
    e.DiscardPending? && DiscardsHere(s, e, e.page, x) && s.clients[e.page].device == device
  }

  lemma QueuedStaysHere(s: System, e: Event, page: nat, x: nat)
    requires SystemOk(s) && page in s.clients && x in Ids(s.clients[page].editor.queue)
    requires EventPage(s, e) == Some(page) && !e.Open? && !e.Unmounts? && Allowed(s.clients[page], s.devices[s.clients[page].device], e)
    ensures var cl := s.clients[page];
      x in Ids(Act(s, cl, s.devices[cl.device], e).client.editor.queue) || EverAttached(s.server, x) || DiscardsHere(s, e, page, x)
  {
    var cl := s.clients[page];
    ActFrame(s, cl, s.devices[cl.device], e);
    if x in Settled(s, cl, e) && !e.DiscardPending? {
      SettledIsAttached(s, page, e, x);
    }
  }

  lemma StoredStaysHere(s: System, e: Event, page: nat, x: nat)
    requires SystemOk(s) && page in s.clients && x in StoreIds(s.devices[s.clients[page].device].store)
    requires EventPage(s, e) == Some(page) && !e.Open? && !e.StartRecovery? && Allowed(s.clients[page], s.devices[s.clients[page].device], e)
    ensures var cl := s.clients[page];
      x in StoreIds(Act(s, cl, s.devices[cl.device], e).device.store) || EverAttached(s.server, x) || DiscardsHere(s, e, page, x)
  {
    var cl := s.clients[page];
    ActFrame(s, cl, s.devices[cl.device], e);
    if x in Settled(s, cl, e) && !e.DiscardPending? {
      SettledIsAttached(s, page, e, x);
    }
  }

  // ---------------------------------------------------------------- where an image is held

  /** The image is in the page's queue, or in the recovery store of the page's browser. */
  ghost predicate Held(s: System, page: nat, x: nat) {
    page in s.clients && s.clients[page].device in s.devices &&
    (x in Ids(s.clients[page].editor.queue) || x in StoreIds(s.devices[s.clients[page].device].store))
  }

  /** The event takes the page's queue off the screen: a reload, a sign-out or a lost activity. */
  ghost predicate Closes(s: System, e: Event, page: nat) {
    (e.Open? && e.page == page) || (e.Unmounts? && EventPage(s, e) == Some(page))
  }

  /** The event is a recovery read of this browser that deletes every stored copy of the image. */
  ghost predicate Forgets(s: System, e: Event, device: nat, x: nat) {
    && e.StartRecovery? && e.available && e.disk.remove && e.page in s.clients && s.clients[e.page].device == device
    && device in s.devices && s.clients[e.page].editor.recovering == None
    && IsSelection(Recoverable(s.devices[device].store, e.now), e.selected)
    && AllExpired(s.devices[device].store, x, e.now)
  }

  /**
   * The two ways an image can be lost: its queue goes while it is not stored, or its last stored
   * copy is forgotten while the page does not queue it.
   */
  ghost predicate Loses(s: System, e: Event, page: nat, x: nat)
    requires Held(s, page, x)
  {
    var device := s.clients[page].device;
    || (Closes(s, e, page) && x !in StoreIds(s.devices[device].store))
    || (Forgets(s, e, device, x) && x !in Ids(s.clients[page].editor.queue))
  }

  lemma QueuedStays(s: System, e: Event, page: nat, x: nat)
    requires SystemOk(s) && page in s.clients && x in Ids(s.clients[page].editor.queue) && !Closes(s, e, page)
    ensures page in Next(s, e).clients
    ensures x in Ids(Next(s, e).clients[page].editor.queue) || EverAttached(Next(s, e).server, x) || DiscardsHere(s, e, page, x)
  {
    assert Live(s, page);
    if EventPage(s, e) == Some(page) && !e.Open? {
      PageNext(s, e, page);
      if Allowed(s.clients[page], s.devices[s.clients[page].device], e) {
        QueuedStaysHere(s, e, page, x);
      }
    } else {
      OtherNext(s, e, page);
    }
  }

  lemma ReadKeepsStored(s: System, e: Event, device: nat, x: nat)
    requires SystemOk(s) && device in s.devices && x in StoreIds(s.devices[device].store) && e.StartRecovery?
    requires e.page in s.clients && !Forgets(s, e, device, x)
    ensures device in Next(s, e).devices && x in StoreIds(Next(s, e).devices[device].store)
  {
    assert Live(s, e.page);
    PageNext(s, e, e.page);
    if e.available {
      SurvivesReadIff(s.devices[device].store, x, e.now);
    }
  }

  /** One event: a stored image stays stored unless it is attached, discarded or forgotten. Reopening changes nothing. */
  lemma StoredStays(s: System, e: Event, device: nat, x: nat)
    requires SystemOk(s) && device in s.devices && x in StoreIds(s.devices[device].store) && !Forgets(s, e, device, x)
    ensures device in Next(s, e).devices
    ensures x in StoreIds(Next(s, e).devices[device].store) || EverAttached(Next(s, e).server, x) || DiscardsOn(s, e, device, x)
  {
    var who := EventPage(s, e);
    if who.Some? && who.value in s.clients && !e.Open? {
      if e.StartRecovery? {
        ReadKeepsStored(s, e, device, x);
      } else {
        assert Live(s, who.value);
        PageNext(s, e, who.value);
        if s.clients[who.value].device == device && Allowed(s.clients[who.value], s.devices[device], e) {
          StoredStaysHere(s, e, who.value, x);
        }
      }
    } else {
      NobodyNext(s, e, device);
    }
  }

  lemma PageStays(s: System, e: Event, page: nat)
    requires SystemOk(s) && page in s.clients
    ensures page in Next(s, e).clients && Next(s, e).clients[page].device == s.clients[page].device
  {
    if e.Open? {
    } else if EventPage(s, e) == Some(page) {
      PageNext(s, e, page);
    } else {
      OtherNext(s, e, page);
    }
  }

  /** One event keeps an image held unless it loses it, the image is attached, or the learner discards it. */
  lemma HeldStays(s: System, e: Event, page: nat, x: nat)
    requires SystemOk(s) && Held(s, page, x) && !Loses(s, e, page, x)
    ensures Held(Next(s, e), page, x) || EverAttached(Next(s, e).server, x) || DiscardsOn(s, e, s.clients[page].device, x)
  {
    var device := s.clients[page].device;
    PageStays(s, e, page);
    NextOk(s, e);
    assert Live(Next(s, e), page);
    if x in StoreIds(s.devices[device].store) && !Forgets(s, e, device, x) {
      StoredStays(s, e, device, x);
    } else {
      QueuedStays(s, e, page, x);
    }
  }

  /** And the condition is exact: an event that meets it leaves the image nowhere in page or browser. */
  lemma LosingLoses(s: System, e: Event, page: nat, x: nat)
    requires SystemOk(s) && Held(s, page, x) && Loses(s, e, page, x)
    ensures !Held(Next(s, e), page, x)
  {
    var device := s.clients[page].device;
    assert Live(s, page);
    if e.Open? {
    } else if e.Unmounts? {
      PageNext(s, e, page);
      UnmountFrame(s, s.clients[page], s.devices[device], e);
    } else {
      ForgottenIsGone(s, e, page, x);
    }
  }

  lemma ForgottenIsGone(s: System, e: Event, page: nat, x: nat)
    requires SystemOk(s) && Held(s, page, x) && Forgets(s, e, s.clients[page].device, x) && x !in Ids(s.clients[page].editor.queue)
    ensures !Held(Next(s, e), page, x)
  {
    var device := s.clients[page].device;
    assert Live(s, e.page) && Live(s, page);
    PageNext(s, e, e.page);
    SurvivesReadIff(s.devices[device].store, x, e.now);
  }

  // ---------------------------------------------------------------- attached, until removed

  /** The image is an attachment of the current version. */
  ghost predicate AttachedNow(s: Server, x: nat) {
    HasClient(ReadCurrent(s).images, x)
  }

  /** The event is an accepted removal of the image. */
  ghost predicate RemovesAt(s: System, e: Event, x: nat) {
    && e.ServeCall? && e.call < |s.calls| && s.calls[e.call].request.Remove?
    && AttachedNow(s.server, x) && !AttachedNow(Next(s, e).server, x)
  }

  lemma SaveKeepsAttachedNow(s: Server, text: string, base: Pair, i: nat)
    requires ServerOk(s) && i < |ReadCurrent(s).images|
    ensures var after := ReadCurrent(SaveDraft(s, text, base).0).images;
      i < |after| && after[i].client == ReadCurrent(s).images[i].client
  {
    assert VersionOk(s, |s.versions| - 1);
  }

  lemma UploadKeepsAttachedNow(s: Server, v: nat, r: nat, client: nat, digest: nat, i: nat)
    requires ServerOk(s) && i < |ReadCurrent(s).images|
    ensures var after := ReadCurrent(UploadImage(s, v, r, client, digest).0).images;
      i < |after| && after[i] == ReadCurrent(s).images[i]
  {
    assert VersionOk(s, |s.versions| - 1);
  }

  lemma ServeKeepsAttachedNow(s: Server, q: Request, x: nat)
    requires ServerOk(s) && AttachedNow(s, x) && !q.Remove?
    ensures AttachedNow(Serve(s, q).0, x)
  {
    var before := ReadCurrent(s).images;
    var i :| 0 <= i < |before| && before[i].client == x;
    match q
    case Save(text, base) => SaveKeepsAttachedNow(s, text, base, i);
    case Upload(v, r, client, digest) => UploadKeepsAttachedNow(s, v, r, client, digest, i);
    case Seal(key, v, r) => SealKeepsImages(s, key, v, r);
    case Read =>
  }

  lemma SealKeepsImages(s: Server, key: nat, v: nat, r: nat)
    requires ServerOk(s)
    ensures ReadCurrent(SealVersion(s, key, v, r).0).images == ReadCurrent(s).images
  {
  }

  /** Nothing is ever attached but to the current version. */
  lemma NewlyAttachedIsCurrent(s: Server, q: Request, x: nat)
    requires ServerOk(s) && !EverAttached(s, x) && EverAttached(Serve(s, q).0, x)
    ensures AttachedNow(Serve(s, q).0, x)
  {
    if q.Upload? && q.client == x {
      var t := UploadImage(s, q.version, q.revision, q.client, q.digest).0;
      assert t != s;
      var images := ReadCurrent(t).images;
      assert images[|images| - 1].client == x;
    } else {
      ServeAttachesOnlyUploads(s, q, x);
    }
  }

  lemma ServeAttachedNow(s: Server, q: Request, x: nat)
    requires ServerOk(s) && (EverAttached(s, x) ==> AttachedNow(s, x)) && EverAttached(Serve(s, q).0, x)
    ensures AttachedNow(Serve(s, q).0, x) || (q.Remove? && AttachedNow(s, x))
  {
    if !EverAttached(s, x) {
      NewlyAttachedIsCurrent(s, q, x);
    } else if !q.Remove? {
      ServeKeepsAttachedNow(s, q, x);
    }
  }

  ghost predicate RemovedInRun(s: System, events: seq<Event>, x: nat) {
    exists n :: 0 <= n < |events| && RemovesAt(Exec(s, events[..n]), events[n], x)
  }

  lemma RemovedInLonger(s: System, events: seq<Event>, n: nat, x: nat)
    requires n <= |events| && RemovedInRun(s, events[..n], x)
    ensures RemovedInRun(s, events, x)
  {
    var i :| 0 <= i < n && RemovesAt(Exec(s, events[..n][..i]), events[..n][i], x);
    assert events[..n][..i] == events[..i];
  }

  lemma NextAttachedNow(s: System, e: Event, x: nat)
    requires SystemOk(s) && (EverAttached(s.server, x) ==> AttachedNow(s.server, x)) && EverAttached(Next(s, e).server, x)
    ensures AttachedNow(Next(s, e).server, x) || RemovesAt(s, e, x)
  {
    if e.ServeCall? {
      ServingAttachedNow(s, e, x);
    } else {
      OnlyServingAttaches(s, e);
    }
  }

  lemma ServingAttachedNow(s: System, e: Event, x: nat)
    requires SystemOk(s) && (EverAttached(s.server, x) ==> AttachedNow(s.server, x)) && EverAttached(Next(s, e).server, x) && e.ServeCall?
    ensures AttachedNow(Next(s, e).server, x) || RemovesAt(s, e, x)
  {
    if e.call < |s.calls| {
      ServeAttachedNow(s.server, s.calls[e.call].request, x);
    }
  }

  /** Every other event leaves versions and attachments alone. */
  lemma OnlyServingAttaches(s: System, e: Event)
    requires SystemOk(s) && !e.ServeCall?
    ensures Next(s, e).server.versions == s.server.versions
  {
    if e.Open? {
      OpenNext(s, e);
    } else if e.TeacherDecides? || e.RecordsClose? {
      RulingKeepsVersions(s, e);
    } else if EventPage(s, e) == None {
    } else if EventPage(s, e).value in s.clients {
      PageNext(s, e, EventPage(s, e).value);
    } else {
      NobodyStays(s, e);
    }
  }

  lemma RulingKeepsVersions(s: System, e: Event)
    requires e.TeacherDecides? || e.RecordsClose?
    ensures Next(s, e).server.versions == s.server.versions
  {
  }

  /** What was ever attached in a run is attached to the current version, or an accepted removal took it away. */
  lemma {:induction false} AttachedOrRemoved(replays: bool, events: seq<Event>, x: nat)
    requires EverAttached(Exec(Init(replays), events).server, x)
    ensures AttachedNow(Exec(Init(replays), events).server, x) || RemovedInRun(Init(replays), events, x)
  {
    if events != [] {
      var n := |events| - 1;
      var s := Exec(Init(replays), events[..n]);
      InitOk(replays);
      ExecOk(Init(replays), events[..n]);
      if EverAttached(s.server, x) {
        AttachedOrRemoved(replays, events[..n], x);
        if RemovedInRun(Init(replays), events[..n], x) {
          RemovedInLonger(Init(replays), events, n, x);
        } else {
          NextAttachedNow(s, events[n], x);
        }
      } else {
        NextAttachedNow(s, events[n], x);
      }
    }
  }

  // ---------------------------------------------------------------- main results

  /** Some event of the run discards the image on a page of this browser. */
  ghost predicate DiscardedOn(s: System, events: seq<Event>, device: nat, x: nat) {
    exists n :: 0 <= n < |events| && DiscardsOn(Exec(s, events[..n]), events[n], device, x)
  }

  ghost predicate DiscardedHere(s: System, events: seq<Event>, page: nat, x: nat) {
    exists n :: 0 <= n < |events| && DiscardsHere(Exec(s, events[..n]), events[n], page, x)
  }

  lemma DiscardedOnLonger(s: System, events: seq<Event>, n: nat, device: nat, x: nat)
    requires n <= |events| && DiscardedOn(s, events[..n], device, x)
    ensures DiscardedOn(s, events, device, x)
  {
    var i :| 0 <= i < n && DiscardsOn(Exec(s, events[..n][..i]), events[..n][i], device, x);
    assert events[..n][..i] == events[..i];
  }

  lemma DiscardedHereLonger(s: System, events: seq<Event>, n: nat, page: nat, x: nat)
    requires n <= |events| && DiscardedHere(s, events[..n], page, x)
    ensures DiscardedHere(s, events, page, x)
  {
    var i :| 0 <= i < n && DiscardsHere(Exec(s, events[..n][..i]), events[..n][i], page, x);
    assert events[..n][..i] == events[..i];
  }

  /** A page stays on its device for the whole run. */
  lemma {:induction false} ExecPageStays(s: System, events: seq<Event>, page: nat)
    requires SystemOk(s) && page in s.clients
    ensures page in Exec(s, events).clients && Exec(s, events).clients[page].device == s.clients[page].device
  {
    if events != [] {
      var front := events[..|events| - 1];
      ExecPageStays(s, front, page);
      ExecOk(s, front);
      PageStays(Exec(s, front), events[|events| - 1], page);
    }
  }

  /** Some event of the run loses the image. */
  ghost predicate LostInRun(s: System, events: seq<Event>, page: nat, x: nat) {
    exists n :: 0 <= n < |events| && Held(Exec(s, events[..n]), page, x) && Loses(Exec(s, events[..n]), events[n], page, x)
  }

  lemma LostInLonger(s: System, events: seq<Event>, n: nat, page: nat, x: nat)
    requires n <= |events| && LostInRun(s, events[..n], page, x)
    ensures LostInRun(s, events, page, x)
  {
    var i :| 0 <= i < n && Held(Exec(s, events[..n][..i]), page, x) && Loses(Exec(s, events[..n][..i]), events[..n][i], page, x);
    assert events[..n][..i] == events[..i];
  }

  /** The image is accounted for: held by page or browser, or on the server. */
  ghost predicate Kept(s: System, page: nat, x: nat) {
    Held(s, page, x) || EverAttached(s.server, x)
  }

  lemma KeptOneMore(s: System, e: Event, page: nat, x: nat)
    requires SystemOk(s) && page in s.clients && Kept(s, page, x) && (Held(s, page, x) ==> !Loses(s, e, page, x))
    ensures Kept(Next(s, e), page, x) || DiscardsOn(s, e, s.clients[page].device, x)
  {
    if EverAttached(s.server, x) {
      AttachedStays(s, e, x);
    } else {
      HeldStays(s, e, page, x);
    }
  }

  lemma {:induction false} HeldUntil(s: System, events: seq<Event>, page: nat, x: nat)
    requires SystemOk(s) && Held(s, page, x) && !LostInRun(s, events, page, x)
    ensures Kept(Exec(s, events), page, x) || DiscardedOn(s, events, s.clients[page].device, x)
  {
    if events != [] {
      var n := |events| - 1;
      var front := events[..n];
      if LostInRun(s, front, page, x) {
        LostInLonger(s, events, n, page, x);
      }
      HeldUntil(s, front, page, x);
      ExecOk(s, front);
      ExecPageStays(s, front, page);
      if Kept(Exec(s, front), page, x) {
        KeptLonger(s, events, page, x);
      } else {
        DiscardedOnLonger(s, events, n, s.clients[page].device, x);
      }
    }
  }

  lemma KeptLonger(s: System, events: seq<Event>, page: nat, x: nat)
    requires events != [] && !LostInRun(s, events, page, x)
    requires var t := Exec(s, events[..|events| - 1]); SystemOk(t) && page in t.clients && Kept(t, page, x)
    ensures var t := Exec(s, events[..|events| - 1]); Kept(Exec(s, events), page, x) || DiscardedOn(s, events, t.clients[page].device, x)
  {
    var n := |events| - 1;
    var t := Exec(s, events[..n]);
    assert Held(t, page, x) ==> !Loses(t, events[n], page, x);
    KeptOneMore(t, events[n], page, x);
  }

  lemma AttachedStays(s: System, e: Event, x: nat)
    requires SystemOk(s) && EverAttached(s.server, x)
    ensures EverAttached(Next(s, e).server, x)
  {
    NextOk(s, e);
    EverAttachedStable(s.server, Next(s, e).server, x);
  }

  lemma {:induction false} ExecConcat(s: System, a: seq<Event>, b: seq<Event>)
    ensures Exec(s, a + b) == Exec(Exec(s, a), b)
  {
    if b == [] {
      assert a + b == a;
    } else {
      assert (a + b)[..|a + b| - 1] == a + b[..|b| - 1];
      ExecConcat(s, a, b[..|b| - 1]);
    }
  }

  /**
   * No image is silently lost. Whatever a page queues or its browser stores is, after any further
   * run, still queued or stored, attached to the current version, removed by an accepted removal,
   * or discarded by the learner, unless some event of the run lost it: its queue went while it was
   * not stored, or its last stored copy expired while it was not queued.
   */
  lemma NoImageLost(replays: bool, events: seq<Event>, more: seq<Event>, page: nat, x: nat)
    requires Held(Exec(Init(replays), events), page, x)
    requires !LostInRun(Exec(Init(replays), events), more, page, x)
    ensures var t := Exec(Init(replays), events + more);
      || Held(t, page, x) || AttachedNow(t.server, x)
      || DiscardedOn(Exec(Init(replays), events), more, Exec(Init(replays), events).clients[page].device, x)
      || RemovedInRun(Init(replays), events + more, x)
  {
    InitOk(replays);
    ExecOk(Init(replays), events);
    ExecConcat(Init(replays), events, more);
    HeldUntil(Exec(Init(replays), events), more, page, x);
    if EverAttached(Exec(Init(replays), events + more).server, x) {
      AttachedOrRemoved(replays, events + more, x);
    }
  }

  ghost predicate ClosesInRun(s: System, events: seq<Event>, page: nat) {
    exists n :: 0 <= n < |events| && Closes(Exec(s, events[..n]), events[n], page)
  }

  ghost predicate ForgetsInRun(s: System, events: seq<Event>, device: nat, x: nat) {
    exists n :: 0 <= n < |events| && Forgets(Exec(s, events[..n]), events[n], device, x)
  }

  lemma ClosesInLonger(s: System, events: seq<Event>, n: nat, page: nat)
    requires n <= |events| && ClosesInRun(s, events[..n], page)
    ensures ClosesInRun(s, events, page)
  {
    var i :| 0 <= i < n && Closes(Exec(s, events[..n][..i]), events[..n][i], page);
    assert events[..n][..i] == events[..i];
  }

  lemma ForgetsInLonger(s: System, events: seq<Event>, n: nat, device: nat, x: nat)
    requires n <= |events| && ForgetsInRun(s, events[..n], device, x)
    ensures ForgetsInRun(s, events, device, x)
  {
    var i :| 0 <= i < n && Forgets(Exec(s, events[..n][..i]), events[..n][i], device, x);
    assert events[..n][..i] == events[..i];
  }

  lemma {:induction false} QueuedUntil(s: System, events: seq<Event>, page: nat, x: nat)
    requires SystemOk(s) && page in s.clients && x in Ids(s.clients[page].editor.queue) && !ClosesInRun(s, events, page)
    ensures page in Exec(s, events).clients
    ensures x in Ids(Exec(s, events).clients[page].editor.queue) || EverAttached(Exec(s, events).server, x) || DiscardedHere(s, events, page, x)
  {
    if events != [] {
      var n := |events| - 1;
      var front, last := events[..n], events[n];
      if ClosesInRun(s, front, page) {
        ClosesInLonger(s, events, n, page);
      }
      QueuedUntil(s, front, page, x);
      ExecOk(s, front);
      PageStays(Exec(s, front), last, page);
      if x in Ids(Exec(s, front).clients[page].editor.queue) {
        QueuedStays(Exec(s, front), last, page, x);
      } else if EverAttached(Exec(s, front).server, x) {
        AttachedStays(Exec(s, front), last, x);
      } else {
        DiscardedHereLonger(s, events, n, page, x);
      }
    }
  }

  lemma {:induction false} StoredUntil(s: System, events: seq<Event>, device: nat, x: nat)
    requires SystemOk(s) && device in s.devices && x in StoreIds(s.devices[device].store) && !ForgetsInRun(s, events, device, x)
    ensures device in Exec(s, events).devices
    ensures x in StoreIds(Exec(s, events).devices[device].store) || EverAttached(Exec(s, events).server, x) || DiscardedOn(s, events, device, x)
  {
    if events != [] {
      var n := |events| - 1;
      var front, last := events[..n], events[n];
      if ForgetsInRun(s, front, device, x) {
        ForgetsInLonger(s, events, n, device, x);
      }
      StoredUntil(s, front, device, x);
      ExecOk(s, front);
      DeviceStays(Exec(s, front), last, device);
      if x in StoreIds(Exec(s, front).devices[device].store) {
        StoredStays(Exec(s, front), last, device, x);
      } else if EverAttached(Exec(s, front).server, x) {
        AttachedStays(Exec(s, front), last, x);
      } else {
        DiscardedOnLonger(s, events, n, device, x);
      }
    }
  }

  /**
   * As long as its page stays on screen, a queued image is, after any further run, still queued,
   * attached to the current version, removed by an accepted removal, or discarded on that page.
   */
  lemma NoQueuedImageLost(replays: bool, events: seq<Event>, more: seq<Event>, page: nat, x: nat)
    requires page in Exec(Init(replays), events).clients && x in Ids(Exec(Init(replays), events).clients[page].editor.queue)
    requires !ClosesInRun(Exec(Init(replays), events), more, page)
    ensures var t := Exec(Init(replays), events + more);
      && page in t.clients
      && (|| x in Ids(t.clients[page].editor.queue) || AttachedNow(t.server, x) || RemovedInRun(Init(replays), events + more, x)
          || DiscardedHere(Exec(Init(replays), events), more, page, x))
  {
    InitOk(replays);
    ExecOk(Init(replays), events);
    ExecConcat(Init(replays), events, more);
    QueuedUntil(Exec(Init(replays), events), more, page, x);
    if EverAttached(Exec(Init(replays), events + more).server, x) {
      AttachedOrRemoved(replays, events + more, x);
    }
  }

  /**
   * Over reloads, sign-outs and crashes, a stored image is, after any further run, still stored,
   * attached to the current version, removed by an accepted removal, or discarded on a page of its
   * browser, until a recovery read finds all its copies too old.
   */
  lemma NoStoredImageLost(replays: bool, events: seq<Event>, more: seq<Event>, device: nat, x: nat)
    requires device in Exec(Init(replays), events).devices && x in StoreIds(Exec(Init(replays), events).devices[device].store)
    requires !ForgetsInRun(Exec(Init(replays), events), more, device, x)
    ensures var t := Exec(Init(replays), events + more);
      && device in t.devices
      && (|| x in StoreIds(t.devices[device].store) || AttachedNow(t.server, x) || RemovedInRun(Init(replays), events + more, x)
          || DiscardedOn(Exec(Init(replays), events), more, device, x))
  {
    InitOk(replays);
    ExecOk(Init(replays), events);
    ExecConcat(Init(replays), events, more);
    StoredUntil(Exec(Init(replays), events), more, device, x);
    if EverAttached(Exec(Init(replays), events + more).server, x) {
      AttachedOrRemoved(replays, events + more, x);
    }
  }

  lemma DeviceStays(s: System, e: Event, device: nat)
    requires SystemOk(s) && device in s.devices
    ensures device in Next(s, e).devices
  {
    if !e.Open? && EventPage(s, e).Some? && EventPage(s, e).value in s.clients {
      PageNext(s, e, EventPage(s, e).value);
    } else {
      NobodyNext(s, e, device);
    }
  }

  /** A queued image survives a reload, a sign-out or a lost activity exactly when its record is stored. */
  lemma SurvivesClosingIff(s: System, e: Event, page: nat, x: nat)
    requires SystemOk(s) && page in s.clients && x in Ids(s.clients[page].editor.queue) && Closes(s, e, page)
    ensures Held(Next(s, e), page, x) <==> x in StoreIds(s.devices[s.clients[page].device].store)
  {
    assert Live(s, page);
    var device := s.clients[page].device;
    if e.Unmounts? {
      PageNext(s, e, page);
      UnmountFrame(s, s.clients[page], s.devices[device], e);
    }
  }

  /**
   * Choosing files queues every one of them and stores every one whose save succeeds, and keeps
   * what was queued and stored before.
   */
  lemma ChosenIsQueuedAndStored(s: System, e: Event)
    requires SystemOk(s) && e.ChooseFiles? && e.page in s.clients
    requires Allowed(s.clients[e.page], s.devices[s.clients[e.page].device], e)
    ensures var cl := s.clients[e.page];
      var t := Next(s, e);
      && e.page in t.clients && cl.device in t.devices
      && NewIds(s, cl, e) + Ids(cl.editor.queue) <= Ids(t.clients[e.page].editor.queue)
      && (NewIds(s, cl, e) - e.failed) + StoreIds(s.devices[cl.device].store) <= StoreIds(t.devices[cl.device].store)
  {
    var cl := s.clients[e.page];
    assert Live(s, e.page);
    PageNext(s, e, e.page);
    ChooseEventFrame(s, cl, s.devices[cl.device], e);
  }

  /**
   * Recovery brings back every image its store read returned, unless it was seen attached, and
   * merges with what was chosen while the read was slow.
   */
  lemma RecoveryRestores(s: System, e: Event)
    requires SystemOk(s) && e.EndRecovery? && e.page in s.clients && s.clients[e.page].editor.recovering.Some?
    ensures var cl := s.clients[e.page];
      var selected := cl.editor.recovering.value.selected;
      var t := Next(s, e);
      && e.page in t.clients
      && Ids(cl.editor.queue) <= Ids(t.clients[e.page].editor.queue)
      && (forall i :: 0 <= i < |selected| ==>
            selected[i].client in Ids(t.clients[e.page].editor.queue) || EverAttached(t.server, selected[i].client))
  {
    var cl := s.clients[e.page];
    assert Live(s, e.page);
    PageNext(s, e, e.page);
    var found := cl.editor.recovering.value;
    MergeFrame(found.selected, found.attached, cl.editor.queue);
    forall i | 0 <= i < |found.selected| && AttachedIn(found.attached, found.selected[i])
      ensures EverAttached(s.server, found.selected[i].client)
    {
      AttachedIsEver(s.server, found.attached, found.selected[i]);
    }
  }
}

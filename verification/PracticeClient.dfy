/**
 * One open page: the draft panel, the image editor and the reads they have in flight, together
 * with the browser storage they share with other tabs of the same device. Every awaited call ends
 * a step; what happens when its answer arrives is the next step. A step sends at most one request.
 */
module PracticeClient {
  import opened Prelude
  import opened SubmissionServer
  import opened PracticePanel
  import opened ImageQueue

  /** Why the image editor runs: a chosen file, a retried one, or the removal of an attachment. */
  datatype Purpose =
    | Fresh(record: Record)
    | Again(record: Record)
    | Removal(image: Image, seen: nat)

  /** The image editor's lock, as the point its single running operation has reached. */
  datatype Job =
    | Idle
    | Starting(purpose: Purpose)
    | SavingFirst(purpose: Purpose)
    | Preparing(call: nat, purpose: Purpose)
    | Checking(call: nat, purpose: Purpose)
    | Posting(call: nat, record: Record, current: Reading)
    | Deleting(call: nat, target: Image, current: Reading)

  /** A recovery read in progress: what the store held and the attachments known when it began. */
  datatype Recovery = Recovery(selected: seq<Record>, attached: seq<Image>)

  datatype Editor = Editor(
    queue: seq<Item>,
    job: Job,
    waiting: seq<Record>,
    recovering: Option<Recovery>,
    ready: bool)

  /**
   * `loads` are the unit reads in flight, with their `useServerText` flag. `snapshot` is the
   * recovery copy the page last read or wrote, `submitted` the snapshot of the last seal click.
   */
  datatype Client = Client(
    device: nat,
    panel: Panel,
    editor: Editor,
    loads: map<nat, bool>,
    snapshot: Option<Envelope>,
    submitted: Option<Envelope>)

  /** Browser storage shared by the tabs of one device: the seal slot, the image store, the draft copy. */
  datatype Device = Device(slot: Option<Intent>, store: Store, copy: Option<Envelope>)

  /** What a load finds fit for use in local storage; expired or malformed entries are deleted by the reader. */
  datatype Found = Found(copy: bool, intent: bool)

  /** Which of the image store's transactions succeed during a step. */
  datatype Disk = Disk(replace: bool, save: bool, remove: bool)

  datatype Effect = Effect(client: Client, device: Device, send: Option<Request>)

  const NEW_EDITOR := Editor([], Idle, [], None, false)
  const NEW_DEVICE := Device(None, map[], None)

  function Page(device: nat): Client {
    Client(device, NEW_PANEL, NEW_EDITOR, map[], None, None)
  }

  predicate ImageBusy(cl: Client) {
    cl.editor.job != Idle
  }

  /** The editor accepts a click on "upload", "retry" or "remove". */
  predicate ImagesEnabled(cl: Client) {
    && Editable(cl.panel) && cl.panel.submit == NotSubmitting && cl.editor.ready && cl.editor.job == Idle
    && cl.panel.status != Saving && cl.panel.conflict == None && cl.panel.intent == None
  }

  function Stay(cl: Client, d: Device): Effect {
    Effect(cl, d, None)
  }

  function StartLoad(cl: Client, d: Device, next: nat, useServer: bool): Effect {
    Effect(cl.(loads := cl.loads[next := useServer]), d, Some(Read))
  }

  function StartSave(cl: Client, d: Device, next: nat): Effect {
    Effect(cl.(panel := SaveStart(cl.panel, next)), d, Some(Save(cl.panel.draft, cl.panel.pair)))
  }

  // ---------------------------------------------------------------- image editor

  function PurposeId(p: Purpose): Option<nat> {
    match p
    case Fresh(r) => Some(r.client)
    case Again(r) => Some(r.client)
    case Removal(_, _) => None
  }

  /** The running operation ends in an error: the item keeps its record, the batch stops. */
  function FailImage(cl: Client, client: Option<nat>, note: Note): Client {
    var queue := if client.Some? then Mark(cl.editor.queue, client.value, note) else cl.editor.queue;
    cl.(editor := cl.editor.(queue := queue, job := Idle, waiting := []))
  }

  /** An item is settled; the next file of the batch starts, if there is one. */
  function NextInBatch(cl: Client): Client {
    var ed := cl.editor;
    if ed.waiting == [] then cl.(editor := ed.(job := Idle))
    else
      var r := QueueCopy(ed.queue, ed.waiting[0]);
      cl.(editor := ed.(queue := Mark(ed.queue, r.client, Uploading), job := Starting(Fresh(r)), waiting := ed.waiting[1..]))
  }

  function AdvanceAll(cl: Client, before: Baseline, to: Baseline, now: nat): Client {
    cl.(editor := cl.editor.(queue := Advance(cl.editor.queue, before, to, now)))
  }

  function AdvanceStore(cl: Client, d: Device, before: Baseline, to: Baseline, now: nat, disk: Disk): Device {
    if disk.replace then d.(store := StoreAdvance(d.store, cl.editor.queue, before, to, now)) else d
  }

  /** Take a settled or discarded image out of the queue and, if the deletion succeeds, the store. */
  function ClearQueue(cl: Client, client: nat): Client {
    cl.(editor := cl.editor.(queue := Without(cl.editor.queue, client)))
  }

  function ClearStore(d: Device, r: Record, disk: Disk): Device {
    if disk.remove then d.(store := d.store - {StoreKey(r)}) else d
  }

  /**
   * `prepareImageDraft`: save first if the draft is not exactly on the server, then read back. The
   * operation was started while the panel was editable and free of conflicts; those two are read
   * from the render it was started in, so a later change does not stop it.
   */
  function StartPrepare(cl: Client, d: Device, purpose: Purpose, next: nat): (e: Effect)
    ensures e.client.device == cl.device
  {
    if cl.panel.saving.Some? || cl.panel.intent.Some? then
      Stay(FailImage(cl, PurposeId(purpose), ImageQueue.Failed), d)
    else if NeedsSave(cl.panel) then
      var save := StartSave(cl, d, next);
      save.(client := save.client.(editor := save.client.editor.(job := SavingFirst(purpose))))
    else
      Effect(cl.(editor := cl.editor.(job := Preparing(next, purpose))), d, Some(Read))
  }

  /** Rebase the queue, bind the record to the tokens just read, store it, and post it with them. */
  function Post(cl: Client, d: Device, r: Record, current: Reading, disk: Disk, now: nat, next: nat): (e: Effect)
    ensures e.client.device == cl.device
  {
    if current.version == None || current.isSealed then Stay(FailImage(cl, Some(r.client), Outdated), d)
    else
      var d1 := AdvanceStore(cl, d, TokensOf(r), Tokens(current), now, disk);
      var c1 := AdvanceAll(cl, TokensOf(r), Tokens(current), now);
      var rebased := QueueCopy(c1.editor.queue, r);
      var bound := Rebased(rebased, Tokens(current), now);
      var c2 := c1.(editor := c1.editor.(queue := Bind(c1.editor.queue, bound), job := Posting(next, bound, current)));
      Effect(c2, BindStore(d1, rebased, bound, disk),
             Some(Upload(current.version.value, current.revision, bound.client, bound.digest)))
  }

  function BindStore(d: Device, from: Record, bound: Record, disk: Disk): Device {
    if !disk.save then d
    else
      var put := d.store[StoreKey(bound) := bound];
      d.(store := if disk.remove && from.version != bound.version then put - {StoreKey(from)} else put)
  }

  function Delete(cl: Client, d: Device, target: Image, current: Reading, checkRevision: Option<nat>, next: nat): (e: Effect)
    ensures e.client.device == cl.device
  {
    if current.version != Some(target.version) || current.isSealed then
      Stay(FailImage(cl.(panel := ImageConflict(cl.panel, current)), None, Outdated), d)
    else if !HasId(current.images, target.id) then
      Stay(FailImage(cl.(panel := ImageUpdate(cl.panel, current)), None, Waiting), d)
    else if checkRevision.Some? && current.revision != checkRevision.value then
      Stay(FailImage(cl.(panel := ImageConflict(cl.panel, current)), None, Outdated), d)
    else
      Effect(cl.(editor := cl.editor.(job := Deleting(next, target, current))), d,
             Some(Remove(target.version, current.revision, target.id)))
  }

  /** The read-back of `prepareImageDraft` has arrived. */
  function Prepared(cl: Client, d: Device, r: Reading, purpose: Purpose, disk: Disk, now: nat, next: nat): (e: Effect)
    ensures e.client.device == cl.device
  {
    if !ReadbackMatches(cl.panel, r) then
      Stay(FailImage(cl.(panel := ImageConflict(cl.panel, r)), PurposeId(purpose), ImageQueue.Failed), d)
    else
      var c1 := cl.(panel := ImageUpdate(cl.panel, r));
      match purpose
      case Fresh(rec) => Post(c1, d, rec, r, disk, now, next)
      case Again(rec) => Post(c1, d, rec, r, disk, now, next)
      case Removal(image, seen) =>
        var before := Baseline(Some(image.version), Some(seen));
        var d2 := AdvanceStore(c1, d, before, Tokens(r), now, disk);
        var c2 := AdvanceAll(c1, before, Tokens(r), now);
        var copied := FindClient(r.images, image.client);
        if copied == None then Stay(FailImage(c2.(panel := ImageUpdate(c2.panel, r)), None, Waiting), d2)
        else Delete(c2, d2, copied.value, r, None, next)
  }

  /** The first read of a retry: already attached, moved on, or still exactly at the record's tokens. */
  function CheckedAgain(cl: Client, d: Device, r: Reading, rec: Record, disk: Disk, now: nat, next: nat): (e: Effect)
    ensures e.client.device == cl.device
  {
    if AttachedIn(r.images, rec) then
      var acknowledged := rec.revision.Some? && r.revision == rec.revision.value + 1;
      var d1 := if acknowledged then AdvanceStore(cl, d, TokensOf(rec), Tokens(r), now, disk) else d;
      var c1 := if acknowledged then AdvanceAll(cl, TokensOf(rec), Tokens(r), now) else cl;
      var d2 := ClearStore(d1, QueueCopy(c1.editor.queue, rec), disk);
      var c2 := NextInBatch(ClearQueue(c1.(panel := ImageUpdate(c1.panel, r)), rec.client));
      if UpdateReloads(cl.panel, r) then StartLoad(c2, d2, next, false) else Stay(c2, d2)
    else if r.version != rec.version || r.isSealed || (rec.revision.Some? && rec.revision.value != r.revision) then
      Stay(FailImage(cl.(panel := ImageConflict(cl.panel, r)), Some(rec.client), Outdated), d)
    else if r.version == None then StartPrepare(cl, d, Again(rec), next)
    else Post(cl, d, rec, r, disk, now, next)
  }

  /** The first read of a removal; a sealed version under revision gets its new draft first. */
  function CheckedRemoval(cl: Client, d: Device, r: Reading, image: Image, seen: nat, next: nat): (e: Effect)
    ensures e.client.device == cl.device
  {
    if r.isSealed && seen == 0 && r.version == Some(image.version) then
      StartPrepare(cl, d, Removal(image, seen), next)
    else Delete(cl, d, image, r, Some(seen), next)
  }

  function WithoutClient(images: seq<Image>, client: nat): seq<Image> {
    if images == [] then []
    else if images[0].client == client then WithoutClient(images[1..], client)
    else [images[0]] + WithoutClient(images[1..], client)
  }

  /** What an upload answer is taken to mean: the text read before, at the answered revision. */
  function AckUpload(current: Reading, image: Image, revision: nat, client: nat): Reading {
    current.(revision := revision, images := WithoutClient(current.images, client) + [image])
  }

  function AckRemoval(current: Reading, target: Image, revision: nat): Reading {
    current.(revision := revision, images := WithoutId(current.images, target.id))
  }

  function Posted(cl: Client, d: Device, reply: Reply, rec: Record, current: Reading, disk: Disk, now: nat): (e: Effect)
    ensures e.client.device == cl.device
  {
    if !reply.Uploaded? then Stay(FailImage(cl, Some(rec.client), ImageQueue.Failed), d)
    else
      var ack := AckUpload(current, reply.image, reply.revision, rec.client);
      var next := reply.revision == current.revision + 1;
      var d1 := if next then AdvanceStore(cl, d, Tokens(current), Tokens(ack), now, disk) else d;
      var c1 := if next then AdvanceAll(cl, Tokens(current), Tokens(ack), now) else cl;
      var d2 := ClearStore(d1, QueueCopy(c1.editor.queue, rec), disk);
      Stay(NextInBatch(ClearQueue(c1.(panel := ImageUpdate(c1.panel, ack)), rec.client)), d2)
  }

  function Deleted(cl: Client, d: Device, reply: Reply, target: Image, current: Reading, disk: Disk, now: nat): (e: Effect)
    ensures e.client.device == cl.device
  {
    if !reply.Removed? then Stay(FailImage(cl, None, Waiting), d)
    else
      var ack := AckRemoval(current, target, reply.revision);
      var next := reply.revision == current.revision + 1;
      var d1 := if next then AdvanceStore(cl, d, Tokens(current), Tokens(ack), now, disk) else d;
      var c1 := if next then AdvanceAll(cl, Tokens(current), Tokens(ack), now) else cl;
      Stay(NextInBatch(c1.(panel := ImageUpdate(c1.panel, ack))), d1)
  }

  // ---------------------------------------------------------------- clicks

  function NewRecords(pair: Pair, digests: seq<nat>, first: nat, now: nat): seq<Record> {
    seq(|digests|, i requires 0 <= i < |digests| => Record(first + i, digests[i], pair.version, Some(pair.revision), now))
  }

  function Waiters(records: seq<Record>): seq<Item> {
    seq(|records|, i requires 0 <= i < |records| => Item(records[i], Waiting))
  }

  /** The initial save of chosen files; `failed` are the ids whose save did not succeed. */
  function PutAll(store: Store, records: seq<Record>, failed: set<nat>): Store {
    if records == [] then store
    else
      var r := records[|records| - 1];
      var rest := PutAll(store, records[..|records| - 1], failed);
      if r.client in failed then rest else rest[StoreKey(r) := r]
  }

  predicate CanChoose(cl: Client, digests: seq<nat>) {
    ImagesEnabled(cl) && digests != [] && |digests| + |cl.panel.images| + |cl.editor.queue| <= IMAGE_LIMIT
  }

  function Choose(cl: Client, d: Device, digests: seq<nat>, first: nat, failed: set<nat>, now: nat): (e: Effect)
    requires digests != []
    ensures e.client.device == cl.device
  {
    var records := NewRecords(cl.panel.pair, digests, first, now);
    var queue := cl.editor.queue + Waiters(records);
    Stay(NextInBatch(cl.(editor := cl.editor.(queue := queue, waiting := records))),
         d.(store := PutAll(d.store, records, failed)))
  }

  predicate CanRetry(cl: Client, client: nat) {
    && ImagesEnabled(cl)
    && (exists i :: 0 <= i < |cl.editor.queue| &&
          cl.editor.queue[i].record.client == client && cl.editor.queue[i].note != Outdated)
  }

  function Retry(cl: Client, d: Device, client: nat, next: nat): (e: Effect)
    ensures e.client.device == cl.device
  {
    var found := Find(cl.editor.queue, client);
    if found == None then Stay(cl, d)
    else
      var queue := Mark(cl.editor.queue, client, Uploading);
      Effect(cl.(editor := cl.editor.(queue := queue, job := Checking(next, Again(found.value)))), d, Some(Read))
  }

  function RemoveClick(cl: Client, d: Device, image: Image, next: nat): (e: Effect)
    ensures e.client.device == cl.device
  {
    Effect(cl.(editor := cl.editor.(job := Checking(next, Removal(image, cl.panel.pair.revision)))), d, Some(Read))
  }

  function Discard(cl: Client, d: Device, client: nat, disk: Disk): (e: Effect)
    ensures e.client.device == cl.device
  {
    var found := Find(cl.editor.queue, client);
    if found == None then Stay(cl, d)
    else Stay(ClearQueue(cl, client), ClearStore(d, found.value, disk))
  }

  function FinishRecovery(cl: Client, d: Device, disk: Disk): (e: Effect)
    requires cl.editor.recovering.Some?
    ensures e.client.device == cl.device
  {
    var found := cl.editor.recovering.value;
    var queue := Merge(found.selected, found.attached, cl.editor.queue);
    Stay(cl.(editor := cl.editor.(queue := queue, recovering := None, ready := true)),
         if disk.remove then d.(store := DropAttached(d.store, found.selected, found.attached)) else d)
  }

  // ---------------------------------------------------------------- sealing

  function DropSlot(d: Device, intent: Intent): Device {
    if d.slot.Some? && d.slot.value.key == intent.key then d.(slot := None) else d
  }

  function SubmitClick(cl: Client, d: Device, key: nat, written: bool, next: nat): (e: Effect)
    requires cl.panel.pair.version.Some?
    ensures e.client.device == cl.device
  {
    if cl.panel.intent.Some? then
      Effect(cl.(panel := cl.panel.(submit := Rechecking(next, cl.panel.intent.value)), submitted := cl.snapshot), d, Some(Read))
    else
      var p := SealStart(cl.panel, key, next);
      Effect(cl.(panel := p, submitted := cl.snapshot), if written then d.(slot := p.intent) else d, Some(SealRequest(p.intent.value)))
  }

  function SealRequest(i: Intent): Request {
    Seal(i.key, i.version, i.revision)
  }

  // ---------------------------------------------------------------- local storage

  /** The intent and the copy a load reads; an unusable one counts as absent. */
  function FoundIntent(d: Device, found: Found): Option<Intent> {
    if found.intent then d.slot else None
  }

  function FoundCopy(d: Device, r: Reading, useServer: bool, found: Found): Option<Envelope> {
    if CanRecover(r) && !useServer && found.copy then d.copy else None
  }

  /** A load deletes what it cannot use, and an intent that it sees sealed. */
  function LoadDevice(d: Device, r: Reading, useServer: bool, found: Found): Device {
    var copy := if CanRecover(r) && !useServer && !found.copy then None else d.copy;
    var intent := FoundIntent(d, found);
    d.(slot := if SealObserved(r, intent) then None else intent, copy := copy)
  }

  /** `loadUnit` from its answer on. */
  function LoadClient(cl: Client, d: Device, r: Reading, useServer: bool, found: Found): Client {
    var copy := FoundCopy(d, r, useServer, found);
    cl.(panel := Load(cl.panel, r, copy, useServer, FoundIntent(d, found)), snapshot := if copy.Some? then copy else cl.snapshot)
  }

  /** Only an unchanged snapshot is deleted; another tab may have stored newer work. */
  function RemoveUnchanged(d: Device, seen: Option<Envelope>): Device {
    if seen.Some? && d.copy == seen then d.(copy := None) else d
  }

  /** The recovery effect: an unsaved draft is stored with its base, the copy of a saved one is deleted. */
  function StoreDraft(cl: Client, d: Device, now: nat): (e: Effect)
    ensures e.client.device == cl.device
  {
    if cl.panel.draft == cl.panel.persisted then Stay(cl, RemoveUnchanged(d, cl.snapshot))
    else
      var copy := Envelope(cl.panel.draft, cl.panel.base, cl.panel.over, now);
      Stay(cl.(snapshot := Some(copy)), d.(copy := Some(copy)))
  }

  /**
   * The panel shows its sign-in notice or its empty state instead of the editor: the queue and the
   * running operation end with the editor, the recovery store stays.
   */
  function Unmount(cl: Client): Client {
    cl.(editor := NEW_EDITOR.(ready := cl.editor.ready))
  }

  /** The age limits of the recovery store, in milliseconds. */
  const MAX_AGE := 7 * 24 * 60 * 60 * 1000
  const CLOCK_SKEW := 60000

  predicate Expired(r: Record, now: nat) {
    now > r.stamp + MAX_AGE
  }

  predicate FromFuture(r: Record, now: nat) {
    r.stamp > now + CLOCK_SKEW
  }

  /** What the recovery read leaves in the store: it deletes every expired record. */
  function DropExpired(store: Store, now: nat): Store {
    map k | k in store && !Expired(store[k], now) :: store[k]
  }

  /** What it returns: neither expired records nor records from the future. */
  function Recoverable(store: Store, now: nat): Store {
    map k | k in store && !Expired(store[k], now) && !FromFuture(store[k], now) :: store[k]
  }

  function BeginRecovery(cl: Client, d: Device, selected: seq<Record>, available: bool, now: nat, disk: Disk): (e: Effect)
    ensures e.client.device == cl.device
  {
    Stay(cl.(editor := cl.editor.(recovering := Some(Recovery(selected, cl.panel.images)))),
         if available && disk.remove then d.(store := DropExpired(d.store, now)) else d)
  }

  function RecheckDone(cl: Client, d: Device, reply: Reply, found: Found, intent: Intent, next: nat): (e: Effect)
    ensures e.client.device == cl.device
  {
    if !reply.Snapshot? then Stay(cl.(panel := cl.panel.(submit := NotSubmitting)), d)
    else
      var r := reply.reading;
      var loaded := LoadClient(cl, d, r, false, found);
      var d1 := LoadDevice(d, r, false, found);
      var c1 := loaded.(panel := Rechecked(loaded.panel, r, intent, next));
      match RecheckOutcome(r, intent)
      case Unreadable => Stay(c1, d1)
      case AlreadySealed => Stay(c1, DropSlot(d1, intent))
      case Moved => Stay(c1, DropSlot(d1, intent))
      case StillOpen => Effect(c1, d1, Some(SealRequest(intent)))
  }

  function SealDone(cl: Client, d: Device, reply: Reply, next: nat): (e: Effect)
    requires cl.panel.submit.Sealing?
    ensures e.client.device == cl.device
  {
    var c1 := cl.(panel := SealReply(cl.panel, reply));
    var d1 := if SealSettles(reply) then DropSlot(d, cl.panel.submit.intent) else d;
    if reply.SealAccepted? then StartLoad(c1, RemoveUnchanged(d1, cl.submitted), next, false) else Stay(c1, d1)
  }

  // ---------------------------------------------------------------- answers

  function SaveDone(cl: Client, d: Device, reply: Reply, next: nat): (e: Effect)
    requires cl.panel.saving.Some?
    ensures e.client.device == cl.device
  {
    var c1 := cl.(panel := SaveReply(cl.panel, reply));
    if !cl.editor.job.SavingFirst? then Stay(c1, d)
    else if reply.Saved? then
      Effect(c1.(editor := c1.editor.(job := Preparing(next, cl.editor.job.purpose))), d, Some(Read))
    else Stay(FailImage(c1, PurposeId(cl.editor.job.purpose), ImageQueue.Failed), d)
  }

  function ImageDone(cl: Client, d: Device, reply: Reply, disk: Disk, now: nat, next: nat): (e: Effect)
    ensures e.client.device == cl.device
  {
    match cl.editor.job
    case Preparing(_, purpose) =>
      if reply.Snapshot? && reply.reading.closed then
        Stay(FailImage(cl.(panel := cl.panel.(readOnly := true)), PurposeId(purpose), ImageQueue.Failed), d)
      else if reply.Snapshot? then Prepared(cl, d, reply.reading, purpose, disk, now, next)
      else Stay(FailImage(cl, PurposeId(purpose), ImageQueue.Failed), d)
    case Checking(_, purpose) =>
      if !reply.Snapshot? then Stay(FailImage(cl, PurposeId(purpose), ImageQueue.Failed), d)
      else if reply.reading.closed then
        Stay(FailImage(cl.(panel := cl.panel.(readOnly := true)), PurposeId(purpose), ImageQueue.Failed), d)
      else if purpose.Removal? then CheckedRemoval(cl, d, reply.reading, purpose.image, purpose.seen, next)
      else CheckedAgain(cl, d, reply.reading, purpose.record, disk, now, next)
    case Posting(_, rec, current) => Posted(cl, d, reply, rec, current, disk, now)
    case Deleting(_, target, current) => Deleted(cl, d, reply, target, current, disk, now)
    case _ => Stay(cl, d)
  }

  function JobCall(job: Job): Option<nat> {
    match job
    case Preparing(k, _) => Some(k)
    case Checking(k, _) => Some(k)
    case Posting(k, _, _) => Some(k)
    case Deleting(k, _, _) => Some(k)
    case _ => None
  }

  /** The answer to call `k` arrives; `Refused` also stands for a response that never comes. */
  function Arrive(cl: Client, d: Device, k: nat, reply: Reply, found: Found, disk: Disk, now: nat, next: nat): (e: Effect)
    ensures e.client.device == cl.device
  {
    if cl.panel.saving.Some? && cl.panel.saving.value.call == k then SaveDone(cl, d, reply, next)
    else if cl.panel.submit.Rechecking? && cl.panel.submit.call == k then
      RecheckDone(cl, d, reply, found, cl.panel.submit.intent, next)
    else if cl.panel.submit.Sealing? && cl.panel.submit.call == k then SealDone(cl, d, reply, next)
    else if k in cl.loads then LoadDone(cl, d, k, reply, found)
    else if JobCall(cl.editor.job) == Some(k) then ImageDone(cl, d, reply, disk, now, next)
    else Stay(cl, d)
  }

  function LoadDone(cl: Client, d: Device, k: nat, reply: Reply, found: Found): (e: Effect)
    requires k in cl.loads
    ensures e.client.device == cl.device
  {
    var c1 := cl.(loads := cl.loads - {k});
    if !reply.Snapshot? then Stay(c1, d)
    else Stay(LoadClient(c1, d, reply.reading, cl.loads[k], found), LoadDevice(d, reply.reading, cl.loads[k], found))
  }
}

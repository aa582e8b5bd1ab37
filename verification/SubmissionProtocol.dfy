/**
 * Any number of pages on any number of devices, one server, and a network that loses, delays,
 * repeats and reorders requests. Every request ever sent can be served at any time, any number of
 * times; an answer can arrive at any later time while the page still waits for it, or never.
 */
module SubmissionProtocol {
  import opened Prelude
  import opened SubmissionServer
  import opened SubmissionHistory
  import opened PracticePanel
  import opened ImageQueue
  import opened PracticeClient

  /** A request sent, with the sender's persisted text and the server state of that moment. */
  datatype Call = Call(client: nat, request: Request, held: string, floor: Server)

  /** The request of `call` was served in state `at`. */
  datatype Answer = Answer(call: nat, at: Server)

  datatype System = System(
    server: Server,
    clients: map<nat, Client>,
    devices: map<nat, Device>,
    calls: seq<Call>,
    answers: seq<Answer>,
    nextImage: nat,
    nextKey: nat)

  datatype Event =
    | ServeCall(call: nat)
    | TeacherDecides(accept: bool)
    | RecordsClose
    | Open(page: nat, device: nat)
    | StartLoadUnit(page: nat)
    | Typing(page: nat, text: string)
    | AutosaveTimer(page: nat)
    | RetrySaveClick(page: nat)
    | ResolveClick(page: nat, merge: bool)
    | Submit(page: nat, written: bool)
    | ChooseFiles(page: nat, digests: seq<nat>, failed: set<nat>, now: nat)
    | Proceed(page: nat)
    | RetryImage(page: nat, image: nat)
    | RemoveAttached(page: nat, target: Image)
    | DiscardPending(page: nat, image: nat, disk: Disk)
    | StartRecovery(page: nat, selected: seq<Record>, available: bool, now: nat, disk: Disk)
    | EndRecovery(page: nat, disk: Disk)
    | StoreCopy(page: nat, now: nat)
    | FindsLegacyCopy(page: nat, text: string, now: nat)
    | Deliver(answer: nat, found: Found, disk: Disk, now: nat)
    | Lose(call: nat, now: nat)
    | Unmounts(call: nat, now: nat)

  ghost function Init(replays: bool): System {
    System(Empty(replays), map[], map[], [], [], 0, 0)
  }

  function ReplyTo(s: System, a: Answer): Reply
    requires a.call < |s.calls|
  {
    Serve(a.at, s.calls[a.call].request).1
  }

  predicate Live(s: System, page: nat) {
    page in s.clients && s.clients[page].device in s.devices
  }

  function SentCalls(s: System, page: nat, e: Effect): seq<Call> {
    if e.send == None then s.calls
    else s.calls + [Call(page, e.send.value, e.client.panel.persisted, s.server)]
  }

  function Apply(s: System, page: nat, e: Effect): System {
    s.(clients := s.clients[page := e.client], devices := s.devices[e.client.device := e.device],
       calls := SentCalls(s, page, e))
  }

  function EventPage(s: System, e: Event): Option<nat> {
    match e
    case ServeCall(_) => None
    case TeacherDecides(_) => None
    case RecordsClose => None
    case Open(p, _) => Some(p)
    case StartLoadUnit(p) => Some(p)
    case Typing(p, _) => Some(p)
    case AutosaveTimer(p) => Some(p)
    case RetrySaveClick(p) => Some(p)
    case ResolveClick(p, _) => Some(p)
    case Submit(p, _) => Some(p)
    case ChooseFiles(p, _, _, _) => Some(p)
    case Proceed(p) => Some(p)
    case RetryImage(p, _) => Some(p)
    case RemoveAttached(p, _) => Some(p)
    case DiscardPending(p, _, _) => Some(p)
    case StartRecovery(p, _, _, _, _) => Some(p)
    case EndRecovery(p, _) => Some(p)
    case StoreCopy(p, _) => Some(p)
    case FindsLegacyCopy(p, _, _) => Some(p)
    case Deliver(a, _, _, _) =>
      if a < |s.answers| && s.answers[a].call < |s.calls| then Some(s.calls[s.answers[a].call].client) else None
    case Lose(k, _) => if k < |s.calls| then Some(s.calls[k].client) else None
    case Unmounts(k, _) => if k < |s.calls| then Some(s.calls[k].client) else None
  }

  /** What the page's own code checks before it acts. */
  ghost predicate Allowed(cl: Client, d: Device, e: Event) {
    match e
    case Typing(_, _) =>
      Editable(cl.panel) && cl.panel.submit == NotSubmitting && !ImageBusy(cl) && cl.panel.intent == None
    case AutosaveTimer(_) => CanAutosave(cl.panel, ImageBusy(cl))
    case RetrySaveClick(_) => CanRetrySave(cl.panel, ImageBusy(cl))
    case ResolveClick(_, _) => cl.panel.conflict.Some?
    case Submit(_, _) => CanSubmit(cl.panel, cl.editor.ready, ImageBusy(cl), |cl.editor.queue|)
    case ChooseFiles(_, digests, _, _) => CanChoose(cl, digests)
    case Proceed(_) => cl.editor.job.Starting?
    case RetryImage(_, x) => CanRetry(cl, x)
    case RemoveAttached(_, _) => ImagesEnabled(cl)
    case DiscardPending(_, _, _) => !ImageBusy(cl)
    case StartRecovery(_, selected, available, now, _) =>
      cl.editor.recovering == None && if available then IsSelection(Recoverable(d.store, now), selected) else selected == []
    case StoreCopy(_, _) => cl.panel.loaded && (cl.panel.stage == Draft || cl.panel.stage == RevisionRequested)
    case EndRecovery(_, _) => cl.editor.recovering.Some?
    case _ => true
  }

  /** The awaited call `k` fails. */
  function Failure(cl: Client, d: Device, k: nat, now: nat, next: nat): (e: Effect)
    ensures e.client.device == cl.device
  {
    Arrive(cl, d, k, Refused, Found(true, true), Disk(true, true, true), now, next)
  }

  /**
   * What the page then does. `Unmounts` is an answer that signs the page out or finds no activity;
   * `FindsLegacyCopy` a copy of the draft that an earlier release left in the browser.
   */
  ghost function Act(s: System, cl: Client, d: Device, e: Event): (eff: Effect)
    requires Allowed(cl, d, e)
    ensures eff.client.device == cl.device
  {
    var next := |s.calls|;
    match e
    case StartLoadUnit(_) => StartLoad(cl, d, next, false)
    case Typing(_, text) => Stay(cl.(panel := Type(cl.panel, text)), d)
    case AutosaveTimer(_) => StartSave(cl, d, next)
    case RetrySaveClick(_) => StartSave(cl, d, next)
    case ResolveClick(_, merge) =>
      if cl.panel.conflict.value.versionChanged then StartLoad(cl, d, next, true)
      else Stay(cl.(panel := Resolve(cl.panel, merge)), d)
    case Submit(_, written) => SubmitClick(cl, d, s.nextKey, written, next)
    case ChooseFiles(_, digests, failed, now) => Choose(cl, d, digests, s.nextImage, failed, now)
    case Proceed(_) => StartPrepare(cl, d, cl.editor.job.purpose, next)
    case RetryImage(_, x) => Retry(cl, d, x, next)
    case RemoveAttached(_, target) => RemoveClick(cl, d, target, next)
    case DiscardPending(_, x, disk) => Discard(cl, d, x, disk)
    case StartRecovery(_, selected, available, now, disk) => BeginRecovery(cl, d, selected, available, now, disk)
    case EndRecovery(_, disk) => FinishRecovery(cl, d, disk)
    case StoreCopy(_, now) => StoreDraft(cl, d, now)
    case FindsLegacyCopy(_, text, now) => Stay(cl, d.(copy := Some(Envelope(text, None, "", now))))
    case Deliver(a, found, disk, now) =>
      if a < |s.answers| && s.answers[a].call < |s.calls| then
        Arrive(cl, d, s.answers[a].call, ReplyTo(s, s.answers[a]), found, disk, now, next)
      else Stay(cl, d)
    case Lose(k, now) => Failure(cl, d, k, now, next)
    case Unmounts(k, now) =>
      var lost := Failure(cl, d, k, now, next);
      lost.(client := Unmount(lost.client))
    case _ => Stay(cl, d)
  }

  ghost function PageStep(s: System, page: nat, e: Event): System {
    if !Live(s, page) then s
    else
      var cl := s.clients[page];
      var d := s.devices[cl.device];
      if !Allowed(cl, d, e) then s
      else
        Apply(s, page, Act(s, cl, d, e))
          .(nextImage := s.nextImage + (if e.ChooseFiles? then |e.digests| else 0),
            nextKey := s.nextKey + (if e.Submit? then 1 else 0))
  }

  /** One step of the whole system; an event that is not possible changes nothing. */
  ghost function Next(s: System, e: Event): System {
    match e
    case ServeCall(k) =>
      if k >= |s.calls| then s
      else s.(server := Serve(s.server, s.calls[k].request).0, answers := s.answers + [Answer(k, s.server)])
    case TeacherDecides(accept) => s.(server := Decide(s.server, accept))
    case RecordsClose => s.(server := CloseRecords(s.server))
    case Open(page, device) =>
      var known := page in s.clients;
      var dev := if known then s.clients[page].device else device;
      s.(clients := s.clients[page := Page(dev)],
         devices := if dev in s.devices then s.devices else s.devices[dev := NEW_DEVICE])
    case _ =>
      var page := EventPage(s, e);
      if page == None then s else PageStep(s, page.value, e)
  }

  ghost function Exec(s: System, events: seq<Event>): System {
    if events == [] then s else Next(Exec(s, events[..|events| - 1]), events[|events| - 1])
  }

  /** Every page is opened on a device of its own, so no two tabs share a recovery store. */
  ghost predicate OwnDevices(events: seq<Event>) {
    forall i :: 0 <= i < |events| && events[i].Open? ==> events[i].device == events[i].page
  }

  // ---------------------------------------------------------------- structure

  /** The reading is what the server held at some moment. */
  ghost predicate ReadingTrue(s: Server, r: Reading) {
    && (r.stage == RevisionRequested ==> r.isSealed)
    && match r.version
       case None => r.revision == 0 && r.text == "" && r.images == [] && !r.isSealed
       case Some(v) =>
         && v < |s.versions| && 1 <= r.revision <= |s.versions[v].snaps|
         && s.versions[v].snaps[r.revision - 1] == Snap(r.text, r.images)
         && (r.isSealed ==> s.versions[v].isSealed && r.revision == |s.versions[v].snaps|)
         && (forall i :: 0 <= i < |r.images| ==> r.images[i].version == v)
  }

  lemma ReadCurrentTrue(s: Server)
    requires ServerOk(s)
    ensures ReadingTrue(s, ReadCurrent(s))
  {
    if s.versions != [] {
      assert VersionOk(s, |s.versions| - 1);
      var n := |s.versions[|s.versions| - 1].snaps|;
      assert SnapOk(s.versions[|s.versions| - 1].snaps[n - 1], |s.versions| - 1, s.nextImage);
    }
  }

  lemma ReadingTrueStable(s: Server, t: Server, r: Reading)
    requires Extends(s, t) && ReadingTrue(s, r)
    ensures ReadingTrue(t, r)
  {
    if r.version.Some? {
      assert VersionGrows(s.versions[r.version.value], t.versions[r.version.value]);
    }
  }

  /** Every listed attachment is or was attached on the server. */
  ghost predicate ImagesTrue(s: Server, images: seq<Image>) {
    forall i :: 0 <= i < |images| ==> EverAttached(s, images[i].client)
  }

  ghost predicate Asks(calls: seq<Call>, k: nat, q: Request) {
    k < |calls| && calls[k].request == q
  }

  ghost predicate JobShape(s: Server, calls: seq<Call>, job: Job) {
    match job
    case Preparing(k, _) => Asks(calls, k, Read)
    case Checking(k, _) => Asks(calls, k, Read)
    case Posting(k, r, current) =>
      && ReadingTrue(s, current) && current.version.Some?
      && Asks(calls, k, Upload(current.version.value, current.revision, r.client, r.digest))
    case Deleting(k, target, current) =>
      && ReadingTrue(s, current) && current.version == Some(target.version)
      && Asks(calls, k, Remove(target.version, current.revision, target.id))
    case _ => true
  }

  ghost predicate PanelShape(s: Server, calls: seq<Call>, p: Panel) {
    && (p.saving.Some? ==> Asks(calls, p.saving.value.call, Save(p.saving.value.text, p.saving.value.base)))
    && (p.submit.Rechecking? ==> Asks(calls, p.submit.call, Read))
    && (p.submit.Sealing? ==> Asks(calls, p.submit.call, SealRequest(p.submit.intent)))
    && ImagesTrue(s, p.images)
  }

  ghost predicate ClientShape(s: Server, calls: seq<Call>, cl: Client) {
    && PanelShape(s, calls, cl.panel)
    && (forall k :: k in cl.loads ==> Asks(calls, k, Read))
    && JobShape(s, calls, cl.editor.job)
    && (cl.editor.recovering.Some? ==> ImagesTrue(s, cl.editor.recovering.value.attached))
  }

  /** An image write names a revision that existed when it was sent. */
  ghost predicate CallShape(s: Server, c: Call) {
    && ServerOk(c.floor) && Extends(c.floor, s)
    && match c.request
       case Upload(v, r, _, _) => v < |c.floor.versions| && 1 <= r <= |c.floor.versions[v].snaps|
       case Remove(v, r, _) => v < |c.floor.versions| && 1 <= r <= |c.floor.versions[v].snaps|
       case _ => true
  }

  ghost predicate AnswerShape(s: System, a: Answer) {
    && a.call < |s.calls| && ServerOk(a.at)
    && Extends(s.calls[a.call].floor, a.at)
    && Extends(Serve(a.at, s.calls[a.call].request).0, s.server)
  }

  ghost predicate SystemOk(s: System) {
    && ServerOk(s.server)
    && (forall k :: 0 <= k < |s.calls| ==> CallShape(s.server, s.calls[k]))
    && (forall i :: 0 <= i < |s.answers| ==> AnswerShape(s, s.answers[i]))
    && (forall c :: c in s.clients ==> Live(s, c) && ClientShape(s.server, s.calls, s.clients[c]))
    && (forall d :: d in s.devices ==> StoreOk(s.devices[d].store))
  }

  lemma ImagesTrueStable(s: Server, t: Server, images: seq<Image>)
    requires Extends(s, t) && ImagesTrue(s, images)
    ensures ImagesTrue(t, images)
  {
    forall i | 0 <= i < |images| ensures EverAttached(t, images[i].client) {
      EverAttachedStable(s, t, images[i].client);
    }
  }

  lemma ClientShapeStable(s: Server, t: Server, calls: seq<Call>, more: seq<Call>, cl: Client)
    requires Extends(s, t) && calls <= more && ClientShape(s, calls, cl)
    ensures ClientShape(t, more, cl)
  {
    ImagesTrueStable(s, t, cl.panel.images);
    if cl.editor.recovering.Some? {
      ImagesTrueStable(s, t, cl.editor.recovering.value.attached);
    }
    match cl.editor.job
    case Posting(_, _, current) => ReadingTrueStable(s, t, current);
    case Deleting(_, _, current) => ReadingTrueStable(s, t, current);
    case _ =>
  }

  /** A step of one page respects the structure, given the server and the calls sent so far. */
  ghost predicate EffectShape(s: System, page: nat, e: Effect) {
    && ClientShape(s.server, SentCalls(s, page, e), e.client)
    && StoreOk(e.device.store)
    && (e.send.Some? ==> CallShape(s.server, Call(page, e.send.value, e.client.panel.persisted, s.server)))
  }
}

/**
 * Which clicks are safe in a shared browser, exactly. The page sees the slot and the pair on its
 * screen; from these alone it can tell whether a new intent may be written, for all histories in
 * which it can find itself in this position.
 */
module SubmissionClicks {
  import opened Prelude
  import opened SubmissionServer
  import opened SubmissionHistory
  import opened PracticePanel
  import opened PracticeClient
  import opened SubmissionProtocol
  import opened SubmissionStructure
  import opened SubmissionTexts
  import opened SubmissionSeals
  import opened SubmissionKeys
  import opened SubmissionRecovery
  import opened SubmissionSlots

  // ---------------------------------------------------------------- one click

  /** A history in which this page, as it is, has this slot beside it. */
  ghost predicate Possible(s: System, page: nat, cl: Client, slot: Option<Intent>) {
    && SystemOk(s) && TextsTrue(s) && SlotsInv(s) && AllBased(s)
    && page in s.clients && s.clients[page] == cl && cl.device in s.devices && s.devices[cl.device].slot == slot
  }

  /** The page's own code lets the click through, and the page holds no intent. */
  ghost predicate NewClickAllowed(cl: Client) {
    cl.panel.intent == None && CanSubmit(cl.panel, cl.editor.ready, ImageBusy(cl), |cl.editor.queue|)
  }

  /** Whatever happened before, after the click every open seal of the browser is in its slot. */
  ghost predicate ClickKeepsSlot(page: nat, cl: Client, slot: Option<Intent>) {
    forall s :: Possible(s, page, cl, slot) ==> SlotHoldsOpen(Next(s, Submit(page, true)), cl.device)
  }

  /** Whatever happened before, right after the click the browser has no two open keys. */
  ghost predicate ClickKeepsSingle(page: nat, cl: Client, slot: Option<Intent>) {
    forall s :: Possible(s, page, cl, slot) ==> !TwoOpen(Next(s, Submit(page, true)), cl.device)
  }

  /** The intent is for the very pair on screen. */
  predicate SamePair(slot: Option<Intent>, pair: Pair) {
    slot.Some? && pair == Pair(Some(slot.value.version), slot.value.revision)
  }

  /** Two existing revisions that can both still be sealed are one. */
  lemma OpenIsOne(s: Server, v: nat, r: nat, w: nat, q: nat)
    requires ServerOk(s) && Existed(s, v, r) && Existed(s, w, q) && !SealDead(s, v, r) && !SealDead(s, w, q)
    ensures v == w && r == q
  {
    assert VersionOk(s, v) && VersionOk(s, w);
  }

  lemma SafeClick(s: System, page: nat, cl: Client, slot: Option<Intent>)
    requires Possible(s, page, cl, slot) && Replaceable(slot, cl.panel.pair)
    ensures SlotHoldsOpen(Next(s, Submit(page, true)), cl.device)
  {
    NextSlotsInv(s, Submit(page, true));
    InvHoldsOpen(Next(s, Submit(page, true)), cl.device);
  }

  lemma SingleClick(s: System, page: nat, cl: Client, slot: Option<Intent>)
    requires Possible(s, page, cl, slot) && NewClickAllowed(cl) && !SamePair(slot, cl.panel.pair)
    ensures !TwoOpen(Next(s, Submit(page, true)), cl.device)
  {
    var e := Submit(page, true);
    var pair := cl.panel.pair;
    InvHoldsOpen(s, cl.device);
    NextTwoOpenIff(s, e, cl.device);
    if OpensSecondKey(s, e, cl.device) {
      var k: nat :| OpenOn(s, cl.device, k);
      assert IntentTrue(s.server, slot.value) && Names(s.server, pair, cl.panel.persisted);
      NamedExists(s.server, slot.value.version, slot.value.revision, slot.value.text);
      NamedExists(s.server, pair.version.value, pair.revision, cl.panel.persisted);
      OpenIsOne(s.server, slot.value.version, slot.value.revision, pair.version.value, pair.revision);
    }
  }

  // ---------------------------------------------------------------- a history that ends at an intent

  function Stamped(images: seq<Image>, v: nat): seq<Image> {
    seq(|images|, i requires 0 <= i < |images| => images[i].(id := 0, version := v))
  }

  function Filled(snaps: seq<Snap>, images: seq<Image>): seq<Snap> {
    seq(|snaps|, i requires 0 <= i < |snaps| => Snap(snaps[i].text, images))
  }

  /** The texts up to revision `r` of version `v`, which is unsealed; its snapshots attach the given images. */
  function EndsAt(s: Server, v: nat, r: nat, images: seq<Image>): Server
    requires v < |s.versions| && r <= |s.versions[v].snaps|
  {
    Server(s.versions[..v] + [Version(Filled(s.versions[v].snaps[..r], Stamped(images, v)), false)],
           Draft, map[], s.nextImage + 1, false, s.replaysUploads)
  }

  lemma EndsAtOk(s: Server, v: nat, r: nat, images: seq<Image>)
    requires ServerOk(s) && Existed(s, v, r)
    ensures ServerOk(EndsAt(s, v, r, images))
  {
    var t := EndsAt(s, v, r, images);
    forall w | 0 <= w < |t.versions| ensures VersionOk(t, w) {
      assert VersionOk(s, w);
      if w == v {
        forall k | 0 <= k < r ensures SnapOk(t.versions[v].snaps[k], v, t.nextImage) {
          assert SnapOk(s.versions[v].snaps[k], v, s.nextImage);
        }
      }
    }
  }

  lemma EndsAtNames(s: Server, v: nat, r: nat, images: seq<Image>, w: nat, q: nat, text: string)
    requires Existed(s, v, r) && Names(s, Pair(Some(w), q), text) && q >= 1 && (w < v || (w == v && q <= r))
    ensures Names(EndsAt(s, v, r, images), Pair(Some(w), q), text)
  {
  }

  lemma EndsAtAttaches(s: Server, v: nat, r: nat, images: seq<Image>, some: seq<Image>)
    requires Existed(s, v, r) && forall i :: 0 <= i < |some| ==> HasClient(images, some[i].client)
    ensures ImagesTrue(EndsAt(s, v, r, images), some)
  {
    var t := EndsAt(s, v, r, images);
    forall i | 0 <= i < |some| ensures EverAttached(t, some[i].client) {
      var j :| 0 <= j < |images| && images[j].client == some[i].client;
      assert t.versions[v].snaps[r - 1].images[j].client == some[i].client;
      assert HasClient(t.versions[v].snaps[r - 1].images, some[i].client);
    }
  }

  /** What the page lists, now and when its recovery read began. */
  function KnownImages(cl: Client): seq<Image> {
    cl.panel.images + (if cl.editor.recovering.Some? then cl.editor.recovering.value.attached else [])
  }

  function OnlyServer(s: Server, cl: Client, i: Intent): Server
    requires i.version < |s.versions| && i.revision <= |s.versions[i.version].snaps|
  {
    EndsAt(s, i.version, i.revision, KnownImages(cl))
  }

  /** The page's reads stay reads; every other request of the history becomes the intent's seal. */
  function OnlyCalls(calls: seq<Call>, page: nat, i: Intent, server: Server): seq<Call> {
    seq(|calls|, k requires 0 <= k < |calls| =>
      if calls[k].request.Read? then Call(page, Read, "", server) else Call(page, SealRequest(i), i.text, server))
  }

  /** The history of this page alone, which ends at the intent of its slot. */
  ghost function Alone(s: System, page: nat, cl: Client, i: Intent): System
    requires i.version < |s.server.versions| && i.revision <= |s.server.versions[i.version].snaps|
  {
    var server := OnlyServer(s.server, cl, i);
    System(server, map[page := cl], map[cl.device := Device(Some(i), map[], None)],
           OnlyCalls(s.calls, page, i, server), [], s.nextImage, s.nextKey)
  }

  ghost predicate Ahead(s: System, page: nat, cl: Client, i: Intent) {
    && Possible(s, page, cl, Some(i)) && NewClickAllowed(cl) && !Behind(i, cl.panel.pair)
    && Existed(s.server, i.version, i.revision)
  }

  lemma AloneServer(s: System, page: nat, cl: Client, i: Intent)
    requires Ahead(s, page, cl, i)
    ensures var t := OnlyServer(s.server, cl, i);
      && ServerOk(t) && !SealDead(t, i.version, i.revision)
      && ImagesTrue(t, cl.panel.images)
      && (cl.editor.recovering.Some? ==> ImagesTrue(t, cl.editor.recovering.value.attached))
  {
    EndsAtOk(s.server, i.version, i.revision, KnownImages(cl));
    AloneAttaches(s, cl, i);
  }

  lemma AloneAttaches(s: System, cl: Client, i: Intent)
    requires Existed(s.server, i.version, i.revision)
    ensures var t := OnlyServer(s.server, cl, i);
      && ImagesTrue(t, cl.panel.images)
      && (cl.editor.recovering.Some? ==> ImagesTrue(t, cl.editor.recovering.value.attached))
  {
    var known := KnownImages(cl);
    forall k | 0 <= k < |cl.panel.images| ensures HasClient(known, cl.panel.images[k].client) {
      assert known[k] == cl.panel.images[k];
    }
    EndsAtAttaches(s.server, i.version, i.revision, known, cl.panel.images);
    if cl.editor.recovering.Some? {
      var attached := cl.editor.recovering.value.attached;
      forall k | 0 <= k < |attached| ensures HasClient(known, attached[k].client) {
        assert known[|cl.panel.images| + k] == attached[k];
      }
      EndsAtAttaches(s.server, i.version, i.revision, known, attached);
    }
  }

  lemma AloneNames(s: System, page: nat, cl: Client, i: Intent)
    requires Ahead(s, page, cl, i)
    ensures var t := OnlyServer(s.server, cl, i);
      && Names(t, cl.panel.pair, cl.panel.persisted) && (cl.panel.base.Some? ==> Names(t, cl.panel.base.value, cl.panel.over))
      && IntentTrue(t, i)
  {
    var pair := cl.panel.pair;
    var known := KnownImages(cl);
    assert PanelTrue(s.server, cl.panel) && BaseIsPair(cl.panel) && IntentTrue(s.server, i);
    EndsAtNames(s.server, i.version, i.revision, known, pair.version.value, pair.revision, cl.panel.persisted);
    EndsAtNames(s.server, i.version, i.revision, known, pair.version.value, pair.revision, cl.panel.over);
    EndsAtNames(s.server, i.version, i.revision, known, i.version, i.revision, i.text);
  }

  lemma AloneTexts(s: System, page: nat, cl: Client, i: Intent)
    requires Ahead(s, page, cl, i)
    ensures TextsTrue(Alone(s, page, cl, i))
  {
    AloneNames(s, page, cl, i);
    OnlyCallsTexts(s.calls, page, i, OnlyServer(s.server, cl, i));
    AloneDevice(OnlyServer(s.server, cl, i), i);
    AlonePanel(s, page, cl, i);
  }

  lemma OnlyCallsTexts(calls: seq<Call>, page: nat, i: Intent, server: Server)
    requires IntentTrue(server, i)
    ensures var only := OnlyCalls(calls, page, i, server); forall k :: 0 <= k < |only| ==> CallTrue(server, only[k])
  {
  }

  lemma AloneDevice(server: Server, i: Intent)
    requires IntentTrue(server, i)
    ensures DeviceTrue(server, Device(Some(i), map[], None))
  {
  }

  lemma AlonePanel(s: System, page: nat, cl: Client, i: Intent)
    requires Ahead(s, page, cl, i)
    ensures PanelTrue(OnlyServer(s.server, cl, i), cl.panel)
  {
    AloneNames(s, page, cl, i);
  }

  lemma AloneClient(s: System, page: nat, cl: Client, i: Intent)
    requires Ahead(s, page, cl, i)
    ensures var t := Alone(s, page, cl, i); ClientShape(t.server, t.calls, cl)
  {
    AloneServer(s, page, cl, i);
    assert ClientShape(s.server, s.calls, cl);
    var t := Alone(s, page, cl, i);
    forall k | k in cl.loads ensures Asks(t.calls, k, Read) {
      assert Asks(s.calls, k, Read);
    }
  }

  lemma OnlyCallsShape(calls: seq<Call>, page: nat, i: Intent, server: Server, k: nat)
    requires ServerOk(server) && k < |calls|
    ensures CallShape(server, OnlyCalls(calls, page, i, server)[k])
  {
    ExtendsReflexive(server);
  }

  /** A page by itself, with nothing answered and nothing stored but its slot. */
  lemma OnePageOk(t: System, page: nat, cl: Client, d: Device)
    requires t.clients == map[page := cl] && t.devices == map[cl.device := d] && d.store == map[] && t.answers == []
    requires ServerOk(t.server) && ClientShape(t.server, t.calls, cl)
    requires forall k :: 0 <= k < |t.calls| ==> CallShape(t.server, t.calls[k])
    ensures SystemOk(t)
  {
  }

  lemma AloneSystem(s: System, page: nat, cl: Client, i: Intent)
    requires Ahead(s, page, cl, i)
    ensures SystemOk(Alone(s, page, cl, i))
  {
    AloneServer(s, page, cl, i);
    AloneClient(s, page, cl, i);
    var server := OnlyServer(s.server, cl, i);
    var calls := OnlyCalls(s.calls, page, i, server);
    forall k | 0 <= k < |calls| ensures CallShape(server, calls[k]) {
      OnlyCallsShape(s.calls, page, i, server, k);
    }
    OnePageOk(Alone(s, page, cl, i), page, cl, Device(Some(i), map[], None));
  }

  lemma AloneCall(s: System, page: nat, cl: Client, i: Intent, k: nat)
    requires i.version < |s.server.versions| && i.revision <= |s.server.versions[i.version].snaps|
    requires k < |s.calls| && s.calls[k].request == SealRequest(i)
    ensures var t := Alone(s, page, cl, i); SentFrom(t, cl.device, k) && t.calls[k].request == SealRequest(i) && WasSent(t, cl.device, i)
  {
    var t := Alone(s, page, cl, i);
    assert t.calls[k] == Call(page, SealRequest(i), i.text, t.server);
    assert SentFrom(t, cl.device, k);
  }

  lemma AloneSent(s: System, page: nat, cl: Client, i: Intent) returns (k: nat)
    requires Ahead(s, page, cl, i)
    ensures var t := Alone(s, page, cl, i);
      SentFrom(t, cl.device, k) && t.calls[k].request == SealRequest(i) && WasSent(t, cl.device, i) && i.key < s.nextKey
  {
    assert SlotOf(s, cl.device);
    k :| SentFrom(s, cl.device, k) && s.calls[k].request == SealRequest(i);
    AloneCall(s, page, cl, i, k);
  }

  /** One page without an intent, one slot, and no seal but the slot's. */
  lemma OneSealInv(t: System, page: nat, cl: Client, i: Intent)
    requires t.clients == map[page := cl] && t.devices == map[cl.device := Device(Some(i), map[], None)]
    requires cl.panel.intent == None && cl.panel.submit.NotSubmitting? && WasSent(t, cl.device, i) && i.key < t.nextKey
    requires forall k :: 0 <= k < |t.calls| ==> t.calls[k].client == page && (t.calls[k].request.Seal? ==> t.calls[k].request == SealRequest(i))
    ensures SlotsInv(t)
  {
    assert IntentsOf(t, page) && SlotOf(t, cl.device);
    assert ClientAccounted(t, page);
    forall k | 0 <= k < |t.calls| ensures CallAccounted(t, k) {
    }
  }

  lemma OnlyCallsSeals(calls: seq<Call>, page: nat, i: Intent, server: Server)
    ensures var only := OnlyCalls(calls, page, i, server);
      forall k :: 0 <= k < |only| ==> only[k].client == page && (only[k].request.Seal? ==> only[k].request == SealRequest(i))
  {
  }

  lemma AloneInv(s: System, page: nat, cl: Client, i: Intent)
    requires Ahead(s, page, cl, i)
    ensures SlotsInv(Alone(s, page, cl, i))
  {
    var k := AloneSent(s, page, cl, i);
    OnlyCallsSeals(s.calls, page, i, OnlyServer(s.server, cl, i));
    OneSealInv(Alone(s, page, cl, i), page, cl, i);
  }

  lemma AloneOpen(s: System, page: nat, cl: Client, i: Intent) returns (k: nat)
    requires Ahead(s, page, cl, i)
    ensures var t := Alone(s, page, cl, i);
      OpenOn(t, cl.device, k) && t.calls[k].request == SealRequest(i) && i.key < t.nextKey
  {
    AloneServer(s, page, cl, i);
    k := AloneSent(s, page, cl, i);
  }

  lemma AlonePossible(s: System, page: nat, cl: Client, i: Intent)
    requires Ahead(s, page, cl, i)
    ensures Possible(Alone(s, page, cl, i), page, cl, Some(i))
  {
    AloneTexts(s, page, cl, i);
    AloneSystem(s, page, cl, i);
    AloneInv(s, page, cl, i);
    assert BaseIsPair(cl.panel);
  }

  /** In that history the click takes an open seal out of the slot, and with the same pair it opens a second key. */
  lemma UnsafeClick(s: System, page: nat, cl: Client, i: Intent) returns (t: System)
    requires Ahead(s, page, cl, i)
    ensures Possible(t, page, cl, Some(i)) && !SlotHoldsOpen(Next(t, Submit(page, true)), cl.device)
    ensures SamePair(Some(i), cl.panel.pair) ==> TwoOpen(Next(t, Submit(page, true)), cl.device)
  {
    t := Alone(s, page, cl, i);
    AlonePossible(s, page, cl, i);
    var k := AloneOpen(s, page, cl, i);
    ClickReplaces(t, page, cl, i, k);
    if SamePair(Some(i), cl.panel.pair) {
      ClickOpensSecond(t, page, cl, i, k);
    }
  }

  /** The state after a click without an intent. */
  lemma ClickNext(t: System, page: nat, cl: Client)
    requires SystemOk(t) && page in t.clients && t.clients[page] == cl && NewClickAllowed(cl)
    ensures var u := Next(t, Submit(page, true));
      && u.server == t.server && t.calls <= u.calls && cl.device in u.devices
      && u.devices[cl.device].slot.Some? && u.devices[cl.device].slot.value.key == t.nextKey
      && (forall c :: c in t.clients ==> c in u.clients && u.clients[c].device == t.clients[c].device)
  {
    PageNext(t, Submit(page, true), page);
    NewIntent(cl, t.devices[cl.device], t.nextKey, |t.calls|);
  }

  lemma StaysOpen(t: System, u: System, device: nat, k: nat)
    requires OpenOn(t, device, k) && u.server == t.server && t.calls <= u.calls
    requires forall c :: c in t.clients ==> c in u.clients && u.clients[c].device == t.clients[c].device
    ensures OpenOn(u, device, k)
  {
  }

  lemma ClickReplaces(t: System, page: nat, cl: Client, i: Intent, k: nat)
    requires SystemOk(t) && page in t.clients && t.clients[page] == cl && NewClickAllowed(cl) && i.key < t.nextKey
    requires OpenOn(t, cl.device, k) && t.calls[k].request == SealRequest(i)
    ensures !SlotHoldsOpen(Next(t, Submit(page, true)), cl.device)
  {
    ClickNext(t, page, cl);
    StaysOpen(t, Next(t, Submit(page, true)), cl.device, k);
  }

  lemma ClickOpensSecond(t: System, page: nat, cl: Client, i: Intent, k: nat)
    requires SystemOk(t) && KeysKnown(t) && page in t.clients && t.clients[page] == cl && NewClickAllowed(cl)
    requires OpenOn(t, cl.device, k) && t.calls[k].request == SealRequest(i) && SamePair(Some(i), cl.panel.pair)
    ensures TwoOpen(Next(t, Submit(page, true)), cl.device)
  {
    assert Live(t, page);
    assert OpensSecondKey(t, Submit(page, true), cl.device);
    NextTwoOpenIff(t, Submit(page, true), cl.device);
  }

  /**
   * What the page can test before a click, exactly. Writing a new intent keeps every open seal in
   * its slot, whatever happened before, if and only if the slot is empty or its intent is behind the
   * pair on screen; and it leaves no two open keys, whatever happened before, if and only if the
   * slot's intent is not for that very pair.
   */
  lemma ClickIff(s: System, page: nat, cl: Client, slot: Option<Intent>)
    requires Possible(s, page, cl, slot) && NewClickAllowed(cl)
    ensures ClickKeepsSlot(page, cl, slot) <==> Replaceable(slot, cl.panel.pair)
    ensures ClickKeepsSingle(page, cl, slot) <==> !SamePair(slot, cl.panel.pair)
  {
    if Replaceable(slot, cl.panel.pair) {
      forall t | Possible(t, page, cl, slot) ensures SlotHoldsOpen(Next(t, Submit(page, true)), cl.device) {
        SafeClick(t, page, cl, slot);
      }
    } else {
      SlotExists(s, page, cl, slot);
      var t := UnsafeClick(s, page, cl, slot.value);
    }
    if !SamePair(slot, cl.panel.pair) {
      forall t | Possible(t, page, cl, slot) ensures !TwoOpen(Next(t, Submit(page, true)), cl.device) {
        SingleClick(t, page, cl, slot);
      }
    } else {
      SlotExists(s, page, cl, slot);
      var t := UnsafeClick(s, page, cl, slot.value);
    }
  }

  lemma SlotExists(s: System, page: nat, cl: Client, slot: Option<Intent>)
    requires Possible(s, page, cl, slot) && slot.Some?
    ensures Existed(s.server, slot.value.version, slot.value.revision)
  {
    assert IntentTrue(s.server, slot.value);
    NamedExists(s.server, slot.value.version, slot.value.revision, slot.value.text);
  }
}

/**
 * Building concrete runs from the empty system, one event at a time, with one or two pages; and
 * the common beginning of the runs in the modules of findings.
 */
module SubmissionRuns {
  import opened Prelude
  import opened JsText
  import opened SubmissionServer
  import opened PracticePanel
  import opened ImageQueue
  import opened PracticeClient
  import opened SubmissionProtocol
  import opened SubmissionTexts

  const DISK := Disk(true, true, true)
  const FOUND := Found(true, true)

  /** The run ends in `s`, and no step of it was careless. */
  ghost predicate Reaches(replays: bool, events: seq<Event>, s: System) {
    CarefulRun(Init(replays), events) && Exec(Init(replays), events) == s
  }

  lemma Then(replays: bool, events: seq<Event>, s: System, e: Event) returns (more: seq<Event>)
    requires Reaches(replays, events, s) && Careful(s, e)
    ensures more == events + [e] && Reaches(replays, more, Next(s, e))
  {
    more := events + [e];
    assert more[..|more| - 1] == events;
  }

  lemma Nothing(replays: bool) returns (events: seq<Event>)
    ensures events == [] && Reaches(replays, events, Init(replays))
  {
    events := [];
  }

  // ---------------------------------------------------------------- one page

  /** Page 0 on device 0. */
  ghost function Solo(server: Server, cl: Client, d: Device, calls: seq<Call>, answers: seq<Answer>, key: nat): System {
    System(server, map[0 := cl], map[0 := d], calls, answers, 0, key)
  }

  /** One more click or answer on the only page. */
  lemma PageDoes(replays: bool, events: seq<Event>, server: Server, cl: Client, d: Device, calls: seq<Call>,
          answers: seq<Answer>, key: nat, e: Event, eff: Effect)
    returns (more: seq<Event>)
    requires Reaches(replays, events, Solo(server, cl, d, calls, answers, key)) && cl.device == 0
    requires var s := Solo(server, cl, d, calls, answers, key);
      EventPage(s, e) == Some(0) && !e.Open? && !e.ChooseFiles? && Allowed(cl, d, e) && Careful(s, e) && eff == Act(s, cl, d, e)
    ensures more == events + [e]
    ensures Reaches(replays, more,
      Solo(server, eff.client, eff.device, SentCalls(Solo(server, cl, d, calls, answers, key), 0, eff), answers,
           if e.Submit? then key + 1 else key))
  {
    var s := Solo(server, cl, d, calls, answers, key);
    more := Then(replays, events, s, e);
    assert s.clients[0 := eff.client] == map[0 := eff.client];
    assert s.devices[0 := eff.device] == map[0 := eff.device];
  }

  /** One request of the only page is served. */
  lemma ServerDoes(replays: bool, events: seq<Event>, server: Server, cl: Client, d: Device, calls: seq<Call>,
          answers: seq<Answer>, key: nat, k: nat, after: Server)
    returns (more: seq<Event>)
    requires Reaches(replays, events, Solo(server, cl, d, calls, answers, key))
    requires k < |calls| && after == Serve(server, calls[k].request).0
    ensures more == events + [ServeCall(k)]
    ensures Reaches(replays, more, Solo(after, cl, d, calls, answers + [Answer(k, server)], key))
  {
    more := Then(replays, events, Solo(server, cl, d, calls, answers, key), ServeCall(k));
  }

  // ---------------------------------------------------------------- two pages

  /** Pages 0 and 1 on the devices given; `ids` and `key` are the next image id and seal key. */
  ghost function Duo(server: Server, first: Client, second: Client, devices: map<nat, Device>, calls: seq<Call>,
          answers: seq<Answer>, ids: nat, key: nat): System {
    System(server, map[0 := first, 1 := second], devices, calls, answers, ids, key)
  }

  /** The state after a step of page `page`, which leaves its device as it says. */
  ghost function Moved(s: System, page: nat, e: Event, eff: Effect): System {
    s.(clients := s.clients[page := eff.client], devices := s.devices[eff.client.device := eff.device],
       calls := SentCalls(s, page, eff),
       nextImage := s.nextImage + (if e.ChooseFiles? then |e.digests| else 0),
       nextKey := s.nextKey + (if e.Submit? then 1 else 0))
  }

  lemma OneDoes(replays: bool, events: seq<Event>, s: System, page: nat, e: Event, eff: Effect) returns (more: seq<Event>)
    requires Reaches(replays, events, s) && Live(s, page) && EventPage(s, e) == Some(page) && !e.Open?
    requires var cl := s.clients[page]; var d := s.devices[cl.device];
      Allowed(cl, d, e) && Careful(s, e) && eff == Act(s, cl, d, e)
    ensures more == events + [e] && Reaches(replays, more, Moved(s, page, e, eff))
  {
    more := Then(replays, events, s, e);
  }

  lemma FirstMoved(server: Server, first: Client, second: Client, devices: map<nat, Device>, calls: seq<Call>,
          answers: seq<Answer>, ids: nat, key: nat, e: Event, eff: Effect)
    ensures var s := Duo(server, first, second, devices, calls, answers, ids, key);
      Moved(s, 0, e, eff) ==
      Duo(server, eff.client, second, devices[eff.client.device := eff.device], SentCalls(s, 0, eff), answers,
          ids + (if e.ChooseFiles? then |e.digests| else 0), key + (if e.Submit? then 1 else 0))
  {
    assert map[0 := first, 1 := second][0 := eff.client] == map[0 := eff.client, 1 := second];
  }

  lemma SecondMoved(server: Server, first: Client, second: Client, devices: map<nat, Device>, calls: seq<Call>,
          answers: seq<Answer>, ids: nat, key: nat, e: Event, eff: Effect)
    ensures var s := Duo(server, first, second, devices, calls, answers, ids, key);
      Moved(s, 1, e, eff) ==
      Duo(server, first, eff.client, devices[eff.client.device := eff.device], SentCalls(s, 1, eff), answers,
          ids + (if e.ChooseFiles? then |e.digests| else 0), key + (if e.Submit? then 1 else 0))
  {
    assert map[0 := first, 1 := second][1 := eff.client] == map[0 := first, 1 := eff.client];
  }

  /** A step of page 0 of two. */
  lemma FirstDoes(replays: bool, events: seq<Event>, server: Server, first: Client, second: Client, devices: map<nat,
          Device>, calls: seq<Call>, answers: seq<Answer>, ids: nat, key: nat, e: Event, eff: Effect)
    returns (more: seq<Event>)
    requires var s := Duo(server, first, second, devices, calls, answers, ids, key);
      && Reaches(replays, events, s) && first.device in devices && EventPage(s, e) == Some(0) && !e.Open?
      && Allowed(first, devices[first.device], e) && Careful(s, e) && eff == Act(s, first, devices[first.device], e)
    ensures more == events + [e]
    ensures var s := Duo(server, first, second, devices, calls, answers, ids, key);
      Reaches(replays, more,
        Duo(server, eff.client, second, devices[eff.client.device := eff.device], SentCalls(s, 0, eff), answers,
            ids + (if e.ChooseFiles? then |e.digests| else 0), key + (if e.Submit? then 1 else 0)))
  {
    var s := Duo(server, first, second, devices, calls, answers, ids, key);
    more := OneDoes(replays, events, s, 0, e, eff);
    FirstMoved(server, first, second, devices, calls, answers, ids, key, e, eff);
  }

  /** A step of page 1 of two. */
  lemma SecondDoes(replays: bool, events: seq<Event>, server: Server, first: Client, second: Client, devices: map<nat,
          Device>, calls: seq<Call>, answers: seq<Answer>, ids: nat, key: nat, e: Event, eff: Effect)
    returns (more: seq<Event>)
    requires var s := Duo(server, first, second, devices, calls, answers, ids, key);
      && Reaches(replays, events, s) && second.device in devices && EventPage(s, e) == Some(1) && !e.Open?
      && Allowed(second, devices[second.device], e) && Careful(s, e) && eff == Act(s, second, devices[second.device], e)
    ensures more == events + [e]
    ensures var s := Duo(server, first, second, devices, calls, answers, ids, key);
      Reaches(replays, more,
        Duo(server, first, eff.client, devices[eff.client.device := eff.device], SentCalls(s, 1, eff), answers,
            ids + (if e.ChooseFiles? then |e.digests| else 0), key + (if e.Submit? then 1 else 0)))
  {
    var s := Duo(server, first, second, devices, calls, answers, ids, key);
    more := OneDoes(replays, events, s, 1, e, eff);
    SecondMoved(server, first, second, devices, calls, answers, ids, key, e, eff);
  }

  /** A request of one of two pages is served. */
  lemma BothServed(replays: bool, events: seq<Event>, server: Server, first: Client, second: Client, devices: map<nat,
          Device>, calls: seq<Call>, answers: seq<Answer>, ids: nat, key: nat, k: nat, after: Server)
    returns (more: seq<Event>)
    requires Reaches(replays, events, Duo(server, first, second, devices, calls, answers, ids, key))
    requires k < |calls| && after == Serve(server, calls[k].request).0
    ensures more == events + [ServeCall(k)]
    ensures Reaches(replays, more, Duo(after, first, second, devices, calls, answers + [Answer(k, server)], ids, key))
  {
    more := Then(replays, events, Duo(server, first, second, devices, calls, answers, ids, key), ServeCall(k));
  }

  // ---------------------------------------------------------------- a common beginning

  const READY := NEW_EDITOR.(ready := true)
  const TOP := Pair(Some(0), 1)

  const LOADED := Panel(true, Draft, false, Pair(None, 0), "", "", Some(Pair(None, 0)), "", Quiet, None, None, [], None, NotSubmitting)
  const HOLDS_A := Panel(true, Draft, false, TOP, "a", "a", Some(TOP), "a", SavedStatus, None, None, [], None, NotSubmitting)

  const BLANK := Empty(true)
  const ONE := Server([Version([Snap("a", [])], false)], Draft, map[], 0, false, true)

  const CALL_0 := Call(0, Read, "", BLANK)
  const CALL_1 := Call(0, Save("a", Pair(None, 0)), "", BLANK)
  const ANSWERS := [Answer(0, BLANK), Answer(1, BLANK)]

  /** A page of device `device` without reads in flight and without recovery copies. */
  function Tab(device: nat, panel: Panel, editor: Editor): Client {
    Client(device, panel, editor, map[], None, None)
  }

  /** A page that has just asked for its unit. */
  function Loading(device: nat, call: nat): Client {
    Client(device, NEW_PANEL, NEW_EDITOR, map[call := false], None, None)
  }

  /** Page 0 has saved "a" as the first revision of the first version, and nothing is in flight. */
  ghost function Start(): System {
    Solo(ONE, Tab(0, HOLDS_A, READY), NEW_DEVICE, [CALL_0, CALL_1], ANSWERS, 0)
  }

  /** No seal click, and every page on its own device. */
  ghost predicate Plain(events: seq<Event>) {
    OwnDevices(events) && forall i :: 0 <= i < |events| ==> !events[i].Submit? && (events[i].Deliver? ==> events[i].found.intent)
  }

  lemma OpenAndRead(replays: bool) returns (events: seq<Event>)
    ensures Plain(events)
    ensures Reaches(replays, events, Solo(Empty(replays), Loading(0, 0), NEW_DEVICE, [Call(0, Read, "", Empty(replays))], [], 0))
  {
    var none := Nothing(replays);
    events := Then(replays, none, Init(replays), Open(0, 0));
    assert Next(Init(replays), Open(0, 0)) == Solo(Empty(replays), Page(0), NEW_DEVICE, [], [], 0);
    events := PageDoes(replays, events, Empty(replays), Page(0), NEW_DEVICE, [], [], 0, StartLoadUnit(0), StartLoad(Page(0), NEW_DEVICE, 0, false));
  }

  lemma FirstLoad(replays: bool)
    ensures Arrive(Loading(0, 0), NEW_DEVICE, 0, Snapshot(ReadCurrent(Empty(replays))), FOUND, DISK, 0, 1) == Stay(Tab(0, LOADED, NEW_EDITOR), NEW_DEVICE)
  {
    assert map[0 := false] - {0} == map[];
  }

  lemma OpenAndLoad(replays: bool) returns (events: seq<Event>)
    ensures Plain(events)
    ensures Reaches(replays, events,
      Solo(Empty(replays), Tab(0, LOADED, NEW_EDITOR), NEW_DEVICE, [Call(0, Read, "", Empty(replays))], [Answer(0, Empty(replays))], 0))
  {
    events := OpenAndRead(replays);
    var calls := [Call(0, Read, "", Empty(replays))];
    events := ServerDoes(replays, events, Empty(replays), Loading(0, 0), NEW_DEVICE, calls, [], 0, 0, Empty(replays));
    FirstLoad(replays);
    events := PageDoes(replays, events, Empty(replays), Loading(0, 0), NEW_DEVICE, calls, [Answer(0, Empty(replays))], 0,
      Deliver(0, FOUND, DISK, 0), Stay(Tab(0, LOADED, NEW_EDITOR), NEW_DEVICE));
  }

  const RECOVERING := NEW_EDITOR.(recovering := Some(Recovery([], [])))

  /** The recovery read of an empty store. */
  lemma NothingStored(device: nat, p: Panel)
    requires p.images == []
    ensures BeginRecovery(Tab(device, p, NEW_EDITOR), NEW_DEVICE, [], true, 0, DISK) == Stay(Tab(device, p, RECOVERING), NEW_DEVICE)
    ensures FinishRecovery(Tab(device, p, RECOVERING), NEW_DEVICE, DISK) == Stay(Tab(device, p, READY), NEW_DEVICE)
    ensures IsSelection(Recoverable(NEW_DEVICE.store, 0), [])
  {
    assert DropExpired(NEW_DEVICE.store, 0) == NEW_DEVICE.store;
    assert DropAttached(NEW_DEVICE.store, [], []) == NEW_DEVICE.store;
    assert Recoverable(NEW_DEVICE.store, 0) == map[];
  }

  lemma EmptyRecovery(replays: bool, events: seq<Event>, server: Server, p: Panel, calls: seq<Call>,
          answers: seq<Answer>, key: nat) returns (more: seq<Event>)
    requires Reaches(replays, events, Solo(server, Tab(0, p, NEW_EDITOR), NEW_DEVICE, calls, answers, key)) && p.images == []
    ensures more == events + [StartRecovery(0, [], true, 0, DISK), EndRecovery(0, DISK)]
    ensures Reaches(replays, more, Solo(server, Tab(0, p, READY), NEW_DEVICE, calls, answers, key))
  {
    NothingStored(0, p);
    more := PageDoes(replays, events, server, Tab(0, p, NEW_EDITOR), NEW_DEVICE, calls, answers, key,
      StartRecovery(0, [], true, 0, DISK), Stay(Tab(0, p, RECOVERING), NEW_DEVICE));
    more := PageDoes(replays, more, server, Tab(0, p, RECOVERING), NEW_DEVICE, calls, answers, key,
      EndRecovery(0, DISK), Stay(Tab(0, p, READY), NEW_DEVICE));
  }

  const TYPED := LOADED.(draft := "a", status := Unsaved)
  const SAVING := TYPED.(status := Saving, saving := Some(SaveCall(1, "a", Pair(None, 0))))

  lemma TypeA() returns (events: seq<Event>)
    ensures Plain(events)
    ensures Reaches(true, events, Solo(BLANK, Tab(0, TYPED, NEW_EDITOR), NEW_DEVICE, [CALL_0], [Answer(0, BLANK)], 0))
  {
    events := OpenAndLoad(true);
    events := PageDoes(true, events, BLANK, Tab(0, LOADED, NEW_EDITOR), NEW_DEVICE, [CALL_0], [Answer(0, BLANK)], 0,
      Typing(0, "a"), Stay(Tab(0, TYPED, NEW_EDITOR), NEW_DEVICE));
  }

  lemma SaveA() returns (events: seq<Event>)
    ensures Plain(events)
    ensures Reaches(true, events, Solo(BLANK, Tab(0, SAVING, NEW_EDITOR), NEW_DEVICE, [CALL_0, CALL_1], [Answer(0, BLANK)], 0))
  {
    events := TypeA();
    events := PageDoes(true, events, BLANK, Tab(0, TYPED, NEW_EDITOR), NEW_DEVICE, [CALL_0], [Answer(0, BLANK)], 0,
      AutosaveTimer(0), Effect(Tab(0, SAVING, NEW_EDITOR), NEW_DEVICE, Some(Save("a", Pair(None, 0)))));
  }

  lemma ServeA() returns (events: seq<Event>)
    ensures Plain(events)
    ensures Reaches(true, events, Solo(ONE, Tab(0, SAVING, NEW_EDITOR), NEW_DEVICE, [CALL_0, CALL_1], ANSWERS, 0))
  {
    events := SaveA();
    assert Normalize("a") == "a";
    events := ServerDoes(true, events, BLANK, Tab(0, SAVING, NEW_EDITOR), NEW_DEVICE, [CALL_0, CALL_1], [Answer(0, BLANK)], 0, 1, ONE);
  }

  lemma AnswerA() returns (events: seq<Event>)
    ensures Plain(events)
    ensures Reaches(true, events, Solo(ONE, Tab(0, HOLDS_A, NEW_EDITOR), NEW_DEVICE, [CALL_0, CALL_1], ANSWERS, 0))
  {
    events := ServeA();
    events := PageDoes(true, events, ONE, Tab(0, SAVING, NEW_EDITOR), NEW_DEVICE, [CALL_0, CALL_1], ANSWERS, 0,
      Deliver(1, FOUND, DISK, 0), Stay(Tab(0, HOLDS_A, NEW_EDITOR), NEW_DEVICE));
  }

  lemma FirstDraft() returns (events: seq<Event>)
    ensures Plain(events) && Reaches(true, events, Start())
  {
    events := AnswerA();
    events := EmptyRecovery(true, events, ONE, HOLDS_A, [CALL_0, CALL_1], ANSWERS, 0);
  }

  // ---------------------------------------------------------------- a second page

  /** Page 1 on device `own`, which may be page 0's. */
  function Both(own: nat): map<nat, Device> {
    map[0 := NEW_DEVICE][own := NEW_DEVICE]
  }

  const READ_A := HOLDS_A.(status := Quiet)
  const CALL_2 := Call(1, Read, "", ONE)
  const ANSWERS_2 := ANSWERS + [Answer(2, ONE)]

  /** Pages 0 and 1 hold the first revision of "a"; page 1 has only read it. */
  ghost function TwoTabs(own: nat): System {
    Duo(ONE, Tab(0, HOLDS_A, READY), Tab(own, READ_A, READY), Both(own), [CALL_0, CALL_1, CALL_2], ANSWERS_2, 0, 0)
  }

  /** Every page on its own device, if page 1 is. */
  ghost predicate PlainIf(events: seq<Event>, own: nat) {
    && (own == 1 ==> OwnDevices(events))
    && forall i :: 0 <= i < |events| ==> !events[i].Submit? && (events[i].Deliver? ==> events[i].found.intent)
  }

  lemma BothKept(own: nat, k: nat)
    requires k == own || k == 0
    ensures k in Both(own) && Both(own)[k] == NEW_DEVICE && Both(own)[k := NEW_DEVICE] == Both(own)
  {
  }

  lemma NewSecond(own: nat) returns (events: seq<Event>)
    ensures PlainIf(events, own)
    ensures Reaches(true, events, Duo(ONE, Tab(0, HOLDS_A, READY), Page(own), Both(own), [CALL_0, CALL_1], ANSWERS, 0, 0))
  {
    events := FirstDraft();
    events := Then(true, events, Start(), Open(1, own));
    assert Next(Start(), Open(1, own)) == Duo(ONE, Tab(0, HOLDS_A, READY), Page(own), Both(own), [CALL_0, CALL_1], ANSWERS, 0, 0);
  }

  lemma OpenSecond(own: nat) returns (events: seq<Event>)
    ensures PlainIf(events, own)
    ensures Reaches(true, events,
      Duo(ONE, Tab(0, HOLDS_A, READY), Loading(own, 2), Both(own), [CALL_0, CALL_1, CALL_2], ANSWERS, 0, 0))
  {
    events := NewSecond(own);
    BothKept(own, own);
    events := SecondDoes(true, events, ONE, Tab(0, HOLDS_A, READY), Page(own), Both(own), [CALL_0, CALL_1], ANSWERS, 0, 0,
      StartLoadUnit(1), StartLoad(Page(own), NEW_DEVICE, 2, false));
  }

  lemma SecondLoad(own: nat)
    ensures Arrive(Loading(own, 2), NEW_DEVICE, 2, Snapshot(ReadCurrent(ONE)), FOUND, DISK, 0, 3) == Stay(Tab(own, READ_A, NEW_EDITOR), NEW_DEVICE)
  {
    assert map[2 := false] - {2} == map[];
  }

  lemma LoadSecond(own: nat) returns (events: seq<Event>)
    ensures PlainIf(events, own)
    ensures Reaches(true, events,
      Duo(ONE, Tab(0, HOLDS_A, READY), Tab(own, READ_A, NEW_EDITOR), Both(own), [CALL_0, CALL_1, CALL_2], ANSWERS_2, 0, 0))
  {
    events := OpenSecond(own);
    events := BothServed(true, events, ONE, Tab(0, HOLDS_A, READY), Loading(own, 2), Both(own), [CALL_0, CALL_1, CALL_2], ANSWERS, 0, 0, 2, ONE);
    SecondLoad(own);
    BothKept(own, own);
    events := SecondDoes(true, events, ONE, Tab(0, HOLDS_A, READY), Loading(own, 2), Both(own), [CALL_0, CALL_1, CALL_2], ANSWERS_2, 0, 0,
      Deliver(2, FOUND, DISK, 0), Stay(Tab(own, READ_A, NEW_EDITOR), NEW_DEVICE));
  }

  lemma RecoverSecond(own: nat) returns (events: seq<Event>)
    ensures PlainIf(events, own)
    ensures Reaches(true, events,
      Duo(ONE, Tab(0, HOLDS_A, READY), Tab(own, READ_A, RECOVERING), Both(own), [CALL_0, CALL_1, CALL_2], ANSWERS_2, 0, 0))
  {
    events := LoadSecond(own);
    NothingStored(own, READ_A);
    BothKept(own, own);
    events := SecondDoes(true, events, ONE, Tab(0, HOLDS_A, READY), Tab(own, READ_A, NEW_EDITOR), Both(own), [CALL_0, CALL_1, CALL_2], ANSWERS_2, 0, 0,
      StartRecovery(1, [], true, 0, DISK), Stay(Tab(own, READ_A, RECOVERING), NEW_DEVICE));
  }

  lemma SecondTab(own: nat) returns (events: seq<Event>)
    ensures PlainIf(events, own) && Reaches(true, events, TwoTabs(own))
  {
    events := RecoverSecond(own);
    NothingStored(own, READ_A);
    BothKept(own, own);
    events := SecondDoes(true, events, ONE, Tab(0, HOLDS_A, READY), Tab(own, READ_A, RECOVERING), Both(own), [CALL_0, CALL_1, CALL_2], ANSWERS_2, 0, 0,
      EndRecovery(1, DISK), Stay(Tab(own, READ_A, READY), NEW_DEVICE));
  }

  // ---------------------------------------------------------------- seal clicks

  /** A page that holds "a" in its saved form may be sealed, once nothing else is going on. */
  lemma MaySeal(p: Panel)
    requires Editable(p) && p.saving == None && p.submit == NotSubmitting && p.conflict == None
    requires p.pair == TOP && p.draft == "a" && p.persisted == "a"
    ensures CanSubmit(p, true, false, 0)
  {
    assert Trim("a") == "a";
  }

  lemma FirstSeal(own: nat, p: Panel, d: Device, key: nat, written: bool, next: nat)
    requires p.intent == None && p.pair == TOP && p.persisted == "a"
    ensures var i := Intent(key, 0, 1, "a");
      SubmitClick(Tab(own, p, READY), d, key, written, next) ==
      Effect(Tab(own, p.(intent := Some(i), submit := Sealing(next, i)), READY), if written then d.(slot := Some(i)) else d, Some(Seal(key, 0, 1)))
  {
  }

  /** The click that seals the first revision. */
  lemma SealActs(s: System, page: nat, own: nat, p: Panel, d: Device, written: bool)
    requires Editable(p) && p.saving == None && p.submit == NotSubmitting && p.conflict == None && p.intent == None
    requires p.pair == TOP && p.draft == "a" && p.persisted == "a"
    ensures var cl := Tab(own, p, READY); var e := Submit(page, written); var i := Intent(s.nextKey, 0, 1, "a");
      && EventPage(s, e) == Some(page) && Allowed(cl, d, e) && Careful(s, e)
      && Act(s, cl, d, e) ==
         Effect(Tab(own, p.(intent := Some(i), submit := Sealing(|s.calls|, i)), READY), if written then d.(slot := Some(i)) else d, Some(Seal(s.nextKey, 0, 1)))
  {
    MaySeal(p);
    FirstSeal(own, p, d, s.nextKey, written, |s.calls|);
  }

  lemma SoloSeals(events: seq<Event>, server: Server, p: Panel, d: Device, calls: seq<Call>, answers: seq<Answer>, key: nat, written: bool)
    returns (more: seq<Event>)
    requires Reaches(true, events, Solo(server, Tab(0, p, READY), d, calls, answers, key))
    requires Editable(p) && p.saving == None && p.submit == NotSubmitting && p.conflict == None && p.intent == None
    requires p.pair == TOP && p.draft == "a" && p.persisted == "a"
    ensures more == events + [Submit(0, written)]
    ensures var i := Intent(key, 0, 1, "a");
      Reaches(true, more, Solo(server, Tab(0, p.(intent := Some(i), submit := Sealing(|calls|, i)), READY),
        if written then d.(slot := Some(i)) else d, calls + [Call(0, Seal(key, 0, 1), "a", server)], answers, key + 1))
  {
    var i := Intent(key, 0, 1, "a");
    SealActs(Solo(server, Tab(0, p, READY), d, calls, answers, key), 0, 0, p, d, written);
    more := PageDoes(true, events, server, Tab(0, p, READY), d, calls, answers, key, Submit(0, written),
      Effect(Tab(0, p.(intent := Some(i), submit := Sealing(|calls|, i)), READY), if written then d.(slot := Some(i)) else d, Some(Seal(key, 0, 1))));
  }
}

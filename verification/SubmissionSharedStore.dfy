/**
 * Two tabs of one browser and one image. Both tabs queue it: one chose it, the other recovered it
 * from the store they share. The second tab's retry read the server before there was a version and
 * never looks at the attachments again. Without the store's replay branch the image is attached
 * twice; with it, the second tab takes another text's revision for its own.
 */
module SubmissionSharedStore {
  import opened Prelude
  import opened JsText
  import opened SubmissionServer
  import opened SubmissionHistory
  import opened PracticePanel
  import opened ImageQueue
  import opened PracticeClient
  import opened SubmissionProtocol
  import opened SubmissionTexts
  import opened SubmissionPosting
  import opened SubmissionRuns

  const FILE := 7
  const REC_0 := Record(0, FILE, None, Some(0), 0)
  const REC_1 := Record(0, FILE, Some(0), Some(1), 0)
  const REC_2 := Record(0, FILE, Some(0), Some(2), 0)
  const IMAGE := Image(0, 0, 0, FILE)

  const STORE_0: Store := map[(None, 0) := REC_0]
  const STORE_1: Store := map[(Some(0), 0) := REC_1]
  const STORE_2: Store := map[(Some(0), 0) := REC_2]

  function Holding(store: Store): Device {
    Device(None, store, None)
  }

  function Shared(store: Store): map<nat, Device> {
    map[0 := Holding(store)]
  }

  lemma SharedKept(store: Store, after: Store)
    ensures Shared(store)[0] == Holding(store) && Shared(store)[0 := Holding(after)] == Shared(after)
  {
  }

  function Blank(replays: bool): Server {
    Empty(replays)
  }

  function First(replays: bool): Server {
    Server([Version([Snap("", [])], false)], Draft, map[], 0, false, replays)
  }

  function Second(replays: bool): Server {
    Server([Version([Snap("", []), Snap("", [IMAGE])], false)], Draft, map[], 1, false, replays)
  }

  // ---------------------------------------------------------------- two tabs, one record

  function Calls(replays: bool, n: nat): seq<Call>
    requires n <= 9
  {
    [Call(0, Read, "", Blank(replays)), Call(1, Read, "", Blank(replays)), Call(1, Read, "", Blank(replays)),
     Call(0, Save("", Pair(None, 0)), "", Blank(replays)), Call(0, Read, "", First(replays)),
     Call(0, Upload(0, 1, 0, FILE), "", First(replays)), Call(1, Read, "", Second(replays)),
     Call(1, Read, "", Second(replays)), Call(1, Upload(0, 2, 0, FILE), "", Second(replays))][..n]
  }

  function Answers(replays: bool, n: nat): seq<Answer>
    requires n <= 8
  {
    [Answer(0, Blank(replays)), Answer(1, Blank(replays)), Answer(2, Blank(replays)), Answer(3, Blank(replays)),
     Answer(4, First(replays)), Answer(5, First(replays)), Answer(6, Second(replays)), Answer(7, Second(replays))][..n]
  }

  lemma OneMoreCall(replays: bool, n: nat)
    requires n < 9
    ensures Calls(replays, n + 1) == Calls(replays, n) + [Calls(replays, n + 1)[n]]
  {
  }

  lemma OneMoreAnswer(replays: bool, n: nat)
    requires n < 8
    ensures Answers(replays, n + 1) == Answers(replays, n) + [Answers(replays, n + 1)[n]]
  {
  }

  const CHOSEN := READY.(queue := [Item(REC_0, Uploading)], job := Starting(Fresh(REC_0)))

  /** The state `server`, two clients on one device, after `calls` requests and `answers` answers. */
  ghost function Tabs(replays: bool, server: Server, first: Client, second: Client, store: Store, calls: nat, answers: nat, ids: nat): System
    requires calls <= 9 && answers <= 8
  {
    Duo(server, first, second, Shared(store), Calls(replays, calls), Answers(replays, answers), ids, 0)
  }

  /** A step of page 0 that sends the next request of the list, or none. */
  lemma FirstSteps(replays: bool, events: seq<Event>, server: Server, first: Client, second: Client, store: Store,
          calls: nat, answers: nat, ids: nat, e: Event, eff: Effect, after: Store)
    returns (more: seq<Event>)
    requires calls <= 8 && answers <= 8 && first.device == 0 && eff.device == Holding(after)
    requires var s := Tabs(replays, server, first, second, store, calls, answers, ids);
      && Reaches(replays, events, s) && EventPage(s, e) == Some(0) && !e.Open? && !e.ChooseFiles? && !e.Submit?
      && Allowed(first, Holding(store), e) && Careful(s, e) && eff == Act(s, first, Holding(store), e)
    requires eff.send.Some? ==> Call(0, eff.send.value, eff.client.panel.persisted, server) == Calls(replays, calls + 1)[calls]
    ensures Reaches(replays, more, Tabs(replays, server, eff.client, second, after, if eff.send.Some? then calls + 1 else calls, answers, ids))
  {
    SharedKept(store, after);
    OneMoreCall(replays, calls);
    more := FirstDoes(replays, events, server, first, second, Shared(store), Calls(replays, calls), Answers(replays, answers), ids, 0, e, eff);
  }

  lemma SecondSteps(replays: bool, events: seq<Event>, server: Server, first: Client, second: Client, store: Store,
          calls: nat, answers: nat, ids: nat, e: Event, eff: Effect, after: Store)
    returns (more: seq<Event>)
    requires calls <= 8 && answers <= 8 && second.device == 0 && eff.device == Holding(after)
    requires var s := Tabs(replays, server, first, second, store, calls, answers, ids);
      && Reaches(replays, events, s) && EventPage(s, e) == Some(1) && !e.Open? && !e.ChooseFiles? && !e.Submit?
      && Allowed(second, Holding(store), e) && Careful(s, e) && eff == Act(s, second, Holding(store), e)
    requires eff.send.Some? ==> Call(1, eff.send.value, eff.client.panel.persisted, server) == Calls(replays, calls + 1)[calls]
    ensures Reaches(replays, more, Tabs(replays, server, first, eff.client, after, if eff.send.Some? then calls + 1 else calls, answers, ids))
  {
    SharedKept(store, after);
    OneMoreCall(replays, calls);
    more := SecondDoes(replays, events, server, first, second, Shared(store), Calls(replays, calls), Answers(replays, answers), ids, 0, e, eff);
  }

  lemma Serves(replays: bool, events: seq<Event>, server: Server, first: Client, second: Client, store: Store,
          calls: nat, answers: nat, ids: nat, after: Server)
    returns (more: seq<Event>)
    requires calls <= 9 && answers < 8 && answers < calls
    requires Reaches(replays, events, Tabs(replays, server, first, second, store, calls, answers, ids))
    requires after == Serve(server, Calls(replays, calls)[answers].request).0 && Answers(replays, answers + 1)[answers] == Answer(answers, server)
    ensures Reaches(replays, more, Tabs(replays, after, first, second, store, calls, answers + 1, ids))
  {
    OneMoreAnswer(replays, answers);
    more := BothServed(replays, events, server, first, second, Shared(store), Calls(replays, calls), Answers(replays, answers), ids, 0, answers, after);
  }

  lemma BlankReady(replays: bool) returns (events: seq<Event>)
    ensures Reaches(replays, events, Tabs(replays, Blank(replays), Tab(0, LOADED, READY), Page(0), map[], 1, 1, 0))
  {
    events := OpenAndLoad(replays);
    var calls, answers := [Call(0, Read, "", Blank(replays))], [Answer(0, Blank(replays))];
    events := EmptyRecovery(replays, events, Blank(replays), LOADED, calls, answers, 0);
    var s := Solo(Blank(replays), Tab(0, LOADED, READY), NEW_DEVICE, calls, answers, 0);
    events := Then(replays, events, s, Open(1, 0));
    assert Calls(replays, 1) == calls && Answers(replays, 1) == answers;
    assert Next(s, Open(1, 0)) == Tabs(replays, Blank(replays), Tab(0, LOADED, READY), Page(0), map[], 1, 1, 0);
  }

  lemma ChooseOne()
    ensures Choose(Tab(0, LOADED, READY), Holding(map[]), [FILE], 0, {}, 0) == Stay(Tab(0, LOADED, CHOSEN), Holding(STORE_0))
  {
    assert NewRecords(LOADED.pair, [FILE], 0, 0) == [REC_0];
    assert Waiters([REC_0]) == [Item(REC_0, Waiting)];
    assert [REC_0][..0] == [];
    assert PutAll(map[], [REC_0], {}) == STORE_0;
    assert Mark([Item(REC_0, Waiting)], 0, Uploading) == [Item(REC_0, Uploading)];
    assert Find([Item(REC_0, Waiting)], 0) == Some(REC_0);
  }

  /** Page 0 chooses the image; nothing is saved yet, so it is queued without a version. */
  lemma ChooseFirst(replays: bool) returns (events: seq<Event>)
    ensures Reaches(replays, events, Tabs(replays, Blank(replays), Tab(0, LOADED, CHOSEN), Page(0), STORE_0, 1, 1, 1))
  {
    events := BlankReady(replays);
    ChooseOne();
    SharedKept(map[], STORE_0);
    events := FirstDoes(replays, events, Blank(replays), Tab(0, LOADED, READY), Page(0), Shared(map[]), Calls(replays, 1), Answers(replays, 1), 0, 0,
      ChooseFiles(0, [FILE], {}, 0), Stay(Tab(0, LOADED, CHOSEN), Holding(STORE_0)));
  }

  const LOADS_1 := Client(0, NEW_PANEL, NEW_EDITOR, map[1 := false], None, None)

  lemma SecondLoads(replays: bool)
    ensures Arrive(LOADS_1, Holding(STORE_0), 1, Snapshot(ReadCurrent(Blank(replays))), FOUND, DISK, 0, 2) ==
      Stay(Tab(0, LOADED, NEW_EDITOR), Holding(STORE_0))
  {
    assert map[1 := false] - {1} == map[];
  }

  lemma ReadSecondBlank(replays: bool) returns (events: seq<Event>)
    ensures Reaches(replays, events, Tabs(replays, Blank(replays), Tab(0, LOADED, CHOSEN), LOADS_1, STORE_0, 2, 2, 1))
  {
    events := ChooseFirst(replays);
    events := SecondSteps(replays, events, Blank(replays), Tab(0, LOADED, CHOSEN), Page(0), STORE_0, 1, 1, 1,
      StartLoadUnit(1), Effect(LOADS_1, Holding(STORE_0), Some(Read)), STORE_0);
    events := Serves(replays, events, Blank(replays), Tab(0, LOADED, CHOSEN), LOADS_1, STORE_0, 2, 1, 1, Blank(replays));
  }

  lemma SecondArrives(replays: bool)
    ensures var s := Tabs(replays, Blank(replays), Tab(0, LOADED, CHOSEN), LOADS_1, STORE_0, 2, 2, 1);
      var e := Deliver(1, FOUND, DISK, 0);
      && EventPage(s, e) == Some(1) && Careful(s, e)
      && Act(s, LOADS_1, Holding(STORE_0), e) == Stay(Tab(0, LOADED, NEW_EDITOR), Holding(STORE_0))
  {
    SecondLoads(replays);
  }

  lemma LoadSecondBlank(replays: bool) returns (events: seq<Event>)
    ensures Reaches(replays, events, Tabs(replays, Blank(replays), Tab(0, LOADED, CHOSEN), Tab(0, LOADED, NEW_EDITOR), STORE_0, 2, 2, 1))
  {
    events := ReadSecondBlank(replays);
    SecondArrives(replays);
    events := SecondSteps(replays, events, Blank(replays), Tab(0, LOADED, CHOSEN), LOADS_1, STORE_0, 2, 2, 1,
      Deliver(1, FOUND, DISK, 0), Stay(Tab(0, LOADED, NEW_EDITOR), Holding(STORE_0)), STORE_0);
  }

  const FINDS := NEW_EDITOR.(recovering := Some(Recovery([REC_0], [])))
  const FOUND_IT := READY.(queue := [Item(REC_0, ImageQueue.Failed)])
  const RETRIES := READY.(queue := [Item(REC_0, Uploading)], job := Checking(2, Again(REC_0)))

  lemma RecoversOne()
    ensures IsSelection(Recoverable(STORE_0, 0), [REC_0])
    ensures BeginRecovery(Tab(0, LOADED, NEW_EDITOR), Holding(STORE_0), [REC_0], true, 0, DISK) == Stay(Tab(0, LOADED, FINDS), Holding(STORE_0))
    ensures FinishRecovery(Tab(0, LOADED, FINDS), Holding(STORE_0), DISK) == Stay(Tab(0, LOADED, FOUND_IT), Holding(STORE_0))
  {
    assert Recoverable(STORE_0, 0) == STORE_0 && DropExpired(STORE_0, 0) == STORE_0;
    assert RecordIds([REC_0]) == {0} by {
      assert [REC_0][0].client in RecordIds([REC_0]);
    }
    assert StoreIds(STORE_0) == {0} by {
      assert STORE_0[(None, 0)].client in StoreIds(STORE_0);
    }
    assert DropAttached(STORE_0, [REC_0], []) == STORE_0;
    assert Remaining([REC_0][1..], [], []) == [];
    assert Merge([REC_0], [], []) == [Item(REC_0, ImageQueue.Failed)];
  }

  /** Page 1 recovers the same image from the store. */
  lemma RecoverSecond(replays: bool) returns (events: seq<Event>)
    ensures Reaches(replays, events, Tabs(replays, Blank(replays), Tab(0, LOADED, CHOSEN), Tab(0, LOADED, FOUND_IT), STORE_0, 2, 2, 1))
  {
    events := LoadSecondBlank(replays);
    RecoversOne();
    events := SecondSteps(replays, events, Blank(replays), Tab(0, LOADED, CHOSEN), Tab(0, LOADED, NEW_EDITOR), STORE_0, 2, 2, 1,
      StartRecovery(1, [REC_0], true, 0, DISK), Stay(Tab(0, LOADED, FINDS), Holding(STORE_0)), STORE_0);
    events := SecondSteps(replays, events, Blank(replays), Tab(0, LOADED, CHOSEN), Tab(0, LOADED, FINDS), STORE_0, 2, 2, 1,
      EndRecovery(1, DISK), Stay(Tab(0, LOADED, FOUND_IT), Holding(STORE_0)), STORE_0);
  }

  lemma RetriesOne()
    ensures CanRetry(Tab(0, LOADED, FOUND_IT), 0)
    ensures Retry(Tab(0, LOADED, FOUND_IT), Holding(STORE_0), 0, 2) == Effect(Tab(0, LOADED, RETRIES), Holding(STORE_0), Some(Read))
  {
    assert FOUND_IT.queue[0].record.client == 0;
    assert Find(FOUND_IT.queue, 0) == Some(REC_0);
    assert Mark(FOUND_IT.queue, 0, Uploading) == RETRIES.queue;
  }

  lemma AskSecond(replays: bool) returns (events: seq<Event>)
    ensures Reaches(replays, events, Tabs(replays, Blank(replays), Tab(0, LOADED, CHOSEN), Tab(0, LOADED, RETRIES), STORE_0, 3, 2, 1))
  {
    events := RecoverSecond(replays);
    RetriesOne();
    events := SecondSteps(replays, events, Blank(replays), Tab(0, LOADED, CHOSEN), Tab(0, LOADED, FOUND_IT), STORE_0, 2, 2, 1,
      RetryImage(1, 0), Effect(Tab(0, LOADED, RETRIES), Holding(STORE_0), Some(Read)), STORE_0);
  }

  /** Its retry reads the server before there is any version; the answer is still on its way. */
  lemma RetrySecond(replays: bool) returns (events: seq<Event>)
    ensures Reaches(replays, events, Tabs(replays, Blank(replays), Tab(0, LOADED, CHOSEN), Tab(0, LOADED, RETRIES), STORE_0, 3, 3, 1))
  {
    events := AskSecond(replays);
    events := Serves(replays, events, Blank(replays), Tab(0, LOADED, CHOSEN), Tab(0, LOADED, RETRIES), STORE_0, 3, 2, 1, Blank(replays));
  }

  // ---------------------------------------------------------------- the first tab attaches the image

  const SAVES := LOADED.(status := Saving, saving := Some(SaveCall(3, "", Pair(None, 0))))
  const AWAITS_SAVE := CHOSEN.(job := SavingFirst(Fresh(REC_0)))
  const SAVED := LOADED.(pair := TOP, base := Some(TOP), status := SavedStatus)
  const READS_BACK := CHOSEN.(job := Preparing(4, Fresh(REC_0)))
  const READ_1 := Reading(Some(0), 1, "", [], false, Draft, false)
  const POSTS := CHOSEN.(queue := [Item(REC_1, Uploading)], job := Posting(5, REC_1, READ_1))

  lemma FirstSaves(replays: bool)
    ensures Serve(Blank(replays), Save("", Pair(None, 0))) == (First(replays), Saved(0, 1))
  {
    assert Normalize("") == "";
  }

  lemma SaveFirst(replays: bool) returns (events: seq<Event>)
    ensures Reaches(replays, events, Tabs(replays, First(replays), Tab(0, SAVES, AWAITS_SAVE), Tab(0, LOADED, RETRIES), STORE_0, 4, 4, 1))
  {
    events := RetrySecond(replays);
    events := FirstSteps(replays, events, Blank(replays), Tab(0, LOADED, CHOSEN), Tab(0, LOADED, RETRIES), STORE_0, 3, 3, 1,
      Proceed(0), Effect(Tab(0, SAVES, AWAITS_SAVE), Holding(STORE_0), Some(Save("", Pair(None, 0)))), STORE_0);
    FirstSaves(replays);
    events := Serves(replays, events, Blank(replays), Tab(0, SAVES, AWAITS_SAVE), Tab(0, LOADED, RETRIES), STORE_0, 4, 3, 1, First(replays));
  }

  lemma FirstSaveReply(replays: bool)
    ensures var s := Tabs(replays, First(replays), Tab(0, SAVES, AWAITS_SAVE), Tab(0, LOADED, RETRIES), STORE_0, 4, 4, 1);
      && |s.answers| == 4 && s.answers[3] == Answer(3, Blank(replays)) && |s.calls| == 4 && s.calls[3].client == 0
      && ReplyTo(s, s.answers[3]) == Saved(0, 1)
  {
    FirstSaves(replays);
  }

  lemma FirstSaveArrives(replays: bool)
    ensures var s := Tabs(replays, First(replays), Tab(0, SAVES, AWAITS_SAVE), Tab(0, LOADED, RETRIES), STORE_0, 4, 4, 1);
      var e := Deliver(3, FOUND, DISK, 0);
      && EventPage(s, e) == Some(0) && Careful(s, e)
      && Act(s, Tab(0, SAVES, AWAITS_SAVE), Holding(STORE_0), e) == Effect(Tab(0, SAVED, READS_BACK), Holding(STORE_0), Some(Read))
    ensures Call(0, Read, SAVED.persisted, First(replays)) == Calls(replays, 5)[4]
  {
    FirstSaveReply(replays);
  }

  lemma SavedFirst(replays: bool) returns (events: seq<Event>)
    ensures Reaches(replays, events, Tabs(replays, First(replays), Tab(0, SAVED, READS_BACK), Tab(0, LOADED, RETRIES), STORE_0, 5, 4, 1))
  {
    events := SaveFirst(replays);
    FirstSaveArrives(replays);
    events := FirstSteps(replays, events, First(replays), Tab(0, SAVES, AWAITS_SAVE), Tab(0, LOADED, RETRIES), STORE_0, 4, 4, 1,
      Deliver(3, FOUND, DISK, 0), Effect(Tab(0, SAVED, READS_BACK), Holding(STORE_0), Some(Read)), STORE_0);
  }

  lemma ReadBackFirst(replays: bool) returns (events: seq<Event>)
    ensures Reaches(replays, events, Tabs(replays, First(replays), Tab(0, SAVED, READS_BACK), Tab(0, LOADED, RETRIES), STORE_0, 5, 5, 1))
  {
    events := SavedFirst(replays);
    events := Serves(replays, events, First(replays), Tab(0, SAVED, READS_BACK), Tab(0, LOADED, RETRIES), STORE_0, 5, 4, 1, First(replays));
  }

  lemma PostsFirst()
    ensures Prepared(Tab(0, SAVED, READS_BACK), Holding(STORE_0), READ_1, Fresh(REC_0), DISK, 0, 5) ==
      Effect(Tab(0, SAVED, POSTS), Holding(STORE_1), Some(Upload(0, 1, 0, FILE)))
  {
    var before, to := TokensOf(REC_0), Tokens(READ_1);
    assert Advance(READS_BACK.queue, before, to, 0) == POSTS.queue;
    assert Find(POSTS.queue, 0) == Some(REC_1);
    assert READS_BACK.queue[..0] == [];
    assert StoreAdvance(STORE_0, READS_BACK.queue, before, to, 0) == STORE_1;
    assert Bind(POSTS.queue, REC_1) == POSTS.queue;
    assert STORE_1[(Some(0), 0) := REC_1] == STORE_1;
  }

  lemma PostFirst(replays: bool) returns (events: seq<Event>)
    ensures Reaches(replays, events, Tabs(replays, First(replays), Tab(0, SAVED, POSTS), Tab(0, LOADED, RETRIES), STORE_1, 6, 5, 1))
  {
    events := ReadBackFirst(replays);
    ReadBackArrives(replays);
    FirstPostRecorded(replays);
    events := FirstSteps(replays, events, First(replays), Tab(0, SAVED, READS_BACK), Tab(0, LOADED, RETRIES), STORE_0, 5, 5, 1,
      Deliver(4, FOUND, DISK, 0), Effect(Tab(0, SAVED, POSTS), Holding(STORE_1), Some(Upload(0, 1, 0, FILE))), STORE_1);
  }

  lemma ReadBackArrives(replays: bool)
    ensures var s := Tabs(replays, First(replays), Tab(0, SAVED, READS_BACK), Tab(0, LOADED, RETRIES), STORE_0, 5, 5, 1);
      var e := Deliver(4, FOUND, DISK, 0);
      && EventPage(s, e) == Some(0) && Careful(s, e)
      && Act(s, Tab(0, SAVED, READS_BACK), Holding(STORE_0), e) ==
         Effect(Tab(0, SAVED, POSTS), Holding(STORE_1), Some(Upload(0, 1, 0, FILE)))
  {
    ReadBackReply(replays);
    ReadBackPosts(replays);
  }

  lemma ReadBackReply(replays: bool)
    ensures var s := Tabs(replays, First(replays), Tab(0, SAVED, READS_BACK), Tab(0, LOADED, RETRIES), STORE_0, 5, 5, 1);
      && |s.answers| == 5 && s.answers[4] == Answer(4, First(replays)) && |s.calls| == 5 && s.calls[4].client == 0
      && ReplyTo(s, s.answers[4]) == Snapshot(READ_1)
  {
  }

  lemma ReadBackPosts(replays: bool)
    ensures Arrive(Tab(0, SAVED, READS_BACK), Holding(STORE_0), 4, Snapshot(READ_1), FOUND, DISK, 0, 5) ==
      Effect(Tab(0, SAVED, POSTS), Holding(STORE_1), Some(Upload(0, 1, 0, FILE)))
  {
    PostsFirst();
  }

  lemma FirstPostRecorded(replays: bool)
    ensures Call(0, Upload(0, 1, 0, FILE), SAVED.persisted, First(replays)) == Calls(replays, 6)[5]
  {
  }

  lemma UploadFirst(replays: bool) returns (events: seq<Event>)
    ensures Reaches(replays, events, Tabs(replays, Second(replays), Tab(0, SAVED, POSTS), Tab(0, LOADED, RETRIES), STORE_1, 6, 6, 1))
  {
    events := PostFirst(replays);
    ServesFirst(replays);
    events := Serves(replays, events, First(replays), Tab(0, SAVED, POSTS), Tab(0, LOADED, RETRIES), STORE_1, 6, 5, 1, Second(replays));
  }

  lemma ServesFirst(replays: bool)
    ensures Serve(First(replays), Upload(0, 1, 0, FILE)) == (Second(replays), Uploaded(IMAGE, 2))
  {
    var s := First(replays);
    assert FindClient([], 0) == None;
    assert [] + [IMAGE] == [IMAGE];
    assert PushSnap(s, 0, Snap("", [IMAGE])).(nextImage := 1) == Second(replays) by {
      assert [Snap("", [])] + [Snap("", [IMAGE])] == [Snap("", []), Snap("", [IMAGE])];
    }
  }

  // ---------------------------------------------------------------- the second tab posts it again

  const RELOADS := Client(0, LOADED, RETRIES, map[6 := false], None, None)
  const AT_2 := Pair(Some(0), 2)
  const RELOADED := LOADED.(pair := AT_2, base := Some(AT_2), images := [IMAGE])
  const PREPARES := RETRIES.(job := Preparing(7, Again(REC_0)))
  const READ_2 := Reading(Some(0), 2, "", [IMAGE], false, Draft, false)
  const POSTS_AGAIN := RETRIES.(queue := [Item(REC_2, Uploading)], job := Posting(8, REC_2, READ_2))

  lemma SecondReloads(replays: bool)
    ensures Arrive(RELOADS, Holding(STORE_1), 6, Snapshot(ReadCurrent(Second(replays))), FOUND, DISK, 0, 7) ==
      Stay(Tab(0, RELOADED, RETRIES), Holding(STORE_1))
  {
    assert map[6 := false] - {6} == map[];
  }

  lemma AskReload(replays: bool) returns (events: seq<Event>)
    ensures Reaches(replays, events, Tabs(replays, Second(replays), Tab(0, SAVED, POSTS), RELOADS, STORE_1, 7, 7, 1))
  {
    events := UploadFirst(replays);
    events := SecondSteps(replays, events, Second(replays), Tab(0, SAVED, POSTS), Tab(0, LOADED, RETRIES), STORE_1, 6, 6, 1,
      StartLoadUnit(1), Effect(RELOADS, Holding(STORE_1), Some(Read)), STORE_1);
    events := Serves(replays, events, Second(replays), Tab(0, SAVED, POSTS), RELOADS, STORE_1, 7, 6, 1, Second(replays));
  }

  lemma ReloadSecond(replays: bool) returns (events: seq<Event>)
    ensures Reaches(replays, events, Tabs(replays, Second(replays), Tab(0, SAVED, POSTS), Tab(0, RELOADED, RETRIES), STORE_1, 7, 7, 1))
  {
    events := AskReload(replays);
    SecondReloads(replays);
    events := SecondSteps(replays, events, Second(replays), Tab(0, SAVED, POSTS), RELOADS, STORE_1, 7, 7, 1,
      Deliver(6, FOUND, DISK, 0), Stay(Tab(0, RELOADED, RETRIES), Holding(STORE_1)), STORE_1);
  }

  lemma OldReadArrives(replays: bool)
    ensures CheckedAgain(Tab(0, RELOADED, RETRIES), Holding(STORE_1), ReadCurrent(Blank(replays)), REC_0, DISK, 0, 7) ==
      Effect(Tab(0, RELOADED, PREPARES), Holding(STORE_1), Some(Read))
  {
  }

  lemma OldReadReply(replays: bool)
    ensures var s := Tabs(replays, Second(replays), Tab(0, SAVED, POSTS), Tab(0, RELOADED, RETRIES), STORE_1, 7, 7, 1);
      && |s.answers| == 7 && s.answers[2] == Answer(2, Blank(replays)) && |s.calls| == 7 && s.calls[2].client == 1
      && ReplyTo(s, s.answers[2]) == Snapshot(ReadCurrent(Blank(replays)))
  {
  }

  lemma OldReadDelivered(replays: bool)
    ensures var s := Tabs(replays, Second(replays), Tab(0, SAVED, POSTS), Tab(0, RELOADED, RETRIES), STORE_1, 7, 7, 1);
      var e := Deliver(2, FOUND, DISK, 0);
      && EventPage(s, e) == Some(1) && Careful(s, e)
      && Act(s, Tab(0, RELOADED, RETRIES), Holding(STORE_1), e) == Effect(Tab(0, RELOADED, PREPARES), Holding(STORE_1), Some(Read))
  {
    OldReadReply(replays);
    OldReadArrives(replays);
  }

  /** Only now the answer to its first read arrives: no version, so the page goes on as if nothing were there. */
  lemma PrepareSecond(replays: bool) returns (events: seq<Event>)
    ensures Reaches(replays, events, Tabs(replays, Second(replays), Tab(0, SAVED, POSTS), Tab(0, RELOADED, PREPARES), STORE_1, 8, 8, 1))
  {
    events := ReloadSecond(replays);
    OldReadDelivered(replays);
    events := SecondSteps(replays, events, Second(replays), Tab(0, SAVED, POSTS), Tab(0, RELOADED, RETRIES), STORE_1, 7, 7, 1,
      Deliver(2, FOUND, DISK, 0), Effect(Tab(0, RELOADED, PREPARES), Holding(STORE_1), Some(Read)), STORE_1);
    events := Serves(replays, events, Second(replays), Tab(0, SAVED, POSTS), Tab(0, RELOADED, PREPARES), STORE_1, 8, 7, 1, Second(replays));
  }

  lemma PostsAgain()
    ensures Prepared(Tab(0, RELOADED, PREPARES), Holding(STORE_1), READ_2, Again(REC_0), DISK, 0, 8) ==
      Effect(Tab(0, RELOADED, POSTS_AGAIN), Holding(STORE_2), Some(Upload(0, 2, 0, FILE)))
  {
    var before, to := TokensOf(REC_0), Tokens(READ_2);
    assert Advance(PREPARES.queue, before, to, 0) == POSTS_AGAIN.queue;
    assert Find(POSTS_AGAIN.queue, 0) == Some(REC_2);
    assert PREPARES.queue[..0] == [];
    assert StoreAdvance(STORE_1, PREPARES.queue, before, to, 0) == STORE_2;
    assert Bind(POSTS_AGAIN.queue, REC_2) == POSTS_AGAIN.queue;
    assert STORE_2[(Some(0), 0) := REC_2] == STORE_2;
  }

  /** The read-back lists the image, and the page posts it all the same. */
  lemma PostSecond(replays: bool) returns (events: seq<Event>)
    ensures Reaches(replays, events, Tabs(replays, Second(replays), Tab(0, SAVED, POSTS), Tab(0, RELOADED, POSTS_AGAIN), STORE_2, 9, 8, 1))
  {
    events := PrepareSecond(replays);
    PostsAgain();
    events := SecondSteps(replays, events, Second(replays), Tab(0, SAVED, POSTS), Tab(0, RELOADED, PREPARES), STORE_1, 8, 8, 1,
      Deliver(7, FOUND, DISK, 0), Effect(Tab(0, RELOADED, POSTS_AGAIN), Holding(STORE_2), Some(Upload(0, 2, 0, FILE))), STORE_2);
  }

  lemma TwiceServed()
    ensures !AttachedOnce(Serve(Second(false), Upload(0, 2, 0, FILE)).0)
  {
    var t := Serve(Second(false), Upload(0, 2, 0, FILE)).0;
    assert [IMAGE][0].client == 0;
    TwiceInOne([IMAGE], Image(1, 0, 0, FILE));
    assert t.versions[0].snaps[2].images == [IMAGE] + [Image(1, 0, 0, FILE)];
  }

  /**
   * Two tabs that share a recovery store can attach one image twice, in a careful run under the
   * revision check and the read before a retry alone.
   */
  lemma SharedStoreAttachesTwice() returns (events: seq<Event>)
    ensures CarefulRun(Init(false), events) && !AttachedOnce(Exec(Init(false), events).server)
    ensures !GuardedRun(Init(false), events)
  {
    events := PostSecond(false);
    var s := Tabs(false, Second(false), Tab(0, SAVED, POSTS), Tab(0, RELOADED, POSTS_AGAIN), STORE_2, 9, 8, 1);
    events := Then(false, events, s, ServeCall(8));
    TwiceServed();
    if GuardedRun(Init(false), events) {
      AttachedOnceIfGuarded(false, events);
    }
  }

  // ---------------------------------------------------------------- the deployed store

  const POSTED := SAVED.(pair := AT_2, base := Some(AT_2), images := [IMAGE])
  const TYPES_B := POSTED.(draft := "b", status := Unsaved)
  const SAVES_B := TYPES_B.(status := Saving, saving := Some(SaveCall(9, "b", AT_2)))
  const SAVE_B := Call(0, Save("b", AT_2), "", Second(true))
  const THIRD := Server([Version([Snap("", []), Snap("", [IMAGE]), Snap("b", [IMAGE])], false)], Draft, map[], 1, false, true)

  lemma FirstPosted()
    ensures Posted(Tab(0, SAVED, POSTS), Holding(STORE_2), Uploaded(IMAGE, 2), REC_1, READ_1, DISK, 0) == Stay(Tab(0, POSTED, READY), Holding(map[]))
  {
    var ack := AckUpload(READ_1, IMAGE, 2, 0);
    assert ack.images == [IMAGE];
    assert Advance(POSTS.queue, Tokens(READ_1), Tokens(ack), 0) == [Item(REC_2, Uploading)];
    assert POSTS.queue[..0] == [];
    assert StoreAdvance(STORE_2, POSTS.queue, Tokens(READ_1), Tokens(ack), 0) == STORE_2;
    assert Find([Item(REC_2, Uploading)], 0) == Some(REC_2);
    assert STORE_2 - {StoreKey(REC_2)} == map[];
    assert Without([Item(REC_2, Uploading)][1..], 0) == [];
  }

  lemma FirstDelivered()
    ensures var s := Tabs(true, Second(true), Tab(0, SAVED, POSTS), Tab(0, RELOADED, POSTS_AGAIN), STORE_2, 9, 8, 1);
      var e := Deliver(5, FOUND, DISK, 0);
      && EventPage(s, e) == Some(0) && Careful(s, e)
      && Act(s, Tab(0, SAVED, POSTS), Holding(STORE_2), e) == Stay(Tab(0, POSTED, READY), Holding(map[]))
  {
    FirstPosted();
    ServesFirst(true);
  }

  /** The first tab learns of its upload. */
  lemma AnswerFirst() returns (events: seq<Event>)
    ensures Reaches(true, events, Tabs(true, Second(true), Tab(0, POSTED, READY), Tab(0, RELOADED, POSTS_AGAIN), map[], 9, 8, 1))
  {
    events := PostSecond(true);
    FirstDelivered();
    SharedKept(STORE_2, map[]);
    events := FirstDoes(true, events, Second(true), Tab(0, SAVED, POSTS), Tab(0, RELOADED, POSTS_AGAIN), Shared(STORE_2), Calls(true, 9), Answers(true, 8), 1, 0,
      Deliver(5, FOUND, DISK, 0), Stay(Tab(0, POSTED, READY), Holding(map[])));
  }

  lemma TypeB() returns (events: seq<Event>)
    ensures Reaches(true, events, Tabs(true, Second(true), Tab(0, TYPES_B, READY), Tab(0, RELOADED, POSTS_AGAIN), map[], 9, 8, 1))
  {
    events := AnswerFirst();
    SharedKept(map[], map[]);
    events := FirstDoes(true, events, Second(true), Tab(0, POSTED, READY), Tab(0, RELOADED, POSTS_AGAIN), Shared(map[]), Calls(true, 9), Answers(true, 8), 1, 0,
      Typing(0, "b"), Stay(Tab(0, TYPES_B, READY), Holding(map[])));
  }

  /** It saves "b" on top of the image. */
  lemma SaveB() returns (events: seq<Event>)
    ensures Reaches(true, events,
      Duo(THIRD, Tab(0, SAVES_B, READY), Tab(0, RELOADED, POSTS_AGAIN), Shared(map[]), Calls(true, 9) + [SAVE_B], Answers(true, 8) + [Answer(9, Second(true))], 1, 0))
  {
    events := TypeB();
    SharedKept(map[], map[]);
    events := FirstDoes(true, events, Second(true), Tab(0, TYPES_B, READY), Tab(0, RELOADED, POSTS_AGAIN), Shared(map[]), Calls(true, 9), Answers(true, 8), 1, 0,
      AutosaveTimer(0), Effect(Tab(0, SAVES_B, READY), Holding(map[]), Some(Save("b", AT_2))));
    ServesB();
    events := BothServed(true, events, Second(true), Tab(0, SAVES_B, READY), Tab(0, RELOADED, POSTS_AGAIN), Shared(map[]), Calls(true, 9) + [SAVE_B], Answers(true, 8), 1, 0, 9, THIRD);
  }

  lemma ServesB()
    ensures Serve(Second(true), SAVE_B.request).0 == THIRD
  {
    assert Normalize("b") == "b";
    assert [Snap("", []), Snap("", [IMAGE])] + [Snap("b", [IMAGE])] == [Snap("", []), Snap("", [IMAGE]), Snap("b", [IMAGE])];
  }

  lemma Replayed()
    ensures Serve(THIRD, Upload(0, 2, 0, FILE)) == (THIRD, Uploaded(IMAGE, 3))
  {
    assert [IMAGE][0].client == 0;
    assert FindClient([IMAGE], 0) == Some(IMAGE);
  }

  lemma ReplayOnItsWay() returns (events: seq<Event>)
    ensures Reaches(true, events,
      Duo(THIRD, Tab(0, SAVES_B, READY), Tab(0, RELOADED, POSTS_AGAIN), Shared(map[]), Calls(true, 9) + [SAVE_B],
          Answers(true, 8) + [Answer(9, Second(true)), Answer(8, THIRD)], 1, 0))
  {
    events := SaveB();
    Replayed();
    var answers := Answers(true, 8) + [Answer(9, Second(true))];
    events := BothServed(true, events, THIRD, Tab(0, SAVES_B, READY), Tab(0, RELOADED, POSTS_AGAIN), Shared(map[]), Calls(true, 9) + [SAVE_B], answers, 1, 0, 8, THIRD);
    assert answers + [Answer(8, THIRD)] == Answers(true, 8) + [Answer(9, Second(true)), Answer(8, THIRD)];
  }

  const MISTAKEN := RELOADED.(pair := Pair(Some(0), 3), base := Some(Pair(Some(0), 3)))

  lemma TakesAnother()
    ensures Posted(Tab(0, RELOADED, POSTS_AGAIN), Holding(map[]), Uploaded(IMAGE, 3), REC_2, READ_2, DISK, 0).client.panel == MISTAKEN
  {
    var ack := AckUpload(READ_2, IMAGE, 3, 0);
    assert WithoutClient([IMAGE][1..], 0) == [];
    assert ack.images == [IMAGE];
  }

  lemma LoseB(s: Server)
    requires s == THIRD
    ensures forall text :: WriteAccepted(s, Save(text, MISTAKEN.pair))
  {
    forall text ensures WriteAccepted(s, Save(text, MISTAKEN.pair)) {
      assert |Serve(s, Save(text, MISTAKEN.pair)).0.versions[0].snaps| == 4;
    }
  }

  /**
   * With the deployed store the same two tabs lose an update: the second tab posts the listed
   * image again, the replayed answer names the very next revision, and the tab takes it for its
   * own text, "", although it holds "b"; whatever it saves next is accepted and replaces "b".
   */
  lemma ReplayLosesText() returns (events: seq<Event>, e: Event)
    ensures CarefulRun(Init(true), events) && !Careful(Exec(Init(true), events), e)
    ensures var s := Exec(Init(true), events);
      var t := Next(s, e);
      && 1 in t.clients
      && var p := t.clients[1].panel;
      && p.persisted == "" && CurrentText(t.server) == "b"
      && TextAt(t.server, p.pair) != Some(Normalize(p.persisted))
      && (forall text :: WriteAccepted(t.server, Save(text, p.pair)))
  {
    events := ReplayOnItsWay();
    e := Deliver(9, FOUND, DISK, 0);
    ReplayDelivered(Exec(Init(true), events), e);
    LoseB(THIRD);
    assert Normalize("") == "";
  }

  lemma ReplayDelivered(s: System, e: Event)
    requires s == Duo(THIRD, Tab(0, SAVES_B, READY), Tab(0, RELOADED, POSTS_AGAIN), Shared(map[]), Calls(true, 9) + [SAVE_B],
          Answers(true, 8) + [Answer(9, Second(true)), Answer(8, THIRD)], 1, 0)
    requires e == Deliver(9, FOUND, DISK, 0)
    ensures !Careful(s, e) && Next(s, e).server == THIRD && 1 in Next(s, e).clients && Next(s, e).clients[1].panel == MISTAKEN
  {
    ReplayReply(s);
    TakesAnother();
    SharedKept(map[], map[]);
  }

  lemma ReplayReply(s: System)
    requires s == Duo(THIRD, Tab(0, SAVES_B, READY), Tab(0, RELOADED, POSTS_AGAIN), Shared(map[]), Calls(true, 9) + [SAVE_B],
          Answers(true, 8) + [Answer(9, Second(true)), Answer(8, THIRD)], 1, 0)
    ensures |s.answers| == 10 && s.answers[9] == Answer(8, THIRD) && |s.calls| == 10 && s.calls[8].client == 1
    ensures ReplyTo(s, s.answers[9]) == Uploaded(IMAGE, 3)
    ensures !Adoptable(READ_2, 0, FILE, 3)
  {
    Replayed();
    assert [IMAGE][0].client == 0;
  }
}

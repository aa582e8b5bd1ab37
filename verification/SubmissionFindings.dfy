/**
 * Where the protocol falls short of what it is for: runs from the empty system that break a
 * property, each beside the exact condition under which the step at fault keeps it.
 */
module SubmissionFindings {
  import opened Prelude
  import opened JsText
  import opened SubmissionServer
  import opened SubmissionHistory
  import opened PracticePanel
  import opened PracticeClient
  import opened SubmissionProtocol
  import opened SubmissionStructure
  import opened SubmissionTexts
  import opened SubmissionSeals
  import opened SubmissionKeys
  import opened SubmissionSlots
  import opened SubmissionRuns

  // ---------------------------------------------------------------- a save beside an open intent

  const SAVE_B := Call(0, Save("b", TOP), "a", ONE)
  const UNSAVED_B := HOLDS_A.(draft := "b", status := Unsaved)
  const SAVING_B := UNSAVED_B.(status := Saving, saving := Some(SaveCall(2, "b", TOP)))
  const BACK_TO_A := SAVING_B.(draft := "a", status := Unsaved)
  const FAILED_A := HOLDS_A.(status := PracticePanel.Failed)

  lemma SaveLost()
    ensures Arrive(Tab(0, BACK_TO_A, READY), NEW_DEVICE, 2, Refused, FOUND, DISK, 0, 3) ==
      Stay(Tab(0, FAILED_A, READY), NEW_DEVICE)
  {
  }

  /** "b" is sent and its answer lost, while the learner has typed "a" again. */
  lemma LoseB() returns (events: seq<Event>)
    ensures Plain(events)
    ensures Reaches(true, events,
      Solo(ONE, Tab(0, FAILED_A, READY), NEW_DEVICE, [CALL_0, CALL_1, SAVE_B], ANSWERS, 0))
  {
    events := TypeBack();
    SaveLost();
    events := PageDoes(true, events, ONE, Tab(0, BACK_TO_A, READY), NEW_DEVICE, [CALL_0, CALL_1, SAVE_B], ANSWERS, 0,
      Lose(2, 0), Stay(Tab(0, FAILED_A, READY), NEW_DEVICE));
  }

  lemma TypeBack() returns (events: seq<Event>)
    ensures Plain(events)
    ensures Reaches(true, events,
      Solo(ONE, Tab(0, BACK_TO_A, READY), NEW_DEVICE, [CALL_0, CALL_1, SAVE_B], ANSWERS, 0))
  {
    events := SendB();
    events := PageDoes(true, events, ONE, Tab(0, SAVING_B, READY), NEW_DEVICE, [CALL_0, CALL_1, SAVE_B], ANSWERS, 0,
      Typing(0, "a"), Stay(Tab(0, BACK_TO_A, READY), NEW_DEVICE));
  }

  lemma TypeB() returns (events: seq<Event>)
    ensures Plain(events)
    ensures Reaches(true, events, Solo(ONE, Tab(0, UNSAVED_B, READY), NEW_DEVICE, [CALL_0, CALL_1], ANSWERS, 0))
  {
    events := FirstDraft();
    events := PageDoes(true, events, ONE, Tab(0, HOLDS_A, READY), NEW_DEVICE, [CALL_0, CALL_1], ANSWERS, 0,
      Typing(0, "b"), Stay(Tab(0, UNSAVED_B, READY), NEW_DEVICE));
  }

  lemma SendB() returns (events: seq<Event>)
    ensures Plain(events)
    ensures Reaches(true, events,
      Solo(ONE, Tab(0, SAVING_B, READY), NEW_DEVICE, [CALL_0, CALL_1, SAVE_B], ANSWERS, 0))
  {
    events := TypeB();
    events := PageDoes(true, events, ONE, Tab(0, UNSAVED_B, READY), NEW_DEVICE, [CALL_0, CALL_1], ANSWERS, 0,
      AutosaveTimer(0), Effect(Tab(0, SAVING_B, READY), NEW_DEVICE, Some(Save("b", TOP))));
  }

  const INTENT := Intent(0, 0, 1, "a")
  const CALL_3 := Call(0, Seal(0, 0, 1), "a", ONE)
  const SENT := [CALL_0, CALL_1, SAVE_B, CALL_3]
  const OPEN_A := FAILED_A.(intent := Some(INTENT))
  const HOLDING := NEW_DEVICE.(slot := Some(INTENT))

  lemma SendSeal() returns (events: seq<Event>)
    ensures IntentsWritten(events)
    ensures Reaches(true, events,
      Solo(ONE, Tab(0, OPEN_A.(submit := Sealing(3, INTENT)), READY), HOLDING, SENT, ANSWERS, 1))
  {
    events := LoseB();
    events := SoloSeals(events, ONE, FAILED_A, NEW_DEVICE, [CALL_0, CALL_1, SAVE_B], ANSWERS, 0, true);
  }

  /** The intent is stored and its seal sent; the answer is lost as well. */
  lemma LoseSeal() returns (events: seq<Event>)
    ensures IntentsWritten(events)
    ensures Reaches(true, events, Solo(ONE, Tab(0, OPEN_A, READY), HOLDING, SENT, ANSWERS, 1))
  {
    events := SendSeal();
    events := PageDoes(true, events, ONE, Tab(0, OPEN_A.(submit := Sealing(3, INTENT)), READY), HOLDING, SENT, ANSWERS, 1,
      Lose(3, 0), Stay(Tab(0, OPEN_A, READY), HOLDING));
  }

  /**
   * "Retry save" does not look at the seal intent: in a careful run with every intent stored, a
   * page can send a save, which the server would accept, while its seal is still unanswered.
   */
  lemma RetrySaveBesideOpenIntent() returns (events: seq<Event>)
    ensures CarefulRun(Init(true), events) && IntentsWritten(events)
    ensures var s := Exec(Init(true), events);
      && 0 in s.clients && s.clients[0].panel.intent.Some? && OpenSeal(s, 0, 3)
      && Sends(s, RetrySaveClick(0), Save("a", TOP)) && WriteAccepted(s.server, Save("a", TOP))
  {
    events := LoseSeal();
    var eff := StartSave(Tab(0, OPEN_A, READY), HOLDING, 4);
    var more := PageDoes(true, events, ONE, Tab(0, OPEN_A, READY), HOLDING, SENT, ANSWERS, 1,
      RetrySaveClick(0), eff);
    assert more[..|more| - 1] == events;
    SaveAAgain();
  }

  lemma SaveAAgain()
    ensures WriteAccepted(ONE, Save("a", TOP)) && !SealDead(ONE, 0, 1)
  {
    assert |Serve(ONE, Save("a", TOP)).0.versions[0].snaps| == 2;
  }

  // ---------------------------------------------------------------- a conflict without its text

  const TWO := Server([Version([Snap("a", []), Snap("b", [])], false)], Draft, map[], 0, false, true)
  const ANSWERS_B := ANSWERS + [Answer(2, ONE)]
  const LATE_SEAL := Call(0, Seal(0, 0, 1), "a", TWO)
  const SENT_LATE := [CALL_0, CALL_1, SAVE_B, LATE_SEAL]
  const SEALING_A := OPEN_A.(submit := Sealing(3, INTENT))
  const BLIND := FAILED_A.(status := Conflicted, conflict := Some(Conflict(2, "", false, Some(0), false)))

  lemma ServeB()
    ensures Serve(ONE, SAVE_B.request).0 == TWO
  {
    assert Normalize("b") == "b";
    assert [Snap("a", [])] + [Snap("b", [])] == [Snap("a", []), Snap("b", [])];
  }

  /** The save of "b" reaches the server after all. */
  lemma LateB() returns (events: seq<Event>)
    ensures Plain(events)
    ensures Reaches(true, events,
      Solo(TWO, Tab(0, FAILED_A, READY), NEW_DEVICE, [CALL_0, CALL_1, SAVE_B], ANSWERS_B, 0))
  {
    events := LoseB();
    ServeB();
    events := ServerDoes(true, events, ONE, Tab(0, FAILED_A, READY), NEW_DEVICE, [CALL_0, CALL_1, SAVE_B], ANSWERS, 0, 2, TWO);
  }

  lemma SealLate() returns (events: seq<Event>)
    ensures IntentsWritten(events)
    ensures Reaches(true, events,
      Solo(TWO, Tab(0, SEALING_A, READY), HOLDING, SENT_LATE, ANSWERS_B, 1))
  {
    events := LateB();
    events := SoloSeals(events, TWO, FAILED_A, NEW_DEVICE, [CALL_0, CALL_1, SAVE_B], ANSWERS_B, 0, true);
  }

  lemma RefuseLate() returns (events: seq<Event>)
    ensures IntentsWritten(events)
    ensures Reaches(true, events,
      Solo(TWO, Tab(0, SEALING_A, READY), HOLDING, SENT_LATE, ANSWERS_B + [Answer(3, TWO)], 1))
  {
    events := SealLate();
    events := Then(true, events, Solo(TWO, Tab(0, SEALING_A, READY), HOLDING, SENT_LATE, ANSWERS_B, 1), ServeCall(3));
  }

  lemma SealRefused()
    ensures Serve(TWO, LATE_SEAL.request).1 == StaleRevision(2, None)
    ensures Arrive(Tab(0, SEALING_A, READY), HOLDING, 3, StaleRevision(2, None), FOUND, DISK, 0, 4) ==
      Stay(Tab(0, BLIND, READY), NEW_DEVICE)
  {
  }

  lemma BlindConflict() returns (events: seq<Event>)
    ensures IntentsWritten(events)
    ensures Reaches(true, events,
      Solo(TWO, Tab(0, BLIND, READY), NEW_DEVICE, SENT_LATE, ANSWERS_B + [Answer(3, TWO)], 1))
  {
    events := RefuseLate();
    assert (ANSWERS_B + [Answer(3, TWO)])[3] == Answer(3, TWO);
    SealRefused();
    events := PageDoes(true, events, TWO, Tab(0, SEALING_A, READY), HOLDING, SENT_LATE, ANSWERS_B + [Answer(3, TWO)], 1,
      Deliver(3, FOUND, DISK, 0), Stay(Tab(0, BLIND, READY), NEW_DEVICE));
  }

  /**
   * A lost update. The stale answer to a seal carries no text and the panel puts "" in its place;
   * taking the server's text then leaves the page with tokens for "b" and persisted text "", and
   * whatever it saves next is accepted and replaces "b", which the page never held.
   */
  lemma SealConflictLosesText() returns (events: seq<Event>)
    ensures CarefulRun(Init(true), events) && IntentsWritten(events)
    ensures var s := Next(Exec(Init(true), events), ResolveClick(0, false));
      && 0 in s.clients
      && var p := s.clients[0].panel;
      && p.persisted == "" && CurrentText(s.server) == "b"
      && TextAt(s.server, p.pair) != Some(Normalize(p.persisted))
      && (forall text :: WriteAccepted(s.server, Save(text, p.pair)))
  {
    events := BlindConflict();
    var s := Next(Exec(Init(true), events), ResolveClick(0, false));
    var eff := Stay(Tab(0, Resolve(BLIND, false), READY), NEW_DEVICE);
    assert EventPage(Exec(Init(true), events), ResolveClick(0, false)) == Some(0);
    assert s.clients[0] == eff.client;
    forall text ensures WriteAccepted(s.server, Save(text, s.clients[0].panel.pair)) {
      assert |Serve(s.server, Save(text, Pair(Some(0), 2))).0.versions[0].snaps| == 3;
    }
  }

  /** What resolving takes from a stale answer without text. */
  lemma BlindResolved(p: Panel, merge: bool, latest: nat)
    requires p.submit.Sealing?
    ensures var q := Resolve(SealReply(p, StaleRevision(latest, None)), merge);
      q.pair == Pair(p.pair.version, latest) && q.persisted == ""
  {
  }

  lemma StaleSealNames(s: Server, key: nat, v: nat, r: nat)
    requires ServerOk(s) && Serve(s, Seal(key, v, r)).1.StaleRevision?
    ensures var reply := Serve(s, Seal(key, v, r)).1;
      reply.latestText == None && TextAt(s, Pair(Some(v), reply.latestRevision)) == Some(CurrentText(s))
  {
    assert VersionOk(s, v);
  }

  lemma EmptyIsStored()
    ensures Normalize("") == ""
  {
  }

  /**
   * Right after a stale answer to a seal, resolving leaves the page with true tokens exactly when
   * the server's text is empty, the one text the panel's "" gets right.
   */
  lemma BlindResolveIff(s: Server, p: Panel, merge: bool, key: nat, v: nat, r: nat)
    requires ServerOk(s) && Serve(s, Seal(key, v, r)).1.StaleRevision?
    requires p.submit.Sealing? && SealRequest(p.submit.intent) == Seal(key, v, r) && p.pair.version == Some(v)
    ensures var q := Resolve(SealReply(p, Serve(s, Seal(key, v, r)).1), merge);
      TextAt(s, q.pair) == Some(Normalize(q.persisted)) <==> CurrentText(s) == ""
  {
    StaleSealNames(s, key, v, r);
    BlindResolved(p, merge, Serve(s, Seal(key, v, r)).1.latestRevision);
    EmptyIsStored();
  }

  // ---------------------------------------------------------------- reading back a saved draft

  /**
   * `prepareImageDraft` reads back the draft it has just saved. With nobody else writing, it goes
   * on exactly when the text was already in the form the server stores; otherwise, for a draft
   * with outer white space or carriage returns, it reports a conflict with itself.
   */
  lemma ReadbackAfterSaveIff(s: Server, p: Panel)
    requires ServerOk(s) && p.saving.Some?
    requires Serve(s, Save(p.saving.value.text, p.saving.value.base)).1.Saved?
    ensures var (t, reply) := Serve(s, Save(p.saving.value.text, p.saving.value.base));
      ReadbackMatches(SaveReply(p, reply), ReadCurrent(t)) <==> Normalize(p.saving.value.text) == p.saving.value.text
  {
    SavedIsCurrent(s, p.saving.value.text, p.saving.value.base);
  }

  /** Right after an accepted save the current version is the answered pair with the stored text, unsealed. */
  lemma SavedIsCurrent(s: Server, text: string, base: Pair)
    requires ServerOk(s) && Serve(s, Save(text, base)).1.Saved?
    ensures var (t, reply) := Serve(s, Save(text, base));
      var r := ReadCurrent(t);
      r.version == Some(reply.version) && r.revision == reply.revision && r.text == Normalize(text) && !r.isSealed
  {
    if s.versions != [] {
      assert VersionOk(s, |s.versions| - 1);
    }
  }

  // ---------------------------------------------------------------- an upload answered late

  /** A store that answers an upload based on the reading `current` with revision `r`. */
  ghost predicate Answers(s: Server, current: Reading, x: nat, digest: nat, r: nat) {
    && ServerOk(s) && ReadingTrue(s, current) && current.version.Some?
    && UploadImage(s, current.version.value, current.revision, x, digest).1.Uploaded?
    && UploadImage(s, current.version.value, current.revision, x, digest).1.revision == r
  }

  /** The tokens the page adopts from the answer name the text it posted with. */
  ghost predicate AdoptsTruth(s: Server, current: Reading, x: nat, digest: nat, r: nat) {
    current.version.Some? &&
    TextAt(UploadImage(s, current.version.value, current.revision, x, digest).0, Pair(current.version, r)) == Some(current.text)
  }

  lemma AnsweredSameRevision(s: Server, current: Reading, x: nat, digest: nat)
    requires Answers(s, current, x, digest, current.revision)
    ensures AdoptsTruth(s, current, x, digest, current.revision)
  {
    assert VersionOk(s, current.version.value);
  }

  lemma AnsweredNextRevision(s: Server, current: Reading, x: nat, digest: nat)
    requires Answers(s, current, x, digest, current.revision + 1) && !Lists(current.images, x, digest)
    ensures AdoptsTruth(s, current, x, digest, current.revision + 1)
  {
    assert UnlistedAt(s, current.version.value, current.revision, x, digest);
    NextAnswerKeepsText(s, current.version.value, current.revision, x, digest);
  }

  /** The attachments after the upload was first served; a file under the same id has given way to it. */
  function Attached(images: seq<Image>, x: nat, digest: nat, v: nat, id: nat): seq<Image> {
    if Lists(images, x, digest) then images
    else if HasClient(images, x) then [Image(id, x, v, digest)]
    else images + [Image(id, x, v, digest)]
  }

  /** What follows the reading: the upload, unless its file was listed already, and then saves of another text. */
  function Overtaking(current: Reading, x: nat, digest: nat, v: nat, id: nat, r: nat): seq<Snap>
    requires current.revision <= r
  {
    var after := Attached(current.images, x, digest, v, id);
    seq(r - current.revision, i => Snap(if i == 0 && !Lists(current.images, x, digest) then current.text else OtherText(current.text), after))
  }

  /** The history up to the reading, and then that. */
  function Overtaken(s: Server, current: Reading, x: nat, digest: nat, r: nat): Server
    requires current.version.Some? && current.version.value < |s.versions| && current.revision <= |s.versions[current.version.value].snaps|
    requires current.revision < r
  {
    var v := current.version.value;
    var snaps := s.versions[v].snaps[..current.revision] + Overtaking(current, x, digest, v, s.nextImage, r);
    Server(s.versions[..v] + [Version(snaps, false)], Draft, map[], s.nextImage + 1, false, true)
  }

  lemma OvertakingOk(current: Reading, x: nat, digest: nat, v: nat, id: nat, r: nat, i: nat)
    requires current.revision + i < r && SnapOk(Snap(current.text, current.images), v, id)
    ensures SnapOk(Overtaking(current, x, digest, v, id, r)[i], v, id + 1)
  {
    var other := OtherText(current.text);
    assert Normalize(other) == other;
  }

  /** Snapshots that may follow each other. */
  ghost predicate Chain(snaps: seq<Snap>, v: nat, next: nat) {
    && (forall i :: 0 <= i < |snaps| ==> SnapOk(snaps[i], v, next))
    && (forall i :: 1 <= i < |snaps| ==> OneChange(snaps[i - 1], snaps[i]))
  }

  lemma ChainJoins(front: seq<Snap>, back: seq<Snap>, v: nat, next: nat)
    requires Chain(front, v, next) && Chain(back, v, next)
    requires front != [] && back != [] ==> OneChange(front[|front| - 1], back[0])
    ensures Chain(front + back, v, next)
  {
    var all := front + back;
    forall i | 1 <= i < |all| ensures OneChange(all[i - 1], all[i]) {
      if i < |front| {
        assert all[i - 1] == front[i - 1] && all[i] == front[i];
      } else if i > |front| {
        assert all[i - 1] == back[i - 1 - |front|] && all[i] == back[i - |front|];
      }
    }
  }

  lemma OvertakingChain(current: Reading, x: nat, digest: nat, v: nat, id: nat, r: nat)
    requires current.revision < r && SnapOk(Snap(current.text, current.images), v, id)
    ensures var o := Overtaking(current, x, digest, v, id, r);
      Chain(o, v, id + 1) && o != [] && OneChange(Snap(current.text, current.images), o[0])
  {
    var o := Overtaking(current, x, digest, v, id, r);
    forall i | 0 <= i < |o| ensures SnapOk(o[i], v, id + 1) {
      OvertakingOk(current, x, digest, v, id, r, i);
    }
  }

  lemma OvertakenSnaps(s: Server, current: Reading, x: nat, digest: nat, r: nat)
    requires ServerOk(s) && ReadingTrue(s, current) && current.version.Some? && current.revision < r
    ensures var t := Overtaken(s, current, x, digest, r);
      var v := current.version.value;
      && |t.versions| == v + 1 && |t.versions[v].snaps| == r && VersionOk(t, v)
  {
    var v := current.version.value;
    assert VersionOk(s, v);
    var front := s.versions[v].snaps[..current.revision];
    var last := front[|front| - 1];
    assert SnapOk(last, v, s.nextImage) && last == Snap(current.text, current.images);
    assert Chain(front, v, s.nextImage + 1);
    OvertakingChain(current, x, digest, v, s.nextImage, r);
    ChainJoins(front, Overtaking(current, x, digest, v, s.nextImage, r), v, s.nextImage + 1);
  }

  lemma OvertakenOk(s: Server, current: Reading, x: nat, digest: nat, r: nat)
    requires ServerOk(s) && ReadingTrue(s, current) && current.version.Some? && !current.isSealed && current.revision < r
    ensures ServerOk(Overtaken(s, current, x, digest, r)) && ReadingTrue(Overtaken(s, current, x, digest, r), current)
  {
    var t := Overtaken(s, current, x, digest, r);
    OvertakenSnaps(s, current, x, digest, r);
    forall w | 0 <= w < |t.versions| ensures VersionOk(t, w) {
      if w < current.version.value {
        assert VersionOk(s, w);
      }
    }
  }

  lemma FoundAtEnd(images: seq<Image>, image: Image)
    requires !HasClient(images, image.client)
    ensures FindClient(images + [image], image.client) == Some(image)
  {
    var all := images + [image];
    assert all[|images|].client == image.client;
    var found := FindClient(all, image.client);
    var i :| 0 <= i < |all| && all[i] == found.value;
    assert i == |images|;
  }

  lemma AttachedLists(images: seq<Image>, x: nat, digest: nat, v: nat, id: nat)
    ensures Lists(Attached(images, x, digest, v, id), x, digest)
  {
    if !HasClient(images, x) {
      FoundAtEnd(images, Image(id, x, v, digest));
    } else if !Lists(images, x, digest) {
      FoundAtEnd([], Image(id, x, v, digest));
      assert [] + [Image(id, x, v, digest)] == [Image(id, x, v, digest)];
    }
  }

  lemma OvertakenAnswers(s: Server, current: Reading, x: nat, digest: nat, r: nat)
    requires ServerOk(s) && ReadingTrue(s, current) && current.version.Some? && !current.isSealed
    requires current.revision < r && !Adoptable(current, x, digest, r)
    ensures var t := Overtaken(s, current, x, digest, r);
      Answers(t, current, x, digest, r) && !AdoptsTruth(t, current, x, digest, r)
  {
    var t := Overtaken(s, current, x, digest, r);
    var v := current.version.value;
    OvertakenSnaps(s, current, x, digest, r);
    OvertakenOk(s, current, x, digest, r);
    AttachedLists(current.images, x, digest, v, s.nextImage);
    assert t.versions[v].snaps[r - 1] == Snap(OtherText(current.text), Attached(current.images, x, digest, v, s.nextImage));
  }

  /**
   * When an upload answer may be adopted, for every reading the post was based on: exactly if it
   * is the revision read, or the one right after it and the reading did not list the file. Then
   * the adopted tokens name the posted text in every history that can give this answer, and for
   * every other revision there is a history in which they name another text. The page adopts any
   * answered revision.
   */
  lemma UploadAnswerIff(s: Server, current: Reading, x: nat, digest: nat, r: nat)
    requires ServerOk(s) && ReadingTrue(s, current) && current.version.Some? && !current.isSealed
    requires current.revision <= r
    ensures (forall t :: Answers(t, current, x, digest, r) ==> AdoptsTruth(t, current, x, digest, r)) <==> Adoptable(current, x, digest, r)
  {
    if Adoptable(current, x, digest, r) {
      forall t | Answers(t, current, x, digest, r) ensures AdoptsTruth(t, current, x, digest, r) {
        if r == current.revision {
          AnsweredSameRevision(t, current, x, digest);
        } else {
          AnsweredNextRevision(t, current, x, digest);
        }
      }
    } else {
      OvertakenAnswers(s, current, x, digest, r);
    }
  }

  // ---------------------------------------------------------------- two tabs of one browser

  /**
   * The seal slot belongs to the browser, not to the tab. A click keeps an intent another tab has
   * left there exactly when this tab holds an intent of its own or cannot write; otherwise a fresh
   * key takes its place, whatever became of the other one.
   */
  lemma SecondTabKeepsSlotIff(s: System, page: nat, written: bool)
    requires SystemOk(s) && page in s.clients && Allowed(s.clients[page], s.devices[s.clients[page].device], Submit(page, written))
    requires s.devices[s.clients[page].device].slot.Some? && s.devices[s.clients[page].device].slot.value.key < s.nextKey
    ensures var device := s.clients[page].device;
      var t := Next(s, Submit(page, written));
      && device in t.devices
      && (t.devices[device].slot == s.devices[device].slot <==> s.clients[page].panel.intent.Some? || !written)
  {
    PageNext(s, Submit(page, written), page);
  }

  // ---------------------------------------------------------------- two open keys

  const KEY_1 := Intent(1, 0, 1, "a")
  const SEAL_0 := Call(0, Seal(0, 0, 1), "a", ONE)
  const SEALS_0 := HOLDS_A.(intent := Some(INTENT), submit := Sealing(2, INTENT))

  /** The first click: the browser refuses to store the intent, and the page asks for the seal all the same. */
  lemma SealUnwritten() returns (events: seq<Event>)
    ensures OwnDevices(events)
    ensures Reaches(true, events, Solo(ONE, Tab(0, SEALS_0, READY), NEW_DEVICE, [CALL_0, CALL_1, SEAL_0], ANSWERS, 1))
  {
    events := FirstDraft();
    events := SoloSeals(events, ONE, HOLDS_A, NEW_DEVICE, [CALL_0, CALL_1], ANSWERS, 0, false);
  }

  const AGAIN := Call(0, Read, "", ONE)
  const CALLS_AGAIN := [CALL_0, CALL_1, SEAL_0, AGAIN]
  const ANSWERS_AGAIN := ANSWERS + [Answer(3, ONE)]

  lemma ReloadPage() returns (events: seq<Event>)
    ensures OwnDevices(events)
    ensures Reaches(true, events, Solo(ONE, Loading(0, 3), NEW_DEVICE, CALLS_AGAIN, ANSWERS_AGAIN, 1))
  {
    events := SealUnwritten();
    var s := Solo(ONE, Tab(0, SEALS_0, READY), NEW_DEVICE, [CALL_0, CALL_1, SEAL_0], ANSWERS, 1);
    events := Then(true, events, s, Open(0, 0));
    assert Next(s, Open(0, 0)) == Solo(ONE, Page(0), NEW_DEVICE, [CALL_0, CALL_1, SEAL_0], ANSWERS, 1);
    events := PageDoes(true, events, ONE, Page(0), NEW_DEVICE, [CALL_0, CALL_1, SEAL_0], ANSWERS, 1,
      StartLoadUnit(0), StartLoad(Page(0), NEW_DEVICE, 3, false));
    events := ServerDoes(true, events, ONE, Loading(0, 3), NEW_DEVICE, CALLS_AGAIN, ANSWERS, 1, 3, ONE);
  }

  lemma LoadedAgain()
    ensures Arrive(Loading(0, 3), NEW_DEVICE, 3, Snapshot(ReadCurrent(ONE)), FOUND, DISK, 0, 4) == Stay(Tab(0, READ_A, NEW_EDITOR), NEW_DEVICE)
  {
    assert map[3 := false] - {3} == map[];
  }

  lemma ReadyAgain() returns (events: seq<Event>)
    ensures OwnDevices(events)
    ensures Reaches(true, events, Solo(ONE, Tab(0, READ_A, READY), NEW_DEVICE, CALLS_AGAIN, ANSWERS_AGAIN, 1))
  {
    events := ReloadPage();
    LoadedAgain();
    events := PageDoes(true, events, ONE, Loading(0, 3), NEW_DEVICE, CALLS_AGAIN, ANSWERS_AGAIN, 1,
      Deliver(2, FOUND, DISK, 0), Stay(Tab(0, READ_A, NEW_EDITOR), NEW_DEVICE));
    events := EmptyRecovery(true, events, ONE, READ_A, CALLS_AGAIN, ANSWERS_AGAIN, 1);
  }

  const SEALS_1 := READ_A.(intent := Some(KEY_1), submit := Sealing(4, KEY_1))
  const SEAL_1 := Call(0, Seal(1, 0, 1), "a", ONE)

  lemma SealAgain() returns (events: seq<Event>)
    ensures OwnDevices(events)
    ensures Reaches(true, events,
      Solo(ONE, Tab(0, SEALS_1, READY), NEW_DEVICE.(slot := Some(KEY_1)), CALLS_AGAIN + [SEAL_1], ANSWERS_AGAIN, 2))
  {
    events := ReadyAgain();
    events := SoloSeals(events, ONE, READ_A, NEW_DEVICE, CALLS_AGAIN, ANSWERS_AGAIN, 1, true);
  }

  lemma BothOpen(s: System, j: nat, k: nat, page: nat)
    requires s.server == ONE && j < |s.calls| && k < |s.calls| && s.calls[j].client in s.clients && page in s.clients
    requires s.calls[j].request == Seal(0, 0, 1) && s.calls[k].request == Seal(1, 0, 1) && s.calls[k].client == page
    requires s.clients[s.calls[j].client].device == 0 && s.clients[page].device == 0
    ensures OpenOn(s, 0, j) && OpenOn(s, 0, k) && TwoOpen(s, 0)
    ensures OpenSeal(s, s.calls[j].client, j) && OpenSeal(s, page, k)
  {
  }

  /**
   * A refused storage and a reload: in a careful run of a page on its own device the intent was
   * not stored, the reloaded page knows of none, and its next click opens a second key for the
   * same version and revision while the first can still take effect.
   */
  lemma ReloadOpensSecondKey() returns (events: seq<Event>)
    ensures CarefulRun(Init(true), events) && OwnDevices(events)
    ensures var s := Exec(Init(true), events);
      && OpenSeal(s, 0, 2) && OpenSeal(s, 0, 4) && s.calls[2].request != s.calls[4].request && TwoOpen(s, 0)
  {
    events := SealAgain();
    BothOpen(Exec(Init(true), events), 2, 4, 0);
  }

  const SEALS_3 := HOLDS_A.(intent := Some(INTENT), submit := Sealing(3, INTENT))


  ghost predicate AllReliable(events: seq<Event>) {
    forall i :: 0 <= i < |events| ==> Reliable(events[i])
  }

  lemma FirstTabSeals() returns (events: seq<Event>)
    ensures AllReliable(events)
    ensures Reaches(true, events,
      Duo(ONE, Tab(0, SEALS_3, READY), Tab(0, READ_A, READY), Both(0)[0 := HOLDING], [CALL_0, CALL_1, CALL_2, SEAL_0], ANSWERS_2, 0, 1))
  {
    events := SecondTab(0);
    BothKept(0, 0);
    SealActs(Duo(ONE, Tab(0, HOLDS_A, READY), Tab(0, READ_A, READY), Both(0), [CALL_0, CALL_1, CALL_2], ANSWERS_2, 0, 0), 0, 0, HOLDS_A, NEW_DEVICE, true);
    events := FirstDoes(true, events, ONE, Tab(0, HOLDS_A, READY), Tab(0, READ_A, READY), Both(0), [CALL_0, CALL_1, CALL_2], ANSWERS_2, 0, 0,
      Submit(0, true), Effect(Tab(0, SEALS_3, READY), HOLDING, Some(Seal(0, 0, 1))));
  }

  lemma SecondTabSeals() returns (events: seq<Event>)
    ensures AllReliable(events)
    ensures Reaches(true, events,
      Duo(ONE, Tab(0, SEALS_3, READY), Tab(0, SEALS_1, READY), Both(0)[0 := NEW_DEVICE.(slot := Some(KEY_1))],
          [CALL_0, CALL_1, CALL_2, SEAL_0, Call(1, Seal(1, 0, 1), "a", ONE)], ANSWERS_2, 0, 2))
  {
    events := FirstTabSeals();
    SealActs(Duo(ONE, Tab(0, SEALS_3, READY), Tab(0, READ_A, READY), Both(0)[0 := HOLDING], [CALL_0, CALL_1, CALL_2, SEAL_0], ANSWERS_2, 0, 1), 1, 0, READ_A, HOLDING, true);
    assert Both(0)[0 := HOLDING][0 := NEW_DEVICE.(slot := Some(KEY_1))] == Both(0)[0 := NEW_DEVICE.(slot := Some(KEY_1))];
    events := SecondDoes(true, events, ONE, Tab(0, SEALS_3, READY), Tab(0, READ_A, READY), Both(0)[0 := HOLDING], [CALL_0, CALL_1, CALL_2, SEAL_0], ANSWERS_2, 0, 1,
      Submit(1, true), Effect(Tab(0, SEALS_1, READY), NEW_DEVICE.(slot := Some(KEY_1)), Some(Seal(1, 0, 1))));
  }

  /**
   * Two tabs of one browser, every intent stored and found: the second tab had loaded before the
   * first one clicked, so it knows of no intent and opens a second key in the same slot.
   */
  lemma SecondTabOpensSecondKey() returns (events: seq<Event>)
    ensures CarefulRun(Init(true), events) && AllReliable(events) && !GuardedClicks(Init(true), events)
    ensures var s := Exec(Init(true), events);
      OpenSeal(s, 0, 3) && OpenSeal(s, 1, 4) && s.calls[3].request != s.calls[4].request && TwoOpen(s, 0)
  {
    events := SecondTabSeals();
    BothOpen(Exec(Init(true), events), 3, 4, 1);
    if GuardedClicks(Init(true), events) {
      RunHoldsOpen(true, events, 0);
    }
  }

  // ---------------------------------------------------------------- merging

  /** Whatever the two texts are, the saved merge contains the server's text and the learner's draft as the server stores them. */
  lemma MergedSaveContainsBoth(p: Panel)
    requires p.conflict.Some? && !p.conflict.value.versionChanged
    requires Normalize(p.conflict.value.latestText) == p.conflict.value.latestText
    ensures Contains(Normalize(Resolve(p, true).draft), p.conflict.value.latestText)
    ensures Contains(Normalize(Resolve(p, true).draft), Normalize(p.draft))
  {
    var latest := p.conflict.value.latestText;
    var merged := latest + SEPARATOR + p.draft;
    FoldBreaksHasNoReturn(latest);
    FoldMerged(latest, p.draft);
    var whole := FoldBreaks(merged);
    TrimIsStretch(FoldBreaks(latest));
    TrimIsStretch(FoldBreaks(p.draft));
    assert whole[0..|latest|] == latest;
    var from := |latest| + |SEPARATOR|;
    assert whole[from..|whole|] == FoldBreaks(p.draft);
    ContainsTransitive(whole, FoldBreaks(p.draft), Normalize(p.draft));
    TrimKeepsStretch(whole, latest);
    TrimKeepsStretch(whole, Normalize(p.draft));
  }

  lemma FoldMerged(latest: string, draft: string)
    requires Normalize(latest) == latest
    ensures FoldBreaks(latest + SEPARATOR + draft) == latest + SEPARATOR + FoldBreaks(draft)
  {
    var head := latest + SEPARATOR;
    assert head[|head| - 1] == '\n';
    FoldBreaksConcat(head, draft);
    NormalHasNoReturn(latest);
    assert '\r' !in head;
    FoldBreaksFixed(head);
  }

  lemma NormalHasNoReturn(latest: string)
    requires Normalize(latest) == latest
    ensures '\r' !in latest
  {
    FoldBreaksHasNoReturn(latest);
    var a, b := TrimBounds(FoldBreaks(latest));
    assert forall k :: 0 <= k < |latest| ==> latest[k] == FoldBreaks(latest)[a + k];
  }
}

/**
 * When a conflict may be resolved. The page puts the conflict's text at the conflict's revision of
 * the version it now holds; what it knows justifies that exactly if an answer quoted the text for
 * this very version, or if the page holds that pair with that text anyway. A run of two pages
 * shows a quoted conflict resolved against another version.
 */
module SubmissionConflicts {
  import opened Prelude
  import opened JsText
  import opened SubmissionServer
  import opened SubmissionHistory
  import opened PracticePanel
  import opened PracticeClient
  import opened SubmissionProtocol
  import opened SubmissionStructure
  import opened SubmissionTexts
  import opened SubmissionSeals
  import opened SubmissionRuns

  // ---------------------------------------------------------------- the exact condition

  /** The page's own pairs, without the conflict's: the ones whose text it must have right. */
  predicate Holds(p: Panel, q: Pair) {
    || q == p.pair || (p.base.Some? && q == p.base.value)
    || (p.intent.Some? && q == Pair(Some(p.intent.value.version), p.intent.value.revision))
    || (!p.submit.NotSubmitting? && q == Pair(Some(p.submit.intent.version), p.submit.intent.revision))
    || (p.conflict.Some? && p.conflict.value.quoted && !p.conflict.value.versionChanged && q == Pair(p.conflict.value.about, p.conflict.value.latestRevision))
  }

  /** A held pair that is not vouched for stands for another text. */
  lemma HeldOtherwise(s: Server, p: Panel)
    requires ServerOk(s) && PanelTrue(s, p) && p.conflict.Some? && !p.conflict.value.versionChanged
    requires !Vouched(p) && Holds(p, ResolvedPair(p))
    ensures !Names(s, ResolvedPair(p), p.conflict.value.latestText)
  {
  }

  // ---------------------------------------------------------------- another history

  /** The same texts without any attachment. */
  function Bare(snaps: seq<Snap>): seq<Snap> {
    seq(|snaps|, i requires 0 <= i < |snaps| => Snap(snaps[i].text, []))
  }

  /** The snapshots with another text at revision `k`, ending in the same text. */
  function Altered(snaps: seq<Snap>, k: nat, text: string): seq<Snap>
    requires snaps != []
  {
    var changed := if 1 <= k <= |snaps| then Bare(snaps)[k - 1 := Snap(OtherText(text), [])] else Bare(snaps);
    changed + [Snap(if k == 0 then OtherText(text) else snaps[|snaps| - 1].text, [])]
  }

  /** A history in which `q` does not name `text`, and every other pair names what it named. */
  function Elsewhere(s: Server, q: Pair, text: string): Server
    requires q.version.Some? && q.version.value < |s.versions| && s.versions[q.version.value].snaps != []
  {
    var v := q.version.value;
    s.(versions := s.versions[v := s.versions[v].(snaps := Altered(s.versions[v].snaps, q.revision, text))], receipts := map[])
  }

  lemma AlteredOk(snaps: seq<Snap>, k: nat, text: string, v: nat, next: nat)
    requires snaps != [] && forall r :: 0 <= r < |snaps| ==> Normalize(snaps[r].text) == snaps[r].text
    ensures var a := Altered(snaps, k, text);
      && |a| == |snaps| + 1
      && (forall r :: 0 <= r < |a| ==> SnapOk(a[r], v, next) && a[r].images == [])
  {
    var other := OtherText(text);
    var last := snaps[|snaps| - 1];
    assert Normalize(other) == other && Normalize(last.text) == last.text;
  }

  lemma AlteredVersionOk(s: Server, q: Pair, text: string)
    requires ServerOk(s) && q.version.Some? && q.version.value < |s.versions| && s.versions[q.version.value].snaps != []
    ensures VersionOk(Elsewhere(s, q, text), q.version.value)
  {
    var v := q.version.value;
    assert VersionOk(s, v);
    forall r | 0 <= r < |s.versions[v].snaps| ensures Normalize(s.versions[v].snaps[r].text) == s.versions[v].snaps[r].text {
      assert SnapOk(s.versions[v].snaps[r], v, s.nextImage);
    }
    AlteredOk(s.versions[v].snaps, q.revision, text, v, s.nextImage);
  }

  /** A server with the same versions but one, which is well formed, and without receipts. */
  lemma OneVersionOk(s: Server, t: Server, v: nat)
    requires ServerOk(s) && v < |s.versions| && |t.versions| == |s.versions| && VersionOk(t, v)
    requires forall w :: 0 <= w < |s.versions| && w != v ==> t.versions[w] == s.versions[w]
    requires t.versions[v].isSealed == s.versions[v].isSealed && t.stage == s.stage && t.nextImage == s.nextImage && t.receipts == map[]
    ensures ServerOk(t)
  {
    forall w | 0 <= w < |t.versions| ensures VersionOk(t, w) {
      assert VersionOk(s, w);
    }
  }

  lemma ElsewhereOk(s: Server, q: Pair, text: string)
    requires ServerOk(s) && q.version.Some? && q.version.value < |s.versions| && s.versions[q.version.value].snaps != []
    ensures ServerOk(Elsewhere(s, q, text))
  {
    AlteredVersionOk(s, q, text);
    OneVersionOk(s, Elsewhere(s, q, text), q.version.value);
  }

  lemma AlteredOther(snaps: seq<Snap>, k: nat, text: string, r: nat)
    requires snaps != [] && r < |snaps| && r + 1 != k
    ensures r < |Altered(snaps, k, text)| && Altered(snaps, k, text)[r].text == snaps[r].text
  {
  }

  lemma AlteredAt(snaps: seq<Snap>, k: nat, text: string)
    requires snaps != [] && 1 <= k <= |snaps|
    ensures k <= |Altered(snaps, k, text)| && Altered(snaps, k, text)[k - 1].text != text
  {
  }

  lemma AlteredLast(snaps: seq<Snap>, k: nat, text: string)
    requires snaps != []
    ensures |Altered(snaps, k, text)| == |snaps| + 1
    ensures if k == 0 then Altered(snaps, k, text)[|snaps|].text != text else Altered(snaps, k, text)[|snaps|].text == snaps[|snaps| - 1].text
  {
  }

  /** Other pairs keep their texts. */
  lemma ElsewhereTexts(s: Server, q: Pair, text: string, p: Pair)
    requires q.version.Some? && q.version.value < |s.versions| && s.versions[q.version.value].snaps != []
    requires p != q && TextAt(s, p).Some?
    ensures TextAt(Elsewhere(s, q, text), p) == TextAt(s, p)
  {
    if p.version == q.version {
      SameVersionTexts(s, q.version.value, q.revision, text, p.revision);
    }
  }

  lemma SameVersionTexts(s: Server, v: nat, k: nat, text: string, r: nat)
    requires v < |s.versions| && s.versions[v].snaps != [] && r != k
    requires TextAt(s, Pair(Some(v), r)).Some?
    ensures TextAt(Elsewhere(s, Pair(Some(v), k), text), Pair(Some(v), r)) == TextAt(s, Pair(Some(v), r))
  {
    if r == 0 {
      AlteredLast(s.versions[v].snaps, k, text);
    } else {
      AlteredOther(s.versions[v].snaps, k, text, r - 1);
    }
  }

  /** `q` gets another text, or none. */
  lemma ElsewhereDiffers(s: Server, q: Pair, text: string)
    requires q.version.Some? && q.version.value < |s.versions| && s.versions[q.version.value].snaps != []
    requires TextAt(s, q).Some?
    ensures TextAt(Elsewhere(s, q, text), q) != Some(text)
  {
    if q.revision == 0 {
      AlteredLast(s.versions[q.version.value].snaps, 0, text);
    } else {
      AlteredAt(s.versions[q.version.value].snaps, q.revision, text);
    }
  }

  lemma ElsewhereIntent(s: Server, q: Pair, text: string, i: Intent)
    requires ServerOk(s) && q.version.Some? && TextAt(s, q).Some? && s.versions[q.version.value].snaps != []
    requires IntentTrue(s, i) && Pair(Some(i.version), i.revision) != q
    ensures IntentTrue(Elsewhere(s, q, text), i)
  {
    ElsewhereTexts(s, q, text, Pair(Some(i.version), i.revision));
  }

  /** Whatever the page holds about other pairs stays true there. */
  lemma ElsewhereTrue(s: Server, p: Panel, q: Pair, text: string)
    requires ServerOk(s) && PanelTrue(s, p) && q.version.Some? && TextAt(s, q).Some? && s.versions[q.version.value].snaps != []
    requires !Holds(p, q)
    ensures PanelTrue(Elsewhere(s, q, text), p)
  {
    ElsewhereTexts(s, q, text, p.pair);
    if p.base.Some? {
      ElsewhereTexts(s, q, text, p.base.value);
    }
    if p.conflict.Some? && p.conflict.value.quoted && !p.conflict.value.versionChanged {
      ElsewhereTexts(s, q, text, Pair(p.conflict.value.about, p.conflict.value.latestRevision));
    }
    if p.intent.Some? {
      ElsewhereIntent(s, q, text, p.intent.value);
    }
    if !p.submit.NotSubmitting? {
      ElsewhereIntent(s, q, text, p.submit.intent);
    }
  }

  /** In every history in which what the page holds is true, resolving gives tokens that name its text. */
  ghost predicate ResolvesTruly(p: Panel, merge: bool)
    requires p.conflict.Some? && !p.conflict.value.versionChanged
  {
    forall s :: ServerOk(s) && PanelTrue(s, p) ==> Names(s, Resolve(p, merge).pair, Resolve(p, merge).persisted)
  }

  lemma ResolveGives(p: Panel, merge: bool)
    requires p.conflict.Some? && !p.conflict.value.versionChanged
    ensures Resolve(p, merge).pair == ResolvedPair(p) && Resolve(p, merge).persisted == p.conflict.value.latestText
  {
  }

  /** Without anything to vouch for it, some history gives the resolved pair another text. */
  lemma UnvouchedFails(s: Server, p: Panel) returns (t: Server)
    requires ServerOk(s) && PanelTrue(s, p) && p.conflict.Some? && !p.conflict.value.versionChanged && !Vouched(p)
    ensures ServerOk(t) && PanelTrue(t, p) && !Names(t, ResolvedPair(p), p.conflict.value.latestText)
  {
    var q := ResolvedPair(p);
    var text := p.conflict.value.latestText;
    t := s;
    if Holds(p, q) {
      HeldOtherwise(s, p);
    } else if q.version.Some? && Names(s, q, text) {
      assert VersionOk(s, q.version.value);
      t := Elsewhere(s, q, Normalize(text));
      ElsewhereOk(s, q, Normalize(text));
      ElsewhereTrue(s, p, q, Normalize(text));
      ElsewhereDiffers(s, q, Normalize(text));
    }
  }

  /**
   * The exact condition, on the page alone: for every panel that can occur in some history,
   * resolving is right in all histories exactly when something the page holds vouches for the
   * conflict's text at the resolved pair.
   */
  lemma ResolveIff(s: Server, p: Panel, merge: bool)
    requires ServerOk(s) && PanelTrue(s, p) && p.conflict.Some? && !p.conflict.value.versionChanged
    ensures ResolvesTruly(p, merge) <==> Vouched(p)
  {
    ResolveGives(p, merge);
    if Vouched(p) {
      forall t | ServerOk(t) && PanelTrue(t, p) ensures Names(t, Resolve(p, merge).pair, Resolve(p, merge).persisted) {
        VouchedNames(t, p);
      }
    } else {
      var t := UnvouchedFails(s, p);
    }
  }

  /** The conflict's revision is news to the page: it is no pair the page holds already. */
  predicate News(p: Panel)
    requires p.conflict.Some?
  {
    var q := ResolvedPair(p);
    && q.version.Some? && q != p.pair && p.base != Some(q)
    && (p.intent.Some? ==> q != Pair(Some(p.intent.value.version), p.intent.value.revision))
    && (!p.submit.NotSubmitting? ==> q != Pair(Some(p.submit.intent.version), p.submit.intent.revision))
  }

  /** For a conflict that brings news: exactly when its text was quoted, and for the version still held. */
  lemma FreshResolveIff(s: Server, p: Panel, merge: bool)
    requires ServerOk(s) && PanelTrue(s, p) && p.conflict.Some? && !p.conflict.value.versionChanged && News(p)
    ensures ResolvesTruly(p, merge) <==> p.conflict.value.quoted && p.conflict.value.about == p.pair.version
  {
    ResolveIff(s, p, merge);
  }

  /** So the guard that `Careful` puts on a resolve click is exact: in every careful run, on every page, for every conflict. */
  lemma CarefulResolveIff(replays: bool, events: seq<Event>, page: nat, merge: bool)
    requires CarefulRun(Init(replays), events) && page in Exec(Init(replays), events).clients
    requires var p := Exec(Init(replays), events).clients[page].panel; p.conflict.Some? && !p.conflict.value.versionChanged
    ensures var s := Exec(Init(replays), events);
      Careful(s, ResolveClick(page, merge)) <==> ResolvesTruly(s.clients[page].panel, merge)
  {
    Occurs(replays, events, page);
    var s := Exec(Init(replays), events);
    ResolveIff(s.server, s.clients[page].panel, merge);
  }

  lemma Occurs(replays: bool, events: seq<Event>, page: nat)
    requires CarefulRun(Init(replays), events) && page in Exec(Init(replays), events).clients
    ensures var s := Exec(Init(replays), events); ServerOk(s.server) && PanelTrue(s.server, s.clients[page].panel)
  {
    InitOk(replays);
    CarefulRunTrue(Init(replays), events);
  }

  // ---------------------------------------------------------------- a run that resolves another version's conflict

  const EDITS_B := HOLDS_A.(draft := "b", status := Unsaved)
  const SAVES_B := EDITS_B.(status := Saving, saving := Some(SaveCall(3, "b", TOP)))
  const CALL_3 := Call(0, Save("b", TOP), "a", ONE)
  const CALLS_3 := [CALL_0, CALL_1, CALL_2, CALL_3]

  const SEAL_A := Intent(0, 0, 1, "a")
  const SEALS_A := READ_A.(intent := Some(SEAL_A), submit := Sealing(4, SEAL_A))
  const CALL_4 := Call(1, Seal(0, 0, 1), "a", ONE)
  const CALLS_4 := CALLS_3 + [CALL_4]
  const SEALING := Both(1)[1 := NEW_DEVICE.(slot := Some(SEAL_A))]

  const SEALED := Server([Version([Snap("a", [])], true)], Submitted, map[0 := Receipt(0, 1)], 0, false, true)
  const ASKED := SEALED.(stage := RevisionRequested)
  const ANSWERS_4 := ANSWERS_2 + [Answer(4, ONE)]
  const ANSWERS_5 := ANSWERS_4 + [Answer(3, ASKED)]

  lemma TypeB() returns (events: seq<Event>)
    ensures PlainIf(events, 1)
    ensures Reaches(true, events, Duo(ONE, Tab(0, EDITS_B, READY), Tab(1, READ_A, READY), Both(1), [CALL_0, CALL_1, CALL_2], ANSWERS_2, 0, 0))
  {
    events := SecondTab(1);
    BothKept(1, 0);
    events := FirstDoes(true, events, ONE, Tab(0, HOLDS_A, READY), Tab(1, READ_A, READY), Both(1), [CALL_0, CALL_1, CALL_2], ANSWERS_2, 0, 0,
      Typing(0, "b"), Stay(Tab(0, EDITS_B, READY), NEW_DEVICE));
  }

  /** Page 0 sends "b" for the first revision. */
  lemma SendB() returns (events: seq<Event>)
    ensures PlainIf(events, 1)
    ensures Reaches(true, events, Duo(ONE, Tab(0, SAVES_B, READY), Tab(1, READ_A, READY), Both(1), CALLS_3, ANSWERS_2, 0, 0))
  {
    events := TypeB();
    BothKept(1, 0);
    events := FirstDoes(true, events, ONE, Tab(0, EDITS_B, READY), Tab(1, READ_A, READY), Both(1), [CALL_0, CALL_1, CALL_2], ANSWERS_2, 0, 0,
      AutosaveTimer(0), Effect(Tab(0, SAVES_B, READY), NEW_DEVICE, Some(Save("b", TOP))));
  }

  /** Page 1 seals the first revision. */
  lemma SealFirst() returns (events: seq<Event>)
    ensures IntentsWritten(events)
    ensures Reaches(true, events, Duo(ONE, Tab(0, SAVES_B, READY), Tab(1, SEALS_A, READY), SEALING, CALLS_4, ANSWERS_2, 0, 1))
  {
    events := SendB();
    BothKept(1, 1);
    SealActs(Duo(ONE, Tab(0, SAVES_B, READY), Tab(1, READ_A, READY), Both(1), CALLS_3, ANSWERS_2, 0, 0), 1, 1, READ_A, NEW_DEVICE, true);
    events := SecondDoes(true, events, ONE, Tab(0, SAVES_B, READY), Tab(1, READ_A, READY), Both(1), CALLS_3, ANSWERS_2, 0, 0,
      Submit(1, true), Effect(Tab(1, SEALS_A, READY), NEW_DEVICE.(slot := Some(SEAL_A)), Some(Seal(0, 0, 1))));
  }

  lemma ServedSeal()
    ensures Serve(ONE, CALL_4.request).0 == SEALED && Serve(ONE, CALL_4.request).1 == SealAccepted
    ensures Decide(SEALED, false) == ASKED
    ensures Serve(ASKED, CALL_3.request) == (ASKED, StaleRevision(0, Some("a")))
  {
  }

  lemma AskRevision() returns (events: seq<Event>)
    ensures IntentsWritten(events)
    ensures Reaches(true, events, Duo(ASKED, Tab(0, SAVES_B, READY), Tab(1, SEALS_A, READY), SEALING, CALLS_4, ANSWERS_4, 0, 1))
  {
    events := SealFirst();
    ServedSeal();
    events := BothServed(true, events, ONE, Tab(0, SAVES_B, READY), Tab(1, SEALS_A, READY), SEALING, CALLS_4, ANSWERS_2, 0, 1, 4, SEALED);
    events := Then(true, events, Duo(SEALED, Tab(0, SAVES_B, READY), Tab(1, SEALS_A, READY), SEALING, CALLS_4, ANSWERS_4, 0, 1), TeacherDecides(false));
  }

  /** It is sealed, the teacher asks for a revision, and only then "b" is served: too late. */
  lemma LateB() returns (events: seq<Event>)
    ensures IntentsWritten(events)
    ensures Reaches(true, events, Duo(ASKED, Tab(0, SAVES_B, READY), Tab(1, SEALS_A, READY), SEALING, CALLS_4, ANSWERS_5, 0, 1))
  {
    events := AskRevision();
    ServedSeal();
    events := BothServed(true, events, ASKED, Tab(0, SAVES_B, READY), Tab(1, SEALS_A, READY), SEALING, CALLS_4, ANSWERS_4, 0, 1, 3, ASKED);
  }

  const CALL_5 := Call(1, Read, "a", ASKED)
  const CALLS_5 := CALLS_4 + [CALL_5]
  const AWAITS := Client(1, READ_A, READY, map[5 := false], None, None)

  lemma SealAnswered()
    ensures Arrive(Tab(1, SEALS_A, READY), NEW_DEVICE.(slot := Some(SEAL_A)), 4, SealAccepted, FOUND, DISK, 0, 5) == Effect(AWAITS, NEW_DEVICE, Some(Read))
    ensures SEALING[1] == NEW_DEVICE.(slot := Some(SEAL_A)) && SEALING[1 := NEW_DEVICE] == Both(1)
  {
  }

  lemma SealArrives()
    ensures var s := Duo(ASKED, Tab(0, SAVES_B, READY), Tab(1, SEALS_A, READY), SEALING, CALLS_4, ANSWERS_5, 0, 1);
      var e := Deliver(3, FOUND, DISK, 0);
      && EventPage(s, e) == Some(1) && Careful(s, e)
      && Act(s, Tab(1, SEALS_A, READY), NEW_DEVICE.(slot := Some(SEAL_A)), e) == Effect(AWAITS, NEW_DEVICE, Some(Read))
  {
    ServedSeal();
    SealAnswered();
    assert ANSWERS_5[3] == Answer(4, ONE) && CALLS_4[4] == CALL_4;
  }

  lemma AnswerSeal() returns (events: seq<Event>)
    ensures IntentsWritten(events)
    ensures Reaches(true, events, Duo(ASKED, Tab(0, SAVES_B, READY), AWAITS, Both(1), CALLS_5, ANSWERS_5, 0, 1))
  {
    events := LateB();
    SealArrives();
    SealAnswered();
    events := SecondDoes(true, events, ASKED, Tab(0, SAVES_B, READY), Tab(1, SEALS_A, READY), SEALING, CALLS_4, ANSWERS_5, 0, 1,
      Deliver(3, FOUND, DISK, 0), Effect(AWAITS, NEW_DEVICE, Some(Read)));
  }

  const REVISES := READ_A.(stage := RevisionRequested, pair := Pair(Some(0), 0), base := Some(Pair(Some(0), 0)))
  const EDITS_C := REVISES.(draft := "c", status := Unsaved)
  const SAVES_C := EDITS_C.(status := Saving, saving := Some(SaveCall(6, "c", Pair(Some(0), 0))))
  const CALL_6 := Call(1, Save("c", Pair(Some(0), 0)), "a", ASKED)
  const CALLS_6 := CALLS_5 + [CALL_6]
  const ANSWERS_6 := ANSWERS_5 + [Answer(5, ASKED)]

  lemma RevisionLoaded()
    ensures Arrive(AWAITS, NEW_DEVICE, 5, Snapshot(ReadCurrent(ASKED)), FOUND, DISK, 0, 6) == Stay(Tab(1, REVISES, READY), NEW_DEVICE)
  {
    assert map[5 := false] - {5} == map[];
  }

  lemma RevisionArrives()
    ensures var s := Duo(ASKED, Tab(0, SAVES_B, READY), AWAITS, Both(1), CALLS_5, ANSWERS_6, 0, 1);
      var e := Deliver(5, FOUND, DISK, 0);
      && EventPage(s, e) == Some(1) && Careful(s, e) && Act(s, AWAITS, NEW_DEVICE, e) == Stay(Tab(1, REVISES, READY), NEW_DEVICE)
  {
    RevisionLoaded();
    assert ANSWERS_6[5] == Answer(5, ASKED) && CALLS_5[5] == CALL_5;
  }

  lemma LoadRevision() returns (events: seq<Event>)
    ensures IntentsWritten(events)
    ensures Reaches(true, events, Duo(ASKED, Tab(0, SAVES_B, READY), Tab(1, REVISES, READY), Both(1), CALLS_5, ANSWERS_6, 0, 1))
  {
    events := AnswerSeal();
    events := BothServed(true, events, ASKED, Tab(0, SAVES_B, READY), AWAITS, Both(1), CALLS_5, ANSWERS_5, 0, 1, 5, ASKED);
    RevisionArrives();
    BothKept(1, 1);
    events := SecondDoes(true, events, ASKED, Tab(0, SAVES_B, READY), AWAITS, Both(1), CALLS_5, ANSWERS_6, 0, 1,
      Deliver(5, FOUND, DISK, 0), Stay(Tab(1, REVISES, READY), NEW_DEVICE));
  }

  lemma TypeC() returns (events: seq<Event>)
    ensures IntentsWritten(events)
    ensures Reaches(true, events, Duo(ASKED, Tab(0, SAVES_B, READY), Tab(1, EDITS_C, READY), Both(1), CALLS_5, ANSWERS_6, 0, 1))
  {
    events := LoadRevision();
    BothKept(1, 1);
    events := SecondDoes(true, events, ASKED, Tab(0, SAVES_B, READY), Tab(1, REVISES, READY), Both(1), CALLS_5, ANSWERS_6, 0, 1,
      Typing(1, "c"), Stay(Tab(1, EDITS_C, READY), NEW_DEVICE));
  }

  /** Page 1 starts the revision with "c". */
  lemma SendC() returns (events: seq<Event>)
    ensures IntentsWritten(events)
    ensures Reaches(true, events, Duo(ASKED, Tab(0, SAVES_B, READY), Tab(1, SAVES_C, READY), Both(1), CALLS_6, ANSWERS_6, 0, 1))
  {
    events := TypeC();
    BothKept(1, 1);
    events := SecondDoes(true, events, ASKED, Tab(0, SAVES_B, READY), Tab(1, EDITS_C, READY), Both(1), CALLS_5, ANSWERS_6, 0, 1,
      AutosaveTimer(1), Effect(Tab(1, SAVES_C, READY), NEW_DEVICE, Some(Save("c", Pair(Some(0), 0)))));
  }

  const REVISED := ASKED.(versions := ASKED.versions + [Version([Snap("c", [])], false)], stage := Draft)
  const ANSWERS_7 := ANSWERS_6 + [Answer(6, ASKED)]
  const CALL_7 := Call(0, Read, "a", REVISED)
  const CALLS_7 := CALLS_6 + [CALL_7]
  const RELOADS := Client(0, SAVES_B, READY, map[7 := false], None, None)
  const ANSWERS_8 := ANSWERS_7 + [Answer(7, REVISED)]
  const NEXT := Pair(Some(1), 1)
  const HOLDS_C := SAVES_B.(pair := NEXT, draft := "c", persisted := "c", base := Some(NEXT), over := "c", status := Quiet)
  const ABOUT_A := HOLDS_C.(saving := None, status := Conflicted, conflict := Some(Conflict(0, "a", false, Some(0), true)))

  lemma SavedC()
    ensures Serve(ASKED, CALL_6.request).0 == REVISED
  {
    assert Normalize("c") == "c";
    assert CopyImages([], 1, 0) == [];
  }

  lemma ServeC() returns (events: seq<Event>)
    ensures IntentsWritten(events)
    ensures Reaches(true, events, Duo(REVISED, Tab(0, SAVES_B, READY), Tab(1, SAVES_C, READY), Both(1), CALLS_6, ANSWERS_7, 0, 1))
  {
    events := SendC();
    SavedC();
    events := BothServed(true, events, ASKED, Tab(0, SAVES_B, READY), Tab(1, SAVES_C, READY), Both(1), CALLS_6, ANSWERS_6, 0, 1, 6, REVISED);
  }

  /** The second version exists, and page 0 reloads it. */
  lemma Reload() returns (events: seq<Event>)
    ensures IntentsWritten(events)
    ensures Reaches(true, events, Duo(REVISED, RELOADS, Tab(1, SAVES_C, READY), Both(1), CALLS_7, ANSWERS_7, 0, 1))
  {
    events := ServeC();
    BothKept(1, 0);
    events := FirstDoes(true, events, REVISED, Tab(0, SAVES_B, READY), Tab(1, SAVES_C, READY), Both(1), CALLS_6, ANSWERS_7, 0, 1,
      StartLoadUnit(0), Effect(RELOADS, NEW_DEVICE, Some(Read)));
  }

  lemma Reloaded()
    ensures Arrive(RELOADS, NEW_DEVICE, 7, Snapshot(ReadCurrent(REVISED)), FOUND, DISK, 0, 8) == Stay(Tab(0, HOLDS_C, READY), NEW_DEVICE)
    ensures Arrive(Tab(0, HOLDS_C, READY), NEW_DEVICE, 3, StaleRevision(0, Some("a")), FOUND, DISK, 0, 8) == Stay(Tab(0, ABOUT_A, READY), NEW_DEVICE)
  {
    assert map[7 := false] - {7} == map[];
  }

  lemma ServeReload() returns (events: seq<Event>)
    ensures IntentsWritten(events)
    ensures Reaches(true, events, Duo(REVISED, RELOADS, Tab(1, SAVES_C, READY), Both(1), CALLS_7, ANSWERS_8, 0, 1))
  {
    events := Reload();
    events := BothServed(true, events, REVISED, RELOADS, Tab(1, SAVES_C, READY), Both(1), CALLS_7, ANSWERS_7, 0, 1, 7, REVISED);
  }

  lemma ReloadArrives()
    ensures var s := Duo(REVISED, RELOADS, Tab(1, SAVES_C, READY), Both(1), CALLS_7, ANSWERS_8, 0, 1);
      var e := Deliver(7, FOUND, DISK, 0);
      && EventPage(s, e) == Some(0) && Careful(s, e)
      && Act(s, RELOADS, NEW_DEVICE, e) == Stay(Tab(0, HOLDS_C, READY), NEW_DEVICE)
  {
    Reloaded();
    assert ANSWERS_8[7] == Answer(7, REVISED) && CALLS_7[7] == CALL_7;
  }

  lemma HoldC() returns (events: seq<Event>)
    ensures IntentsWritten(events)
    ensures Reaches(true, events, Duo(REVISED, Tab(0, HOLDS_C, READY), Tab(1, SAVES_C, READY), Both(1), CALLS_7, ANSWERS_8, 0, 1))
  {
    events := ServeReload();
    ReloadArrives();
    BothKept(1, 0);
    events := FirstDoes(true, events, REVISED, RELOADS, Tab(1, SAVES_C, READY), Both(1), CALLS_7, ANSWERS_8, 0, 1,
      Deliver(7, FOUND, DISK, 0), Stay(Tab(0, HOLDS_C, READY), NEW_DEVICE));
  }

  lemma StaleReply()
    ensures var s := Duo(REVISED, Tab(0, HOLDS_C, READY), Tab(1, SAVES_C, READY), Both(1), CALLS_7, ANSWERS_8, 0, 1);
      && |s.answers| == 8 && |s.calls| == 8 && s.answers[4] == Answer(3, ASKED) && s.calls[3] == CALL_3
      && ReplyTo(s, s.answers[4]) == StaleRevision(0, Some("a"))
  {
    ServedSeal();
  }

  lemma StaleArrives()
    ensures var s := Duo(REVISED, Tab(0, HOLDS_C, READY), Tab(1, SAVES_C, READY), Both(1), CALLS_7, ANSWERS_8, 0, 1);
      var e := Deliver(4, FOUND, DISK, 0);
      && EventPage(s, e) == Some(0) && Careful(s, e)
      && Act(s, Tab(0, HOLDS_C, READY), NEW_DEVICE, e) == Stay(Tab(0, ABOUT_A, READY), NEW_DEVICE)
  {
    Reloaded();
    StaleReply();
  }

  /** Now the stale answer to "b" arrives: a conflict about the first version, on a page that holds the second. */
  lemma LateAnswer() returns (events: seq<Event>)
    ensures IntentsWritten(events)
    ensures Reaches(true, events, Duo(REVISED, Tab(0, ABOUT_A, READY), Tab(1, SAVES_C, READY), Both(1), CALLS_7, ANSWERS_8, 0, 1))
  {
    events := HoldC();
    StaleArrives();
    BothKept(1, 0);
    events := FirstDoes(true, events, REVISED, Tab(0, HOLDS_C, READY), Tab(1, SAVES_C, READY), Both(1), CALLS_7, ANSWERS_8, 0, 1,
      Deliver(4, FOUND, DISK, 0), Stay(Tab(0, ABOUT_A, READY), NEW_DEVICE));
  }

  /**
   * A careful run of two pages in two browsers, after which one of them shows a conflict that was
   * quoted by the server, but for the version before the one it holds; resolving it leaves a pair
   * that names nothing, and every later save is refused as stale.
   */
  lemma ResolveAboutAnotherVersion() returns (events: seq<Event>)
    ensures CarefulRun(Init(true), events) && IntentsWritten(events)
    ensures var s := Exec(Init(true), events);
      && 0 in s.clients
      && var p := s.clients[0].panel;
      && p.conflict.Some? && p.conflict.value.quoted && !p.conflict.value.versionChanged
      && p.conflict.value.about != p.pair.version
      && TextAt(s.server, Resolve(p, false).pair) == None
      && (forall text :: !WriteAccepted(s.server, Save(text, Resolve(p, false).pair)))
  {
    events := LateAnswer();
  }
}

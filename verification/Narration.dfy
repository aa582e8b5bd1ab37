/**
 * Narration completion: the slides whose narration has ended, kept per learner, course and
 * manifest in local storage, and in a session set that every course or locale switch empties.
 * Tabs interleave; reading, merging and writing one ended slide is one step.
 */
module Narration {
  import opened Prelude
  import opened JsText

  /** The published deck a tab plays; `slides` are the manifest's slide ids. */
  datatype Deck = Deck(learner: string, course: string, manifest: string, locale: string, slides: seq<string>)

  datatype Tab = Tab(deck: Option<Deck>, session: set<string>)

  /** `ended` is bookkeeping: the slides that have ended under each storage key, in any visit. */
  datatype World = World(stored: map<string, set<string>>, tabs: map<nat, Tab>, ended: map<string, set<string>>)

  /** `readable` and `writable` say whether the storage works during the step. */
  datatype Event =
    | Visit(tab: nat)
    | Show(tab: nat, deck: Deck)
    | SlideEnds(tab: nat, slide: string, readable: bool, writable: bool)

  const BLANK := World(map[], map[], map[])

  function StorageKey(d: Deck): string {
    "uais-completed-narration" + ":" + d.learner + ":" + d.course + ":" + d.manifest
  }

  function At(m: map<string, set<string>>, key: string): set<string> {
    if key in m then m[key] else {}
  }

  /** The session set after a slide ended: what the tab knew, what is stored, and the slide. */
  function Merged(w: World, tab: Tab, slide: string, readable: bool): set<string>
    requires tab.deck.Some?
  {
    tab.session + (if readable then At(w.stored, StorageKey(tab.deck.value)) else {}) + {slide}
  }

  /** Whether this ended slide reports `course.completed`. */
  predicate Reports(w: World, e: Event) {
    && e.SlideEnds? && e.tab in w.tabs && w.tabs[e.tab].deck.Some?
    && var tab := w.tabs[e.tab];
       forall i :: 0 <= i < |tab.deck.value.slides| ==> tab.deck.value.slides[i] in Merged(w, tab, e.slide, e.readable)
  }

  function Showing(tab: Tab, deck: Deck): Tab {
    if tab.deck.Some? && tab.deck.value.course == deck.course && tab.deck.value.locale == deck.locale
    then tab.(deck := Some(deck)) else Tab(Some(deck), {})
  }

  function Next(w: World, e: Event): World {
    match e
    case Visit(t) => w.(tabs := w.tabs[t := Tab(None, {})])
    case Show(t, deck) => if t !in w.tabs then w else w.(tabs := w.tabs[t := Showing(w.tabs[t], deck)])
    case SlideEnds(t, slide, readable, writable) =>
      if t !in w.tabs || w.tabs[t].deck == None then w
      else
        var key := StorageKey(w.tabs[t].deck.value);
        var merged := Merged(w, w.tabs[t], slide, readable);
        World(if writable then w.stored[key := merged] else w.stored,
              w.tabs[t := w.tabs[t].(session := merged)],
              w.ended[key := At(w.ended, key) + {slide}])
  }

  function Run(w: World, events: seq<Event>): World {
    if events == [] then w else Next(Run(w, events[..|events| - 1]), events[|events| - 1])
  }

  /** The deck shown next has the same storage key, or another course or locale, which empties the session set. */
  predicate TidySwitch(shown: Option<Deck>, deck: Deck) {
    shown.Some? && shown.value.course == deck.course && shown.value.locale == deck.locale
    ==> StorageKey(shown.value) == StorageKey(deck)
  }

  /** A tab changes its learner or manifest only together with its course or locale. */
  predicate Tidy(w: World, e: Event) {
    e.Show? && e.tab in w.tabs ==> TidySwitch(w.tabs[e.tab].deck, e.deck)
  }

  predicate TidyRun(events: seq<Event>) {
    events == [] || (TidyRun(events[..|events| - 1]) && Tidy(Run(BLANK, events[..|events| - 1]), events[|events| - 1]))
  }

  predicate StorageWorks(events: seq<Event>) {
    forall i :: 0 <= i < |events| && events[i].SlideEnds? ==> events[i].readable && events[i].writable
  }

  // ---------------------------------------------------------------- invariants

  /** Nothing is remembered that has not ended. */
  ghost predicate Honest(w: World) {
    && (forall key :: key in w.stored ==> w.stored[key] <= At(w.ended, key))
    && (forall t :: t in w.tabs && w.tabs[t].deck.Some? ==> w.tabs[t].session <= At(w.ended, StorageKey(w.tabs[t].deck.value)))
    && (forall t :: t in w.tabs && w.tabs[t].deck == None ==> w.tabs[t].session == {})
  }

  /** Nothing that has ended is forgotten. */
  ghost predicate Complete(w: World) {
    forall key :: At(w.ended, key) <= At(w.stored, key)
  }

  lemma EndsHonest(w: World, e: Event)
    requires Honest(w) && e.SlideEnds?
    ensures Honest(Next(w, e))
  {
    if e.tab in w.tabs && w.tabs[e.tab].deck.Some? {
      var key := StorageKey(w.tabs[e.tab].deck.value);
      var v := Next(w, e);
      assert forall k :: At(w.ended, k) <= At(v.ended, k);
      assert Merged(w, w.tabs[e.tab], e.slide, e.readable) <= At(v.ended, key);
    }
  }

  lemma NextHonest(w: World, e: Event)
    requires Honest(w) && Tidy(w, e)
    ensures Honest(Next(w, e))
  {
    if e.SlideEnds? {
      EndsHonest(w, e);
    }
  }

  lemma NextComplete(w: World, e: Event)
    requires Complete(w) && (e.SlideEnds? ==> e.readable && e.writable)
    ensures Complete(Next(w, e))
  {
    var v := Next(w, e);
    forall key ensures At(v.ended, key) <= At(v.stored, key) {
      assert At(w.ended, key) <= At(w.stored, key);
    }
  }

  lemma {:induction false} RunHonest(events: seq<Event>)
    requires TidyRun(events)
    ensures Honest(Run(BLANK, events))
  {
    if events != [] {
      RunHonest(events[..|events| - 1]);
      NextHonest(Run(BLANK, events[..|events| - 1]), events[|events| - 1]);
    }
  }

  lemma {:induction false} RunComplete(events: seq<Event>)
    requires StorageWorks(events)
    ensures Complete(Run(BLANK, events))
  {
    if events != [] {
      RunComplete(events[..|events| - 1]);
      NextComplete(Run(BLANK, events[..|events| - 1]), events[|events| - 1]);
    }
  }

  // ---------------------------------------------------------------- main results

  /** Every slide of the manifest has ended in some visit, the one ending now included. */
  ghost predicate AllEnded(w: World, e: Event) {
    && e.SlideEnds? && e.tab in w.tabs && w.tabs[e.tab].deck.Some?
    && var deck := w.tabs[e.tab].deck.value;
       forall i :: 0 <= i < |deck.slides| ==> deck.slides[i] in At(w.ended, StorageKey(deck)) + {e.slide}
  }

  /** Completion is never reported early, whatever the storage does in whatever interleaving of tabs. */
  lemma NeverEarly(events: seq<Event>, e: Event)
    requires TidyRun(events) && Reports(Run(BLANK, events), e)
    ensures AllEnded(Run(BLANK, events), e)
  {
    RunHonest(events);
  }

  /** With working storage it is reported exactly when every slide of the manifest has ended in some visit. */
  lemma ReportsIff(events: seq<Event>, e: Event)
    requires TidyRun(events) && StorageWorks(events + [e]) && e.SlideEnds?
    ensures Reports(Run(BLANK, events), e) <==> AllEnded(Run(BLANK, events), e)
  {
    assert (events + [e])[|events|] == e;
    forall i | 0 <= i < |events| && events[i].SlideEnds? ensures events[i].readable && events[i].writable {
      assert (events + [e])[i] == events[i];
    }
    RunHonest(events);
    RunComplete(events);
    var w := Run(BLANK, events);
    if AllEnded(w, e) {
      assert At(w.ended, StorageKey(w.tabs[e.tab].deck.value)) <= At(w.stored, StorageKey(w.tabs[e.tab].deck.value));
    }
  }

  /** One step takes nothing out of storage exactly when it read, did not write, or knew everything stored. */
  lemma StoredGrowsIff(w: World, e: Event)
    requires e.SlideEnds? && e.tab in w.tabs && w.tabs[e.tab].deck.Some?
    ensures var key := StorageKey(w.tabs[e.tab].deck.value);
      At(w.stored, key) <= At(Next(w, e).stored, key) <==>
        e.readable || !e.writable || At(w.stored, key) <= w.tabs[e.tab].session + {e.slide}
    ensures forall k :: k != StorageKey(w.tabs[e.tab].deck.value) ==> At(Next(w, e).stored, k) == At(w.stored, k)
  {
  }

  /** Stored ids never shrink under any interleaving of tabs, as long as reads work; writes may fail. */
  lemma {:induction false} StoredNeverShrinks(w: World, events: seq<Event>, key: string)
    requires forall i :: 0 <= i < |events| && events[i].SlideEnds? ==> events[i].readable
    ensures At(w.stored, key) <= At(Run(w, events).stored, key)
  {
    if events != [] {
      var front := events[..|events| - 1];
      StoredNeverShrinks(w, front, key);
      var v := Run(w, front);
      var e := events[|events| - 1];
      if e.SlideEnds? && e.tab in v.tabs && v.tabs[e.tab].deck.Some? {
        StoredGrowsIff(v, e);
      }
    }
  }

  /**
   * Without the tidiness hypothesis completion can be reported early: the session set survives a
   * change of learner within the same course and locale.
   */
  lemma LearnerSwitchReportsEarly() returns (events: seq<Event>, e: Event)
    ensures StorageWorks(events) && Reports(Run(BLANK, events), e) && !AllEnded(Run(BLANK, events), e)
  {
    var first := Deck("a", "c", "m", "en", ["1", "2"]);
    var second := Deck("b", "c", "m", "en", ["1", "2"]);
    var e1, e2, e3, e4 := Visit(0), Show(0, first), SlideEnds(0, "1", true, true), Show(0, second);
    var a1, a2, a3 := [e1], [e1, e2], [e1, e2, e3];
    events := [e1, e2, e3, e4];
    e := SlideEnds(0, "2", true, true);
    assert a1[..0] == [] && a2[..1] == a1 && a3[..2] == a2 && events[..3] == a3;
    var w1 := Run(BLANK, a1);
    assert Run(BLANK, []) == BLANK;
    assert w1 == Next(Run(BLANK, a1[..0]), e1);
    assert w1.tabs[0] == Tab(None, {}) && w1.stored == BLANK.stored && w1.ended == BLANK.ended;
    var w2 := Run(BLANK, a2);
    assert w2 == Next(w1, e2);
    assert w2.tabs[0] == Tab(Some(first), {}) && w2.stored == BLANK.stored && w2.ended == BLANK.ended;
    var w3 := Run(BLANK, a3);
    assert w3 == Next(w2, e3);
    var k1, k2 := StorageKey(first), StorageKey(second);
    assert w3.tabs[0] == Tab(Some(first), {"1"}) && w3.ended.Keys == {k1};
    assert k1[|"uais-completed-narration:"|] == 'a' && k2[|"uais-completed-narration:"|] == 'b';
    var w4 := Run(BLANK, events);
    assert w4 == Next(w3, e4);
    assert w4.tabs[0] == Tab(Some(second), {"1"}) && At(w4.ended, k2) == {};
    assert second.slides[0] == "1";
  }

  /** In every honest world in which tab `t` shows `shown`, showing `deck` next leaves the world honest. */
  ghost predicate ShowKeepsHonest(t: nat, shown: Option<Deck>, deck: Deck) {
    forall w :: Honest(w) && t in w.tabs && w.tabs[t].deck == shown ==> Honest(Next(w, Show(t, deck)))
  }

  /** A tab whose session set remembers one slide that has ended. */
  function OneEnded(t: nat, shown: Deck): World {
    World(map[], map[t := Tab(Some(shown), {"1"})], map[StorageKey(shown) := {"1"}])
  }

  /** The exact condition: a change of deck keeps every honest world honest if and only if it is tidy. */
  lemma ShowKeepsHonestIff(t: nat, shown: Option<Deck>, deck: Deck)
    ensures ShowKeepsHonest(t, shown, deck) <==> TidySwitch(shown, deck)
  {
    if TidySwitch(shown, deck) {
      forall w | Honest(w) && t in w.tabs && w.tabs[t].deck == shown ensures Honest(Next(w, Show(t, deck))) {
        NextHonest(w, Show(t, deck));
      }
    } else {
      var w := OneEnded(t, shown.value);
      assert Honest(w);
      var v := Next(w, Show(t, deck));
      assert v.tabs[t] == Tab(Some(deck), {"1"}) && At(v.ended, StorageKey(deck)) == {};
      assert "1" in v.tabs[t].session;
      assert !Honest(v);
    }
  }

  // ---------------------------------------------------------------- the storage key

  /** Learners and courses without `:` never share a key; the parts are joined unencoded. */
  lemma KeysSeparate(a: Deck, b: Deck)
    requires ':' !in a.learner && ':' !in b.learner && ':' !in a.course && ':' !in b.course
    requires StorageKey(a) == StorageKey(b)
    ensures a.learner == b.learner && a.course == b.course && a.manifest == b.manifest
  {
    var head := "uais-completed-narration" + ":";
    var x, y := a.learner + ":" + (a.course + ":" + a.manifest), b.learner + ":" + (b.course + ":" + b.manifest);
    assert StorageKey(a) == head + x && StorageKey(b) == head + y;
    assert x == (head + x)[|head|..] && y == (head + y)[|head|..];
    SplitAtColon(a.learner, b.learner, a.course + ":" + a.manifest, b.course + ":" + b.manifest);
    SplitAtColon(a.course, b.course, a.manifest, b.manifest);
  }

  lemma KeysCollide() returns (a: Deck, b: Deck)
    ensures StorageKey(a) == StorageKey(b) && a.learner != b.learner
  {
    a := Deck("x", "y:z", "m", "en", []);
    b := Deck("x:y", "z", "m", "en", []);
  }

  /** The key of this deck belongs to no other learner, course or manifest. */
  ghost predicate OwnKey(a: Deck) {
    forall b: Deck :: StorageKey(b) == StorageKey(a) ==> b.learner == a.learner && b.course == a.course && b.manifest == a.manifest
  }

  predicate NoColon(a: Deck) {
    ':' !in a.learner && ':' !in a.course && ':' !in a.manifest
  }

  /** The part of a key after its constant head. */
  function KeyTail(d: Deck): string {
    d.learner + ":" + (d.course + ":" + d.manifest)
  }

  lemma TailsAgree(a: Deck, b: Deck)
    ensures StorageKey(a) == StorageKey(b) <==> KeyTail(a) == KeyTail(b)
  {
    var head := "uais-completed-narration" + ":";
    assert StorageKey(a) == head + KeyTail(a) && StorageKey(b) == head + KeyTail(b);
    assert KeyTail(a) == StorageKey(a)[|head|..] && KeyTail(b) == StorageKey(b)[|head|..];
  }

  /** The only colons of this tail are its two separators. */
  lemma TwoColons(a: Deck, i: nat)
    requires NoColon(a) && i < |KeyTail(a)| && KeyTail(a)[i] == ':'
    ensures i == |a.learner| || i == |a.learner| + 1 + |a.course|
  {
  }

  lemma TailParts(b: Deck)
    ensures var x := KeyTail(b);
      var i := |b.learner|;
      var j := i + 1 + |b.course|;
      && j < |x| && x[i] == ':' && x[j] == ':' && x[..i] == b.learner && x[i + 1..j] == b.course && x[j + 1..] == b.manifest
  {
  }

  lemma SplitAt(text: string, i: nat)
    requires i < |text| && text[i] == ':'
    ensures text == text[..i] + ":" + text[i + 1..]
  {
  }

  /** A colon in the learner can be read as the one before the course, and the course as part of the manifest. */
  lemma LearnerReading(a: Deck, i: nat) returns (b: Deck)
    requires i < |a.learner| && a.learner[i] == ':'
    ensures KeyTail(b) == KeyTail(a) && b.learner != a.learner
  {
    b := a.(learner := a.learner[..i], course := a.learner[i + 1..], manifest := a.course + ":" + a.manifest);
    SplitAt(a.learner, i);
  }

  lemma CourseReading(a: Deck, i: nat) returns (b: Deck)
    requires i < |a.course| && a.course[i] == ':'
    ensures KeyTail(b) == KeyTail(a) && b.course != a.course
  {
    b := a.(course := a.course[..i], manifest := a.course[i + 1..] + ":" + a.manifest);
    SplitAt(a.course, i);
  }

  lemma ManifestReading(a: Deck, i: nat) returns (b: Deck)
    requires i < |a.manifest| && a.manifest[i] == ':'
    ensures KeyTail(b) == KeyTail(a) && b.course != a.course
  {
    b := a.(course := a.course + ":" + a.manifest[..i], manifest := a.manifest[i + 1..]);
    SplitAt(a.manifest, i);
  }

  /** With a colon in one of its parts, the key can be read in another way. */
  lemma OtherReading(a: Deck) returns (b: Deck)
    requires !NoColon(a)
    ensures StorageKey(b) == StorageKey(a) && (b.learner != a.learner || b.course != a.course)
  {
    if i :| 0 <= i < |a.learner| && a.learner[i] == ':' {
      b := LearnerReading(a, i);
    } else if i :| 0 <= i < |a.course| && a.course[i] == ':' {
      b := CourseReading(a, i);
    } else {
      var i :| 0 <= i < |a.manifest| && a.manifest[i] == ':';
      b := ManifestReading(a, i);
    }
    TailsAgree(a, b);
  }

  /** Exactly when a storage key is a deck's own: if and only if no part of it contains `:`. */
  lemma OwnKeyIff(a: Deck)
    ensures OwnKey(a) <==> NoColon(a)
  {
    if NoColon(a) {
      forall b: Deck | StorageKey(b) == StorageKey(a) ensures b.learner == a.learner && b.course == a.course && b.manifest == a.manifest {
        TailsAgree(a, b);
        TailParts(a);
        TailParts(b);
        TwoColons(a, |b.learner|);
        TwoColons(a, |b.learner| + 1 + |b.course|);
      }
    } else {
      var b := OtherReading(a);
    }
  }

  // ---------------------------------------------------------------- the component

  /** The strings of a stored JSON array; anything else in it is skipped. */
  function Strings(values: seq<Option<string>>): set<string> {
    set i | 0 <= i < |values| && values[i].Some? :: values[i].value
  }

  /** The ref and the local storage, where every value is a parsed array or unreadable. */
  class CompletionStore {
    var completed: seq<string>
    var stored: map<string, seq<Option<string>>>

    constructor ()
      ensures completed == [] && stored == map[]
    {
      completed, stored := [], map[];
    }

    /** The reset effect. */
    method Reset()
      modifies this`completed
      ensures completed == []
    {
      completed := [];
    }

    method ReadCompleted(key: string, readable: bool) returns (ids: seq<string>)
      ensures Elements(ids) == if readable && key in stored then Strings(stored[key]) else {}
    {
      ids := [];
      if readable && key in stored {
        var values := stored[key];
        for i := 0 to |values|
          invariant Elements(ids) == Strings(values[..i])
        {
          assert values[..i + 1] == values[..i] + [values[i]];
          assert values[i].Some? ==> Strings(values[..i + 1]) == Strings(values[..i]) + {values[i].value} by {
            StringsGrow(values[..i], values[i]);
          }
          assert values[i] == None ==> Strings(values[..i + 1]) == Strings(values[..i]) by {
            StringsGrow(values[..i], values[i]);
          }
          if values[i].Some? && values[i].value !in ids {
            ids := ids + [values[i].value];
          }
        }
        assert values[..|values|] == values;
      }
    }

    /** The merge of one ended slide: the new session set, written back when the storage accepts it. */
    method MergeCompleted(key: string, slide: string, readable: bool, writable: bool) returns (merged: set<string>)
      modifies this
      ensures merged == old(Elements(completed)) + old(if readable && key in stored then Strings(stored[key]) else {}) + {slide}
      ensures Elements(completed) == merged
      ensures stored.Keys == old(stored.Keys) + (if writable then {key} else {})
      ensures writable ==> Strings(stored[key]) == merged
      ensures forall k :: k in old(stored) && (k != key || !writable) ==> stored[k] == old(stored)[k]
    {
      var ids := completed;
      var values := ReadCompleted(key, readable);
      for i := 0 to |values|
        invariant Elements(ids) == Elements(completed) + Elements(values[..i])
        invariant completed == old(completed) && stored == old(stored)
      {
        assert values[..i + 1] == values[..i] + [values[i]];
        ElementsGrow(values[..i], values[i]);
        ElementsGrow(ids, values[i]);
        if values[i] !in ids {
          ids := ids + [values[i]];
        }
      }
      assert values[..|values|] == values;
      ElementsGrow(ids, slide);
      if slide !in ids {
        ids := ids + [slide];
      }
      completed := ids;
      if writable {
        var list := seq(|ids|, i requires 0 <= i < |ids| => Some(ids[i]));
        stored := stored[key := list];
        WrittenReadsBack(ids, list);
      }
      merged := set x | x in ids;
    }
  }

  lemma ElementsGrow(ids: seq<string>, id: string)
    ensures Elements(ids + [id]) == Elements(ids) + {id}
    ensures id in ids ==> Elements(ids) == Elements(ids) + {id}
  {
    assert forall x :: x in ids + [id] <==> x in ids || x == id;
  }

  lemma StringsGrow(values: seq<Option<string>>, v: Option<string>)
    ensures Strings(values + [v]) == Strings(values) + (if v.Some? then {v.value} else {})
  {
    var all := values + [v];
    forall x | x in Strings(values) ensures x in Strings(all) {
      var i :| 0 <= i < |values| && values[i].Some? && values[i].value == x;
      assert all[i] == values[i];
    }
    assert all[|values|] == v;
  }

  lemma WrittenReadsBack(ids: seq<string>, list: seq<Option<string>>)
    requires |list| == |ids| && forall i :: 0 <= i < |ids| ==> list[i] == Some(ids[i])
    ensures Strings(list) == Elements(ids)
  {
    forall x | x in Elements(ids) ensures x in Strings(list) {
      var i :| 0 <= i < |ids| && ids[i] == x;
      assert list[i] == Some(x);
    }
  }
}

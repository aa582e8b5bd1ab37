/**
 * The local recovery copies of a draft: the storage keys, and which copies a tab may delete while
 * other tabs of the same browser read and write under the same key.
 */
module DraftRecovery {
  import opened Prelude
  import opened JsText
  import opened UriComponent

  datatype Scope = Scope(learner: string, course: string, classId: string, activity: string)

  function ScopeKey(s: Scope): string {
    Encode(s.learner) + ":" + (Encode(s.course) + ":" + (Encode(s.classId) + ":" + Encode(s.activity)))
  }

  function DraftKey(s: Scope): string {
    "uais:p1:draft-recovery:v2" + ":" + ScopeKey(s)
  }

  function SealKey(s: Scope): string {
    "uais:p1:seal-intent:v1:" + ScopeKey(s)
  }

  /** The key of the first release, removed on every load. */
  function LegacyKey(activity: string): string {
    "uais:p1:draft-recovery:" + activity
  }

  function ImageKey(s: Scope, version: Option<string>, client: string): string {
    ScopeKey(s) + ":" + (Encode(if version.Some? then version.value else "unbound") + ":" + client)
  }

  // ---------------------------------------------------------------- keys

  lemma EncodedSplit(a: string, b: string, x: string, y: string)
    requires Encode(a) + ":" + x == Encode(b) + ":" + y
    ensures a == b && x == y
  {
    EncodeAlphabet(a);
    EncodeAlphabet(b);
    SplitAtColon(Encode(a), Encode(b), x, y);
    EncodeInjective(a, b);
  }

  lemma Regroup(a: string, b: string, x: string)
    ensures a + ":" + b + ":" + x == a + ":" + (b + ":" + x)
  {
  }

  lemma ScopeTail(s: Scope, x: string)
    ensures ScopeKey(s) + ":" + x ==
      Encode(s.learner) + ":" + (Encode(s.course) + ":" + (Encode(s.classId) + ":" + (Encode(s.activity) + ":" + x)))
  {
    var a, b, c, d := Encode(s.learner), Encode(s.course), Encode(s.classId), Encode(s.activity);
    Regroup(c, d, x);
    Regroup(b, c + ":" + d, x);
    Regroup(a, b + ":" + (c + ":" + d), x);
  }

  lemma ScopeTailInjective(s: Scope, t: Scope, x: string, y: string)
    requires ScopeKey(s) + ":" + x == ScopeKey(t) + ":" + y
    ensures s == t && x == y
  {
    ScopeTail(s, x);
    ScopeTail(t, y);
    var s3, t3 := Encode(s.activity) + ":" + x, Encode(t.activity) + ":" + y;
    var s2, t2 := Encode(s.classId) + ":" + s3, Encode(t.classId) + ":" + t3;
    EncodedSplit(s.learner, t.learner, Encode(s.course) + ":" + s2, Encode(t.course) + ":" + t2);
    EncodedSplit(s.course, t.course, s2, t2);
    EncodedSplit(s.classId, t.classId, s3, t3);
    EncodedSplit(s.activity, t.activity, x, y);
  }

  lemma ScopeKeyInjective(s: Scope, t: Scope)
    requires ScopeKey(s) == ScopeKey(t)
    ensures s == t
  {
    ScopeTailInjective(s, t, "", "");
  }

  /** No two scopes share a draft key or a seal key, whatever characters their parts contain. */
  lemma KeysInjective(s: Scope, t: Scope)
    ensures DraftKey(s) == DraftKey(t) <==> s == t
    ensures SealKey(s) == SealKey(t) <==> s == t
    ensures DraftKey(s) != SealKey(t)
  {
    var a, b := "uais:p1:draft-recovery:v2" + ":", "uais:p1:seal-intent:v1:";
    assert DraftKey(s) == a + ScopeKey(s) && DraftKey(t) == a + ScopeKey(t);
    assert SealKey(s) == b + ScopeKey(s) && SealKey(t) == b + ScopeKey(t);
    assert DraftKey(s)[|a|..] == ScopeKey(s) && DraftKey(t)[|a|..] == ScopeKey(t);
    assert SealKey(s)[|b|..] == ScopeKey(s) && SealKey(t)[|b|..] == ScopeKey(t);
    assert DraftKey(s)[8] == 'd' && SealKey(t)[8] == 's';
    if ScopeKey(s) == ScopeKey(t) {
      ScopeKeyInjective(s, t);
    }
  }

  /**
   * Clearing the legacy copy of an activity hits the current copy of a scope exactly if the
   * activity id is spelt like the rest of that scope's key; never if the id has no `:`.
   */
  lemma LegacyKeyIsOther(activity: string, s: Scope)
    ensures LegacyKey(activity) == DraftKey(s) <==> activity == "v2" + ":" + ScopeKey(s)
    ensures ':' !in activity ==> LegacyKey(activity) != DraftKey(s)
  {
    var head := "uais:p1:draft-recovery:";
    assert DraftKey(s) == head + ("v2" + ":" + ScopeKey(s));
    assert DraftKey(s)[|head|..] == "v2" + ":" + ScopeKey(s) && LegacyKey(activity)[|head|..] == activity;
    assert ("v2" + ":" + ScopeKey(s))[2] == ':';
  }

  /** Pending images of different scopes, versions or ids never share a key; no version is called "unbound". */
  lemma ImageKeyInjective(s: Scope, v: Option<string>, x: string, t: Scope, w: Option<string>, y: string)
    requires v != Some("unbound") && w != Some("unbound")
    ensures ImageKey(s, v, x) == ImageKey(t, w, y) <==> s == t && v == w && x == y
  {
    if ImageKey(s, v, x) == ImageKey(t, w, y) {
      var a, b := if v.Some? then v.value else "unbound", if w.Some? then w.value else "unbound";
      ScopeTailInjective(s, t, Encode(a) + ":" + x, Encode(b) + ":" + y);
      EncodedSplit(a, b, x, y);
    }
  }

  // ---------------------------------------------------------------- tabs

  datatype Copy = Copy(key: string, value: string)

  /** `snapshot` is what the tab last read or wrote; `submitted` the snapshot taken at a submit click. */
  datatype Tab = Tab(snapshot: Option<Copy>, submitted: Option<Copy>, owned: set<Copy>)

  /** `owned` in a tab is bookkeeping: every copy it ever read or wrote. */
  datatype Browser = Browser(items: map<string, string>, tabs: map<nat, Tab>)

  /**
   * A load clears the legacy copy of its activity and then reads the draft copy, unless the work is
   * sealed or the server's text was asked for; `rejected` are the values it finds unusable.
   */
  datatype Event =
    | Open(tab: nat)
    | Load(tab: nat, scope: Scope, wanted: bool, rejected: set<string>)
    | Settle(tab: nat, key: string)
    | Store(tab: nat, key: string, value: string)
    | SubmitClick(tab: nat)
    | Submitted(tab: nat, key: string)

  const NEW_TAB := Tab(None, None, {})

  /** Deletes the copy only if storage still holds exactly the snapshot. */
  function RemoveUnchanged(items: map<string, string>, key: string, snapshot: Option<Copy>): map<string, string> {
    if snapshot.Some? && snapshot.value.key == key && key in items && items[key] == snapshot.value.value
    then items - {key} else items
  }

  function Seen(t: Tab, c: Copy): Tab {
    t.(snapshot := Some(c), owned := t.owned + {c})
  }

  function Next(b: Browser, e: Event): Browser {
    if e.Open? then b.(tabs := b.tabs[e.tab := NEW_TAB])
    else if e.tab !in b.tabs then b
    else
      var t := b.tabs[e.tab];
      match e
      case Load(_, scope, wanted, rejected) =>
        var items := b.items - {LegacyKey(scope.activity)};
        var key := DraftKey(scope);
        if !wanted || key !in items then b.(items := items)
        else if items[key] in rejected then b.(items := items - {key})
        else Browser(items, b.tabs[e.tab := Seen(t, Copy(key, items[key]))])
      case Settle(_, key) => b.(items := RemoveUnchanged(b.items, key, t.snapshot))
      case Store(_, key, value) => Browser(b.items[key := value], b.tabs[e.tab := Seen(t, Copy(key, value))])
      case SubmitClick(_) => b.(tabs := b.tabs[e.tab := t.(submitted := t.snapshot)])
      case Submitted(_, key) => b.(items := RemoveUnchanged(b.items, key, t.submitted))
      case _ => b
  }

  function Run(b: Browser, events: seq<Event>): Browser {
    if events == [] then b else Next(Run(b, events[..|events| - 1]), events[|events| - 1])
  }

  ghost predicate Owns(t: Tab) {
    && (t.snapshot.Some? ==> t.snapshot.value in t.owned)
    && (t.submitted.Some? ==> t.submitted.value in t.owned)
  }

  ghost predicate AllOwn(b: Browser) {
    forall t :: t in b.tabs ==> Owns(b.tabs[t])
  }

  lemma {:induction false} RunOwns(b: Browser, events: seq<Event>)
    requires AllOwn(b)
    ensures AllOwn(Run(b, events))
  {
    if events != [] {
      RunOwns(b, events[..|events| - 1]);
    }
  }

  /**
   * In every interleaving of tabs, starting from any storage contents: a value disappears only
   * because a tab that itself read or wrote this very copy settled or submitted its draft, because
   * a load of its scope found it unusable, or because a load cleared it as its activity's legacy
   * copy. What another tab stored in between stays.
   */
  lemma OnlyOwnCopiesRemoved(items: map<string, string>, events: seq<Event>, e: Event, key: string)
    requires var b := Run(Browser(items, map[]), events); key in b.items && key !in Next(b, e).items
    ensures var b := Run(Browser(items, map[]), events);
      e.tab in b.tabs &&
      (if e.Load? then
         key == LegacyKey(e.scope.activity) || (e.wanted && key == DraftKey(e.scope) && b.items[key] in e.rejected)
       else Copy(key, b.items[key]) in b.tabs[e.tab].owned)
  {
    RunOwns(Browser(items, map[]), events);
    var b := Run(Browser(items, map[]), events);
    assert e.tab in b.tabs;
    assert Owns(b.tabs[e.tab]);
  }

  /**
   * So the draft copy of a scope, as long as activity ids contain no `:`, disappears only through a
   * tab that read or wrote this very copy, or as unusable on a load of this very scope.
   */
  lemma DraftCopiesStay(items: map<string, string>, events: seq<Event>, e: Event, s: Scope)
    requires var b := Run(Browser(items, map[]), events); DraftKey(s) in b.items && DraftKey(s) !in Next(b, e).items
    requires e.Load? ==> ':' !in e.scope.activity
    ensures var b := Run(Browser(items, map[]), events);
      e.tab in b.tabs &&
      (if e.Load? then e.scope == s && e.wanted && b.items[DraftKey(s)] in e.rejected
       else Copy(DraftKey(s), b.items[DraftKey(s)]) in b.tabs[e.tab].owned)
  {
    OnlyOwnCopiesRemoved(items, events, e, DraftKey(s));
    if e.Load? {
      LegacyKeyIsOther(e.scope.activity, s);
      KeysInjective(e.scope, s);
    }
  }

  /** Only a tab's own write can put another value in place of a copy. */
  lemma OnlyWritesReplace(b: Browser, e: Event, key: string)
    requires key in b.items && key in Next(b, e).items && Next(b, e).items[key] != b.items[key]
    ensures e.Store? && e.key == key && e.tab in b.tabs && Next(b, e).items[key] == e.value
  {
  }

  /** Nothing but the entry under `key` can have gone, and no value has changed. */
  ghost predicate OnlyDrops(before: map<string, string>, after: map<string, string>, key: string) {
    && (forall k :: k in after ==> k in before && after[k] == before[k])
    && (forall k :: k in before && k != key ==> k in after)
  }

  /** `key` holds exactly the copy that `seen` is. */
  predicate HoldsCopy(items: map<string, string>, key: string, seen: Option<Copy>) {
    key in items && seen == Some(Copy(key, items[key]))
  }

  /**
   * What settling a draft does, exactly: its copy leaves storage if and only if storage still holds
   * the copy this tab last read or wrote; every other entry and every tab stays as it was.
   */
  lemma SettledIff(b: Browser, e: Event)
    requires e.Settle? && e.tab in b.tabs
    ensures var c := Next(b, e);
      && c.tabs == b.tabs && OnlyDrops(b.items, c.items, e.key)
      && (e.key in b.items && e.key !in c.items <==> HoldsCopy(b.items, e.key, b.tabs[e.tab].snapshot))
  {
  }

  /** An accepted submission does the same with the copy that was the snapshot at the submit click. */
  lemma SubmittedIff(b: Browser, e: Event)
    requires e.Submitted? && e.tab in b.tabs
    ensures var c := Next(b, e);
      && c.tabs == b.tabs && OnlyDrops(b.items, c.items, e.key)
      && (e.key in b.items && e.key !in c.items <==> HoldsCopy(b.items, e.key, b.tabs[e.tab].submitted))
  {
  }

  /** A load of a known tab: the legacy copy goes, and the wanted copy if it is unusable; nothing else changes. */
  lemma LoadedIff(b: Browser, e: Event, key: string)
    requires e.Load? && e.tab in b.tabs
    ensures var c := Next(b, e);
      && (key in c.items <==>
            (key in b.items && key != LegacyKey(e.scope.activity) && !(e.wanted && key == DraftKey(e.scope) && b.items[key] in e.rejected)))
      && (key in c.items ==> c.items[key] == b.items[key])
  {
  }

  /** A write puts exactly its value under its key. */
  lemma StoredIs(b: Browser, e: Event, key: string)
    requires e.Store? && e.tab in b.tabs
    ensures var c := Next(b, e);
      && (key in c.items <==> key == e.key || key in b.items)
      && (key in c.items ==> c.items[key] == if key == e.key then e.value else b.items[key])
  {
  }

  /** The copy a usable read finds: what is stored under the scope's key once the legacy copy is gone. */
  function ReadBy(b: Browser, e: Event): Option<Copy>
    requires e.Load?
  {
    var key := DraftKey(e.scope);
    if e.wanted && key in b.items && key != LegacyKey(e.scope.activity) && b.items[key] !in e.rejected
    then Some(Copy(key, b.items[key])) else None
  }

  /** The copy the tab last read or wrote in this run, since it was opened. */
  ghost function LastSeen(items: map<string, string>, events: seq<Event>, tab: nat): Option<Copy> {
    if events == [] then None
    else
      var front := events[..|events| - 1];
      var e := events[|events| - 1];
      var b := Run(Browser(items, map[]), front);
      if e.tab != tab then LastSeen(items, front, tab)
      else if e.Open? then None
      else if tab !in b.tabs then None
      else if e.Store? then Some(Copy(e.key, e.value))
      else if e.Load? && ReadBy(b, e).Some? then ReadBy(b, e)
      else LastSeen(items, front, tab)
  }

  lemma {:induction false} SnapshotIsLastSeen(items: map<string, string>, events: seq<Event>, tab: nat)
    ensures var b := Run(Browser(items, map[]), events);
      LastSeen(items, events, tab) == if tab in b.tabs then b.tabs[tab].snapshot else None
  {
    if events != [] {
      SnapshotIsLastSeen(items, events[..|events| - 1], tab);
    }
  }

  /**
   * Over whole runs: settling a draft removes its copy exactly when storage holds what this tab
   * last read or wrote. A copy that a tab wrote is never offered again once its draft is saved,
   * unless another tab has written since.
   */
  lemma SettledIffUnchanged(items: map<string, string>, events: seq<Event>, tab: nat, key: string)
    requires tab in Run(Browser(items, map[]), events).tabs
    ensures var b := Run(Browser(items, map[]), events);
      var c := Next(b, Settle(tab, key));
      && OnlyDrops(b.items, c.items, key)
      && (key in c.items <==> key in b.items && LastSeen(items, events, tab) != Some(Copy(key, b.items[key])))
  {
    SnapshotIsLastSeen(items, events, tab);
    SettledIff(Run(Browser(items, map[]), events), Settle(tab, key));
  }

  /** The copy the tab had last seen at its last submit click. */
  ghost function SeenAtSubmit(items: map<string, string>, events: seq<Event>, tab: nat): Option<Copy> {
    if events == [] then None
    else
      var front := events[..|events| - 1];
      var e := events[|events| - 1];
      if e.tab != tab then SeenAtSubmit(items, front, tab)
      else if e.Open? then None
      else if e.SubmitClick? then LastSeen(items, front, tab)
      else SeenAtSubmit(items, front, tab)
  }

  lemma {:induction false} SubmittedIsSeen(items: map<string, string>, events: seq<Event>, tab: nat)
    ensures var b := Run(Browser(items, map[]), events);
      SeenAtSubmit(items, events, tab) == if tab in b.tabs then b.tabs[tab].submitted else None
  {
    if events != [] {
      SubmittedIsSeen(items, events[..|events| - 1], tab);
      SnapshotIsLastSeen(items, events[..|events| - 1], tab);
    }
  }

  /** An accepted submission removes the copy exactly when storage holds what the tab had seen at its submit click. */
  lemma SubmittedIffUnchanged(items: map<string, string>, events: seq<Event>, tab: nat, key: string)
    requires tab in Run(Browser(items, map[]), events).tabs
    ensures var b := Run(Browser(items, map[]), events);
      var c := Next(b, Submitted(tab, key));
      && OnlyDrops(b.items, c.items, key)
      && (key in c.items <==> key in b.items && SeenAtSubmit(items, events, tab) != Some(Copy(key, b.items[key])))
  {
    SubmittedIsSeen(items, events, tab);
    SubmittedIff(Run(Browser(items, map[]), events), Submitted(tab, key));
  }

  // ---------------------------------------------------------------- the component

  /** One browser's local storage, shared by its tabs. */
  class LocalStorage {
    var items: map<string, string>

    constructor (items: map<string, string>)
      ensures this.items == items
    {
      this.items := items;
    }

    method Remove(key: string)
      modifies this
      ensures items == old(items) - {key}
    {
      items := items - {key};
    }

    method Set(key: string, value: string)
      modifies this
      ensures items == old(items)[key := value]
    {
      items := items[key := value];
    }
  }

  class DraftTab {
    const storage: LocalStorage
    var snapshot: Option<Copy>
    ghost var owned: set<Copy>

    ghost predicate Valid()
      reads this
    {
      snapshot.Some? ==> snapshot.value in owned
    }

    constructor (storage: LocalStorage)
      ensures Valid() && this.storage == storage && snapshot == None && owned == {}
    {
      this.storage := storage;
      snapshot, owned := None, {};
    }

    /** `readDraftRecovery`: an unusable copy is deleted, a usable one becomes the snapshot. */
    method Read(key: string, rejected: set<string>) returns (text: Option<string>)
      requires Valid()
      modifies this, storage
      ensures Valid()
      ensures key !in old(storage.items) ==> text == None && storage.items == old(storage.items) && snapshot == old(snapshot)
      ensures key in old(storage.items) && old(storage.items)[key] in rejected ==>
        text == None && storage.items == old(storage.items) - {key} && snapshot == old(snapshot)
      ensures key in old(storage.items) && old(storage.items)[key] !in rejected ==>
        && text == Some(old(storage.items)[key]) && storage.items == old(storage.items)
        && snapshot == Some(Copy(key, old(storage.items)[key])) && owned == old(owned) + {snapshot.value}
    {
      if key !in storage.items {
        return None;
      }
      var serialized := storage.items[key];
      if serialized in rejected {
        storage.Remove(key);
        return None;
      }
      snapshot := Some(Copy(key, serialized));
      owned := owned + {snapshot.value};
      text := Some(serialized);
    }

    /** The storage part of `loadUnit`: the legacy copy goes first, then the draft copy is read if it is wanted. */
    method Load(scope: Scope, wanted: bool, rejected: set<string>) returns (text: Option<string>)
      requires Valid()
      modifies this, storage
      ensures Valid()
      ensures var items := old(storage.items) - {LegacyKey(scope.activity)};
        var key := DraftKey(scope);
        if !wanted || key !in items then text == None && storage.items == items && snapshot == old(snapshot)
        else if items[key] in rejected then text == None && storage.items == items - {key} && snapshot == old(snapshot)
        else text == Some(items[key]) && storage.items == items && snapshot == Some(Copy(key, items[key]))
    {
      storage.Remove(LegacyKey(scope.activity));
      text := None;
      if wanted {
        text := Read(DraftKey(scope), rejected);
      }
    }

    method RemoveUnchangedCopy(key: string, seen: Option<Copy>)
      modifies storage
      ensures storage.items == if HoldsCopy(old(storage.items), key, seen) then old(storage.items) - {key} else old(storage.items)
    {
      if seen.Some? && seen.value.key == key && key in storage.items && storage.items[key] == seen.value.value {
        storage.Remove(key);
      }
    }

    /** The recovery effect: `draft` is the serialised copy, or nothing when the draft is saved. */
    method Persist(key: string, draft: Option<string>)
      requires Valid()
      modifies this, storage
      ensures Valid()
      ensures draft == None ==>
        storage.items == if HoldsCopy(old(storage.items), key, old(snapshot)) then old(storage.items) - {key} else old(storage.items)
      ensures draft == None ==> snapshot == old(snapshot)
      ensures draft.Some? ==> storage.items == old(storage.items)[key := draft.value] && snapshot == Some(Copy(key, draft.value))
      ensures forall k :: k in old(storage.items) && k !in storage.items ==> Copy(k, old(storage.items)[k]) in old(owned)
    {
      if draft == None {
        RemoveUnchangedCopy(key, snapshot);
      } else {
        storage.Set(key, draft.value);
        snapshot := Some(Copy(key, draft.value));
        owned := owned + {snapshot.value};
      }
    }
  }
}

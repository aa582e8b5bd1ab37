/**
 * The practice panel as the component updates it: refs and state fields assigned one by one, and
 * the seal slot in local storage. Each method covers the code between two awaited calls and is
 * proved against the function of `PracticePanel` or `PracticeClient` that the protocol uses. The
 * recovery copy a load works with is a parameter; `DraftRecovery.DraftTab` reads and writes it.
 */
module PanelCell {
  import opened Prelude
  import opened SubmissionServer
  import opened PracticePanel
  import opened PracticeClient

  /** The local-storage entry of the scope's seal intent, shared by the tabs of a browser. */
  class SealSlot {
    var intent: Option<Intent>

    constructor ()
      ensures intent == None
    {
      intent := None;
    }

    method Write(value: Intent)
      modifies this
      ensures intent == Some(value)
    {
      intent := Some(value);
    }

    /** `readSealIntent`: a stored intent that is too old is deleted and not returned. */
    method Find(inDate: bool) returns (found: Option<Intent>)
      modifies this
      ensures found == intent
      ensures inDate ==> intent == old(intent)
      ensures !inDate ==> intent == None
    {
      if !inDate {
        intent := None;
      }
      found := intent;
    }

    /** Afterwards nothing is stored under this key, and an intent of another key is still there. */
    method Remove(value: Intent)
      modifies this
      ensures intent.Some? ==> intent.value.key != value.key && intent == old(intent)
      ensures old(intent).Some? && old(intent).value.key != value.key ==> intent.Some?
    {
      if intent.Some? && intent.value.key == value.key {
        intent := None;
      }
    }
  }

  /** A load, field by field. */
  lemma LoadedView(p: Panel, q: Panel, r: Reading, recovered: Option<Envelope>, useServer: bool, seal: Option<Intent>)
    requires q.loaded && q.stage == r.stage && q.readOnly == r.closed && q.pair == LoadedPair(r) && q.images == r.images
    requires q.intent == if SealObserved(r, seal) then None else if seal.Some? then seal else p.intent
    requires var copy := Usable(r, recovered, useServer);
      && q.base == (if copy.Some? then copy.value.base else Some(LoadedPair(r)))
      && q.over == (if copy.Some? then copy.value.over else r.text)
      && q.draft == (if copy.Some? then copy.value.text else r.text) && q.persisted == r.text
      && q.conflict == LoadConflict(r, copy)
      && q.status == if q.conflict.Some? then Conflicted else if copy.Some? then Recovered else Quiet
    requires q.saving == p.saving && q.submit == p.submit
    ensures q == Load(p, r, recovered, useServer, seal)
  {
  }

  /** No save and no seal starts from this panel. */
  ghost predicate Blocked(p: Panel) {
    && (forall busy: bool :: !CanAutosave(p, busy))
    && (forall busy: bool :: !CanRetrySave(p, busy))
    && (forall ready: bool, busy: bool, pending: nat :: !CanSubmit(p, ready, busy, pending))
  }

  lemma BlockedBy(p: Panel)
    requires p.conflict.Some? || p.saving.Some?
    ensures Blocked(p)
  {
  }

  /** A banner of the page's own unsealed version resolves to the quoted text and revision. */
  lemma BannerResolves(p: Panel, r: Reading)
    requires r.version == p.pair.version && !r.isSealed
    ensures var q := ImageConflict(p, r);
      && !q.conflict.value.versionChanged
      && forall merge: bool :: Resolve(q, merge).persisted == r.text && Resolve(q, merge).pair == Pair(r.version, r.revision)
  {
  }

  class PracticePanelCell {
    const slot: SealSlot
    var loaded: bool
    var stage: Stage
    var readOnly: bool
    var version: Pair
    var draftText: string
    var persistedText: string
    var recoveryBase: Option<Pair>
    ghost var over: string
    var saveStatus: Status
    var conflict: Option<Conflict>
    var sealIntent: Option<Intent>
    var attachments: seq<Image>
    var saving: Option<SaveCall>
    var submit: Submit

    ghost function View(): Panel
      reads this
    {
      Panel(loaded, stage, readOnly, version, draftText, persistedText, recoveryBase, over, saveStatus, conflict, sealIntent,
            attachments, saving, submit)
    }

    /** The page and its local storage, with the recovery copy that is in it. */
    ghost function Cell(): Client
      reads this
    {
      Client(0, View(), NEW_EDITOR, map[], None, None)
    }

    ghost function Storage(copy: Option<Envelope>): Device
      reads this, slot
    {
      Device(slot.intent, map[], copy)
    }

    constructor (slot: SealSlot)
      ensures View() == NEW_PANEL && this.slot == slot
    {
      this.slot := slot;
      loaded, stage, readOnly := false, Draft, false;
      version, draftText, persistedText, recoveryBase, over := Pair(None, 0), "", "", None, "";
      saveStatus, conflict, sealIntent, attachments := Quiet, None, None, [];
      saving, submit := None, NotSubmitting;
    }

    /** The seal part of `loadUnit`: an intent seen sealed is dropped, any other stored one is taken up. */
    method ReconcileSeal(r: Reading, inDate: bool)
      modifies this`sealIntent, slot
      ensures var stored := if inDate then old(slot.intent) else None;
        && sealIntent == (if SealObserved(r, stored) then None else if stored.Some? then stored else old(sealIntent))
        && slot.intent == if SealObserved(r, stored) then None else stored
    {
      var pendingSeal := slot.Find(inDate);
      if pendingSeal.Some? && r.version == Some(pendingSeal.value.version) && r.isSealed {
        slot.Remove(pendingSeal.value);
        sealIntent := None;
      } else if pendingSeal.Some? {
        sealIntent := pendingSeal;
      }
    }

    /** The text part of `loadUnit`: the recovery copy, if one is usable, otherwise the server's text. */
    method TakeText(r: Reading, recovered: Option<Envelope>, useServerText: bool)
      modifies this`recoveryBase, this`over, this`draftText, this`persistedText, this`saveStatus, this`conflict
      ensures var copy := Usable(r, recovered, useServerText);
        && recoveryBase == (if copy.Some? then copy.value.base else Some(LoadedPair(r)))
        && over == (if copy.Some? then copy.value.over else r.text)
        && draftText == (if copy.Some? then copy.value.text else r.text) && persistedText == r.text
        && conflict == LoadConflict(r, copy)
        && saveStatus == if conflict.Some? then Conflicted else if copy.Some? then Recovered else Quiet
    {
      var current := Pair(r.version, if r.stage == RevisionRequested then 0 else r.revision);
      var canRecover := (r.stage == Draft || r.stage == RevisionRequested) && !useServerText;
      if canRecover && recovered.Some? && recovered.value.text != r.text {
        var copy := recovered.value;
        var sameVersion := copy.base.Some? && copy.base.value.version == r.version;
        var recoveryConflict := !sameVersion || copy.base.value.revision != current.revision;
        recoveryBase, over := copy.base, copy.over;
        draftText := copy.text;
        saveStatus := if recoveryConflict then Conflicted else Recovered;
        conflict := if recoveryConflict then Some(Conflict(current.revision, r.text, !sameVersion, r.version, true)) else None;
      } else {
        recoveryBase, over := Some(current), r.text;
        draftText := r.text;
        saveStatus := Quiet;
        conflict := None;
      }
      persistedText := r.text;
    }

    /** The pair, attachments and state of the answer; a requested revision is continued from revision 0. */
    method TakeVersion(r: Reading)
      modifies this`version, this`attachments, this`loaded, this`stage, this`readOnly
      ensures version == LoadedPair(r) && attachments == r.images && loaded && stage == r.stage && readOnly == r.closed
    {
      version := Pair(r.version, if r.stage == RevisionRequested then 0 else r.revision);
      attachments := r.images;
      loaded, stage, readOnly := true, r.stage, r.closed;
    }

    /** `loadUnit` from its answer on. */
    method FinishLoad(r: Reading, recovered: Option<Envelope>, useServerText: bool, inDate: bool)
      modifies this, slot
      ensures View() == LoadClient(old(Cell()), old(Storage(recovered)), r, useServerText, Found(true, inDate)).panel
      ensures Storage(recovered) == LoadDevice(old(Storage(recovered)), r, useServerText, Found(true, inDate))
      ensures saving == old(saving) && submit == old(submit)
    {
      ghost var before, seal := View(), if inDate then slot.intent else None;
      TakeVersion(r);
      ReconcileSeal(r, inDate);
      TakeText(r, recovered, useServerText);
      LoadedView(before, View(), r, recovered, useServerText, seal);
    }

    method ChangeText(text: string)
      modifies this`draftText, this`saveStatus
      ensures View() == Type(old(View()), text)
    {
      draftText := text;
      saveStatus := Unsaved;
    }

    /**
     * `saveDraft` up to its request. What was sent is remembered for its answer, and until then no
     * further save and no seal starts.
     */
    method BeginSave(call: nat) returns (q: Request)
      modifies this`saving, this`saveStatus
      ensures View() == SaveStart(old(View()), call)
      ensures saving.Some? && saving.value.call == call && q == Save(saving.value.text, saving.value.base)
      ensures Blocked(View())
    {
      saving := Some(SaveCall(call, draftText, version));
      saveStatus := Saving;
      q := Save(draftText, version);
      BlockedBy(View());
    }

    /** The banner of a stale answer; an answer without text leaves "" in its place. */
    method ShowStale(reply: Reply, about: Option<nat>)
      requires reply.StaleVersion? || reply.StaleRevision?
      modifies this`conflict, this`saveStatus
      ensures conflict == Some(StaleConflict(reply, about)) && saveStatus == Conflicted
    {
      var text := if reply.latestText.Some? then reply.latestText.value else "";
      conflict := Some(Conflict(reply.latestRevision, text, reply.StaleVersion?, about, reply.latestText.Some?));
      saveStatus := Conflicted;
    }

    /** An accepted save: the answered pair, with the text that was sent. */
    method TakeSaved(pair: Pair, text: string)
      modifies this`version, this`recoveryBase, this`over, this`persistedText, this`saveStatus
      ensures version == pair && recoveryBase == Some(pair) && over == text && persistedText == text && saveStatus == SavedStatus
    {
      version := pair;
      recoveryBase, over := Some(pair), text;
      persistedText := text;
      saveStatus := SavedStatus;
    }

    /** `saveDraft` from its answer on; `saved` tells `prepareImageDraft` whether to go on. */
    method FinishSave(reply: Reply) returns (saved: bool)
      requires saving.Some?
      modifies this
      ensures View() == SaveReply(old(View()), reply) && saved == reply.Saved?
    {
      var call := saving.value;
      saving := None;
      saved := reply.Saved?;
      if reply.StaleVersion? || reply.StaleRevision? {
        ShowStale(reply, call.base.version);
      } else if reply.Saved? {
        TakeSaved(Pair(Some(reply.version), reply.revision), call.text);
      } else {
        ShowFailed(reply.Closed?);
      }
    }

    /** A save that failed: a banner stays, and closed records end the editing. */
    method ShowFailed(closed: bool)
      modifies this`saveStatus, this`readOnly
      ensures saveStatus == if old(saveStatus) == Conflicted then Conflicted else PracticePanel.Failed
      ensures readOnly == (old(readOnly) || closed)
    {
      saveStatus := if saveStatus == Conflicted then Conflicted else PracticePanel.Failed;
      readOnly := readOnly || closed;
    }

    /**
     * The banner of an image step: pair, texts, base, intent and attachments stay, no save or seal
     * starts while it is shown, and resolving it, if the version is still the page's and unsealed,
     * gives the text and the pair of the reading.
     */
    method ShowImageConflict(r: Reading)
      modifies this`conflict, this`saveStatus
      ensures View() == ImageConflict(old(View()), r)
      ensures Blocked(View())
      ensures conflict.Some? && (conflict.value.versionChanged <==> r.version != version.version || r.isSealed)
      ensures r.version == version.version && !r.isSealed ==>
        forall merge: bool :: Resolve(View(), merge).persisted == r.text && Resolve(View(), merge).pair == Pair(r.version, r.revision)
    {
      conflict := Some(Conflict(r.revision, r.text, r.version != version.version || r.isSealed, r.version, true));
      saveStatus := Conflicted;
      BlockedBy(View());
      if r.version == version.version && !r.isSealed {
        BannerResolves(old(View()), r);
      }
    }

    /** `updateImageSnapshot`; the result says whether it goes on to reload the unit. */
    method UpdateImageSnapshot(r: Reading) returns (reload: bool)
      modifies this
      ensures View() == ImageUpdate(old(View()), r) && (reload <==> UpdateReloads(old(View()), r))
    {
      attachments := r.images;
      if r.text != persistedText {
        ShowImageConflict(r);
        return false;
      }
      version := Pair(r.version, r.revision);
      recoveryBase, over := Some(Pair(r.version, r.revision)), r.text;
      reload := r.isSealed;
    }

    /** The end of `prepareImageDraft`: only an exact read-back is accepted, and it changes no text. */
    method AcceptReadback(r: Reading) returns (accepted: bool)
      modifies this
      ensures accepted <==> ReadbackMatches(old(View()), r)
      ensures View() == if accepted then ImageUpdate(old(View()), r) else ImageConflict(old(View()), r)
      ensures accepted ==> version == old(version) && persistedText == old(persistedText) && conflict == old(conflict)
    {
      if r.version != version.version || r.revision != version.revision || r.text != persistedText || r.isSealed {
        ShowImageConflict(r);
        return false;
      }
      var reload := UpdateImageSnapshot(r);
      accepted := true;
    }

    /** `resolveDraftConflict`; a changed version is reloaded instead. */
    method ResolveDraftConflict(merge: bool) returns (reload: bool)
      requires conflict.Some?
      modifies this
      ensures reload <==> old(conflict).value.versionChanged
      ensures View() == if old(conflict).value.versionChanged then old(View()) else Resolve(old(View()), merge)
      ensures !reload ==>
        && persistedText == old(conflict).value.latestText && conflict == None
        && draftText == (if merge then old(conflict).value.latestText + "\n\n---\n\n" + old(draftText) else old(conflict).value.latestText)
        && version == Pair(old(version).version, old(conflict).value.latestRevision) && recoveryBase == Some(version)
    {
      var c := conflict.value;
      if c.versionChanged {
        return true;
      }
      draftText := if merge then c.latestText + SEPARATOR + draftText else c.latestText;
      persistedText := c.latestText;
      version := Pair(version.version, c.latestRevision);
      recoveryBase, over := Some(version), c.latestText;
      conflict := None;
      saveStatus := if merge then Unsaved else SavedStatus;
      reload := false;
    }

    /** `submitDraft` up to its first request: a read if an intent is open, else the seal itself. */
    method BeginSubmit(key: nat, call: nat, writable: bool) returns (q: Request)
      requires version.version.Some?
      modifies this, slot
      ensures var e := SubmitClick(old(Cell()), old(Storage(None)), key, writable, call);
        View() == e.client.panel && Storage(None) == e.device && e.send == Some(q)
    {
      if sealIntent.Some? {
        submit := Rechecking(call, sealIntent.value);
        return Read;
      }
      var intent := Intent(key, version.version.value, version.revision, persistedText);
      sealIntent := Some(intent);
      if writable {
        slot.Write(intent);
      }
      submit := Sealing(call, intent);
      q := SealRequest(intent);
    }

    /** The intent is over: it leaves the page, and the slot if the slot still holds it. */
    method DropIntent(intent: Intent)
      modifies this`sealIntent, this`submit, slot
      ensures sealIntent == None && submit == NotSubmitting
      ensures slot.intent == if old(slot.intent).Some? && old(slot.intent).value.key == intent.key then None else old(slot.intent)
    {
      slot.Remove(intent);
      sealIntent, submit := None, NotSubmitting;
    }

    /** The banner of a read-back that has moved on from the intent. */
    method ShowMoved(r: Reading, intent: Intent)
      modifies this`conflict, this`saveStatus
      ensures conflict == Some(Conflict(r.revision, r.text, r.version != Some(intent.version), r.version, true)) && saveStatus == Conflicted
    {
      conflict := Some(Conflict(r.revision, r.text, r.version != Some(intent.version), r.version, true));
      saveStatus := Conflicted;
    }

    /** `submitDraft` after the read of an open intent. */
    method FinishRecheck(r: Reading, recovered: Option<Envelope>, inDate: bool, call: nat) returns (q: Option<Request>)
      requires submit.Rechecking?
      modifies this, slot
      ensures var e := RecheckDone(old(Cell()), old(Storage(recovered)), Snapshot(r), Found(true, inDate), old(submit).intent, call);
        View() == e.client.panel && Storage(recovered) == e.device && q == e.send
    {
      var intent := submit.intent;
      FinishLoad(r, recovered, false, inDate);
      q := CompareIntent(r, intent, call);
    }

    /** The rest of it, once the panel has been loaded. */
    method CompareIntent(r: Reading, intent: Intent, call: nat) returns (q: Option<Request>)
      modifies this`conflict, this`saveStatus, this`sealIntent, this`submit, slot
      ensures View() == Rechecked(old(View()), r, intent, call)
      ensures var outcome := RecheckOutcome(r, intent);
        && q == (if outcome == StillOpen then Some(SealRequest(intent)) else None)
        && Storage(None) == if outcome == AlreadySealed || outcome == Moved then DropSlot(old(Storage(None)), intent) else old(Storage(None))
    {
      q := None;
      if r.version == None {
        submit := NotSubmitting;
      } else if r.version == Some(intent.version) && r.isSealed {
        DropIntent(intent);
      } else if r.version != Some(intent.version) || r.revision != intent.revision {
        ShowMoved(r, intent);
        DropIntent(intent);
      } else {
        submit := Sealing(call, intent);
        q := Some(SealRequest(intent));
      }
    }

    /** `submitDraft` from the answer to the seal on; an unclear answer keeps the intent and its slot. */
    method FinishSeal(reply: Reply) returns (reload: bool)
      requires submit.Sealing?
      modifies this, slot
      ensures View() == SealReply(old(View()), reply) && (reload <==> reply.SealAccepted?)
      ensures Storage(None) == if SealSettles(reply) then DropSlot(old(Storage(None)), old(submit).intent) else old(Storage(None))
    {
      var intent := submit.intent;
      reload := reply.SealAccepted?;
      match reply {
        case Closed =>
          readOnly := true;
          DropIntent(intent);
        case StaleVersion(_, _) =>
          ShowStale(reply, Some(intent.version));
          DropIntent(intent);
        case StaleRevision(_, _) =>
          ShowStale(reply, Some(intent.version));
          DropIntent(intent);
        case SealAccepted =>
          DropIntent(intent);
        case _ =>
          submit := NotSubmitting;
      }
    }
  }
}

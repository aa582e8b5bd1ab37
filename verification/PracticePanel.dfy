/**
 * The learner's draft panel between two awaited answers: what each answer or click does to the
 * tokens, the two texts, the conflict banner and the seal intent. The functions here say what the
 * new state is; `PracticePanelCell` in module PanelCell updates the fields in place and is proved
 * against them.
 */
module PracticePanel {
  import opened Prelude
  import opened JsText
  import opened SubmissionServer

  /**
   * The conflict banner. `about` and `quoted` are bookkeeping of this model: the version the
   * banner's revision belongs to, and whether the answer that raised it carried the text at all
   * (the panel substitutes "" when it did not).
   */
  datatype Conflict = Conflict(
    latestRevision: nat,
    latestText: string,
    versionChanged: bool,
    about: Option<nat>,
    quoted: bool)

  /** An open seal intent. `text` is bookkeeping: the persisted text at the click. */
  datatype Intent = Intent(key: nat, version: nat, revision: nat, text: string)

  datatype Status = Quiet | Unsaved | Saving | SavedStatus | Failed | Conflicted | Recovered

  /**
   * A write-ahead copy of the draft; copies of unknown origin have no base. `over` is bookkeeping:
   * the text the base stood for when the copy was written.
   */
  datatype Envelope = Envelope(text: string, base: Option<Pair>, over: string, stamp: nat)

  datatype SaveCall = SaveCall(call: nat, text: string, base: Pair)

  datatype Submit =
    | NotSubmitting
    | Rechecking(call: nat, intent: Intent)
    | Sealing(call: nat, intent: Intent)

  /** `over` is bookkeeping like that of a copy: the text that `base` stands for. */
  datatype Panel = Panel(
    loaded: bool,
    stage: Stage,
    readOnly: bool,
    pair: Pair,
    draft: string,
    persisted: string,
    base: Option<Pair>,
    over: string,
    status: Status,
    conflict: Option<Conflict>,
    intent: Option<Intent>,
    images: seq<Image>,
    saving: Option<SaveCall>,
    submit: Submit)

  const NEW_PANEL :=
    Panel(false, Draft, false, Pair(None, 0), "", "", None, "", Quiet, None, None, [], None, NotSubmitting)

  const SEPARATOR := "\n\n---\n\n"

  predicate Editable(p: Panel) {
    p.loaded && !p.readOnly && (p.stage == Draft || p.stage == RevisionRequested)
  }

  // ---------------------------------------------------------------- loading

  /** A version waiting for its revision is continued from revision 0. */
  function LoadedPair(r: Reading): Pair {
    Pair(r.version, if r.stage == RevisionRequested then 0 else r.revision)
  }

  /** Local copies are no evidence for work that was sealed or accepted. */
  predicate CanRecover(r: Reading) {
    r.stage == Draft || r.stage == RevisionRequested
  }

  /** The recovery copy that a load takes up: none for sealed work or on an explicit server reload. */
  function Usable(r: Reading, recovered: Option<Envelope>, useServer: bool): Option<Envelope> {
    if CanRecover(r) && !useServer && recovered.Some? && recovered.value.text != r.text then recovered else None
  }

  predicate SealObserved(r: Reading, seal: Option<Intent>) {
    seal.Some? && r.version == Some(seal.value.version) && r.isSealed
  }

  function LoadConflict(r: Reading, copy: Option<Envelope>): Option<Conflict> {
    if copy == None || copy.value.base == Some(LoadedPair(r)) then None
    else
      var same := copy.value.base.Some? && copy.value.base.value.version == r.version;
      Some(Conflict(LoadedPair(r).revision, r.text, !same, r.version, true))
  }

  function Load(p: Panel, r: Reading, recovered: Option<Envelope>, useServer: bool, seal: Option<Intent>): Panel {
    var copy := Usable(r, recovered, useServer);
    var conflict := LoadConflict(r, copy);
    p.(loaded := true,
       stage := r.stage,
       readOnly := r.closed,
       pair := LoadedPair(r),
       images := r.images,
       intent := if SealObserved(r, seal) then None else if seal.Some? then seal else p.intent,
       base := if copy.Some? then copy.value.base else Some(LoadedPair(r)),
       over := if copy.Some? then copy.value.over else r.text,
       draft := if copy.Some? then copy.value.text else r.text,
       persisted := r.text,
       status := if conflict.Some? then Conflicted else if copy.Some? then Recovered else Quiet,
       conflict := conflict)
  }

  // ---------------------------------------------------------------- saving

  predicate CanAutosave(p: Panel, imageBusy: bool) {
    && Editable(p) && p.draft != p.persisted && p.conflict == None && p.intent == None
    && !imageBusy && p.saving == None
  }

  /** The "Retry save" button. It looks at the save status but not at an open seal intent. */
  predicate CanRetrySave(p: Panel, imageBusy: bool) {
    && Editable(p) && p.status == Failed && p.conflict == None
    && !imageBusy && p.submit == NotSubmitting && p.saving == None
  }

  function SaveStart(p: Panel, call: nat): Panel {
    p.(saving := Some(SaveCall(call, p.draft, p.pair)), status := Saving)
  }

  function StaleConflict(reply: Reply, about: Option<nat>): Conflict
    requires reply.StaleVersion? || reply.StaleRevision?
  {
    Conflict(reply.latestRevision, if reply.latestText.Some? then reply.latestText.value else "",
             reply.StaleVersion?, about, reply.latestText.Some?)
  }

  function SaveReply(p: Panel, reply: Reply): Panel
    requires p.saving.Some?
  {
    var done := p.(saving := None);
    match reply
    case Saved(v, r) =>
      done.(pair := Pair(Some(v), r), base := Some(Pair(Some(v), r)), over := p.saving.value.text,
            persisted := p.saving.value.text, status := SavedStatus)
    case StaleVersion(_, _) =>
      done.(conflict := Some(StaleConflict(reply, p.saving.value.base.version)), status := Conflicted)
    case StaleRevision(_, _) =>
      done.(conflict := Some(StaleConflict(reply, p.saving.value.base.version)), status := Conflicted)
    case _ =>
      done.(status := if p.status == Conflicted then Conflicted else Failed, readOnly := p.readOnly || reply.Closed?)
  }

  function Type(p: Panel, text: string): Panel {
    p.(draft := text, status := Unsaved)
  }

  // ---------------------------------------------------------------- image snapshots

  function ImageConflict(p: Panel, r: Reading): Panel {
    p.(conflict := Some(Conflict(r.revision, r.text, r.version != p.pair.version || r.isSealed, r.version, true)),
       status := Conflicted)
  }

  function ImageUpdate(p: Panel, r: Reading): Panel {
    var q := p.(images := r.images);
    if r.text != p.persisted then ImageConflict(q, r)
    else q.(pair := Pair(r.version, r.revision), base := Some(Pair(r.version, r.revision)), over := r.text)
  }

  predicate UpdateReloads(p: Panel, r: Reading) {
    r.text == p.persisted && r.isSealed
  }

  /** `prepareImageDraft` accepts its read-back only if it is exactly what the panel holds. */
  predicate ReadbackMatches(p: Panel, r: Reading) {
    r.version == p.pair.version && r.revision == p.pair.revision && r.text == p.persisted && !r.isSealed
  }

  predicate NeedsSave(p: Panel) {
    p.pair.version == None || p.pair.revision < 1 || p.draft != p.persisted
  }

  // ---------------------------------------------------------------- conflicts

  /** Resolving a conflict of the same version; a changed version is reloaded instead. */
  function Resolve(p: Panel, merge: bool): Panel
    requires p.conflict.Some? && !p.conflict.value.versionChanged
  {
    var c := p.conflict.value;
    var pair := Pair(p.pair.version, c.latestRevision);
    p.(draft := if merge then c.latestText + SEPARATOR + p.draft else c.latestText,
       persisted := c.latestText, pair := pair, base := Some(pair), over := c.latestText, conflict := None,
       status := if merge then Unsaved else SavedStatus)
  }

  // ---------------------------------------------------------------- sealing

  predicate CanSubmit(p: Panel, imageReady: bool, imageBusy: bool, pendingImages: nat) {
    && Editable(p) && imageReady && !imageBusy && pendingImages == 0 && p.saving == None
    && p.submit == NotSubmitting && p.conflict == None
    && p.pair.version.Some? && p.pair.revision >= 1 && p.draft == p.persisted
    && (Trim(p.draft) != "" || p.images != [])
  }

  /** The first click: a new intent for the pair on screen. */
  function SealStart(p: Panel, key: nat, call: nat): Panel
    requires p.pair.version.Some?
  {
    var intent := Intent(key, p.pair.version.value, p.pair.revision, p.persisted);
    p.(intent := Some(intent), submit := Sealing(call, intent))
  }

  datatype Recheck = AlreadySealed | Moved | StillOpen | Unreadable

  function RecheckOutcome(r: Reading, intent: Intent): Recheck {
    if r.version == None then Unreadable
    else if r.version == Some(intent.version) && r.isSealed then AlreadySealed
    else if r.version != Some(intent.version) || r.revision != intent.revision then Moved
    else StillOpen
  }

  /** A later click with an open intent: the panel has just been loaded from `r`. */
  function Rechecked(p: Panel, r: Reading, intent: Intent, call: nat): Panel {
    match RecheckOutcome(r, intent)
    case Unreadable => p.(submit := NotSubmitting)
    case AlreadySealed => p.(intent := None, submit := NotSubmitting)
    case Moved =>
      p.(conflict := Some(Conflict(r.revision, r.text, r.version != Some(intent.version), r.version, true)),
         status := Conflicted, intent := None, submit := NotSubmitting)
    case StillOpen => p.(submit := Sealing(call, intent))
  }

  /** Whether an answer to a seal ends the intent. */
  predicate SealSettles(reply: Reply) {
    reply.SealAccepted? || reply.Closed? || reply.StaleVersion? || reply.StaleRevision?
  }

  function SealReply(p: Panel, reply: Reply): Panel
    requires p.submit.Sealing?
  {
    var done := p.(submit := NotSubmitting);
    if !SealSettles(reply) then done
    else if reply.Closed? then done.(intent := None, readOnly := true)
    else if reply.SealAccepted? then done.(intent := None)
    else done.(intent := None, status := Conflicted,
               conflict := Some(StaleConflict(reply, Some(p.submit.intent.version))))
  }
}

/**
 * The server side of one learner's submission to one activity: versions, draft revisions,
 * attachments and seal receipts, with the four write operations the practice panel calls.
 * Every operation is one database transaction that locks the submission row, so it is one
 * step here. Requests that fail for a reason outside this model (authentication, text
 * validation, an archived activity, an unreachable database) change nothing; `Refused`
 * stands for their answers.
 */
module SubmissionServer {
  import opened Prelude
  import opened JsText

  datatype Image = Image(id: nat, client: nat, version: nat, digest: nat)

  /** What one draft revision of a version holds. */
  datatype Snap = Snap(text: string, images: seq<Image>)

  /** A version's current revision number is the number of its snapshots. */
  datatype Version = Version(snaps: seq<Snap>, isSealed: bool)

  datatype Stage = Draft | Submitted | Resubmitted | RevisionRequested | Accepted

  /** The payload a seal receipt is bound to. */
  datatype Receipt = Receipt(version: nat, revision: nat)

  /**
   * Version ids are positions in `versions`; the last one is current. `replaysUploads` is
   * true of the deployed store; false describes a store without the branch that answers a
   * repeated client attachment id from the stored row.
   */
  datatype Server = Server(
    versions: seq<Version>,
    stage: Stage,
    receipts: map<nat, Receipt>,
    nextImage: nat,
    recordsClosed: bool,
    replaysUploads: bool)

  /** The pair of tokens every write carries. */
  datatype Pair = Pair(version: Option<nat>, revision: nat)

  /** The current version as a read reports it. */
  datatype Reading = Reading(
    version: Option<nat>,
    revision: nat,
    text: string,
    images: seq<Image>,
    isSealed: bool,
    stage: Stage,
    closed: bool)

  datatype Request =
    | Read
    | Save(text: string, base: Pair)
    | Upload(version: nat, revision: nat, client: nat, digest: nat)
    | Remove(version: nat, revision: nat, image: nat)
    | Seal(key: nat, version: nat, revision: nat)

  datatype Reply =
    | Snapshot(reading: Reading)
    | Saved(version: nat, revision: nat)
    | Uploaded(image: Image, revision: nat)
    | Removed(revision: nat)
    | SealAccepted
    | StaleVersion(latestRevision: nat, latestText: Option<string>)
    | StaleRevision(latestRevision: nat, latestText: Option<string>)
    | Closed
    | Refused

  const IMAGE_LIMIT := 3

  function Empty(replays: bool): Server {
    Server([], Draft, map[], 0, false, replays)
  }

  function Current(s: Server): Option<nat> {
    if s.versions == [] then None else Some(|s.versions| - 1)
  }

  function LastSnap(v: Version): Snap {
    if v.snaps == [] then Snap("", []) else v.snaps[|v.snaps| - 1]
  }

  function ReadCurrent(s: Server): Reading {
    if s.versions == [] then Reading(None, 0, "", [], false, s.stage, s.recordsClosed)
    else
      var v := |s.versions| - 1;
      var snap := LastSnap(s.versions[v]);
      Reading(Some(v), |s.versions[v].snaps|, snap.text, snap.images, s.versions[v].isSealed, s.stage,
              s.recordsClosed)
  }

  function StaleVersionReply(s: Server): Reply {
    if s.versions == [] then StaleVersion(0, Some(""))
    else
      var v := s.versions[|s.versions| - 1];
      StaleVersion(if s.stage == RevisionRequested then 0 else |v.snaps|, Some(LastSnap(v).text))
  }

  function CopyImages(images: seq<Image>, version: nat, next: nat): seq<Image> {
    seq(|images|, i requires 0 <= i < |images| => images[i].(id := next + i, version := version))
  }

  function PushSnap(s: Server, v: nat, snap: Snap): Server
    requires v < |s.versions|
  {
    s.(versions := s.versions[v := s.versions[v].(snaps := s.versions[v].snaps + [snap])])
  }

  function SaveDraft(s: Server, text: string, base: Pair): (Server, Reply) {
    if s.recordsClosed then (s, Closed)
    else if base.version != Current(s) then (s, StaleVersionReply(s))
    else if s.versions == [] then
      if base.revision != 0 then (s, StaleRevision(0, Some("")))
      else (s.(versions := [Version([Snap(Normalize(text), [])], false)], stage := Draft), Saved(0, 1))
    else
      var v := |s.versions| - 1;
      var last := LastSnap(s.versions[v]);
      if s.stage == RevisionRequested then
        if base.revision != 0 then (s, StaleRevision(0, Some(last.text)))
        else
          var copied := CopyImages(last.images, v + 1, s.nextImage);
          (s.(versions := s.versions + [Version([Snap(Normalize(text), copied)], false)],
              stage := Draft, nextImage := s.nextImage + |copied|), Saved(v + 1, 1))
      else if s.stage != Draft then (s, Refused)
      else if |s.versions[v].snaps| != base.revision then
        (s, StaleRevision(|s.versions[v].snaps|, Some(last.text)))
      else (PushSnap(s, v, Snap(Normalize(text), last.images)), Saved(v, base.revision + 1))
  }

  predicate HasClient(images: seq<Image>, client: nat) {
    exists i :: 0 <= i < |images| && images[i].client == client
  }

  function FindClient(images: seq<Image>, client: nat): (r: Option<Image>)
    ensures r.Some? <==> HasClient(images, client)
    ensures r.Some? ==> r.value in images && r.value.client == client
  {
    if images == [] then None
    else if images[0].client == client then Some(images[0])
    else
      var r := FindClient(images[1..], client);
      assert forall i :: 1 <= i < |images| ==> images[i] == images[1..][i - 1];
      r
  }

  function WithoutId(images: seq<Image>, id: nat): seq<Image> {
    if images == [] then []
    else if images[0].id == id then WithoutId(images[1..], id)
    else [images[0]] + WithoutId(images[1..], id)
  }

  predicate HasId(images: seq<Image>, id: nat) {
    exists i :: 0 <= i < |images| && images[i].id == id
  }

  predicate Writable(s: Server, v: nat) {
    v < |s.versions| && !s.versions[v].isSealed && s.stage == Draft && v == |s.versions| - 1
  }

  function UploadImage(s: Server, v: nat, revision: nat, client: nat, digest: nat): (Server, Reply) {
    if revision < 1 || v >= |s.versions| then (s, Refused)
    else if s.recordsClosed then (s, Closed)
    else
      var last := LastSnap(s.versions[v]);
      var existing := FindClient(last.images, client);
      if s.replaysUploads && existing.Some? then
        if existing.value.digest != digest then (s, Refused)
        else (s, Uploaded(existing.value, |s.versions[v].snaps|))
      else if !Writable(s, v) then (s, Refused)
      else if |s.versions[v].snaps| != revision then (s, StaleRevision(|s.versions[v].snaps|, None))
      else if |last.images| >= IMAGE_LIMIT then (s, Refused)
      else
        var image := Image(s.nextImage, client, v, digest);
        (PushSnap(s, v, Snap(last.text, last.images + [image])).(nextImage := s.nextImage + 1),
         Uploaded(image, revision + 1))
  }

  function RemoveImage(s: Server, v: nat, revision: nat, image: nat): (Server, Reply) {
    if revision < 1 || v >= |s.versions| then (s, Refused)
    else if s.recordsClosed then (s, Closed)
    else if !Writable(s, v) then (s, Refused)
    else if |s.versions[v].snaps| != revision then (s, StaleRevision(|s.versions[v].snaps|, None))
    else
      var last := LastSnap(s.versions[v]);
      if !HasId(last.images, image) then (s, Removed(revision))
      else (PushSnap(s, v, Snap(last.text, WithoutId(last.images, image))), Removed(revision + 1))
  }

  /** A stale revision answer to a seal carries no text, unlike the answer to a save. */
  function SealVersion(s: Server, key: nat, v: nat, revision: nat): (Server, Reply) {
    if key in s.receipts then
      (s, if s.receipts[key] == Receipt(v, revision) then SealAccepted else Refused)
    else if s.recordsClosed then (s, Closed)
    else if s.versions == [] then (s, Refused)
    else if Current(s) != Some(v) then (s, StaleVersionReply(s))
    else if s.stage != Draft || s.versions[v].isSealed then (s, Refused)
    else if |s.versions[v].snaps| != revision then (s, StaleRevision(|s.versions[v].snaps|, None))
    else
      var last := LastSnap(s.versions[v]);
      if Trim(last.text) == "" && last.images == [] then (s, Refused)
      else
        (s.(versions := s.versions[v := s.versions[v].(isSealed := true)],
            stage := if v == 0 then Submitted else Resubmitted,
            receipts := s.receipts[key := Receipt(v, revision)]), SealAccepted)
  }

  /** The teacher's decision about the sealed current version. */
  function Decide(s: Server, accept: bool): Server {
    if s.versions == [] || !s.versions[|s.versions| - 1].isSealed then s
    else if s.stage != Submitted && s.stage != Resubmitted then s
    else s.(stage := if accept then Accepted else RevisionRequested)
  }

  function CloseRecords(s: Server): Server {
    s.(recordsClosed := true)
  }

  function Serve(s: Server, q: Request): (Server, Reply) {
    match q
    case Read => (s, Snapshot(ReadCurrent(s)))
    case Save(text, base) => SaveDraft(s, text, base)
    case Upload(v, r, client, digest) => UploadImage(s, v, r, client, digest)
    case Remove(v, r, image) => RemoveImage(s, v, r, image)
    case Seal(key, v, r) => SealVersion(s, key, v, r)
  }

  // ---------------------------------------------------------------- invariant

  ghost predicate SnapOk(snap: Snap, v: nat, nextImage: nat) {
    && Normalize(snap.text) == snap.text
    && forall i :: 0 <= i < |snap.images| ==> snap.images[i].version == v && snap.images[i].id < nextImage
  }

  /** A revision changes the text or the attachments, never both. */
  ghost predicate OneChange(before: Snap, after: Snap) {
    before.text == after.text || before.images == after.images
  }

  ghost predicate VersionOk(s: Server, v: nat)
    requires v < |s.versions|
  {
    && |s.versions[v].snaps| >= 1
    && (forall r :: 0 <= r < |s.versions[v].snaps| ==> SnapOk(s.versions[v].snaps[r], v, s.nextImage))
    && (forall r :: 1 <= r < |s.versions[v].snaps| ==> OneChange(s.versions[v].snaps[r - 1], s.versions[v].snaps[r]))
    && (v < |s.versions| - 1 ==> s.versions[v].isSealed)
  }

  ghost predicate ServerOk(s: Server) {
    && (forall v :: 0 <= v < |s.versions| ==> VersionOk(s, v))
    && (s.versions == [] ==> s.stage == Draft)
    && (s.versions != [] ==> (s.versions[|s.versions| - 1].isSealed <==> s.stage != Draft))
    && (forall k :: k in s.receipts ==>
          var c := s.receipts[k];
          c.version < |s.versions| && s.versions[c.version].isSealed && |s.versions[c.version].snaps| == c.revision)
  }

  /** History only grows: revisions are appended, sealed versions never change again. */
  ghost predicate Extends(s: Server, t: Server) {
    && |s.versions| <= |t.versions|
    && (forall v :: 0 <= v < |s.versions| ==> VersionGrows(s.versions[v], t.versions[v]))
    && (forall k :: k in s.receipts ==> k in t.receipts && t.receipts[k] == s.receipts[k])
    && s.nextImage <= t.nextImage
    && (s.recordsClosed ==> t.recordsClosed)
    && s.replaysUploads == t.replaysUploads
  }

  ghost predicate VersionGrows(before: Version, after: Version) {
    && before.snaps <= after.snaps
    && (before.isSealed ==> after.isSealed && after.snaps == before.snaps)
  }

  lemma ExtendsReflexive(s: Server)
    ensures Extends(s, s)
  {
  }

  lemma ExtendsTransitive(a: Server, b: Server, c: Server)
    requires Extends(a, b) && Extends(b, c)
    ensures Extends(a, c)
  {
    forall v | 0 <= v < |a.versions| ensures VersionGrows(a.versions[v], c.versions[v]) {
      assert VersionGrows(a.versions[v], b.versions[v]) && VersionGrows(b.versions[v], c.versions[v]);
    }
  }

  lemma WithoutIdMembers(images: seq<Image>, id: nat)
    ensures forall i :: 0 <= i < |WithoutId(images, id)| ==>
      WithoutId(images, id)[i] in images && WithoutId(images, id)[i].id != id
    ensures |WithoutId(images, id)| <= |images|
  {
  }

  lemma PushOk(s: Server, v: nat, snap: Snap, next: nat)
    requires ServerOk(s) && v == |s.versions| - 1 && v >= 0 && !s.versions[v].isSealed
    requires s.nextImage <= next && SnapOk(snap, v, next) && OneChange(LastSnap(s.versions[v]), snap)
    ensures ServerOk(PushSnap(s, v, snap).(nextImage := next))
    ensures Extends(s, PushSnap(s, v, snap).(nextImage := next))
  {
    var t := PushSnap(s, v, snap).(nextImage := next);
    forall w | 0 <= w < |t.versions| ensures VersionOk(t, w) && VersionGrows(s.versions[w], t.versions[w]) {
      assert VersionOk(s, w);
      forall r | 0 <= r < |t.versions[w].snaps| ensures SnapOk(t.versions[w].snaps[r], w, next) {
      }
      forall r | 1 <= r < |t.versions[w].snaps| ensures OneChange(t.versions[w].snaps[r - 1], t.versions[w].snaps[r]) {
        if r < |s.versions[w].snaps| {
          assert OneChange(s.versions[w].snaps[r - 1], s.versions[w].snaps[r]);
        }
      }
    }
  }

  /** The two lists attach the same files under the same client ids; the copy belongs to version `v`. */
  ghost predicate CopiedTo(images: seq<Image>, copied: seq<Image>, v: nat) {
    |copied| == |images| &&
    forall i :: 0 <= i < |images| ==>
      copied[i].client == images[i].client && copied[i].digest == images[i].digest && copied[i].version == v
  }

  /**
   * The first save of a requested revision opens a version: its only snapshot holds the normalised
   * text and the attachments of the sealed version, which stays as it was, under the new version.
   */
  lemma NewVersionOk(s: Server, text: string, base: Pair)
    requires ServerOk(s) && s.versions != [] && s.stage == RevisionRequested && SaveDraft(s, text, base).0 != s
    ensures var t := SaveDraft(s, text, base).0;
      && ServerOk(t) && Extends(s, t)
      && |t.versions| == |s.versions| + 1 && t.versions[..|s.versions|] == s.versions && t.stage == Draft
      && var added := t.versions[|s.versions|];
      && |added.snaps| == 1 && !added.isSealed && added.snaps[0].text == Normalize(text)
      && CopiedTo(LastSnap(s.versions[|s.versions| - 1]).images, added.snaps[0].images, |s.versions|)
  {
    NormalizeIdempotent(text);
    var t := SaveDraft(s, text, base).0;
    forall w | 0 <= w < |t.versions| ensures VersionOk(t, w) {
      if w < |s.versions| {
        assert VersionOk(s, w);
      }
    }
  }

  lemma SaveOk(s: Server, text: string, base: Pair)
    requires ServerOk(s)
    ensures ServerOk(SaveDraft(s, text, base).0) && Extends(s, SaveDraft(s, text, base).0)
  {
    NormalizeIdempotent(text);
    var t := SaveDraft(s, text, base).0;
    if s.versions != [] && t != s {
      var v := |s.versions| - 1;
      assert VersionOk(s, v);
      assert SnapOk(s.versions[v].snaps[|s.versions[v].snaps| - 1], v, s.nextImage);
      if s.stage == RevisionRequested {
        NewVersionOk(s, text, base);
      } else {
        PushOk(s, v, Snap(Normalize(text), LastSnap(s.versions[v]).images), s.nextImage);
      }
    }
  }

  lemma UploadOk(s: Server, v: nat, revision: nat, client: nat, digest: nat)
    requires ServerOk(s)
    ensures ServerOk(UploadImage(s, v, revision, client, digest).0)
    ensures Extends(s, UploadImage(s, v, revision, client, digest).0)
  {
    if UploadImage(s, v, revision, client, digest).0 != s {
      assert VersionOk(s, v);
      var last := LastSnap(s.versions[v]);
      assert SnapOk(last, v, s.nextImage);
      PushOk(s, v, Snap(last.text, last.images + [Image(s.nextImage, client, v, digest)]), s.nextImage + 1);
    }
  }

  lemma RemoveOk(s: Server, v: nat, revision: nat, image: nat)
    requires ServerOk(s)
    ensures ServerOk(RemoveImage(s, v, revision, image).0)
    ensures Extends(s, RemoveImage(s, v, revision, image).0)
  {
    if RemoveImage(s, v, revision, image).0 != s {
      assert VersionOk(s, v);
      var last := LastSnap(s.versions[v]);
      assert SnapOk(last, v, s.nextImage);
      WithoutIdMembers(last.images, image);
      PushOk(s, v, Snap(last.text, WithoutId(last.images, image)), s.nextImage);
    }
  }

  lemma SealOk(s: Server, key: nat, v: nat, revision: nat)
    requires ServerOk(s)
    ensures ServerOk(SealVersion(s, key, v, revision).0)
    ensures Extends(s, SealVersion(s, key, v, revision).0)
  {
    var t := SealVersion(s, key, v, revision).0;
    if t != s {
      forall w | 0 <= w < |t.versions| ensures VersionOk(t, w) && VersionGrows(s.versions[w], t.versions[w]) {
        assert VersionOk(s, w);
      }
    }
  }

  /** What every request keeps: the invariant, and all history written so far. */
  lemma ServeKeeps(s: Server, q: Request)
    requires ServerOk(s)
    ensures ServerOk(Serve(s, q).0) && Extends(s, Serve(s, q).0)
  {
    match q
    case Read =>
    case Save(text, base) => SaveOk(s, text, base);
    case Upload(v, r, client, digest) => UploadOk(s, v, r, client, digest);
    case Remove(v, r, image) => RemoveOk(s, v, r, image);
    case Seal(key, v, r) => SealOk(s, key, v, r);
  }

  /** A decision changes no version, attachment or receipt: only the stage, and only of sealed work that waits for it. */
  lemma DecideKeeps(s: Server, accept: bool)
    requires ServerOk(s)
    ensures ServerOk(Decide(s, accept)) && Extends(s, Decide(s, accept))
    ensures var t := Decide(s, accept);
      && t.versions == s.versions && t.nextImage == s.nextImage && t.receipts == s.receipts && t.recordsClosed == s.recordsClosed
      && (t.stage != s.stage ==> s.stage == Submitted || s.stage == Resubmitted)
      && (t.stage != s.stage ==> ReadCurrent(s).isSealed && t.stage == if accept then Accepted else RevisionRequested)
  {
    forall v | 0 <= v < |s.versions| ensures VersionOk(Decide(s, accept), v) {
      assert VersionOk(s, v);
    }
  }

  lemma CloseKeeps(s: Server)
    requires ServerOk(s)
    ensures ServerOk(CloseRecords(s)) && Extends(s, CloseRecords(s))
  {
    forall v | 0 <= v < |s.versions| ensures VersionOk(CloseRecords(s), v) {
      assert VersionOk(s, v);
    }
  }
}

/**
 * What a `(version, revision)` pair means: the server state it names, why that meaning never
 * changes, why at most one write can ever be accepted for it, and how often an image can be
 * attached.
 */
module SubmissionHistory {
  import opened Prelude
  import opened JsText
  import opened SubmissionServer

  /** The text a pair names. Revision 0 of a sealed version stands for its sealed text. */
  ghost function TextAt(s: Server, p: Pair): Option<string> {
    match p.version
    case None => if p.revision == 0 then Some("") else None
    case Some(v) =>
      if v >= |s.versions| then None
      else if p.revision == 0 then
        if s.versions[v].isSealed then Some(LastSnap(s.versions[v]).text) else None
      else if p.revision <= |s.versions[v].snaps| then Some(s.versions[v].snaps[p.revision - 1].text)
      else None
  }

  /** The text a reader of the current version would see. */
  ghost function CurrentText(s: Server): string {
    ReadCurrent(s).text
  }

  lemma TextAtStable(s: Server, t: Server, p: Pair)
    requires Extends(s, t) && TextAt(s, p).Some?
    ensures TextAt(t, p) == TextAt(s, p)
  {
    if p.version.Some? {
      assert VersionGrows(s.versions[p.version.value], t.versions[p.version.value]);
    }
  }

  lemma TextAtNormal(s: Server, p: Pair)
    requires ServerOk(s) && TextAt(s, p).Some?
    ensures Normalize(TextAt(s, p).value) == TextAt(s, p).value
  {
    if p.version.Some? {
      var v := p.version.value;
      assert VersionOk(s, v);
      var r := if p.revision == 0 then |s.versions[v].snaps| - 1 else p.revision - 1;
      assert SnapOk(s.versions[v].snaps[r], v, s.nextImage);
    }
  }

  /** The tokens a write carries. */
  function WritePair(q: Request): Option<Pair> {
    match q
    case Save(_, base) => Some(base)
    case Upload(v, r, _, _) => Some(Pair(Some(v), r))
    case Remove(v, r, _) => Some(Pair(Some(v), r))
    case _ => None
  }

  /** The request is a write and the server's history grew by it. */
  ghost predicate WriteAccepted(s: Server, q: Request) {
    WritePair(q).Some? && Serve(s, q).0.versions != s.versions
  }

  /** No write carrying this pair can be accepted any more. */
  ghost predicate Spent(s: Server, p: Pair) {
    match p.version
    case None => s.versions != []
    case Some(v) =>
      && v < |s.versions|
      && (if p.revision == 0 then v + 1 < |s.versions|
          else |s.versions[v].snaps| > p.revision || s.versions[v].isSealed)
  }

  lemma SpentForever(s: Server, t: Server, p: Pair)
    requires Extends(s, t) && Spent(s, p)
    ensures Spent(t, p)
  {
    if p.version.Some? {
      assert VersionGrows(s.versions[p.version.value], t.versions[p.version.value]);
    }
  }

  lemma AcceptedMeansCurrent(s: Server, q: Request)
    requires ServerOk(s) && WriteAccepted(s, q)
    ensures !Spent(s, WritePair(q).value)
    ensures Spent(Serve(s, q).0, WritePair(q).value)
  {
    if s.versions != [] {
      assert VersionOk(s, |s.versions| - 1);
    }
  }

  /**
   * The compare-and-swap: in every continuation of a run in which a write was accepted, no other
   * write with the same pair is accepted, whatever it is.
   */
  lemma OneAcceptedWritePerPair(s: Server, first: Request, later: Server, second: Request)
    requires ServerOk(s) && WriteAccepted(s, first)
    requires ServerOk(later) && Extends(Serve(s, first).0, later)
    requires WritePair(second) == WritePair(first)
    ensures !WriteAccepted(later, second)
  {
    AcceptedMeansCurrent(s, first);
    SpentForever(Serve(s, first).0, later, WritePair(first).value);
    if WriteAccepted(later, second) {
      AcceptedMeansCurrent(later, second);
    }
  }

  /** An accepted save replaces exactly the text its pair names, with the normalised new text. */
  lemma AcceptedSaveReplaces(s: Server, text: string, base: Pair)
    requires ServerOk(s) && WriteAccepted(s, Save(text, base))
    ensures TextAt(s, base) == Some(CurrentText(s))
    ensures CurrentText(Serve(s, Save(text, base)).0) == Normalize(text)
  {
    if s.versions != [] {
      assert VersionOk(s, |s.versions| - 1);
    }
  }

  /** How a text spells its line breaks makes no difference to a save: the same answer, and the same text stored. */
  lemma SaveFoldsBreaks(s: Server, x: string, y: string, base: Pair)
    requires x == [] || x[|x| - 1] != '\r'
    ensures Serve(s, Save(x + "\r\n" + y, base)) == Serve(s, Save(x + "\n" + y, base))
    ensures y == [] || y[0] != '\n' ==> Serve(s, Save(x + "\r" + y, base)) == Serve(s, Save(x + "\n" + y, base))
  {
    NormalizeFoldsBreaks(x, y);
  }

  /** What an acknowledged save says is true of the server that sent it. */
  lemma SavedIsTrue(s: Server, text: string, base: Pair)
    requires ServerOk(s) && Serve(s, Save(text, base)).1.Saved?
    ensures var (t, reply) := Serve(s, Save(text, base));
      TextAt(t, Pair(Some(reply.version), reply.revision)) == Some(Normalize(text))
  {
    if s.versions != [] {
      assert VersionOk(s, |s.versions| - 1);
    }
  }

  /** A stale answer to a save quotes the text that its revision names. */
  lemma StaleSaveIsTrue(s: Server, text: string, base: Pair)
    requires ServerOk(s) && Serve(s, Save(text, base)).1.StaleRevision?
    ensures var reply := Serve(s, Save(text, base)).1;
      && reply.latestText.Some?
      && TextAt(s, Pair(base.version, reply.latestRevision)) == Some(reply.latestText.value)
  {
    if s.versions != [] {
      assert VersionOk(s, |s.versions| - 1);
    }
  }

  // ---------------------------------------------------------------- attachments

  /** No attachment of the snapshot named by `(v, r)` carries the client id. */
  ghost predicate AbsentAt(s: Server, v: nat, r: nat, client: nat) {
    v < |s.versions| && 1 <= r <= |s.versions[v].snaps| && !HasClient(s.versions[v].snaps[r - 1].images, client)
  }

  ghost predicate Distinct(images: seq<Image>) {
    forall i, j :: 0 <= i < j < |images| ==> images[i].client != images[j].client
  }

  /** Every snapshot of every version holds each client attachment id at most once. */
  ghost predicate AttachedOnce(s: Server) {
    forall v, r :: 0 <= v < |s.versions| && 0 <= r < |s.versions[v].snaps| ==>
      Distinct(s.versions[v].snaps[r].images)
  }

  /** The id is attached in some revision of some version. */
  ghost predicate EverAttached(s: Server, client: nat) {
    exists v, r :: 0 <= v < |s.versions| && 0 <= r < |s.versions[v].snaps| &&
      HasClient(s.versions[v].snaps[r].images, client)
  }

  lemma AbsentAtStable(s: Server, t: Server, v: nat, r: nat, client: nat)
    requires Extends(s, t) && AbsentAt(s, v, r, client)
    ensures AbsentAt(t, v, r, client)
  {
    assert VersionGrows(s.versions[v], t.versions[v]);
  }

  lemma EverAttachedStable(s: Server, t: Server, client: nat)
    requires Extends(s, t) && EverAttached(s, client)
    ensures EverAttached(t, client)
  {
    var v, r :| 0 <= v < |s.versions| && 0 <= r < |s.versions[v].snaps| &&
      HasClient(s.versions[v].snaps[r].images, client);
    assert VersionGrows(s.versions[v], t.versions[v]);
    assert t.versions[v].snaps[r] == s.versions[v].snaps[r];
  }

  lemma WithoutIdDistinct(images: seq<Image>, id: nat)
    requires Distinct(images)
    ensures Distinct(WithoutId(images, id))
    ensures forall c :: HasClient(WithoutId(images, id), c) ==> HasClient(images, c)
  {
    WithoutIdMembers(images, id);
    if images != [] {
      assert forall i, j :: 0 <= i < j < |images[1..]| ==> images[1..][i] == images[i + 1] && images[1..][j] == images[j + 1];
      WithoutIdDistinct(images[1..], id);
      WithoutIdMembers(images[1..], id);
    }
  }

  lemma PushOnce(s: Server, v: nat, snap: Snap, next: nat)
    requires v < |s.versions| && AttachedOnce(s) && Distinct(snap.images)
    ensures AttachedOnce(PushSnap(s, v, snap).(nextImage := next))
  {
  }

  lemma LastIsDistinct(s: Server, v: nat)
    requires ServerOk(s) && AttachedOnce(s) && v < |s.versions|
    ensures Distinct(LastSnap(s.versions[v]).images)
  {
    assert VersionOk(s, v);
  }

  lemma SaveKeepsAttachedOnce(s: Server, text: string, base: Pair)
    requires ServerOk(s) && AttachedOnce(s)
    ensures AttachedOnce(SaveDraft(s, text, base).0)
  {
    if s.versions != [] {
      var v := |s.versions| - 1;
      LastIsDistinct(s, v);
      if s.stage != RevisionRequested {
        PushOnce(s, v, Snap(Normalize(text), LastSnap(s.versions[v]).images), s.nextImage);
      }
    }
  }

  /** The upload's own pair does not name a snapshot that already holds the id. */
  ghost predicate FreshAtPair(s: Server, v: nat, r: nat, client: nat) {
    v < |s.versions| && 1 <= r <= |s.versions[v].snaps| ==> AbsentAt(s, v, r, client)
  }

  lemma UploadKeepsAttachedOnce(s: Server, v: nat, r: nat, client: nat, digest: nat)
    requires ServerOk(s) && AttachedOnce(s)
    requires s.replaysUploads || FreshAtPair(s, v, r, client)
    ensures AttachedOnce(UploadImage(s, v, r, client, digest).0)
  {
    if UploadImage(s, v, r, client, digest).0 != s {
      LastIsDistinct(s, v);
      var last := LastSnap(s.versions[v]);
      assert !HasClient(last.images, client);
      PushOnce(s, v, Snap(last.text, last.images + [Image(s.nextImage, client, v, digest)]), s.nextImage + 1);
    }
  }

  lemma RemoveKeepsAttachedOnce(s: Server, v: nat, r: nat, image: nat)
    requires ServerOk(s) && AttachedOnce(s)
    ensures AttachedOnce(RemoveImage(s, v, r, image).0)
  {
    if RemoveImage(s, v, r, image).0 != s {
      LastIsDistinct(s, v);
      var last := LastSnap(s.versions[v]);
      WithoutIdDistinct(last.images, image);
      PushOnce(s, v, Snap(last.text, WithoutId(last.images, image)), s.nextImage);
    }
  }

  /**
   * At most once: any request keeps the property, if the store replays uploads or if an upload's
   * own pair names a snapshot without the id. The second form uses the revision check alone.
   */
  lemma ServeKeepsAttachedOnce(s: Server, q: Request)
    requires ServerOk(s) && AttachedOnce(s)
    requires q.Upload? ==> s.replaysUploads || FreshAtPair(s, q.version, q.revision, q.client)
    ensures AttachedOnce(Serve(s, q).0)
  {
    match q
    case Read =>
    case Save(text, base) => SaveKeepsAttachedOnce(s, text, base);
    case Upload(v, r, client, digest) => UploadKeepsAttachedOnce(s, v, r, client, digest);
    case Remove(v, r, image) => RemoveKeepsAttachedOnce(s, v, r, image);
    case Seal(key, v, r) =>
  }

  /** Only an upload brings a client id into the history; everything else copies or drops. */
  lemma ServeAttachesOnlyUploads(s: Server, q: Request, client: nat)
    requires ServerOk(s) && !EverAttached(s, client) && !(q.Upload? && q.client == client)
    ensures !EverAttached(Serve(s, q).0, client)
  {
    var t := Serve(s, q).0;
    if EverAttached(t, client) {
      var v, r :| 0 <= v < |t.versions| && 0 <= r < |t.versions[v].snaps| &&
        HasClient(t.versions[v].snaps[r].images, client);
      if v < |s.versions| && r < |s.versions[v].snaps| {
        ServeKeeps(s, q);
      } else {
        NewSnapIsOld(s, q, v, r, client);
      }
    }
  }

  lemma NewSnapIsOld(s: Server, q: Request, v: nat, r: nat, client: nat)
    requires ServerOk(s) && !(q.Upload? && q.client == client)
    requires v < |Serve(s, q).0.versions| && r < |Serve(s, q).0.versions[v].snaps|
    requires HasClient(Serve(s, q).0.versions[v].snaps[r].images, client)
    requires !(v < |s.versions| && r < |s.versions[v].snaps|)
    ensures EverAttached(s, client)
  {
    assert s.versions != [];
    var w := |s.versions| - 1;
    assert VersionOk(s, w);
    var last := LastSnap(s.versions[w]);
    NewSnapFromLast(s, q, v, r, client);
    assert last == s.versions[w].snaps[|s.versions[w].snaps| - 1];
  }

  lemma NewSnapFromLast(s: Server, q: Request, v: nat, r: nat, client: nat)
    requires s.versions != [] && VersionOk(s, |s.versions| - 1) && !(q.Upload? && q.client == client)
    requires v < |Serve(s, q).0.versions| && r < |Serve(s, q).0.versions[v].snaps|
    requires HasClient(Serve(s, q).0.versions[v].snaps[r].images, client)
    requires !(v < |s.versions| && r < |s.versions[v].snaps|)
    ensures HasClient(LastSnap(s.versions[|s.versions| - 1]).images, client)
  {
    match q
    case Save(text, base) => SavedFromLast(s, text, base, v, r, client);
    case Upload(_, _, other, _) =>
      UploadedFromLast(s, q, v, r);
      OneMoreImage(LastSnap(s.versions[|s.versions| - 1]).images, Serve(s, q).0.versions[v].snaps[r].images, client, other);
    case Remove(_, _, image) =>
      RemovedFromLast(s, q, v, r);
      LeftFromLast(LastSnap(s.versions[|s.versions| - 1]).images, image, client);
    case _ =>
  }

  lemma SavedFromLast(s: Server, text: string, base: Pair, v: nat, r: nat, client: nat)
    requires s.versions != [] && VersionOk(s, |s.versions| - 1)
    requires v < |SaveDraft(s, text, base).0.versions| && r < |SaveDraft(s, text, base).0.versions[v].snaps|
    requires HasClient(SaveDraft(s, text, base).0.versions[v].snaps[r].images, client)
    requires !(v < |s.versions| && r < |s.versions[v].snaps|)
    ensures HasClient(LastSnap(s.versions[|s.versions| - 1]).images, client)
  {
    var last := LastSnap(s.versions[|s.versions| - 1]);
    var images := SaveDraft(s, text, base).0.versions[v].snaps[r].images;
    var i :| 0 <= i < |images| && images[i].client == client;
    assert last.images[i].client == client;
  }

  lemma UploadedFromLast(s: Server, q: Request, v: nat, r: nat)
    requires s.versions != [] && VersionOk(s, |s.versions| - 1) && q.Upload?
    requires v < |Serve(s, q).0.versions| && r < |Serve(s, q).0.versions[v].snaps|
    requires !(v < |s.versions| && r < |s.versions[v].snaps|)
    ensures exists image: Image ::
      image.client == q.client && Serve(s, q).0.versions[v].snaps[r].images == LastSnap(s.versions[|s.versions| - 1]).images + [image]
  {
    var image := Image(s.nextImage, q.client, q.version, q.digest);
    assert image.client == q.client;
  }

  lemma OneMoreImage(images: seq<Image>, more: seq<Image>, client: nat, other: nat)
    requires HasClient(more, client) && client != other
    requires exists image: Image :: image.client == other && more == images + [image]
    ensures HasClient(images, client)
  {
    var i :| 0 <= i < |more| && more[i].client == client;
    assert images[i] == more[i];
  }

  lemma RemovedFromLast(s: Server, q: Request, v: nat, r: nat)
    requires s.versions != [] && VersionOk(s, |s.versions| - 1) && q.Remove?
    requires v < |Serve(s, q).0.versions| && r < |Serve(s, q).0.versions[v].snaps|
    requires !(v < |s.versions| && r < |s.versions[v].snaps|)
    ensures Serve(s, q).0.versions[v].snaps[r].images == WithoutId(LastSnap(s.versions[|s.versions| - 1]).images, q.image)
  {
  }

  lemma LeftFromLast(images: seq<Image>, image: nat, client: nat)
    requires HasClient(WithoutId(images, image), client)
    ensures HasClient(images, client)
  {
    var left := WithoutId(images, image);
    var i :| 0 <= i < |left| && left[i].client == client;
    WithoutIdMembers(images, image);
    assert left[i] in images;
  }

  /**
   * What an upload answer says about the text. The store answers a repeated client id with the
   * version's revision of that moment, which may be any later one; only the very next revision is
   * known to hold the text of the revision the upload was based on.
   */
  lemma UploadedIsTrue(s: Server, v: nat, r: nat, client: nat, digest: nat)
    requires ServerOk(s) && AbsentAt(s, v, r, client)
    requires UploadImage(s, v, r, client, digest).1.Uploaded?
    ensures var (t, reply) := UploadImage(s, v, r, client, digest);
      && r < reply.revision <= |t.versions[v].snaps| && reply.image.client == client
      && EverAttached(t, client)
      && (reply.revision == r + 1 ==>
            TextAt(t, Pair(Some(v), r + 1)) == TextAt(s, Pair(Some(v), r)) == Some(s.versions[v].snaps[r - 1].text))
  {
    var (t, reply) := UploadImage(s, v, r, client, digest);
    UploadedOnTop(s, v, r, client, digest);
    UploadOk(s, v, r, client, digest);
    assert VersionGrows(s.versions[v], t.versions[v]);
    UploadedLater(s, t, v, r, client, reply.revision);
    if reply.revision == r + 1 {
      assert UnlistedAt(s, v, r, client, digest);
      NextAnswerKeepsText(s, v, r, client, digest);
    }
  }

  /** A revision that holds the id is later than one that does not, if it is the last. */
  lemma UploadedLater(s: Server, t: Server, v: nat, r: nat, client: nat, last: nat)
    requires AbsentAt(s, v, r, client) && v < |t.versions| && last == |t.versions[v].snaps| >= 1
    requires HasClient(t.versions[v].snaps[last - 1].images, client)
    requires s.versions[v].snaps <= t.versions[v].snaps
    ensures r < last && EverAttached(t, client)
  {
    assert t.versions[v].snaps[r - 1] == s.versions[v].snaps[r - 1];
  }

  /** After an acknowledged upload the version's last revision holds the id, and the answer names that revision. */
  lemma UploadedOnTop(s: Server, v: nat, r: nat, client: nat, digest: nat)
    requires ServerOk(s) && v < |s.versions| && UploadImage(s, v, r, client, digest).1.Uploaded?
    ensures var (t, reply) := UploadImage(s, v, r, client, digest);
      && v < |t.versions| && reply.revision == |t.versions[v].snaps| >= 1 && reply.image.client == client
      && HasClient(t.versions[v].snaps[reply.revision - 1].images, client)
  {
    assert VersionOk(s, v);
    var (t, reply) := UploadImage(s, v, r, client, digest);
    var images := t.versions[v].snaps[|t.versions[v].snaps| - 1].images;
    if t != s {
      assert images[|images| - 1].client == client;
    }
  }

  /** The images list this very file under the client id. */
  predicate Lists(images: seq<Image>, client: nat, digest: nat) {
    FindClient(images, client).Some? && FindClient(images, client).value.digest == digest
  }

  ghost predicate UnlistedAt(s: Server, v: nat, r: nat, client: nat, digest: nat) {
    v < |s.versions| && 1 <= r <= |s.versions[v].snaps| && !Lists(s.versions[v].snaps[r - 1].images, client, digest)
  }

  /** An acknowledged upload ends with the file listed, unless a store without replays attached it on top. */
  lemma UploadedLists(s: Server, v: nat, r: nat, client: nat, digest: nat)
    requires ServerOk(s) && v < |s.versions| && UploadImage(s, v, r, client, digest).1.Uploaded?
    ensures var t := UploadImage(s, v, r, client, digest).0;
      if t == s then Lists(LastSnap(s.versions[v]).images, client, digest)
      else |s.versions[v].snaps| == r && v < |t.versions| && LastSnap(t.versions[v]).text == LastSnap(s.versions[v]).text
  {
    assert VersionOk(s, v);
  }

  /**
   * An answer that names the very next revision, to an upload of a file that its own revision does
   * not list: that revision holds the text the upload was based on.
   */
  lemma NextAnswerKeepsText(s: Server, v: nat, r: nat, client: nat, digest: nat)
    requires ServerOk(s) && UnlistedAt(s, v, r, client, digest)
    requires UploadImage(s, v, r, client, digest).1.Uploaded? && UploadImage(s, v, r, client, digest).1.revision == r + 1
    ensures var t := UploadImage(s, v, r, client, digest).0;
      TextAt(t, Pair(Some(v), r + 1)) == TextAt(s, Pair(Some(v), r)) == Some(s.versions[v].snaps[r - 1].text)
  {
    assert VersionOk(s, v);
    if UploadImage(s, v, r, client, digest).0 == s {
      ReplayKeepsText(s, v, r, client, digest);
    } else {
      UploadedOnTop(s, v, r, client, digest);
      UploadedLists(s, v, r, client, digest);
    }
  }

  lemma ReplayKeepsText(s: Server, v: nat, r: nat, client: nat, digest: nat)
    requires ServerOk(s) && UnlistedAt(s, v, r, client, digest) && UploadImage(s, v, r, client, digest).0 == s
    requires UploadImage(s, v, r, client, digest).1.Uploaded? && UploadImage(s, v, r, client, digest).1.revision == r + 1
    ensures |s.versions[v].snaps| == r + 1 && s.versions[v].snaps[r].text == s.versions[v].snaps[r - 1].text
  {
    assert VersionOk(s, v);
    UploadedOnTop(s, v, r, client, digest);
    UploadedLists(s, v, r, client, digest);
    assert OneChange(s.versions[v].snaps[r - 1], s.versions[v].snaps[r]);
  }

  lemma RemovedIsTrue(s: Server, v: nat, r: nat, image: nat)
    requires ServerOk(s) && RemoveImage(s, v, r, image).1.Removed?
    ensures var (t, reply) := RemoveImage(s, v, r, image);
      && r <= reply.revision <= r + 1
      && TextAt(t, Pair(Some(v), reply.revision)) == TextAt(s, Pair(Some(v), r)) && TextAt(s, Pair(Some(v), r)).Some?
  {
    assert VersionOk(s, v);
  }
}

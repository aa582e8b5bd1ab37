/**
 * Which requests the server accepts and what each leaves behind, told by what a reader sees before
 * and after: a save is accepted exactly with the pair that a load at this moment would give, and
 * every refusal says what that load would say.
 */
module SubmissionWrites {
  import opened Prelude
  import opened JsText
  import opened SubmissionServer
  import opened SubmissionHistory
  import opened PracticePanel

  /** A read reports the last snapshot of the last version, and the state of the work. */
  lemma ReadShowsLast(s: Server)
    requires ServerOk(s)
    ensures var r := ReadCurrent(s);
      && r.stage == s.stage && r.closed == s.recordsClosed
      && (r.version == None <==> s.versions == [])
      && (r.version == None ==> r.revision == 0 && r.text == "" && r.images == [] && !r.isSealed)
      && (s.versions != [] ==>
            var last := s.versions[|s.versions| - 1];
            && r.version == Some(|s.versions| - 1) && r.revision == |last.snaps| >= 1 && r.isSealed == last.isSealed
            && last.snaps[r.revision - 1] == Snap(r.text, r.images))
  {
    if s.versions != [] {
      assert VersionOk(s, |s.versions| - 1);
    }
  }

  // ---------------------------------------------------------------- saves

  /** Accepted exactly if the records are open, the work is editable and the pair is the one a load would give now. */
  lemma SaveIff(s: Server, text: string, base: Pair)
    requires ServerOk(s)
    ensures var r := ReadCurrent(s);
      WriteAccepted(s, Save(text, base)) <==> !r.closed && CanRecover(r) && base == LoadedPair(r)
    ensures WriteAccepted(s, Save(text, base)) <==> Serve(s, Save(text, base)).1.Saved?
    ensures !WriteAccepted(s, Save(text, base)) ==> Serve(s, Save(text, base)).0 == s
  {
    if s.versions != [] {
      assert VersionOk(s, |s.versions| - 1);
    }
  }

  /**
   * Afterwards a reader sees the normalised text with the same files attached, under the answered
   * pair: the next revision, or revision 1 of a new version.
   */
  lemma SavedReads(s: Server, text: string, base: Pair)
    requires ServerOk(s) && WriteAccepted(s, Save(text, base))
    ensures var (t, reply) := Serve(s, Save(text, base));
      var r, q := ReadCurrent(s), ReadCurrent(t);
      && q.version.Some? && reply == Saved(q.version.value, q.revision)
      && q.text == Normalize(text) && !q.isSealed && q.stage == Draft && !q.closed
      && (if r.version.Some? && r.stage == Draft then q.version == r.version && q.revision == r.revision + 1 && q.images == r.images
          else q.version == Some(|s.versions|) && q.revision == 1 && CopiedTo(r.images, q.images, q.version.value))
  {
    if s.versions != [] {
      assert VersionOk(s, |s.versions| - 1);
    }
  }

  /** Every other save is answered with what a load would say: the current text and the revision to go on from. */
  lemma RefusedSave(s: Server, text: string, base: Pair)
    requires ServerOk(s) && !WriteAccepted(s, Save(text, base))
    ensures var r := ReadCurrent(s);
      Serve(s, Save(text, base)).1 ==
        if r.closed then Closed
        else if base.version != r.version then StaleVersion(LoadedPair(r).revision, Some(r.text))
        else if CanRecover(r) then StaleRevision(LoadedPair(r).revision, Some(r.text))
        else Refused
  {
    if s.versions != [] {
      assert VersionOk(s, |s.versions| - 1);
    }
  }

  // ---------------------------------------------------------------- images

  /** The writes on images go on with exactly the open draft and revision a reader sees. */
  predicate OpenDraft(r: Reading, v: nat, revision: nat) {
    !r.closed && r.version == Some(v) && r.stage == Draft && revision == r.revision
  }

  lemma UploadIff(s: Server, v: nat, revision: nat, client: nat, digest: nat)
    requires ServerOk(s)
    ensures var r := ReadCurrent(s);
      WriteAccepted(s, Upload(v, revision, client, digest)) <==>
        OpenDraft(r, v, revision) && |r.images| < 3 && !(s.replaysUploads && HasClient(r.images, client))
    ensures WriteAccepted(s, Upload(v, revision, client, digest)) ==> Serve(s, Upload(v, revision, client, digest)).1.Uploaded?
    ensures !WriteAccepted(s, Upload(v, revision, client, digest)) ==> Serve(s, Upload(v, revision, client, digest)).0 == s
  {
    if s.versions != [] {
      assert VersionOk(s, |s.versions| - 1);
    }
    if v < |s.versions| {
      assert VersionOk(s, v);
    }
  }

  /** The file is attached behind the others, under its client id and an id nothing was attached with before. */
  lemma UploadedReads(s: Server, v: nat, revision: nat, client: nat, digest: nat)
    requires ServerOk(s) && WriteAccepted(s, Upload(v, revision, client, digest))
    ensures var (t, reply) := Serve(s, Upload(v, revision, client, digest));
      var r, q := ReadCurrent(s), ReadCurrent(t);
      && reply.Uploaded? && reply.revision == q.revision == r.revision + 1
      && reply.image.client == client && reply.image.digest == digest && reply.image.version == v
      && (forall w: nat, k: nat, i: nat :: w < |s.versions| && k < |s.versions[w].snaps| && i < |s.versions[w].snaps[k].images| ==>
            s.versions[w].snaps[k].images[i].id != reply.image.id)
      && q == r.(revision := q.revision, images := r.images + [reply.image])
  {
    UploadIff(s, v, revision, client, digest);
    assert VersionOk(s, v);
    forall w: nat, k: nat, i: nat | w < |s.versions| && k < |s.versions[w].snaps| && i < |s.versions[w].snaps[k].images|
      ensures s.versions[w].snaps[k].images[i].id < s.nextImage
    {
      assert VersionOk(s, w);
      assert SnapOk(s.versions[w].snaps[k], w, s.nextImage);
    }
  }

  /** A repeated upload of a listed file is answered from the list, and changes nothing. */
  lemma ReplayedUpload(s: Server, v: nat, revision: nat, client: nat, digest: nat)
    requires ServerOk(s) && !WriteAccepted(s, Upload(v, revision, client, digest))
    ensures var reply := Serve(s, Upload(v, revision, client, digest)).1;
      reply.Uploaded? ==>
        && s.replaysUploads && v < |s.versions| && reply.revision == |s.versions[v].snaps| >= 1
        && reply.image in s.versions[v].snaps[reply.revision - 1].images && reply.image.client == client && reply.image.digest == digest
  {
    UploadIff(s, v, revision, client, digest);
    if v < |s.versions| {
      assert VersionOk(s, v);
    }
  }

  /** `at` are the places, in order, of everything in `images` that has another id. */
  ghost predicate Places(images: seq<Image>, id: nat, at: seq<nat>) {
    && (forall j, k :: 0 <= j < k < |at| ==> at[j] < at[k])
    && (forall k :: 0 <= k < |at| ==> at[k] < |images| && images[at[k]].id != id)
    && (forall i: nat :: i < |images| && images[i].id != id ==> i in at)
  }

  ghost predicate At(images: seq<Image>, at: seq<nat>, rest: seq<Image>) {
    |at| == |rest| && forall k :: 0 <= k < |rest| ==> at[k] < |images| && rest[k] == images[at[k]]
  }

  /** The images are the same without that id, in the same order. */
  ghost predicate DropsOnly(images: seq<Image>, id: nat, rest: seq<Image>) {
    exists at: seq<nat> :: Places(images, id, at) && At(images, at, rest)
  }

  /** The places in a list, from those in its tail. */
  function Shifted(images: seq<Image>, id: nat, later: seq<nat>): seq<nat>
    requires images != []
  {
    var moved := seq(|later|, k requires 0 <= k < |later| => later[k] + 1);
    if images[0].id == id then moved else [0] + moved
  }

  lemma PlaceShifted(images: seq<Image>, id: nat, later: seq<nat>, i: nat)
    requires images != [] && i < |images| && images[i].id != id && (i > 0 ==> i - 1 in later)
    ensures i in Shifted(images, id, later)
  {
    var at := Shifted(images, id, later);
    if i > 0 {
      var k :| 0 <= k < |later| && later[k] == i - 1;
      assert at[if images[0].id == id then k else k + 1] == i;
    } else {
      assert at[0] == 0;
    }
  }

  lemma ShiftedPlaces(images: seq<Image>, id: nat, later: seq<nat>)
    requires images != [] && Places(images[1..], id, later)
    ensures Places(images, id, Shifted(images, id, later))
  {
    var at := Shifted(images, id, later);
    var n := |at| - |later|;
    forall k | 0 <= k < |at| ensures at[k] < |images| && images[at[k]].id != id && (k >= n ==> at[k] == later[k - n] + 1) && (k < n ==> at[k] == 0) {
      if k >= n {
        assert images[1..][later[k - n]] == images[later[k - n] + 1];
      }
    }
    forall i: nat | i < |images| && images[i].id != id ensures i in at {
      if i > 0 {
        assert images[1..][i - 1] == images[i];
      }
      PlaceShifted(images, id, later, i);
    }
  }

  lemma ShiftedAt(images: seq<Image>, id: nat, later: seq<nat>, rest: seq<Image>)
    requires images != [] && At(images[1..], later, rest)
    ensures At(images, Shifted(images, id, later), if images[0].id == id then rest else [images[0]] + rest)
  {
    var at := Shifted(images, id, later);
    var all := if images[0].id == id then rest else [images[0]] + rest;
    var n := |at| - |later|;
    forall k | 0 <= k < |all| ensures at[k] < |images| && all[k] == images[at[k]] {
      if k >= n {
        assert at[k] == later[k - n] + 1 && all[k] == rest[k - n];
        assert images[1..][later[k - n]] == images[at[k]];
      }
    }
  }

  lemma {:induction false} WithoutIdDrops(images: seq<Image>, id: nat) returns (at: seq<nat>)
    ensures Places(images, id, at) && At(images, at, WithoutId(images, id))
  {
    if images == [] {
      at := [];
    } else {
      var later := WithoutIdDrops(images[1..], id);
      at := Shifted(images, id, later);
      ShiftedPlaces(images, id, later);
      ShiftedAt(images, id, later, WithoutId(images[1..], id));
    }
  }

  lemma RemoveIff(s: Server, v: nat, revision: nat, image: nat)
    requires ServerOk(s)
    ensures var r := ReadCurrent(s);
      WriteAccepted(s, Remove(v, revision, image)) <==> OpenDraft(r, v, revision) && HasId(r.images, image)
    ensures var r := ReadCurrent(s);
      Serve(s, Remove(v, revision, image)).1.Removed? <==> OpenDraft(r, v, revision)
    ensures !WriteAccepted(s, Remove(v, revision, image)) ==> Serve(s, Remove(v, revision, image)).0 == s
  {
    if s.versions != [] {
      assert VersionOk(s, |s.versions| - 1);
    }
  }

  /** Exactly the attachment with this id goes, by a revision of its own; the others stay as and where they are. */
  lemma RemovedReads(s: Server, v: nat, revision: nat, image: nat)
    requires ServerOk(s) && WriteAccepted(s, Remove(v, revision, image))
    ensures var (t, reply) := Serve(s, Remove(v, revision, image));
      var r, q := ReadCurrent(s), ReadCurrent(t);
      && reply == Removed(q.revision) && q.revision == r.revision + 1
      && DropsOnly(r.images, image, q.images) && q == r.(revision := q.revision, images := q.images)
  {
    RemoveIff(s, v, revision, image);
    assert VersionOk(s, v);
    var at := WithoutIdDrops(ReadCurrent(s).images, image);
  }

  // ---------------------------------------------------------------- seals and decisions

  /** A seal takes effect exactly for the open draft and revision a reader sees, under a new key, unless there is nothing to submit. */
  lemma SealIff(s: Server, key: nat, v: nat, revision: nat)
    requires ServerOk(s)
    ensures var r := ReadCurrent(s);
      Serve(s, Seal(key, v, revision)).0 != s <==>
        key !in s.receipts && OpenDraft(r, v, revision) && (Trim(r.text) != "" || r.images != [])
    ensures var r := ReadCurrent(s);
      Serve(s, Seal(key, v, revision)).1 == SealAccepted <==>
        (key in s.receipts && s.receipts[key] == Receipt(v, revision)) || Serve(s, Seal(key, v, revision)).0 != s
  {
    if s.versions != [] {
      assert VersionOk(s, |s.versions| - 1);
    }
  }

  /** It changes nothing a reader sees but the state, and its receipt answers every repetition. */
  lemma SealedReads(s: Server, key: nat, v: nat, revision: nat)
    requires ServerOk(s) && Serve(s, Seal(key, v, revision)).0 != s
    ensures var (t, reply) := Serve(s, Seal(key, v, revision));
      var r := ReadCurrent(s);
      && reply == SealAccepted && t.receipts == s.receipts[key := Receipt(v, revision)]
      && ReadCurrent(t) == r.(isSealed := true, stage := if v == 0 then Submitted else Resubmitted)
      && Serve(t, Seal(key, v, revision)) == (t, SealAccepted)
  {
    SealIff(s, key, v, revision);
    assert VersionOk(s, v);
  }

  /** What else a seal can be answered. Unlike a save's, the stale revision comes without its text. */
  lemma RefusedSeal(s: Server, key: nat, v: nat, revision: nat)
    requires ServerOk(s) && key !in s.receipts && Serve(s, Seal(key, v, revision)).0 == s
    ensures var r := ReadCurrent(s);
      Serve(s, Seal(key, v, revision)).1 ==
        if r.closed then Closed
        else if r.version == None then Refused
        else if r.version != Some(v) then StaleVersion(LoadedPair(r).revision, Some(r.text))
        else if r.stage == Draft && r.revision != revision then StaleRevision(r.revision, None)
        else Refused
  {
    SealIff(s, key, v, revision);
    if s.versions != [] {
      assert VersionOk(s, |s.versions| - 1);
    }
  }

  /** Once the records are closed nothing is written any more, and every reader sees it. */
  lemma ClosedForGood(s: Server, q: Request)
    requires ServerOk(s)
    ensures var t := CloseRecords(s);
      && ReadCurrent(t) == ReadCurrent(s).(closed := true) && t.receipts == s.receipts && Serve(t, q).0 == t
  {
    CloseKeeps(s);
  }

  /** A decision takes effect exactly on work that waits for it. */
  lemma DecisionIff(s: Server, accept: bool)
    requires ServerOk(s)
    ensures ReadCurrent(Decide(s, accept)).stage ==
      if s.stage == Submitted || s.stage == Resubmitted then (if accept then Accepted else RevisionRequested) else s.stage
  {
  }
}

/**
 * The queue of images that wait for their upload, and the recovery store behind it. A record
 * carries the tokens its next upload will be based on; the store is keyed by version and client
 * id, so a record that moves to another version is written under a new key before the old one
 * goes.
 */
module ImageQueue {
  import opened Prelude
  import opened SubmissionServer

  datatype Record = Record(client: nat, digest: nat, version: Option<nat>, revision: Option<nat>, stamp: nat)

  datatype Note = Waiting | Uploading | Failed | Outdated

  datatype Item = Item(record: Record, note: Note)

  /** The tokens a record is based on; a legacy record may lack its revision. */
  datatype Baseline = Baseline(version: Option<nat>, revision: Option<nat>)

  type Store = map<(Option<nat>, nat), Record>

  function StoreKey(r: Record): (Option<nat>, nat) {
    (r.version, r.client)
  }

  function TokensOf(r: Record): Baseline {
    Baseline(r.version, r.revision)
  }

  function Tokens(r: Reading): Baseline {
    Baseline(r.version, Some(r.revision))
  }

  function Rebased(r: Record, to: Baseline, now: nat): Record {
    r.(version := to.version, revision := to.revision, stamp := now)
  }

  function Ids(queue: seq<Item>): set<nat> {
    set i | 0 <= i < |queue| :: queue[i].record.client
  }

  function RecordIds(records: seq<Record>): set<nat> {
    set i | 0 <= i < |records| :: records[i].client
  }

  function StoreIds(store: Store): set<nat> {
    set k | k in store :: store[k].client
  }

  ghost predicate DistinctIds(queue: seq<Item>) {
    forall i, j :: 0 <= i < j < |queue| ==> queue[i].record.client != queue[j].record.client
  }

  /** Every stored record sits under its own key. */
  ghost predicate StoreOk(store: Store) {
    forall k :: k in store ==> StoreKey(store[k]) == k
  }

  /** The record is stored under its own key. */
  predicate HasRecord(store: Store, r: Record) {
    StoreKey(r) in store && store[StoreKey(r)] == r
  }

  // ---------------------------------------------------------------- rebasing

  function AdvanceItem(item: Item, before: Baseline, to: Baseline, now: nat): Item {
    if TokensOf(item.record) == before then item.(record := Rebased(item.record, to, now)) else item
  }

  /** Only records at the acknowledged baseline take over the new tokens. */
  function Advance(queue: seq<Item>, before: Baseline, to: Baseline, now: nat): seq<Item> {
    if before == to then queue
    else seq(|queue|, i requires 0 <= i < |queue| => AdvanceItem(queue[i], before, to, now))
  }

  /** The matching change to the store, one transaction. */
  function StoreAdvance(store: Store, queue: seq<Item>, before: Baseline, to: Baseline, now: nat): Store {
    if before == to || queue == [] then store
    else
      var rest := StoreAdvance(store, queue[..|queue| - 1], before, to, now);
      StoreChange(rest, queue[|queue| - 1].record, before, to, now)
  }

  function StoreChange(store: Store, r: Record, before: Baseline, to: Baseline, now: nat): Store {
    if TokensOf(r) != before then store
    else
      var next := Rebased(r, to, now);
      var put := store[StoreKey(next) := next];
      if StoreKey(r) != StoreKey(next) then put - {StoreKey(r)} else put
  }

  function Find(queue: seq<Item>, client: nat): Option<Record> {
    if queue == [] then None
    else if queue[0].record.client == client then Some(queue[0].record)
    else Find(queue[1..], client)
  }

  /** The queue's copy of a record, or the record itself if it is not queued. */
  function QueueCopy(queue: seq<Item>, r: Record): Record {
    var found := Find(queue, r.client);
    if found.Some? then found.value else r
  }

  function MarkItem(item: Item, client: nat, note: Note): Item {
    if item.record.client == client then item.(note := note) else item
  }

  function Mark(queue: seq<Item>, client: nat, note: Note): seq<Item> {
    seq(|queue|, i requires 0 <= i < |queue| => MarkItem(queue[i], client, note))
  }

  function BindItem(item: Item, r: Record): Item {
    if item.record.client == r.client then Item(r, Uploading) else item
  }

  function Bind(queue: seq<Item>, r: Record): seq<Item> {
    seq(|queue|, i requires 0 <= i < |queue| => BindItem(queue[i], r))
  }

  function Without(queue: seq<Item>, client: nat): seq<Item> {
    if queue == [] then []
    else if queue[0].record.client == client then Without(queue[1..], client)
    else [queue[0]] + Without(queue[1..], client)
  }

  // ---------------------------------------------------------------- recovery

  /**
   * What the recovery read returns: one record for every stored id, a newest one. A rebind that
   * was cut between its two transactions leaves two copies; the newer one is taken.
   */
  ghost predicate IsSelection(store: Store, selected: seq<Record>) {
    && (forall i, j :: 0 <= i < j < |selected| ==> selected[i].client != selected[j].client)
    && RecordIds(selected) == StoreIds(store)
    && (forall i :: 0 <= i < |selected| ==> StoreKey(selected[i]) in store && store[StoreKey(selected[i])] == selected[i])
    && (forall i, k :: 0 <= i < |selected| && k in store && store[k].client == selected[i].client ==>
          store[k].stamp <= selected[i].stamp)
  }

  /** The record's image is among the attachments of the record's own version. */
  predicate AttachedIn(images: seq<Image>, r: Record) {
    exists i :: 0 <= i < |images| && images[i].client == r.client && Some(images[i].version) == r.version
  }

  function Remaining(selected: seq<Record>, images: seq<Image>, queue: seq<Item>): seq<Item> {
    if selected == [] then []
    else
      var rest := Remaining(selected[1..], images, queue);
      if AttachedIn(images, selected[0]) || selected[0].client in Ids(queue) then rest
      else [Item(selected[0], Failed)] + rest
  }

  /** Recovered records go in front; whatever was chosen meanwhile stays behind them, untouched. */
  function Merge(selected: seq<Record>, images: seq<Image>, queue: seq<Item>): seq<Item> {
    Remaining(selected, images, queue) + queue
  }

  function DropAttached(store: Store, selected: seq<Record>, images: seq<Image>): Store {
    map k | k in store && !(exists i :: 0 <= i < |selected| && StoreKey(selected[i]) == k && AttachedIn(images, selected[i])) :: store[k]
  }

  // ---------------------------------------------------------------- facts

  /**
   * The rebase frame: order, count and ids stay, records at the baseline get exactly the new
   * tokens, and no other record changes at all.
   */
  lemma AdvanceFrame(queue: seq<Item>, before: Baseline, to: Baseline, now: nat)
    ensures var q := Advance(queue, before, to, now);
      && |q| == |queue| && Ids(q) == Ids(queue)
      && (DistinctIds(queue) ==> DistinctIds(q))
      && (forall i :: 0 <= i < |queue| ==>
            && q[i].record.client == queue[i].record.client && q[i].note == queue[i].note
            && q[i].record.digest == queue[i].record.digest
            && (TokensOf(queue[i].record) == before ==> TokensOf(q[i].record) == to && (before != to ==> q[i].record.stamp == now))
            && (TokensOf(queue[i].record) != before ==> q[i] == queue[i]))
  {
    var q := Advance(queue, before, to, now);
    assert forall i :: 0 <= i < |queue| ==> q[i].record.client == queue[i].record.client;
    IdsPointwise(queue, q);
  }

  lemma IdsPointwise(a: seq<Item>, b: seq<Item>)
    requires |a| == |b| && forall i :: 0 <= i < |a| ==> a[i].record.client == b[i].record.client
    ensures Ids(a) == Ids(b) && (DistinctIds(a) ==> DistinctIds(b))
  {
    forall x | x in Ids(a) ensures x in Ids(b) {
      var i :| 0 <= i < |a| && a[i].record.client == x;
      assert b[i].record.client == x;
    }
    forall x | x in Ids(b) ensures x in Ids(a) {
      var i :| 0 <= i < |b| && b[i].record.client == x;
      assert a[i].record.client == x;
    }
  }

  lemma MarkFrame(queue: seq<Item>, client: nat, note: Note)
    ensures Ids(Mark(queue, client, note)) == Ids(queue)
    ensures DistinctIds(queue) ==> DistinctIds(Mark(queue, client, note))
  {
    IdsPointwise(queue, Mark(queue, client, note));
  }

  lemma BindFrame(queue: seq<Item>, r: Record)
    ensures Ids(Bind(queue, r)) == Ids(queue)
    ensures DistinctIds(queue) ==> DistinctIds(Bind(queue, r))
  {
    IdsPointwise(queue, Bind(queue, r));
  }

  lemma {:induction false} WithoutFrame(queue: seq<Item>, client: nat)
    ensures Ids(Without(queue, client)) == Ids(queue) - {client}
    ensures DistinctIds(queue) ==> DistinctIds(Without(queue, client))
  {
    if queue != [] {
      WithoutFrame(queue[1..], client);
      IdsHead(queue);
      var rest := Without(queue[1..], client);
      if queue[0].record.client != client {
        IdsHead([queue[0]] + rest);
        assert ([queue[0]] + rest)[1..] == rest;
        if DistinctIds(queue) {
          assert DistinctIds(queue[1..]);
          assert queue[0].record.client !in Ids(queue[1..]);
          forall i, j | 0 <= i < j < |rest| + 1
            ensures ([queue[0]] + rest)[i].record.client != ([queue[0]] + rest)[j].record.client
          {
            assert rest[j - 1].record.client in Ids(rest);
          }
        }
      } else if DistinctIds(queue) {
        assert DistinctIds(queue[1..]);
      }
    }
  }

  lemma IdsHead(queue: seq<Item>)
    requires queue != []
    ensures Ids(queue) == {queue[0].record.client} + Ids(queue[1..])
  {
    forall x | x in Ids(queue) ensures x in {queue[0].record.client} + Ids(queue[1..]) {
      var i :| 0 <= i < |queue| && queue[i].record.client == x;
      if i > 0 {
        assert queue[1..][i - 1] == queue[i];
      }
    }
    forall x | x in {queue[0].record.client} + Ids(queue[1..]) ensures x in Ids(queue) {
      if x != queue[0].record.client {
        var i :| 0 <= i < |queue[1..]| && queue[1..][i].record.client == x;
        assert queue[i + 1].record.client == x;
      }
    }
  }

  lemma {:induction false} FindIsQueued(queue: seq<Item>, client: nat)
    ensures Find(queue, client).Some? <==> client in Ids(queue)
    ensures Find(queue, client).Some? ==> Find(queue, client).value.client == client
  {
    if queue != [] {
      IdsHead(queue);
      FindIsQueued(queue[1..], client);
    }
  }

  /** A rebase never takes an id out of the store, whatever is in it. */
  lemma {:induction false} StoreAdvanceKeepsIds(store: Store, queue: seq<Item>, before: Baseline, to: Baseline, now: nat)
    requires StoreOk(store)
    ensures StoreOk(StoreAdvance(store, queue, before, to, now))
    ensures StoreIds(store) <= StoreIds(StoreAdvance(store, queue, before, to, now))
  {
    if before != to && queue != [] {
      StoreAdvanceKeepsIds(store, queue[..|queue| - 1], before, to, now);
      StoreChangeKeepsIds(StoreAdvance(store, queue[..|queue| - 1], before, to, now), queue[|queue| - 1].record, before, to, now);
    }
  }

  /** Every queued record at the baseline is stored afterwards with the new tokens and the time of the rebase. */
  lemma {:induction false} StoreAdvanceStores(store: Store, queue: seq<Item>, before: Baseline, to: Baseline, now: nat, i: nat)
    requires DistinctIds(queue) && before != to && i < |queue| && TokensOf(queue[i].record) == before
    ensures HasRecord(StoreAdvance(store, queue, before, to, now), Rebased(queue[i].record, to, now))
  {
    var n := |queue| - 1;
    var front := queue[..n];
    if i < n {
      StoreAdvanceStores(store, front, before, to, now, i);
      ChangeKeepsOthers(StoreAdvance(store, front, before, to, now), queue[n].record, before, to, now, Rebased(queue[i].record, to, now));
    }
  }

  lemma ChangeKeepsOthers(store: Store, r: Record, before: Baseline, to: Baseline, now: nat, other: Record)
    requires HasRecord(store, other) && other.client != r.client
    ensures HasRecord(StoreChange(store, r, before, to, now), other)
  {
  }

  lemma StoreChangeKeepsIds(store: Store, r: Record, before: Baseline, to: Baseline, now: nat)
    requires StoreOk(store)
    ensures StoreOk(StoreChange(store, r, before, to, now))
    ensures StoreIds(store) <= StoreIds(StoreChange(store, r, before, to, now))
  {
    var after := StoreChange(store, r, before, to, now);
    if after != store {
      var next := Rebased(r, to, now);
      forall x | x in StoreIds(store) ensures x in StoreIds(after) {
        var k :| k in store && store[k].client == x;
        if k == StoreKey(r) || k == StoreKey(next) {
          assert after[StoreKey(next)].client == x;
        } else {
          assert after[k].client == x;
        }
      }
    }
  }

  /** Every recovered record is queued afterwards unless its image is already attached. */
  lemma {:induction false} RemainingCovers(selected: seq<Record>, images: seq<Image>, queue: seq<Item>)
    ensures forall i :: 0 <= i < |selected| ==>
      AttachedIn(images, selected[i]) || selected[i].client in Ids(queue) || selected[i].client in Ids(Remaining(selected, images, queue))
    ensures Ids(Remaining(selected, images, queue)) <= RecordIds(selected) - Ids(queue)
  {
    if selected != [] {
      RemainingCovers(selected[1..], images, queue);
      var rest := Remaining(selected[1..], images, queue);
      var all := Remaining(selected, images, queue);
      assert RecordIds(selected[1..]) <= RecordIds(selected) by {
        forall x | x in RecordIds(selected[1..]) ensures x in RecordIds(selected) {
          var i :| 0 <= i < |selected[1..]| && selected[1..][i].client == x;
          assert selected[i + 1].client == x;
        }
      }
      if all != rest {
        IdsHead(all);
        assert all[1..] == rest;
      }
      forall i | 0 <= i < |selected|
        ensures AttachedIn(images, selected[i]) || selected[i].client in Ids(queue) || selected[i].client in Ids(all)
      {
        if i > 0 {
          assert selected[1..][i - 1] == selected[i];
        }
      }
    }
  }

  lemma MergeFrame(selected: seq<Record>, images: seq<Image>, queue: seq<Item>)
    ensures var q := Merge(selected, images, queue);
      && q[|q| - |queue|..] == queue
      && Ids(queue) <= Ids(q) <= Ids(queue) + RecordIds(selected)
      && (forall i :: 0 <= i < |selected| ==> AttachedIn(images, selected[i]) || selected[i].client in Ids(q))
  {
    var front := Remaining(selected, images, queue);
    var q := Merge(selected, images, queue);
    RemainingCovers(selected, images, queue);
    IdsConcat(front, queue);
  }

  lemma IdsConcat(a: seq<Item>, b: seq<Item>)
    ensures Ids(a + b) == Ids(a) + Ids(b)
  {
    forall x | x in Ids(a) + Ids(b) ensures x in Ids(a + b) {
      if x in Ids(a) {
        var i :| 0 <= i < |a| && a[i].record.client == x;
        assert (a + b)[i].record.client == x;
      } else {
        var i :| 0 <= i < |b| && b[i].record.client == x;
        assert (a + b)[|a| + i].record.client == x;
      }
    }
  }

  lemma {:induction false} RemainingDistinct(selected: seq<Record>, images: seq<Image>, queue: seq<Item>)
    requires forall i, j :: 0 <= i < j < |selected| ==> selected[i].client != selected[j].client
    ensures DistinctIds(Remaining(selected, images, queue))
  {
    if selected != [] {
      RemainingDistinct(selected[1..], images, queue);
      RemainingCovers(selected[1..], images, queue);
      var rest := Remaining(selected[1..], images, queue);
      forall j | 0 <= j < |rest| ensures rest[j].record.client != selected[0].client {
        assert rest[j].record.client in Ids(rest);
        var i :| 0 <= i < |selected[1..]| && selected[1..][i].client == rest[j].record.client;
        assert selected[i + 1] == selected[1..][i];
      }
    }
  }

  lemma MergeDistinct(selected: seq<Record>, images: seq<Image>, queue: seq<Item>)
    requires DistinctIds(queue)
    requires forall i, j :: 0 <= i < j < |selected| ==> selected[i].client != selected[j].client
    ensures DistinctIds(Merge(selected, images, queue))
  {
    RemainingDistinct(selected, images, queue);
    RemainingCovers(selected, images, queue);
    var front := Remaining(selected, images, queue);
    forall i, j | 0 <= i < |front| && 0 <= j < |queue| ensures front[i].record.client != queue[j].record.client {
      assert front[i].record.client in Ids(front) && queue[j].record.client in Ids(queue);
    }
  }
}

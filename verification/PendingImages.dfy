/**
 * The image editor's queue and the recovery store as the component updates them: loops over
 * records, a map of replacements by id, and one store transaction. Each method is proved against
 * the functions of `ImageQueue` that the protocol is stated with.
 */
module PendingImages {
  import opened Prelude
  import opened SubmissionServer
  import opened ImageQueue
  import opened PracticeClient
  import opened SubmissionQueue
  import opened PendingSelection

  datatype Change = Change(previous: Record, next: Record)

  function Changes(queue: seq<Item>, before: Baseline, to: Baseline, now: nat): seq<Change> {
    if queue == [] then []
    else
      var front := Changes(queue[..|queue| - 1], before, to, now);
      var r := queue[|queue| - 1].record;
      if TokensOf(r) == before then front + [Change(r, Rebased(r, to, now))] else front
  }

  /** Put every next record, then delete its previous key if that is another one. */
  function Replaced(store: Store, changes: seq<Change>): Store {
    if changes == [] then store
    else
      var c := changes[|changes| - 1];
      var put := Replaced(store, changes[..|changes| - 1])[StoreKey(c.next) := c.next];
      if StoreKey(c.previous) != StoreKey(c.next) then put - {StoreKey(c.previous)} else put
  }

  lemma {:induction false} ReplacedIsAdvance(store: Store, queue: seq<Item>, before: Baseline, to: Baseline, now: nat)
    requires before != to
    ensures Replaced(store, Changes(queue, before, to, now)) == StoreAdvance(store, queue, before, to, now)
  {
    if queue != [] {
      ReplacedIsAdvance(store, queue[..|queue| - 1], before, to, now);
      var front := Changes(queue[..|queue| - 1], before, to, now);
      var r := queue[|queue| - 1].record;
      assert (front + [Change(r, Rebased(r, to, now))])[..|front|] == front;
    }
  }

  /** The replacements by id. */
  function ById(changes: seq<Change>): map<nat, Record> {
    if changes == [] then map[]
    else
      var c := changes[|changes| - 1];
      ById(changes[..|changes| - 1])[c.next.client := c.next]
  }

  /** With distinct ids the map holds, for each queued id at the baseline, its own rebased record. */
  lemma {:induction false} ByIdMeans(queue: seq<Item>, before: Baseline, to: Baseline, now: nat)
    requires DistinctIds(queue)
    ensures var m := ById(Changes(queue, before, to, now));
      && m.Keys <= Ids(queue)
      && forall i :: 0 <= i < |queue| ==>
           (queue[i].record.client in m <==> TokensOf(queue[i].record) == before) &&
           (TokensOf(queue[i].record) == before ==> m[queue[i].record.client] == Rebased(queue[i].record, to, now))
  {
    if queue != [] {
      var n := |queue| - 1;
      var front := queue[..n];
      ByIdMeans(front, before, to, now);
      var r := queue[n].record;
      var changes := Changes(front, before, to, now);
      assert (changes + [Change(r, Rebased(r, to, now))])[..|changes|] == changes;
      assert r.client !in Ids(front);
      assert queue == front + [queue[n]];
      IdsConcat(front, [queue[n]]);
      assert Ids([queue[n]]) == {r.client} by {
        assert [queue[n]][0].record.client == r.client;
      }
      assert forall i :: 0 <= i < n ==> front[i] == queue[i] && front[i].record.client in Ids(front);
    }
  }

  /** One of the first `n` values is a record of the scope under this key, and too old. */
  ghost predicate FoundExpired(values: seq<Stored>, n: nat, scope: nat, now: nat, key: (Option<nat>, nat))
    requires n <= |values|
  {
    exists j :: 0 <= j < n && values[j].PendingImage? && values[j].scope == scope &&
      Expired(values[j].record, now) && StoreKey(values[j].record) == key
  }

  lemma ExpiredAreFound(store: Store, values: seq<Stored>, scope: nat, now: nat, key: (Option<nat>, nat))
    requires StoreOk(store) && ListsScope(values, scope, store) && key in store
    ensures FoundExpired(values, |values|, scope, now, key) <==> Expired(store[key], now)
  {
    if Expired(store[key], now) {
      assert PendingImage(scope, store[key]) in values;
      var j :| 0 <= j < |values| && values[j] == PendingImage(scope, store[key]);
    }
    if FoundExpired(values, |values|, scope, now, key) {
      var j :| 0 <= j < |values| && values[j].PendingImage? && values[j].scope == scope &&
        Expired(values[j].record, now) && StoreKey(values[j].record) == key;
      assert PendingImage(scope, values[j].record) in values;
      var k :| k in store && store[k] == values[j].record;
    }
  }

  class ImageStore {
    var records: Store

    constructor ()
      ensures records == map[]
    {
      records := map[];
    }

    method SavePendingImage(r: Record)
      modifies this
      ensures records == old(records)[StoreKey(r) := r]
    {
      records := records[StoreKey(r) := r];
    }

    method RemovePendingImage(r: Record)
      modifies this
      ensures records == old(records) - {StoreKey(r)}
    {
      records := records - {StoreKey(r)};
    }

    /**
     * `readPendingImages`, given everything the database holds: the expired records of the scope
     * are deleted one by one, and exactly the recoverable ones are returned, one for every id.
     */
    method ReadPendingImages(values: seq<Stored>, scope: nat, now: nat) returns (images: seq<Record>)
      requires StoreOk(records) && ListsScope(values, scope, records)
      modifies this
      ensures records == DropExpired(old(records), now)
      ensures IsSelection(Recoverable(old(records), now), images)
    {
      for i := 0 to |values|
        invariant forall k :: k in records <==> k in old(records) && !FoundExpired(values, i, scope, now, k)
        invariant forall k :: k in records ==> records[k] == old(records)[k]
      {
        var value := values[i];
        if value.PendingImage? && value.scope == scope && now > value.record.stamp + MAX_AGE {
          RemovePendingImage(value.record);
        }
        assert forall k :: FoundExpired(values, i + 1, scope, now, k) <==>
          FoundExpired(values, i, scope, now, k) ||
          (value.PendingImage? && value.scope == scope && Expired(value.record, now) && StoreKey(value.record) == k);
      }
      forall k | k in old(records) ensures k in records <==> !Expired(old(records)[k], now) {
        ExpiredAreFound(old(records), values, scope, now, k);
      }
      assert records == DropExpired(old(records), now);
      ReadSelects(values, scope, old(records), now);
      images := SelectPendingImages(values, scope, now);
    }

    /** One transaction; it happens completely or, when the caller sees a failure, not at all. */
    method ReplacePendingImages(changes: seq<Change>)
      modifies this
      ensures records == Replaced(old(records), changes)
    {
      for i := 0 to |changes|
        invariant records == Replaced(old(records), changes[..i])
      {
        assert changes[..i + 1][..i] == changes[..i];
        records := records[StoreKey(changes[i].next) := changes[i].next];
        if StoreKey(changes[i].previous) != StoreKey(changes[i].next) {
          records := records - {StoreKey(changes[i].previous)};
        }
      }
      assert changes[..|changes|] == changes;
    }
  }

  class PendingQueue {
    const store: ImageStore
    var pending: seq<Item>

    ghost predicate Valid()
      reads this
    {
      DistinctIds(pending)
    }

    constructor (store: ImageStore)
      ensures Valid() && this.store == store && pending == []
    {
      this.store := store;
      pending := [];
    }

    method FindRecord(client: nat, original: Record) returns (r: Record)
      ensures r == if Find(pending, client).Some? then Find(pending, client).value else original
    {
      for i := 0 to |pending|
        invariant Find(pending, client) == Find(pending[i..], client)
      {
        assert pending[i..][1..] == pending[i + 1..];
        if pending[i].record.client == client {
          return pending[i].record;
        }
      }
      r := original;
    }

    /** The records at the baseline, each with its rebased copy. */
    method CollectChanges(before: Baseline, to: Baseline, now: nat) returns (changes: seq<Change>, byId: map<nat, Record>)
      ensures changes == Changes(pending, before, to, now) && byId == ById(changes)
    {
      changes := [];
      byId := map[];
      for i := 0 to |pending|
        invariant changes == Changes(pending[..i], before, to, now) && byId == ById(changes)
      {
        assert pending[..i + 1][..i] == pending[..i];
        var r := pending[i].record;
        if TokensOf(r) == before {
          var next := Rebased(r, to, now);
          assert (changes + [Change(r, next)])[..|changes|] == changes;
          changes := changes + [Change(r, next)];
          byId := byId[next.client := next];
        }
      }
      assert pending[..|pending|] == pending;
    }

    /**
     * Only records at the acknowledged baseline take over the new tokens, in the queue and, if the
     * transaction succeeds, in the store.
     */
    method AdvanceAcknowledgedQueue(before: Baseline, to: Baseline, now: nat, succeeds: bool)
      requires Valid()
      modifies this, store
      ensures Valid() && pending == Advance(old(pending), before, to, now)
      ensures store.records == if succeeds then StoreAdvance(old(store.records), old(pending), before, to, now) else old(store.records)
    {
      if before == to {
        EmptyAdvance(store.records, pending, before, now);
        return;
      }
      var changes, byId := CollectChanges(before, to, now);
      ByIdMeans(pending, before, to, now);
      ReplacedIsAdvance(store.records, pending, before, to, now);
      if succeeds {
        store.ReplacePendingImages(changes);
      }
      var next: seq<Item> := [];
      for i := 0 to |pending|
        invariant pending == old(pending) && |next| == i
        invariant store.records == if succeeds then StoreAdvance(old(store.records), old(pending), before, to, now) else old(store.records)
        invariant forall k :: 0 <= k < i ==> next[k] == AdvanceItem(pending[k], before, to, now)
      {
        var item := pending[i];
        next := next + [if item.record.client in byId then item.(record := byId[item.record.client]) else item];
      }
      AdvanceFrame(pending, before, to, now);
      pending := next;
      assert pending == Advance(old(pending), before, to, now);
    }

    /**
     * From the snapshot an upload is based on to the moment before its request: rebase, take the
     * queue's copy, bind it to the snapshot's tokens, save it, drop a key it no longer has, and
     * show it as uploading. The bound record carries exactly the snapshot's tokens.
     */
    method BindForUpload(r: Record, current: Reading, now: nat, disk: Disk) returns (bound: Record)
      requires Valid()
      modifies this, store
      ensures Valid() && TokensOf(bound) == Tokens(current) && bound.client == r.client
      ensures var rebased := QueueCopy(Advance(old(pending), TokensOf(r), Tokens(current), now), r);
        && bound == Rebased(rebased, Tokens(current), now)
        && pending == Bind(Advance(old(pending), TokensOf(r), Tokens(current), now), bound)
        && Device(None, store.records, None) ==
           BindStore(Device(None, if disk.replace then StoreAdvance(old(store.records), old(pending), TokensOf(r), Tokens(current), now)
                                  else old(store.records), None), rebased, bound, disk)
    {
      AdvanceAcknowledgedQueue(TokensOf(r), Tokens(current), now, disk.replace);
      var record := FindRecord(r.client, r);
      FindIsQueued(pending, r.client);
      bound := Rebased(record, Tokens(current), now);
      if disk.save {
        store.SavePendingImage(bound);
        if disk.remove && record.version != bound.version {
          store.RemovePendingImage(record);
        }
      }
      BindFrame(pending, bound);
      UpdateToBound(bound);
    }

    method UpdateToBound(bound: Record)
      modifies this`pending
      ensures pending == Bind(old(pending), bound)
    {
      var next: seq<Item> := [];
      for i := 0 to |pending|
        invariant pending == old(pending) && |next| == i
        invariant forall k :: 0 <= k < i ==> next[k] == BindItem(pending[k], bound)
      {
        next := next + [if pending[i].record.client == bound.client then Item(bound, Uploading) else pending[i]];
      }
      pending := next;
      assert pending == Bind(old(pending), bound);
    }

    /** A settled or discarded image leaves the queue, and the store if the deletion succeeds. */
    method Clear(record: Record, succeeds: bool)
      requires Valid()
      modifies this, store
      ensures Valid() && pending == Without(old(pending), record.client)
      ensures store.records == if succeeds then old(store.records) - {StoreKey(record)} else old(store.records)
    {
      WithoutFrame(pending, record.client);
      if succeeds {
        store.RemovePendingImage(record);
      }
      var kept: seq<Item> := [];
      for i := 0 to |pending|
        invariant pending == old(pending) && store.records == (if succeeds then old(store.records) - {StoreKey(record)} else old(store.records))
        invariant kept + Without(pending[i..], record.client) == Without(pending, record.client)
      {
        assert pending[i..][1..] == pending[i + 1..];
        if pending[i].record.client != record.client {
          kept := kept + [pending[i]];
        }
      }
      assert kept == Without(pending, record.client);
      pending := kept;
    }

    /** The first half of `choose`: queue every record, then save them one by one. */
    method QueueChosen(records: seq<Record>, failed: set<nat>)
      requires Valid() && DistinctRecords(records) && RecordIds(records) !! Ids(pending)
      modifies this, store
      ensures Valid() && pending == old(pending) + Waiters(records)
      ensures store.records == PutAll(old(store.records), records, failed)
    {
      forall i, j | 0 <= i < |pending| && 0 <= j < |records| ensures pending[i].record.client != records[j].client {
        assert pending[i].record.client in Ids(pending) && records[j].client in RecordIds(records);
      }
      pending := pending + Waiters(records);
      for i := 0 to |records|
        invariant pending == old(pending) + Waiters(records)
        invariant store.records == PutAll(old(store.records), records[..i], failed)
      {
        assert records[..i + 1][..i] == records[..i];
        if records[i].client !in failed {
          store.SavePendingImage(records[i]);
        }
      }
      assert records[..|records|] == records;
    }

    /** The recovery effect after its slow read: drop what is attached, put the rest in front of the queue. */
    method Recover(selected: seq<Record>, attached: seq<Image>, succeeds: bool)
      requires Valid() && DistinctRecords(selected)
      modifies this, store
      ensures Valid() && pending == Merge(selected, attached, old(pending))
      ensures store.records == if succeeds then DropAttached(old(store.records), selected, attached) else old(store.records)
    {
      MergeDistinct(selected, attached, pending);
      var before := store.records;
      var remaining: seq<Item> := [];
      for i := 0 to |selected|
        invariant pending == old(pending)
        invariant store.records == if succeeds then DropAttached(before, selected[..i], attached) else before
        invariant remaining + Remaining(selected[i..], attached, pending) == Remaining(selected, attached, pending)
      {
        assert selected[i..][1..] == selected[i + 1..];
        DropOne(before, selected, attached, i);
        if AttachedIn(attached, selected[i]) {
          if succeeds {
            store.RemovePendingImage(selected[i]);
          }
        } else if selected[i].client !in Ids(pending) {
          remaining := remaining + [Item(selected[i], Failed)];
        }
      }
      assert selected[..|selected|] == selected;
      assert remaining + pending == Merge(selected, attached, pending);
      pending := remaining + pending;
    }
  }

  lemma EmptyAdvance(store: Store, queue: seq<Item>, before: Baseline, now: nat)
    ensures StoreAdvance(store, queue, before, before, now) == store
  {
  }

  lemma DropOne(store: Store, selected: seq<Record>, attached: seq<Image>, i: nat)
    requires i < |selected|
    ensures DropAttached(store, selected[..i + 1], attached) ==
      if AttachedIn(attached, selected[i]) then DropAttached(store, selected[..i], attached) - {StoreKey(selected[i])}
      else DropAttached(store, selected[..i], attached)
    ensures DropAttached(store, [], attached) == store
  {
    var all, front := selected[..i + 1], selected[..i];
    assert all == front + [selected[i]];
    forall k | k in store
      ensures (exists j :: 0 <= j < |all| && StoreKey(all[j]) == k && AttachedIn(attached, all[j])) <==>
        (exists j :: 0 <= j < |front| && StoreKey(front[j]) == k && AttachedIn(attached, front[j])) ||
        (StoreKey(selected[i]) == k && AttachedIn(attached, selected[i]))
    {
      if j :| 0 <= j < |all| && StoreKey(all[j]) == k && AttachedIn(attached, all[j]) {
        assert j < i ==> front[j] == all[j];
      }
      if j :| 0 <= j < |front| && StoreKey(front[j]) == k && AttachedIn(attached, front[j]) {
        assert all[j] == front[j];
      }
      assert all[i] == selected[i];
    }
  }
}

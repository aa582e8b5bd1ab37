/**
 * What the recovery read makes of everything the database holds: values of other scopes, malformed
 * ones, records older than seven days and records from the future are left out; the rest is sorted
 * by time stamp and put into a map by client id, so the newest copy of a record wins when a rebind
 * was cut between its two transactions.
 */
module PendingSelection {
  import opened Sorting
  import opened ImageQueue
  import opened PracticeClient
  import opened SubmissionQueue

  /** A value of the database: a pending image of some scope, or anything else that is stored there. */
  datatype Stored = PendingImage(scope: nat, record: Record) | Malformed

  /** What `selectPendingImages` keeps. */
  predicate Kept(v: Stored, scope: nat, now: nat) {
    v.PendingImage? && v.scope == scope && !FromFuture(v.record, now) && !Expired(v.record, now)
  }

  function KeptRecords(values: seq<Stored>, scope: nat, now: nat): seq<Record> {
    if values == [] then []
    else
      var rest := KeptRecords(values[1..], scope, now);
      if Kept(values[0], scope, now) then [values[0].record] + rest else rest
  }

  predicate Older(a: Record, b: Record) {
    a.stamp <= b.stamp
  }

  /** A map entry: an id keeps its first position and its last value. */
  function Put(entries: seq<Record>, r: Record): seq<Record> {
    if entries == [] then [r]
    else if entries[0].client == r.client then [r] + entries[1..]
    else [entries[0]] + Put(entries[1..], r)
  }

  function ByClient(records: seq<Record>): seq<Record> {
    if records == [] then [] else Put(ByClient(records[..|records| - 1]), records[|records| - 1])
  }

  function SelectPending(values: seq<Record>): seq<Record> {
    ByClient(Sort(Older, values))
  }

  function SelectPendingImages(values: seq<Stored>, scope: nat, now: nat): seq<Record> {
    SelectPending(KeptRecords(values, scope, now))
  }

  lemma {:induction false} PutMembers(entries: seq<Record>, r: Record)
    requires DistinctRecords(entries)
    ensures forall x :: x in Put(entries, r) <==> x == r || (x in entries && x.client != r.client)
  {
    if entries != [] {
      var head, tail := entries[0], entries[1..];
      assert forall x :: x in entries <==> x == head || x in tail;
      assert forall i :: 0 <= i < |tail| ==> tail[i] == entries[i + 1];
      if head.client == r.client {
        assert forall x :: x in tail ==> x.client != r.client;
      } else {
        PutMembers(tail, r);
      }
    }
  }

  lemma {:induction false} PutMeans(entries: seq<Record>, r: Record)
    requires DistinctRecords(entries)
    ensures DistinctRecords(Put(entries, r))
    ensures forall x :: x in Put(entries, r) <==> x == r || (x in entries && x.client != r.client)
  {
    PutMembers(entries, r);
    if entries != [] && entries[0].client != r.client {
      var tail := entries[1..];
      assert forall i :: 0 <= i < |tail| ==> tail[i] == entries[i + 1];
      PutMeans(tail, r);
      var rest := Put(tail, r);
      assert forall i :: 0 <= i < |rest| ==> rest[i] in rest;
      assert forall x :: x in rest ==> x.client != entries[0].client;
    }
  }

  /** Some selected record has the id and is at least as new. */
  ghost predicate Covered(r: Record, selected: seq<Record>) {
    exists k :: 0 <= k < |selected| && selected[k].client == r.client && r.stamp <= selected[k].stamp
  }

  ghost predicate Covers(records: seq<Record>, selected: seq<Record>) {
    forall i :: 0 <= i < |records| ==> Covered(records[i], selected)
  }

  /** Of sorted records the map keeps, for every id, a record of that id with the greatest stamp. */
  lemma {:induction false} ByClientMeans(records: seq<Record>)
    requires Sorted(Older, records)
    ensures DistinctRecords(ByClient(records))
    ensures forall x :: x in ByClient(records) ==> x in records
    ensures Covers(records, ByClient(records))
  {
    if records != [] {
      var n := |records| - 1;
      var front, last := records[..n], records[n];
      ByClientMeans(front);
      PutMeans(ByClient(front), last);
      assert records == front + [last];
      var all := ByClient(records);
      forall i | 0 <= i < |records| ensures Covered(records[i], all) {
        if records[i].client == last.client {
          assert Older(records[i], last) by {
            assert i < n ==> Older(records[i], records[n]);
          }
          assert last in all;
        } else {
          assert Covered(front[i], ByClient(front));
          var k :| 0 <= k < |ByClient(front)| && ByClient(front)[k].client == front[i].client && front[i].stamp <= ByClient(front)[k].stamp;
          assert ByClient(front)[k] in all;
        }
      }
    }
  }

  function Clients(records: seq<Record>): seq<nat> {
    seq(|records|, i requires 0 <= i < |records| => records[i].client)
  }

  /** Every id once, in the order of first appearance. */
  function FirstOnce(ids: seq<nat>): seq<nat> {
    if ids == [] then []
    else
      var front := FirstOnce(ids[..|ids| - 1]);
      if ids[|ids| - 1] in front then front else front + [ids[|ids| - 1]]
  }

  lemma {:induction false} PutKeepsPlace(entries: seq<Record>, r: Record)
    ensures Clients(Put(entries, r)) == if r.client in Clients(entries) then Clients(entries) else Clients(entries) + [r.client]
  {
    if entries != [] {
      var head, tail := entries[0], entries[1..];
      assert Clients(entries) == [head.client] + Clients(tail);
      if head.client == r.client {
        assert Clients([r] + tail) == [r.client] + Clients(tail);
      } else {
        PutKeepsPlace(tail, r);
        assert Clients([head] + Put(tail, r)) == [head.client] + Clients(Put(tail, r));
      }
    }
  }

  /** The selection keeps the order in which the ids first come up among the records sorted by time. */
  lemma {:induction false} ByClientOrder(records: seq<Record>)
    ensures Clients(ByClient(records)) == FirstOnce(Clients(records))
  {
    if records != [] {
      var n := |records| - 1;
      ByClientOrder(records[..n]);
      PutKeepsPlace(ByClient(records[..n]), records[n]);
      assert Clients(records)[..n] == Clients(records[..n]);
    }
  }

  lemma OlderIsPreorder()
    ensures TotalPreorder(Older)
  {
  }

  /** The stored records, in whatever order the database returns them. */
  ghost predicate Lists(store: Store, values: seq<Record>) {
    forall r :: r in values <==> (exists k :: k in store && store[k] == r)
  }

  /**
   * The recovery read selects exactly one record for every stored id, one that is stored under its
   * own key, and no stored copy of that id is newer.
   */
  lemma SelectPendingSelects(store: Store, values: seq<Record>)
    requires StoreOk(store) && Lists(store, values)
    ensures IsSelection(store, SelectPending(values))
  {
    OlderIsPreorder();
    SortSorts(Older, values);
    var sorted := Sort(Older, values);
    ByClientMeans(sorted);
    SortedLists(store, values, sorted);
    var selected := SelectPending(values);
    SelectedAreStored(store, sorted, selected);
    SelectedAreNewest(store, sorted, selected);
    SelectedIds(store, sorted, selected);
  }

  lemma SortedLists(store: Store, values: seq<Record>, sorted: seq<Record>)
    requires Lists(store, values) && multiset(sorted) == multiset(values)
    ensures Lists(store, sorted)
  {
    forall r ensures r in sorted <==> r in values {
      assert (r in sorted <==> r in multiset(sorted)) && (r in values <==> r in multiset(values));
    }
  }

  lemma SelectedAreStored(store: Store, sorted: seq<Record>, selected: seq<Record>)
    requires StoreOk(store) && Lists(store, sorted) && forall x :: x in selected ==> x in sorted
    ensures forall i :: 0 <= i < |selected| ==> StoreKey(selected[i]) in store && store[StoreKey(selected[i])] == selected[i]
  {
    forall i | 0 <= i < |selected| ensures StoreKey(selected[i]) in store && store[StoreKey(selected[i])] == selected[i] {
      assert selected[i] in selected;
      var k :| k in store && store[k] == selected[i];
    }
  }

  lemma SelectedAreNewest(store: Store, sorted: seq<Record>, selected: seq<Record>)
    requires Lists(store, sorted) && Covers(sorted, selected) && DistinctRecords(selected)
    ensures forall i, k :: 0 <= i < |selected| && k in store && store[k].client == selected[i].client ==>
      store[k].stamp <= selected[i].stamp
  {
    forall i, k | 0 <= i < |selected| && k in store && store[k].client == selected[i].client
      ensures store[k].stamp <= selected[i].stamp
    {
      assert store[k] in sorted;
      var j :| 0 <= j < |sorted| && sorted[j] == store[k];
      assert Covered(sorted[j], selected);
    }
  }

  lemma SelectedIds(store: Store, sorted: seq<Record>, selected: seq<Record>)
    requires Lists(store, sorted) && Covers(sorted, selected) && forall x :: x in selected ==> x in sorted
    ensures RecordIds(selected) == StoreIds(store)
  {
    forall x | x in RecordIds(selected) ensures x in StoreIds(store) {
      var i :| 0 <= i < |selected| && selected[i].client == x;
      assert selected[i] in selected;
      var k :| k in store && store[k] == selected[i];
    }
    forall x | x in StoreIds(store) ensures x in RecordIds(selected) {
      var k :| k in store && store[k].client == x;
      assert store[k] in sorted;
      var j :| 0 <= j < |sorted| && sorted[j] == store[k];
      assert Covered(sorted[j], selected);
    }
  }

  // ---------------------------------------------------------------- the whole read

  /** Among the values are exactly the records that the scope's store holds. */
  ghost predicate ListsScope(values: seq<Stored>, scope: nat, store: Store) {
    forall r :: (exists k :: k in store && store[k] == r) <==> PendingImage(scope, r) in values
  }

  lemma {:induction false} KeptMeans(values: seq<Stored>, scope: nat, now: nat)
    ensures forall r :: r in KeptRecords(values, scope, now) <==>
      PendingImage(scope, r) in values && Kept(PendingImage(scope, r), scope, now)
  {
    if values != [] {
      KeptMeans(values[1..], scope, now);
      assert forall v :: v in values <==> v == values[0] || v in values[1..];
    }
  }

  lemma KeptAreRecoverable(values: seq<Stored>, scope: nat, store: Store, now: nat)
    requires ListsScope(values, scope, store)
    ensures Lists(Recoverable(store, now), KeptRecords(values, scope, now))
  {
    var kept := KeptRecords(values, scope, now);
    var part := Recoverable(store, now);
    KeptMeans(values, scope, now);
    forall r ensures r in kept <==> (exists k :: k in part && part[k] == r) {
      if r in kept {
        var k :| k in store && store[k] == r;
        assert k in part && part[k] == r;
      }
      if k :| k in part && part[k] == r {
        assert k in store && store[k] == r;
      }
    }
  }

  /**
   * Whatever else the database holds, in whatever order: the read selects exactly one record for
   * every id of this scope with a copy that is neither expired nor from the future, and of those
   * copies never an older one.
   */
  lemma ReadSelects(values: seq<Stored>, scope: nat, store: Store, now: nat)
    requires StoreOk(store) && ListsScope(values, scope, store)
    ensures IsSelection(Recoverable(store, now), SelectPendingImages(values, scope, now))
  {
    KeptAreRecoverable(values, scope, store, now);
    SelectPendingSelects(Recoverable(store, now), KeptRecords(values, scope, now));
  }
}

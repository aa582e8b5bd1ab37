/**
 * The header's course activity for students: the dashboard must list exactly the scopes of the
 * approved memberships. The check compares two sorted arrays of joined `course:class` keys.
 */
module HeaderStudents {
  import opened Prelude
  import opened Sorting
  import opened HeaderCatalog

  datatype Pair = Pair(courseId: string, classId: string)

  function ScopeKey(p: Pair): string {
    p.courseId + ":" + p.classId
  }

  function Keys(pairs: seq<Pair>): seq<string> {
    seq(|pairs|, i requires 0 <= i < |pairs| => ScopeKey(pairs[i]))
  }

  function ApprovedPairs(ms: seq<Membership>): seq<Pair> {
    if ms == [] then []
    else
      var rest := ApprovedPairs(ms[1..]);
      if ms[0].status == Approved then [Pair(ms[0].courseId, ms[0].classId)] + rest else rest
  }

  /** Some membership of the catalog is approved for this pair. */
  ghost predicate IsApproved(ms: seq<Membership>, p: Pair) {
    exists i :: 0 <= i < |ms| && ms[i].status == Approved && p == Pair(ms[i].courseId, ms[i].classId)
  }

  lemma {:induction false} ApprovedPairsAre(ms: seq<Membership>, p: Pair)
    ensures p in ApprovedPairs(ms) <==> IsApproved(ms, p)
  {
    if ms != [] {
      ApprovedPairsAre(ms[1..], p);
      assert forall i :: 1 <= i < |ms| ==> ms[i] == ms[1..][i - 1];
      if IsApproved(ms[1..], p) {
        var i :| 0 <= i < |ms[1..]| && ms[1..][i].status == Approved && p == Pair(ms[1..][i].courseId, ms[1..][i].classId);
        assert ms[i + 1] == ms[1..][i];
      }
    }
  }

  /** The dashboard lists exactly the approved pairs, each once. */
  ghost predicate ListsApproved(dashboard: seq<Pair>, ms: seq<Membership>) {
    NoDuplicates(dashboard) && forall p :: p in dashboard <==> IsApproved(ms, p)
  }

  lemma ListsApprovedIff(dashboard: seq<Pair>, ms: seq<Membership>)
    ensures ListsApproved(dashboard, ms) <==> NoDuplicates(dashboard) && Elements(dashboard) == Elements(ApprovedPairs(ms))
  {
    forall p ensures p in ApprovedPairs(ms) <==> IsApproved(ms, p) {
      ApprovedPairsAre(ms, p);
    }
    if Elements(dashboard) == Elements(ApprovedPairs(ms)) {
      forall p ensures p in dashboard <==> p in ApprovedPairs(ms) {
        assert p in dashboard <==> p in Elements(dashboard);
        assert p in ApprovedPairs(ms) <==> p in Elements(ApprovedPairs(ms));
      }
    }
  }

  /** `[...new Set(keys)]`: the first occurrence of each key. */
  function Dedupe(keys: seq<string>): seq<string> {
    if keys == [] then []
    else
      var front := Dedupe(keys[..|keys| - 1]);
      var last := keys[|keys| - 1];
      if last in front then front else front + [last]
  }

  /** The guards before any unit of the dashboard is looked at. */
  function CheckScopes(dashboard: seq<Pair>, ms: seq<Membership>): Result<(), int> {
    if HasDuplicate(Keys(dashboard)) then Err(502)
    else if Sort(LexLe, Keys(dashboard)) != Sort(LexLe, Dedupe(Keys(ApprovedPairs(ms)))) then Err(409)
    else Ok(())
  }

  lemma {:induction false} DedupeKeepsElements(keys: seq<string>)
    ensures NoDuplicates(Dedupe(keys)) && Elements(Dedupe(keys)) == Elements(keys)
  {
    if keys != [] {
      var front := keys[..|keys| - 1];
      DedupeKeepsElements(front);
      assert keys == front + [keys[|keys| - 1]];
      assert forall x :: x in Dedupe(front) <==> x in Elements(Dedupe(front));
      assert forall x :: x in front <==> x in Elements(front);
    }
  }

  lemma {:induction false} DistinctMultiset(s: seq<string>)
    requires NoDuplicates(s)
    ensures multiset(s) == multiset(Elements(s))
  {
    if s != [] {
      var front := s[..|s| - 1];
      var last := s[|s| - 1];
      DistinctMultiset(front);
      assert s == front + [last];
      assert last !in Elements(front);
      assert Elements(s) == Elements(front) + {last};
    }
  }

  /** Sorted arrays of distinct keys are equal exactly when the key sets are. */
  lemma SortedEqualIff(a: seq<string>, b: seq<string>)
    requires NoDuplicates(a) && NoDuplicates(b)
    ensures Sort(LexLe, a) == Sort(LexLe, b) <==> Elements(a) == Elements(b)
  {
    LexIsOrder();
    SortSorts(LexLe, a);
    SortSorts(LexLe, b);
    DistinctMultiset(a);
    DistinctMultiset(b);
    if Elements(a) == Elements(b) {
      SortedUnique(LexLe, Sort(LexLe, a), Sort(LexLe, b));
    }
    if Sort(LexLe, a) == Sort(LexLe, b) {
      assert multiset(Elements(a)) == multiset(Elements(b));
      forall x ensures x in Elements(a) <==> x in Elements(b) {
        assert x in multiset(Elements(a)) <==> x in multiset(Elements(b));
      }
    }
  }

  /** What the check decides, for every dashboard: no repeated key, and the same keys on both sides. */
  lemma CheckScopesIff(dashboard: seq<Pair>, ms: seq<Membership>)
    ensures CheckScopes(dashboard, ms).Ok? <==>
      NoDuplicates(Keys(dashboard)) && Elements(Keys(dashboard)) == Elements(Keys(ApprovedPairs(ms)))
    ensures CheckScopes(dashboard, ms) == Err(502) <==> !NoDuplicates(Keys(dashboard))
  {
    var approved := Keys(ApprovedPairs(ms));
    DedupeKeepsElements(approved);
    if NoDuplicates(Keys(dashboard)) {
      SortedEqualIff(Keys(dashboard), Dedupe(approved));
    }
  }

  // ---------------------------------------------------------------- from keys to pairs

  ghost predicate ColonFree(pairs: seq<Pair>) {
    forall i :: 0 <= i < |pairs| ==> ':' !in pairs[i].courseId
  }

  lemma KeyInjective(a: Pair, b: Pair)
    requires ':' !in a.courseId && ':' !in b.courseId && ScopeKey(a) == ScopeKey(b)
    ensures a == b
  {
    var m, n := |a.courseId|, |b.courseId|;
    assert ScopeKey(a)[m] == ':' && ScopeKey(b)[n] == ':';
    assert m == n;
    assert a.courseId == ScopeKey(a)[..m] == ScopeKey(b)[..m] == b.courseId;
    assert a.classId == ScopeKey(a)[m + 1..] == ScopeKey(b)[m + 1..] == b.classId;
  }

  lemma KeysInclude(a: seq<Pair>, b: seq<Pair>)
    requires ColonFree(a) && ColonFree(b)
    ensures Elements(Keys(a)) <= Elements(Keys(b)) <==> Elements(a) <= Elements(b)
  {
    if Elements(Keys(a)) <= Elements(Keys(b)) {
      forall p | p in a ensures p in b {
        var i :| 0 <= i < |a| && a[i] == p;
        assert Keys(a)[i] in Elements(Keys(a));
        var j :| 0 <= j < |b| && Keys(b)[j] == Keys(a)[i];
        KeyInjective(a[i], b[j]);
      }
    }
    if Elements(a) <= Elements(b) {
      forall k | k in Keys(a) ensures k in Keys(b) {
        var i :| 0 <= i < |a| && Keys(a)[i] == k;
        assert a[i] in Elements(a);
        var j :| 0 <= j < |b| && b[j] == a[i];
        assert Keys(b)[j] == k;
      }
    }
  }

  /** For course ids without `:`, the check decides equality of the two sets of pairs. */
  lemma CheckScopesDecidesPairs(dashboard: seq<Pair>, ms: seq<Membership>)
    requires ColonFree(dashboard) && ColonFree(ApprovedPairs(ms))
    ensures CheckScopes(dashboard, ms).Ok? <==> ListsApproved(dashboard, ms)
  {
    ListsApprovedIff(dashboard, ms);
    CheckScopesIff(dashboard, ms);
    KeysInclude(dashboard, ApprovedPairs(ms));
    KeysInclude(ApprovedPairs(ms), dashboard);
    forall i, j | 0 <= i < j < |dashboard| ensures Keys(dashboard)[i] == Keys(dashboard)[j] <==> dashboard[i] == dashboard[j] {
      if Keys(dashboard)[i] == Keys(dashboard)[j] {
        KeyInjective(dashboard[i], dashboard[j]);
      }
    }
    assert NoDuplicates(Keys(dashboard)) <==> NoDuplicates(dashboard) by {
      if NoDuplicates(dashboard) {
        forall i, j | 0 <= i < j < |dashboard| ensures Keys(dashboard)[i] != Keys(dashboard)[j] {
          assert dashboard[i] != dashboard[j];
        }
      }
      if NoDuplicates(Keys(dashboard)) {
        forall i, j | 0 <= i < j < |dashboard| ensures dashboard[i] != dashboard[j] {
          assert Keys(dashboard)[i] != Keys(dashboard)[j];
        }
      }
    }
  }

  /** Ids may contain `:`, and then the check can accept a dashboard for a pair nobody approved. */
  lemma ColonDefeatsCheck() returns (dashboard: seq<Pair>, ms: seq<Membership>)
    ensures forall i :: 0 <= i < |dashboard| ==> ValidId(dashboard[i].courseId) && ValidId(dashboard[i].classId)
    ensures dashboard != [] && CheckScopes(dashboard, ms).Ok? && forall p :: p in dashboard ==> !IsApproved(ms, p)
  {
    var p, q := Pair("a:b", "c"), Pair("a", "b:c");
    dashboard := [p];
    ms := [Membership("m", "a", "b:c", Approved)];
    OneApproved(ms[0]);
    assert ScopeKey(p) == "a:b:c" == ScopeKey(q);
    assert Keys([p]) == [ScopeKey(p)] && Keys([q]) == [ScopeKey(q)];
    CheckScopesIff(dashboard, ms);
    assert p != q;
    ApprovedPairsAre(ms, p);
  }

  lemma OneApproved(m: Membership)
    requires m.status == Approved
    ensures ApprovedPairs([m]) == [Pair(m.courseId, m.classId)]
  {
    assert [m][1..] == [];
    assert ApprovedPairs([m][1..]) == [];
  }

  // ---------------------------------------------------------------- exactly when the check is right

  /** The key comes apart at `i` into two valid ids. */
  predicate SplitsAt(key: string, i: nat) {
    i < |key| && key[i] == ':' && ValidId(key[..i]) && ValidId(key[i + 1..])
  }

  predicate ValidPair(p: Pair) {
    ValidId(p.courseId) && ValidId(p.classId)
  }

  ghost predicate AllValid(pairs: seq<Pair>) {
    forall i :: 0 <= i < |pairs| ==> ValidPair(pairs[i])
  }

  /** No approved key can be read as another pair of valid ids. */
  ghost predicate Unambiguous(approved: seq<Pair>) {
    forall i, k: nat :: 0 <= i < |approved| && SplitsAt(ScopeKey(approved[i]), k) ==> k == |approved[i].courseId|
  }

  /** The check says of this dashboard whether it lists the approved pairs, each once. */
  ghost predicate Decides(dashboard: seq<Pair>, ms: seq<Membership>) {
    CheckScopes(dashboard, ms).Ok? <==> ListsApproved(dashboard, ms)
  }

  ghost predicate DecidesAll(ms: seq<Membership>) {
    forall dashboard :: AllValid(dashboard) ==> Decides(dashboard, ms)
  }

  lemma PairSplits(p: Pair)
    requires ValidPair(p)
    ensures SplitsAt(ScopeKey(p), |p.courseId|)
    ensures p == Pair(ScopeKey(p)[..|p.courseId|], ScopeKey(p)[|p.courseId| + 1..])
  {
  }

  /** An unambiguous approved key belongs to one valid pair only. */
  lemma OnlyReading(approved: seq<Pair>, i: nat, q: Pair)
    requires Unambiguous(approved) && i < |approved| && ValidPair(approved[i]) && ValidPair(q) && ScopeKey(q) == ScopeKey(approved[i])
    ensures q == approved[i]
  {
    PairSplits(q);
    PairSplits(approved[i]);
  }

  lemma SameKeysSamePairs(dashboard: seq<Pair>, approved: seq<Pair>)
    requires AllValid(dashboard) && AllValid(approved) && Unambiguous(approved)
    requires Elements(Keys(dashboard)) == Elements(Keys(approved))
    ensures Elements(dashboard) == Elements(approved)
  {
    forall p | p in dashboard ensures p in approved {
      var i :| 0 <= i < |dashboard| && dashboard[i] == p;
      assert Keys(dashboard)[i] in Elements(Keys(dashboard));
      var j :| 0 <= j < |approved| && Keys(approved)[j] == Keys(dashboard)[i];
      OnlyReading(approved, j, p);
    }
    forall p | p in approved ensures p in dashboard {
      var j :| 0 <= j < |approved| && approved[j] == p;
      assert Keys(approved)[j] in Elements(Keys(approved));
      var i :| 0 <= i < |dashboard| && Keys(dashboard)[i] == Keys(approved)[j];
      OnlyReading(approved, j, dashboard[i]);
    }
  }

  lemma SamePairsSameKeys(a: seq<Pair>, b: seq<Pair>)
    requires Elements(a) <= Elements(b)
    ensures Elements(Keys(a)) <= Elements(Keys(b))
  {
    forall k | k in Keys(a) ensures k in Keys(b) {
      var i :| 0 <= i < |a| && Keys(a)[i] == k;
      assert a[i] in Elements(a);
      var j :| 0 <= j < |b| && b[j] == a[i];
      assert Keys(b)[j] == k;
    }
  }

  lemma DistinctKeys(dashboard: seq<Pair>, approved: seq<Pair>)
    requires AllValid(approved) && Unambiguous(approved) && Elements(dashboard) == Elements(approved) && NoDuplicates(dashboard)
    ensures NoDuplicates(Keys(dashboard))
  {
    forall i, j | 0 <= i < j < |dashboard| ensures Keys(dashboard)[i] != Keys(dashboard)[j] {
      assert dashboard[i] in Elements(dashboard) && dashboard[j] in Elements(dashboard);
      var a :| 0 <= a < |approved| && approved[a] == dashboard[i];
      var b :| 0 <= b < |approved| && approved[b] == dashboard[j];
      if ScopeKey(approved[a]) == ScopeKey(approved[b]) {
        OnlyReading(approved, a, approved[b]);
        assert dashboard[i] != dashboard[j];
      }
    }
  }

  lemma UnambiguousDecides(dashboard: seq<Pair>, ms: seq<Membership>)
    requires AllValid(dashboard) && AllValid(ApprovedPairs(ms)) && Unambiguous(ApprovedPairs(ms))
    ensures Decides(dashboard, ms)
  {
    var approved := ApprovedPairs(ms);
    CheckScopesIff(dashboard, ms);
    ListsApprovedIff(dashboard, ms);
    if CheckScopes(dashboard, ms).Ok? {
      SameKeysSamePairs(dashboard, approved);
      forall i, j | 0 <= i < j < |dashboard| ensures dashboard[i] != dashboard[j] {
        assert Keys(dashboard)[i] != Keys(dashboard)[j];
      }
    }
    if NoDuplicates(dashboard) && Elements(dashboard) == Elements(approved) {
      DistinctKeys(dashboard, approved);
      SamePairsSameKeys(dashboard, approved);
      SamePairsSameKeys(approved, dashboard);
    }
  }

  /** One pair for every approved key, with `q` in place of every pair that has its key. */
  function Swapped(approved: seq<Pair>, q: Pair): seq<Pair> {
    if approved == [] then []
    else
      var front := Swapped(approved[..|approved| - 1], q);
      var last := approved[|approved| - 1];
      if ScopeKey(last) in Keys(front) then front
      else front + [if ScopeKey(last) == ScopeKey(q) then q else last]
  }

  lemma {:induction false} SwappedKeys(approved: seq<Pair>, q: Pair)
    ensures Keys(Swapped(approved, q)) == Dedupe(Keys(approved))
  {
    if approved != [] {
      var front := approved[..|approved| - 1];
      var last := approved[|approved| - 1];
      SwappedKeys(front, q);
      assert Keys(approved)[..|approved| - 1] == Keys(front);
      var swapped := Swapped(front, q);
      if ScopeKey(last) !in Keys(swapped) {
        var r := if ScopeKey(last) == ScopeKey(q) then q else last;
        assert Keys(swapped + [r]) == Keys(swapped) + [ScopeKey(last)];
      }
    }
  }

  lemma {:induction false} SwappedValid(approved: seq<Pair>, q: Pair)
    requires AllValid(approved) && ValidPair(q)
    ensures AllValid(Swapped(approved, q))
    ensures forall p :: p in Swapped(approved, q) && ScopeKey(p) == ScopeKey(q) ==> p == q
  {
    if approved != [] {
      var front := approved[..|approved| - 1];
      assert AllValid(front);
      SwappedValid(front, q);
    }
  }

  /** The other reading of an approved key makes a dashboard that is accepted although it lists other pairs. */
  lemma AmbiguousAccepts(ms: seq<Membership>, i: nat, q: Pair)
    requires AllValid(ApprovedPairs(ms)) && ValidPair(q)
    requires i < |ApprovedPairs(ms)| && ScopeKey(q) == ScopeKey(ApprovedPairs(ms)[i]) && q != ApprovedPairs(ms)[i]
    ensures AllValid(Swapped(ApprovedPairs(ms), q)) && !Decides(Swapped(ApprovedPairs(ms), q), ms)
  {
    var approved := ApprovedPairs(ms);
    var dashboard := Swapped(approved, q);
    SwappedKeys(approved, q);
    SwappedValid(approved, q);
    DedupeKeepsElements(Keys(approved));
    CheckScopesIff(dashboard, ms);
    ListsApprovedIff(dashboard, ms);
    assert approved[i] !in dashboard;
    assert approved[i] in Elements(approved);
  }

  /**
   * Exactly when the joined keys are safe: the check decides every dashboard of valid ids rightly
   * if and only if no approved key comes apart at another `:` into two valid ids.
   */
  lemma ChecksRightlyIff(ms: seq<Membership>)
    requires AllValid(ApprovedPairs(ms))
    ensures DecidesAll(ms) <==> Unambiguous(ApprovedPairs(ms))
  {
    var approved := ApprovedPairs(ms);
    if Unambiguous(approved) {
      forall dashboard | AllValid(dashboard) ensures Decides(dashboard, ms) {
        UnambiguousDecides(dashboard, ms);
      }
    } else {
      var i: int, k: nat :| 0 <= i < |approved| && SplitsAt(ScopeKey(approved[i]), k) && k != |approved[i].courseId|;
      var key := ScopeKey(approved[i]);
      var q := Pair(key[..k], key[k + 1..]);
      assert ScopeKey(q) == key;
      AmbiguousAccepts(ms, i, q);
    }
  }
}

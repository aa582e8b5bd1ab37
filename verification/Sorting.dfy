/**
 * `Array.prototype.sort` as its callers may rely on it: a stable rearrangement into the
 * comparator's order. Also the code-unit order that `sort` uses without a comparator.
 */
module Sorting {
  ghost predicate TotalPreorder<T(!new)>(le: (T, T) -> bool) {
    && (forall x, y :: le(x, y) || le(y, x))
    && (forall x, y, z :: le(x, y) && le(y, z) ==> le(x, z))
  }

  ghost predicate Antisymmetric<T(!new)>(le: (T, T) -> bool) {
    forall x, y :: le(x, y) && le(y, x) ==> x == y
  }

  ghost predicate Sorted<T>(le: (T, T) -> bool, s: seq<T>) {
    forall i, j :: 0 <= i < j < |s| ==> le(s[i], s[j])
  }

  /** `x` goes behind everything that is not greater. */
  function Insert<T>(le: (T, T) -> bool, s: seq<T>, x: T): seq<T> {
    if s == [] then [x]
    else if le(s[|s| - 1], x) then s + [x]
    else Insert(le, s[..|s| - 1], x) + [s[|s| - 1]]
  }

  function Sort<T>(le: (T, T) -> bool, s: seq<T>): seq<T> {
    if s == [] then [] else Insert(le, Sort(le, s[..|s| - 1]), s[|s| - 1])
  }

  lemma {:induction false} InsertKeeps<T>(le: (T, T) -> bool, s: seq<T>, x: T)
    ensures multiset(Insert(le, s, x)) == multiset(s) + multiset{x}
    ensures |Insert(le, s, x)| == |s| + 1
  {
    if s != [] && !le(s[|s| - 1], x) {
      InsertKeeps(le, s[..|s| - 1], x);
      assert s == s[..|s| - 1] + [s[|s| - 1]];
    }
  }

  lemma InMultiset<T>(s: seq<T>, t: seq<T>, x: T)
    requires multiset(s) == multiset(t) + multiset{x}
    ensures forall i :: 0 <= i < |s| ==> s[i] == x || s[i] in t
  {
    forall i | 0 <= i < |s| ensures s[i] == x || s[i] in t {
      assert s[i] in multiset(s);
    }
  }

  lemma {:induction false} InsertSorted<T(!new)>(le: (T, T) -> bool, s: seq<T>, x: T)
    requires TotalPreorder(le) && Sorted(le, s)
    ensures Sorted(le, Insert(le, s, x))
  {
    if s != [] {
      var last := s[|s| - 1];
      var front := s[..|s| - 1];
      if le(last, x) {
        forall i | 0 <= i < |s| ensures le(s[i], x) {
          assert le(s[i], last);
        }
      } else {
        InsertSorted(le, front, x);
        InsertKeeps(le, front, x);
        var t := Insert(le, front, x);
        InMultiset(t, front, x);
        forall i | 0 <= i < |t| ensures le(t[i], last) {
          if t[i] != x {
            var j :| 0 <= j < |front| && front[j] == t[i];
            assert le(s[j], s[|s| - 1]);
          }
        }
      }
    }
  }

  /** Sorting keeps every element with its multiplicity and puts them in order. */
  lemma {:induction false} SortSorts<T(!new)>(le: (T, T) -> bool, s: seq<T>)
    requires TotalPreorder(le)
    ensures Sorted(le, Sort(le, s)) && multiset(Sort(le, s)) == multiset(s) && |Sort(le, s)| == |s|
  {
    if s != [] {
      SortSorts(le, s[..|s| - 1]);
      InsertSorted(le, Sort(le, s[..|s| - 1]), s[|s| - 1]);
      InsertKeeps(le, Sort(le, s[..|s| - 1]), s[|s| - 1]);
      assert s == s[..|s| - 1] + [s[|s| - 1]];
    }
  }

  lemma LastIsGreatest<T(!new)>(le: (T, T) -> bool, a: seq<T>, x: T)
    requires TotalPreorder(le) && Sorted(le, a) && x in multiset(a)
    ensures a != [] && le(x, a[|a| - 1])
  {
    var i :| 0 <= i < |a| && a[i] == x;
    assert le(x, x) || le(x, x);
  }

  lemma DropLast<T>(a: seq<T>)
    requires a != []
    ensures multiset(a[..|a| - 1]) == multiset(a) - multiset{a[|a| - 1]}
  {
    assert a == a[..|a| - 1] + [a[|a| - 1]];
  }

  /** Under an antisymmetric order there is only one sorted arrangement of the same elements. */
  lemma {:induction false} SortedUnique<T(!new)>(le: (T, T) -> bool, a: seq<T>, b: seq<T>)
    requires TotalPreorder(le) && Antisymmetric(le) && Sorted(le, a) && Sorted(le, b)
    requires multiset(a) == multiset(b)
    ensures a == b
  {
    assert |multiset(a)| == |a| && |multiset(b)| == |b|;
    if a != [] {
      SameLast(le, a, b);
      DropLast(a);
      DropLast(b);
      SortedUnique(le, a[..|a| - 1], b[..|b| - 1]);
      JoinLast(a, b);
    }
  }

  lemma SameLast<T(!new)>(le: (T, T) -> bool, a: seq<T>, b: seq<T>)
    requires TotalPreorder(le) && Antisymmetric(le) && Sorted(le, a) && Sorted(le, b)
    requires multiset(a) == multiset(b) && a != [] && b != []
    ensures a[|a| - 1] == b[|b| - 1]
  {
    assert b[|b| - 1] in multiset(b) && a[|a| - 1] in multiset(a);
    LastIsGreatest(le, b, a[|a| - 1]);
    LastIsGreatest(le, a, b[|b| - 1]);
  }

  lemma JoinLast<T>(a: seq<T>, b: seq<T>)
    requires a != [] && b != [] && a[..|a| - 1] == b[..|b| - 1] && a[|a| - 1] == b[|b| - 1]
    ensures a == b
  {
    assert a == a[..|a| - 1] + [a[|a| - 1]] && b == b[..|b| - 1] + [b[|b| - 1]];
  }

  // ---------------------------------------------------------------- code-unit order

  predicate LexLe(a: string, b: string) {
    if a == [] then true
    else if b == [] then false
    else if a[0] != b[0] then a[0] < b[0]
    else LexLe(a[1..], b[1..])
  }

  lemma {:induction false} LexTotal(a: string, b: string)
    ensures LexLe(a, b) || LexLe(b, a)
    ensures LexLe(a, b) && LexLe(b, a) ==> a == b
  {
    if a != [] && b != [] && a[0] == b[0] {
      LexTotal(a[1..], b[1..]);
      assert a == [a[0]] + a[1..] && b == [b[0]] + b[1..];
    }
  }

  lemma {:induction false} LexTransitive(a: string, b: string, c: string)
    requires LexLe(a, b) && LexLe(b, c)
    ensures LexLe(a, c)
  {
    if a != [] && b != [] && c != [] && a[0] == b[0] == c[0] {
      LexTransitive(a[1..], b[1..], c[1..]);
    }
  }

  lemma LexIsOrder()
    ensures TotalPreorder(LexLe) && Antisymmetric(LexLe)
  {
    forall x, y ensures (LexLe(x, y) || LexLe(y, x)) && (LexLe(x, y) && LexLe(y, x) ==> x == y) {
      LexTotal(x, y);
    }
    forall x, y, z | LexLe(x, y) && LexLe(y, z) ensures LexLe(x, z) {
      LexTransitive(x, y, z);
    }
  }
}

/**
 * The teacher calendar over all courses: four courses at a time, then one list with unique ids,
 * sorted by due time, course name and id. `localeCompare` enters as a total preorder on strings.
 */
module HeaderCalendar {
  import opened Prelude
  import opened Sorting
  import opened HeaderCatalog
  import opened HeaderDeadlines

  /** One course's own projection, from the answer its read got; failed reads carry their status. */
  ghost function CourseItems(data: Catalog, course: Course, answer: Result<Body, int>): Result<seq<Item>, int> {
    if answer.Err? then Err(answer.error) else Deadlines(data, course, answer.value)
  }

  ghost predicate AllOk(data: Catalog, courses: seq<Course>, answers: seq<Result<Body, int>>)
    requires |answers| == |courses|
  {
    forall i :: 0 <= i < |courses| ==> CourseItems(data, courses[i], answers[i]).Ok?
  }

  /** The sequential projection: course after course, without batches. */
  ghost function Sequential(data: Catalog, courses: seq<Course>, answers: seq<Result<Body, int>>): seq<Item>
    requires |answers| == |courses| && AllOk(data, courses, answers)
  {
    if courses == [] then []
    else
      var n := |courses| - 1;
      Sequential(data, courses[..n], answers[..n]) + CourseItems(data, courses[n], answers[n]).value
  }

  lemma SequentialStep(data: Catalog, courses: seq<Course>, answers: seq<Result<Body, int>>, n: nat)
    requires |answers| == |courses| && n < |courses| && AllOk(data, courses[..n + 1], answers[..n + 1])
    ensures AllOk(data, courses[..n], answers[..n]) && CourseItems(data, courses[n], answers[n]).Ok?
    ensures Sequential(data, courses[..n + 1], answers[..n + 1]) ==
      Sequential(data, courses[..n], answers[..n]) + CourseItems(data, courses[n], answers[n]).value
  {
    assert courses[..n + 1][..n] == courses[..n] && answers[..n + 1][..n] == answers[..n];
    assert courses[..n + 1][n] == courses[n] && answers[..n + 1][n] == answers[n];
    forall i | 0 <= i < n ensures CourseItems(data, courses[..n][i], answers[..n][i]).Ok? {
      assert courses[..n][i] == courses[..n + 1][i] && answers[..n][i] == answers[..n + 1][i];
    }
  }

  lemma AllOkGrows(data: Catalog, courses: seq<Course>, answers: seq<Result<Body, int>>, n: nat)
    requires |answers| == |courses| && n < |courses| && AllOk(data, courses[..n], answers[..n])
    requires CourseItems(data, courses[n], answers[n]).Ok?
    ensures AllOk(data, courses[..n + 1], answers[..n + 1])
  {
    var cs, rs := courses[..n + 1], answers[..n + 1];
    forall i | 0 <= i < |cs| ensures CourseItems(data, cs[i], rs[i]).Ok? {
      if i < n {
        assert cs[i] == courses[..n][i] && rs[i] == answers[..n][i];
      }
    }
  }

  // ---------------------------------------------------------------- the comparator

  predicate Before(le: (string, string) -> bool, a: string, b: string) {
    le(a, b) && !le(b, a)
  }

  predicate Ties(le: (string, string) -> bool, a: string, b: string) {
    le(a, b) && le(b, a)
  }

  /** Due time, then course name, then id. */
  predicate ItemLe(le: (string, string) -> bool, a: Item, b: Item) {
    || Before(le, a.due, b.due)
    || (Ties(le, a.due, b.due) &&
        (|| Before(le, a.scope.courseName, b.scope.courseName)
         || (Ties(le, a.scope.courseName, b.scope.courseName) && le(a.id, b.id))))
  }

  function ByDue(le: (string, string) -> bool): (Item, Item) -> bool {
    (a: Item, b: Item) => ItemLe(le, a, b)
  }

  lemma ItemLeTransitive(le: (string, string) -> bool, a: Item, b: Item, c: Item)
    requires TotalPreorder(le) && ItemLe(le, a, b) && ItemLe(le, b, c)
    ensures ItemLe(le, a, c)
  {
  }

  lemma ItemLeTotal(le: (string, string) -> bool, a: Item, b: Item)
    requires TotalPreorder(le)
    ensures ItemLe(le, a, b) || ItemLe(le, b, a)
  {
  }

  lemma ByDueIsPreorder(le: (string, string) -> bool)
    requires TotalPreorder(le)
    ensures TotalPreorder(ByDue(le))
  {
    forall a: Item, b: Item ensures ByDue(le)(a, b) || ByDue(le)(b, a) {
      ItemLeTotal(le, a, b);
    }
    forall a: Item, b: Item, c: Item | ByDue(le)(a, b) && ByDue(le)(b, c) ensures ByDue(le)(a, c) {
      ItemLeTransitive(le, a, b, c);
    }
  }

  // ---------------------------------------------------------------- provenance

  ghost predicate FromCatalog(data: Catalog, items: seq<Item>) {
    forall i :: 0 <= i < |items| ==> InCatalog(data, items[i].scope)
  }

  lemma {:induction false} ItemsFromCatalog(data: Catalog, course: Course, chosen: map<Key, Row>, order: seq<Key>)
    requires forall i :: 0 <= i < |order| ==> order[i] in chosen && Printable(data, course, chosen[order[i]])
    ensures FromCatalog(data, ItemsOf(data, course, chosen, order))
  {
    if order != [] {
      ItemsFromCatalog(data, course, chosen, order[..|order| - 1]);
      var row := chosen[order[|order| - 1]];
      if row.due.DueAt? {
        ScopeIsInCatalog(data, course.id, row.classId.value);
      }
    }
  }

  lemma {:induction false} SequentialFromCatalog(data: Catalog, courses: seq<Course>, answers: seq<Result<Body, int>>)
    requires |answers| == |courses| && AllOk(data, courses, answers)
    ensures FromCatalog(data, Sequential(data, courses, answers))
  {
    if courses != [] {
      var n := |courses| - 1;
      SequentialFromCatalog(data, courses[..n], answers[..n]);
      var body := answers[n].value;
      AcceptableIsPrintable(data, courses[n], body.activities.value);
      ItemsFromCatalog(data, courses[n], Chosen(body.activities.value), Order(body.activities.value));
    }
  }

  /** The row is the latest of its key in this answer, and has a due time. */
  ghost predicate Dated(answer: Result<Body, int>, row: Row) {
    answer.Ok? && answer.value.activities.Some? && IsLatest(answer.value.activities.value, row) && row.due.DueAt?
  }

  /** The item shows such a row. */
  ghost predicate ShowsDated(data: Catalog, course: Course, answer: Result<Body, int>, item: Item) {
    exists row :: Dated(answer, row) && Shows(data, course, row, item)
  }

  ghost predicate Listed(data: Catalog, course: Course, row: Row, items: seq<Item>) {
    exists item :: item in items && Shows(data, course, row, item)
  }

  /** All such rows are listed. */
  ghost predicate ListsDated(data: Catalog, course: Course, answer: Result<Body, int>, items: seq<Item>) {
    forall row :: Dated(answer, row) ==> Listed(data, course, row, items)
  }

  ghost predicate ShownBy(data: Catalog, courses: seq<Course>, answers: seq<Result<Body, int>>, item: Item, i: nat) {
    i < |courses| && i < |answers| && ShowsDated(data, courses[i], answers[i], item)
  }

  ghost predicate Shown(data: Catalog, courses: seq<Course>, answers: seq<Result<Body, int>>, item: Item) {
    exists i: nat :: ShownBy(data, courses, answers, item, i)
  }

  /** The items are, in some order, those of all latest rows of all courses that have a due time. */
  ghost predicate CoversCourses(data: Catalog, courses: seq<Course>, answers: seq<Result<Body, int>>, items: seq<Item>)
    requires |answers| == |courses|
  {
    && (forall item :: item in items ==> Shown(data, courses, answers, item))
    && (forall i :: 0 <= i < |courses| ==> ListsDated(data, courses[i], answers[i], items))
  }

  lemma CourseShows(data: Catalog, course: Course, answer: Result<Body, int>, item: Item)
    requires CourseItems(data, course, answer).Ok? && item in CourseItems(data, course, answer).value
    ensures ShowsDated(data, course, answer, item)
  {
    DeadlinesProject(data, course, answer.value);
    ProjectedShows(data, course, answer, CourseItems(data, course, answer).value, item);
  }

  lemma ProjectedShows(data: Catalog, course: Course, answer: Result<Body, int>, items: seq<Item>, item: Item)
    requires answer.Ok? && answer.value.activities.Some? && Projects(data, course, answer.value.activities.value, items) && item in items
    ensures ShowsDated(data, course, answer, item)
  {
    var latest :| ListsLatest(answer.value.activities.value, latest) && ShowsAll(data, course, latest, items);
    var k :| 0 <= k < |items| && items[k] == item;
    assert latest[k] in latest && Dated(answer, latest[k]);
  }

  lemma ProjectedLists(data: Catalog, course: Course, answer: Result<Body, int>, items: seq<Item>)
    requires answer.Ok? && answer.value.activities.Some? && Projects(data, course, answer.value.activities.value, items)
    ensures ListsDated(data, course, answer, items)
  {
    var latest :| ListsLatest(answer.value.activities.value, latest) && ShowsAll(data, course, latest, items);
    forall row | Dated(answer, row) ensures Listed(data, course, row, items) {
      var k :| 0 <= k < |latest| && latest[k] == row;
      assert items[k] in items;
    }
  }

  lemma CourseLists(data: Catalog, course: Course, answer: Result<Body, int>, items: seq<Item>)
    requires CourseItems(data, course, answer) == Ok(items)
    ensures ListsDated(data, course, answer, items)
  {
    DeadlinesProject(data, course, answer.value);
    ProjectedLists(data, course, answer, items);
  }

  lemma ListsMore(data: Catalog, course: Course, answer: Result<Body, int>, items: seq<Item>, more: seq<Item>)
    requires ListsDated(data, course, answer, items) && forall item :: item in items ==> item in more
    ensures ListsDated(data, course, answer, more)
  {
    forall row | Dated(answer, row) ensures Listed(data, course, row, more) {
      var item :| item in items && Shows(data, course, row, item);
      assert item in more;
    }
  }

  lemma ListsConcat(data: Catalog, course: Course, answer: Result<Body, int>, a: seq<Item>, b: seq<Item>)
    requires ListsDated(data, course, answer, a) || ListsDated(data, course, answer, b)
    ensures ListsDated(data, course, answer, a + b)
  {
    assert forall item :: item in a || item in b ==> item in a + b;
    if ListsDated(data, course, answer, a) {
      ListsMore(data, course, answer, a, a + b);
    } else {
      ListsMore(data, course, answer, b, a + b);
    }
  }

  lemma SequentialLast(data: Catalog, courses: seq<Course>, answers: seq<Result<Body, int>>) returns (before: seq<Item>, items: seq<Item>)
    requires |answers| == |courses| && AllOk(data, courses, answers) && courses != []
    ensures var n := |courses| - 1;
      && AllOk(data, courses[..n], answers[..n]) && before == Sequential(data, courses[..n], answers[..n])
      && CourseItems(data, courses[n], answers[n]) == Ok(items) && Sequential(data, courses, answers) == before + items
  {
    var n := |courses| - 1;
    before := Sequential(data, courses[..n], answers[..n]);
    items := CourseItems(data, courses[n], answers[n]).value;
  }

  lemma {:induction false} SequentialShows(data: Catalog, courses: seq<Course>, answers: seq<Result<Body, int>>, item: Item)
    requires |answers| == |courses| && AllOk(data, courses, answers) && item in Sequential(data, courses, answers)
    ensures Shown(data, courses, answers, item)
  {
    var n := |courses| - 1;
    var before, items := SequentialLast(data, courses, answers);
    if item in before {
      SequentialShows(data, courses[..n], answers[..n], item);
      var i: nat :| ShownBy(data, courses[..n], answers[..n], item, i);
      assert ShownBy(data, courses, answers, item, i);
    } else {
      CourseShows(data, courses[n], answers[n], item);
      assert ShownBy(data, courses, answers, item, n);
    }
  }

  /** The items of the first `n` courses list the rows of each of them. */
  lemma {:induction false} PrefixLists(data: Catalog, courses: seq<Course>, answers: seq<Result<Body, int>>, n: nat, i: nat) returns (items: seq<Item>)
    requires |answers| == |courses| && i < n <= |courses| && AllOk(data, courses[..n], answers[..n])
    ensures items == Sequential(data, courses[..n], answers[..n]) && ListsDated(data, courses[i], answers[i], items)
  {
    SequentialStep(data, courses, answers, n - 1);
    var last := CourseItems(data, courses[n - 1], answers[n - 1]).value;
    if i < n - 1 {
      var before := PrefixLists(data, courses, answers, n - 1, i);
      items := before + last;
      ListsConcat(data, courses[i], answers[i], before, last);
    } else {
      var before := Sequential(data, courses[..n - 1], answers[..n - 1]);
      items := before + last;
      CourseLists(data, courses[i], answers[i], last);
      ListsConcat(data, courses[i], answers[i], before, last);
    }
  }

  /** Any rearrangement of the sequential projection covers all courses. */
  lemma PermutedCovers(data: Catalog, courses: seq<Course>, answers: seq<Result<Body, int>>, items: seq<Item>)
    requires |answers| == |courses| && AllOk(data, courses, answers)
    requires multiset(items) == multiset(Sequential(data, courses, answers))
    ensures CoversCourses(data, courses, answers, items)
  {
    var sequential := Sequential(data, courses, answers);
    forall item ensures item in items <==> item in sequential {
      assert item in items <==> item in multiset(items);
      assert item in sequential <==> item in multiset(sequential);
    }
    forall item | item in items ensures Shown(data, courses, answers, item) {
      SequentialShows(data, courses, answers, item);
    }
    forall i | 0 <= i < |courses| ensures ListsDated(data, courses[i], answers[i], items) {
      assert courses[..|courses|] == courses && answers[..|courses|] == answers;
      var listed := PrefixLists(data, courses, answers, |courses|, i);
      ListsMore(data, courses[i], answers[i], listed, items);
    }
  }

  /** Earlier due times first; at one due time by course name; under one course name by id. */
  ghost predicate InCalendarOrder(le: (string, string) -> bool, items: seq<Item>) {
    forall i, j :: 0 <= i < j < |items| ==>
      && le(items[i].due, items[j].due)
      && (le(items[j].due, items[i].due) ==> le(items[i].scope.courseName, items[j].scope.courseName))
      && (le(items[j].due, items[i].due) && le(items[j].scope.courseName, items[i].scope.courseName) ==> le(items[i].id, items[j].id))
  }

  lemma SortedIsCalendarOrder(le: (string, string) -> bool, items: seq<Item>)
    requires TotalPreorder(le) && Sorted(ByDue(le), items)
    ensures InCalendarOrder(le, items)
  {
    forall i, j | 0 <= i < j < |items|
      ensures le(items[i].due, items[j].due) && ItemLe(le, items[i], items[j])
    {
      assert ByDue(le)(items[i], items[j]);
    }
  }

  // ---------------------------------------------------------------- the read

  function ItemIds(items: seq<Item>): seq<string> {
    seq(|items|, i requires 0 <= i < |items| => items[i].id)
  }

  /** One course of a batch: its answer is projected behind the items of the courses before it. */
  method ReadCourse(data: Catalog, courses: seq<Course>, answers: seq<Result<Body, int>>, i: nat, items: seq<Item>)
    returns (r: Result<seq<Item>, int>)
    requires |answers| == |courses| && i < |courses|
    requires AllOk(data, courses[..i], answers[..i]) && items == Sequential(data, courses[..i], answers[..i])
    ensures r.Ok? ==> AllOk(data, courses[..i + 1], answers[..i + 1]) && r.value == Sequential(data, courses[..i + 1], answers[..i + 1])
    ensures r.Err? ==> CourseItems(data, courses[i], answers[i]) == Err(r.error)
  {
    if answers[i].Err? {
      return Err(answers[i].error);
    }
    var one := TeacherDeadlines(data, courses[i], answers[i].value);
    if one.Err? {
      return one;
    }
    AllOkGrows(data, courses, answers, i);
    SequentialStep(data, courses, answers, i);
    r := Ok(items + one.value);
  }

  /** One batch, as `Promise.all` over its courses: all results, or the error of one that failed. */
  method ReadBatch(data: Catalog, courses: seq<Course>, answers: seq<Result<Body, int>>, from: nat, to: nat, items: seq<Item>)
    returns (r: Result<seq<Item>, int>)
    requires |answers| == |courses| && from <= to <= |courses|
    requires AllOk(data, courses[..from], answers[..from])
    requires items == Sequential(data, courses[..from], answers[..from])
    ensures r.Ok? ==> AllOk(data, courses[..to], answers[..to]) && r.value == Sequential(data, courses[..to], answers[..to])
    ensures r.Err? ==> exists i :: from <= i < to && CourseItems(data, courses[i], answers[i]) == Err(r.error)
  {
    var all := items;
    for i := from to to
      invariant AllOk(data, courses[..i], answers[..i]) && all == Sequential(data, courses[..i], answers[..i])
    {
      var one := ReadCourse(data, courses, answers, i, all);
      if one.Err? {
        return one;
      }
      all := one.value;
    }
    r := Ok(all);
  }

  /** The batched loop, in steps of four, yields exactly the sequential projection. */
  method ReadAll(data: Catalog, answers: seq<Result<Body, int>>) returns (r: Result<seq<Item>, int>)
    requires |answers| == |data.courses|
    ensures r.Ok? <==> AllOk(data, data.courses, answers)
    ensures r.Ok? ==> r.value == Sequential(data, data.courses, answers)
    ensures r.Err? ==> exists i :: 0 <= i < |answers| && CourseItems(data, data.courses[i], answers[i]) == Err(r.error)
  {
    var courses := data.courses;
    var items: seq<Item> := [];
    var index := 0;
    while index < |courses|
      invariant 0 <= index
      invariant var done := if index < |courses| then index else |courses|;
        AllOk(data, courses[..done], answers[..done]) && items == Sequential(data, courses[..done], answers[..done])
      decreases |courses| - index
    {
      var to := if index + BATCH < |courses| then index + BATCH else |courses|;
      var batch := ReadBatch(data, courses, answers, index, to, items);
      if batch.Err? {
        return batch;
      }
      items := batch.value;
      index := index + BATCH;
    }
    assert courses[..|courses|] == courses && answers[..|courses|] == answers;
    r := Ok(items);
  }

  /**
   * Whole-read correctness. The read succeeds exactly when it was not aborted, every course
   * succeeded and no item id repeats; then the result is a permutation of the sequential
   * projection, earliest due time first, with distinct ids and only course-class pairs of the catalog,
   * and lists exactly the latest rows of all courses that have a due time.
   */
  method ReadTeacherCalendar(data: Catalog, answers: seq<Result<Body, int>>, aborted: bool, le: (string, string) -> bool)
    returns (r: Result<seq<Item>, int>)
    requires |answers| == |data.courses| && TotalPreorder(le)
    ensures r.Ok? <==>
      && !aborted && AllOk(data, data.courses, answers)
      && NoDuplicates(ItemIds(Sequential(data, data.courses, answers)))
    ensures r.Ok? ==>
      && multiset(r.value) == multiset(Sequential(data, data.courses, answers))
      && InCalendarOrder(le, r.value) && NoDuplicates(ItemIds(r.value)) && FromCatalog(data, r.value)
      && CoversCourses(data, data.courses, answers, r.value)
    ensures r.Err? ==>
      || (r.error == 499 && aborted)
      || (r.error == 502 && AllOk(data, data.courses, answers) && !NoDuplicates(ItemIds(Sequential(data, data.courses, answers))))
      || (exists i :: 0 <= i < |answers| && CourseItems(data, data.courses[i], answers[i]) == Err(r.error))
  {
    var read := ReadAll(data, answers);
    if read.Err? {
      return read;
    }
    if aborted {
      return Err(499);
    }
    if HasDuplicate(ItemIds(read.value)) {
      return Err(502);
    }
    ByDueIsPreorder(le);
    SortSorts(ByDue(le), read.value);
    SequentialFromCatalog(data, data.courses, answers);
    PermutedCovers(data, data.courses, answers, Sort(ByDue(le), read.value));
    SortedIsCalendarOrder(le, Sort(ByDue(le), read.value));
    PermutedKeepsBoth(data, read.value, Sort(ByDue(le), read.value));
    r := Ok(Sort(ByDue(le), read.value));
  }

  lemma PermutedKeepsBoth(data: Catalog, a: seq<Item>, b: seq<Item>)
    requires multiset(a) == multiset(b) && NoDuplicates(ItemIds(a)) && FromCatalog(data, a)
    ensures NoDuplicates(ItemIds(b)) && FromCatalog(data, b)
  {
    forall i | 0 <= i < |b| ensures InCatalog(data, b[i].scope) {
      assert b[i] in multiset(a);
      var k :| 0 <= k < |a| && a[k] == b[i];
    }
    PermutedIdsDistinct(a, b);
  }

  lemma {:induction false} PermutedIdsDistinct(a: seq<Item>, b: seq<Item>)
    requires multiset(a) == multiset(b) && NoDuplicates(ItemIds(a))
    ensures NoDuplicates(ItemIds(b))
  {
    forall i, j | 0 <= i < j < |b| ensures ItemIds(b)[i] != ItemIds(b)[j] {
      assert b[i] in multiset(a) && b[j] in multiset(a);
      var k :| 0 <= k < |a| && a[k] == b[i];
      var l :| 0 <= l < |a| && a[l] == b[j];
      if b[i].id == b[j].id {
        assert ItemIds(a)[k] == ItemIds(a)[l];
        assert k == l;
        TwiceIn(b, i, j);
        OnceIn(a, k);
      }
    }
  }

  lemma TwiceIn(s: seq<Item>, i: nat, j: nat)
    requires i < j < |s| && s[i] == s[j]
    ensures multiset(s)[s[i]] >= 2
  {
    assert s == s[..i] + [s[i]] + s[i + 1..j] + [s[j]] + s[j + 1..];
  }

  lemma OnceIn(s: seq<Item>, k: nat)
    requires k < |s| && NoDuplicates(ItemIds(s))
    ensures multiset(s)[s[k]] == 1
  {
    assert s == s[..k] + [s[k]] + s[k + 1..];
    forall i | 0 <= i < |s| && i != k ensures s[i] != s[k] {
      assert ItemIds(s)[i] != ItemIds(s)[k];
    }
    assert s[k] !in s[..k] && s[k] !in s[k + 1..];
  }
}

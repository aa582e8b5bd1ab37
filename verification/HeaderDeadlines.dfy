/**
 * The header's course activity for teachers: the latest published version of every activity, and
 * the calendar over all courses, read in batches of four. The loops are methods; what they select
 * is said by functions on the whole list of rows, and the properties are proved about those.
 */
module HeaderDeadlines {
  import opened Prelude
  import opened HeaderCatalog

  /** A due time as the date library reads it: absent, rejected, or normalised. */
  datatype Due = NoDue | BadDue | DueAt(iso: string)

  datatype Title = Title(zh: Option<string>, en: Option<string>)

  datatype Row = Row(
    id: Option<string>,
    classId: Option<string>,
    version: Option<int>,
    activityKey: Option<string>,
    lessonKey: Option<string>,
    status: Option<string>,
    due: Due,
    title: Option<Title>)

  /** One course's answer; `activities` is `None` when it is not an array of objects. */
  datatype Body = Body(courseId: Option<string>, activities: Option<seq<Row>>)

  datatype Key = Key(classId: Option<string>, lessonKey: Option<string>, activityKey: Option<string>)

  datatype Item = Item(id: string, scope: Scope, activityId: string, version: int, zh: string, en: string, due: string)

  const MAX_SAFE_INTEGER := 0x1F_FFFF_FFFF_FFFF
  const BATCH := 4

  function KeyOf(row: Row): Key {
    Key(row.classId, row.lessonKey, row.activityKey)
  }

  function VersionOf(row: Row): int {
    if row.version.Some? then row.version.value else 0
  }

  predicate Published(row: Row) {
    row.status == Some("published")
  }

  /** Everything the loop checks of a row on its own. */
  predicate RowOk(data: Catalog, course: Course, row: Row) {
    && GoodId(row.classId) && row.version.Some? && 1 <= row.version.value <= MAX_SAFE_INTEGER
    && GoodId(row.activityKey) && GoodId(row.lessonKey)
    && ScopeOf(data, course.id, row.classId.value).Some?
    && row.status in {Some("draft"), Some("published"), Some("archived")}
    && row.due != BadDue
  }

  function IdOf(row: Row): string {
    if row.id.Some? then row.id.value else ""
  }

  function RowIds(rows: seq<Row>): seq<string> {
    seq(|rows|, i requires 0 <= i < |rows| => IdOf(rows[i]))
  }

  // ---------------------------------------------------------------- the selection, declaratively

  /** Among the published rows of its key, `row` is the only one of its version and no other is newer. */
  ghost predicate IsLatest(rows: seq<Row>, row: Row) {
    && row in rows && row.status == Some("published")
    && forall other :: other in rows && other.status == Some("published") && SameActivity(other, row) && other != row ==>
         VersionOf(other) < VersionOf(row)
  }

  /** Rows of one activity of one lesson of one class. */
  predicate SameActivity(a: Row, b: Row) {
    a.classId == b.classId && a.lessonKey == b.lessonKey && a.activityKey == b.activityKey
  }

  /** A row that is worth looking at: good ids, a safe positive version, a class of the course, a known status, no broken due time. */
  ghost predicate RowGiven(data: Catalog, course: Course, row: Row) {
    && row.classId.Some? && IdText(row.classId.value) && row.activityKey.Some? && IdText(row.activityKey.value)
    && row.lessonKey.Some? && IdText(row.lessonKey.value)
    && row.version.Some? && 1 <= row.version.value <= 9_007_199_254_740_991
    && HasCourse(data.courses, course.id) && HasClass(data.classes, row.classId.value, course.id)
    && (row.status == Some("draft") || row.status == Some("published") || row.status == Some("archived"))
    && (row.due == NoDue || row.due.DueAt?)
  }

  lemma RowOkIff(data: Catalog, course: Course, row: Row)
    ensures RowOk(data, course, row) <==> RowGiven(data, course, row)
  {
    if row.classId.Some? {
      IdTextIff(row.classId.value);
    }
    if row.activityKey.Some? {
      IdTextIff(row.activityKey.value);
    }
    if row.lessonKey.Some? {
      IdTextIff(row.lessonKey.value);
    }
  }

  /** A row repeats the version that is the greatest of its key among the rows before it. */
  ghost predicate MeetsItsEqual(rows: seq<Row>, j: nat)
    requires j < |rows|
  {
    && Published(rows[j])
    && (exists i :: 0 <= i < j && Published(rows[i]) && KeyOf(rows[i]) == KeyOf(rows[j]) && VersionOf(rows[i]) == VersionOf(rows[j]))
    && (forall i :: 0 <= i < j && Published(rows[i]) && KeyOf(rows[i]) == KeyOf(rows[j]) ==> VersionOf(rows[i]) <= VersionOf(rows[j]))
  }

  ghost predicate Clashes(rows: seq<Row>) {
    exists j :: 0 <= j < |rows| && MeetsItsEqual(rows, j)
  }

  // ---------------------------------------------------------------- the loop's state

  /** The map after a list of rows: a newer row replaces an older one of its key. */
  function Chosen(rows: seq<Row>): map<Key, Row> {
    if rows == [] then map[]
    else
      var before := Chosen(rows[..|rows| - 1]);
      var row := rows[|rows| - 1];
      if Published(row) && (KeyOf(row) !in before || VersionOf(before[KeyOf(row)]) < VersionOf(row))
      then before[KeyOf(row) := row] else before
  }

  /** The map's iteration order: a replaced key keeps its first position. */
  function Order(rows: seq<Row>): seq<Key> {
    if rows == [] then []
    else
      var before := Order(rows[..|rows| - 1]);
      var row := rows[|rows| - 1];
      if Published(row) && KeyOf(row) !in before then before + [KeyOf(row)] else before
  }

  lemma {:induction false} OrderIsKeys(rows: seq<Row>)
    ensures forall key :: key in Order(rows) <==> key in Chosen(rows)
    ensures NoDuplicates(Order(rows))
  {
    if rows != [] {
      OrderIsKeys(rows[..|rows| - 1]);
    }
  }

  /** The chosen row of a key is a published row of that key, and no other is newer. */
  lemma {:induction false} ChosenIsGreatest(rows: seq<Row>)
    ensures forall key :: key in Chosen(rows) ==>
      Chosen(rows)[key] in rows && Published(Chosen(rows)[key]) && KeyOf(Chosen(rows)[key]) == key
    ensures forall i :: 0 <= i < |rows| && Published(rows[i]) ==>
      KeyOf(rows[i]) in Chosen(rows) && VersionOf(rows[i]) <= VersionOf(Chosen(rows)[KeyOf(rows[i])])
  {
    if rows != [] {
      var front := rows[..|rows| - 1];
      ChosenIsGreatest(front);
      assert rows == front + [rows[|rows| - 1]];
      forall i | 0 <= i < |rows| && Published(rows[i])
        ensures KeyOf(rows[i]) in Chosen(rows) && VersionOf(rows[i]) <= VersionOf(Chosen(rows)[KeyOf(rows[i])])
      {
        if i < |front| {
          assert front[i] == rows[i];
        }
      }
    }
  }

  /** A row meets its equal exactly when the map holds its version at that moment. */
  lemma MeetsIff(rows: seq<Row>, j: nat)
    requires j < |rows| && Published(rows[j])
    ensures MeetsItsEqual(rows, j) <==>
      KeyOf(rows[j]) in Chosen(rows[..j]) && VersionOf(Chosen(rows[..j])[KeyOf(rows[j])]) == VersionOf(rows[j])
  {
    var before := rows[..j];
    var key := KeyOf(rows[j]);
    ChosenIsGreatest(before);
    assert forall i :: 0 <= i < j ==> before[i] == rows[i];
    if key in Chosen(before) {
      var i :| 0 <= i < |before| && before[i] == Chosen(before)[key];
      assert rows[i] == before[i];
    }
  }

  /** The latest-version guarantee: without a clash, each key keeps its strictly greatest published row. */
  lemma {:induction false} ChosenIsLatest(rows: seq<Row>)
    requires !Clashes(rows)
    ensures forall key :: key in Chosen(rows) ==> KeyOf(Chosen(rows)[key]) == key && IsLatest(rows, Chosen(rows)[key])
    ensures forall row :: row in rows && Published(row) ==> KeyOf(row) in Chosen(rows)
  {
    ChosenIsGreatest(rows);
    if rows != [] {
      var n := |rows| - 1;
      var front := rows[..n];
      FrontHasNoClash(rows);
      ChosenIsLatest(front);
      assert rows == front + [rows[n]];
      if Published(rows[n]) {
        MeetsIff(rows, n);
      }
      ChosenIsGreatest(front);
      forall key | key in Chosen(rows) ensures IsLatest(rows, Chosen(rows)[key]) {
        LatestAfterOne(front, rows[n], key);
      }
    }
  }

  lemma FrontHasNoClash(rows: seq<Row>)
    requires rows != [] && !Clashes(rows)
    ensures !Clashes(rows[..|rows| - 1])
  {
    var front := rows[..|rows| - 1];
    forall j | 0 <= j < |front| ensures !MeetsItsEqual(front, j) {
      assert !MeetsItsEqual(rows, j);
      assert forall i :: 0 <= i <= j ==> front[i] == rows[i];
    }
  }

  lemma LatestAfterOne(front: seq<Row>, row: Row, key: Key)
    requires forall k :: k in Chosen(front) ==> KeyOf(Chosen(front)[k]) == k && IsLatest(front, Chosen(front)[k])
    requires forall other :: other in front && Published(other) ==> KeyOf(other) in Chosen(front)
    requires Published(row) && KeyOf(row) in Chosen(front) ==> VersionOf(Chosen(front)[KeyOf(row)]) != VersionOf(row)
    requires key in Chosen(front + [row])
    ensures IsLatest(front + [row], Chosen(front + [row])[key])
  {
    var rows := front + [row];
    assert rows[..|rows| - 1] == front;
    assert forall other :: other in rows <==> other in front || other == row;
  }

  lemma LatestIsUnique(rows: seq<Row>, a: Row, b: Row)
    requires IsLatest(rows, a) && IsLatest(rows, b) && KeyOf(a) == KeyOf(b)
    ensures a == b
  {
  }

  lemma SelectedInBoth(a: seq<Row>, b: seq<Row>, key: Key)
    requires multiset(a) == multiset(b) && !Clashes(a) && !Clashes(b) && key in Chosen(a)
    ensures key in Chosen(b) && Chosen(a)[key] == Chosen(b)[key]
  {
    ChosenIsLatest(a);
    ChosenIsLatest(b);
    SameMembers(a, b);
    assert Chosen(a)[key] in b;
    LatestIsUnique(a, Chosen(a)[key], Chosen(b)[key]);
  }

  /** Order independence: two orders of the same rows that both pass select the same rows. */
  lemma SelectionIgnoresOrder(a: seq<Row>, b: seq<Row>)
    requires multiset(a) == multiset(b) && !Clashes(a) && !Clashes(b)
    ensures Chosen(a) == Chosen(b)
  {
    forall key | key in Chosen(a) ensures key in Chosen(b) && Chosen(a)[key] == Chosen(b)[key] {
      SelectedInBoth(a, b, key);
    }
    forall key | key in Chosen(b) ensures key in Chosen(a) {
      SelectedInBoth(b, a, key);
    }
  }

  lemma SameMembers(a: seq<Row>, b: seq<Row>)
    requires multiset(a) == multiset(b)
    ensures forall row :: row in a <==> row in b
  {
    forall row ensures row in a <==> row in b {
      assert row in a <==> row in multiset(a);
      assert row in b <==> row in multiset(b);
    }
  }

  /** A repeated greatest version fails in every order; a repeated lower one may pass. */
  lemma RepeatedGreatestClashes(rows: seq<Row>, i: nat, j: nat)
    requires i < j < |rows| && Published(rows[i]) && Published(rows[j])
    requires KeyOf(rows[i]) == KeyOf(rows[j]) && VersionOf(rows[i]) == VersionOf(rows[j])
    requires forall k :: 0 <= k < |rows| && Published(rows[k]) && KeyOf(rows[k]) == KeyOf(rows[i]) ==> VersionOf(rows[k]) <= VersionOf(rows[i])
    ensures Clashes(rows)
  {
    assert MeetsItsEqual(rows, j);
  }

  /** The two orders of one multiset of rows: versions 1, 1, 2 clash and 1, 2, 1 do not. */
  lemma RepeatedLowerDependsOnOrder() returns (a: seq<Row>, b: seq<Row>)
    ensures multiset(a) == multiset(b) && Clashes(a) && !Clashes(b)
  {
    var x := Row(Some("x"), Some("c"), Some(1), Some("k"), Some("l"), Some("published"), NoDue, None);
    var y := x.(id := Some("y"));
    var z := x.(id := Some("z"), version := Some(2));
    a := [x, y, z];
    b := [x, z, y];
    assert multiset(a) == multiset{x, y, z} == multiset(b);
    assert KeyOf(a[0]) == KeyOf(a[1]) && VersionOf(a[0]) == VersionOf(a[1]) && Published(a[0]);
    assert MeetsItsEqual(a, 1);
    assert !MeetsItsEqual(b, 0) && !MeetsItsEqual(b, 1);
    assert !MeetsItsEqual(b, 2) by {
      assert VersionOf(b[1]) > VersionOf(b[2]);
    }
    assert !Clashes(b);
  }

  // ---------------------------------------------------------------- the answer of one course

  predicate Sound(data: Catalog, course: Course, row: Row) {
    GoodId(row.id) && RowOk(data, course, row)
  }

  predicate TitleOk(row: Row) {
    row.due.DueAt? ==> row.title.Some? && GoodText(row.title.value.zh) && GoodText(row.title.value.en)
  }

  /** All guards of `teacherDeadlines` after the course id. */
  ghost predicate Acceptable(data: Catalog, course: Course, rows: seq<Row>) {
    && (forall i :: 0 <= i < |rows| ==> Sound(data, course, rows[i]))
    && NoDuplicates(RowIds(rows)) && !Clashes(rows)
    && (forall key :: key in Chosen(rows) ==> TitleOk(Chosen(rows)[key]))
  }

  predicate Printable(data: Catalog, course: Course, row: Row) {
    Sound(data, course, row) && TitleOk(row)
  }

  function ItemOf(data: Catalog, course: Course, row: Row): Item
    requires Printable(data, course, row) && row.due.DueAt?
  {
    Item("deadline:" + row.id.value, ScopeOf(data, course.id, row.classId.value).value, row.id.value, row.version.value,
         row.title.value.zh.value, row.title.value.en.value, row.due.iso)
  }

  /** The items of the chosen rows that have a due time, in map order. */
  function ItemsOf(data: Catalog, course: Course, chosen: map<Key, Row>, order: seq<Key>): seq<Item>
    requires forall i :: 0 <= i < |order| ==> order[i] in chosen && Printable(data, course, chosen[order[i]])
  {
    if order == [] then []
    else
      var front := ItemsOf(data, course, chosen, order[..|order| - 1]);
      var row := chosen[order[|order| - 1]];
      if row.due.DueAt? then front + [ItemOf(data, course, row)] else front
  }

  // ---------------------------------------------------------------- the items, field by field

  /** The item shows this row of the course. */
  ghost predicate Shows(data: Catalog, course: Course, row: Row, item: Item) {
    && row.id == Some(item.activityId) && item.id == "deadline:" + item.activityId && row.version == Some(item.version)
    && row.title == Some(Title(Some(item.zh), Some(item.en))) && row.due == DueAt(item.due)
    && item.scope.courseId == course.id && row.classId == Some(item.scope.classId) && InCatalog(data, item.scope)
  }

  ghost predicate ShowsAll(data: Catalog, course: Course, rows: seq<Row>, items: seq<Item>) {
    |rows| == |items| && forall k :: 0 <= k < |items| ==> Shows(data, course, rows[k], items[k])
  }

  /** The chosen rows that have a due time, in map order. */
  function DueRows(chosen: map<Key, Row>, order: seq<Key>): seq<Row>
    requires forall i :: 0 <= i < |order| ==> order[i] in chosen
  {
    if order == [] then []
    else
      var front := DueRows(chosen, order[..|order| - 1]);
      var row := chosen[order[|order| - 1]];
      if row.due.DueAt? then front + [row] else front
  }

  /** The first published row of the key. */
  ghost predicate FirstAt(rows: seq<Row>, key: Key, i: nat) {
    && i < |rows| && Published(rows[i]) && KeyOf(rows[i]) == key
    && forall h :: 0 <= h < i && Published(rows[h]) ==> KeyOf(rows[h]) != key
  }

  /** Key `a` was published in an earlier row than key `b`. */
  ghost predicate Precedes(rows: seq<Row>, a: Key, b: Key) {
    exists i: nat, j: nat :: FirstAt(rows, a, i) && FirstAt(rows, b, j) && i < j
  }

  /** Exactly the latest rows that have a due time, each once, in the order in which their keys first appear. */
  ghost predicate ListsLatest(rows: seq<Row>, latest: seq<Row>) {
    && (forall row :: row in latest <==> IsLatest(rows, row) && row.due.DueAt?)
    && (forall j, k :: 0 <= j < k < |latest| ==> latest[j] != latest[k] && Precedes(rows, KeyOf(latest[j]), KeyOf(latest[k])))
  }

  lemma FirstAtGrows(rows: seq<Row>, key: Key, i: nat)
    requires rows != [] && FirstAt(rows[..|rows| - 1], key, i)
    ensures FirstAt(rows, key, i)
  {
    assert forall h :: 0 <= h <= i ==> rows[..|rows| - 1][h] == rows[h];
  }

  lemma {:induction false} OrderHasFirst(rows: seq<Row>, key: Key) returns (i: nat)
    requires key in Order(rows)
    ensures FirstAt(rows, key, i)
  {
    var front := rows[..|rows| - 1];
    if key in Order(front) {
      i := OrderHasFirst(front, key);
      FirstAtGrows(rows, key, i);
    } else {
      i := |rows| - 1;
      NotYetPublished(front, key);
      assert forall h :: 0 <= h < i ==> front[h] == rows[h];
    }
  }

  lemma NotYetPublished(rows: seq<Row>, key: Key)
    requires key !in Order(rows)
    ensures forall h :: 0 <= h < |rows| && Published(rows[h]) ==> KeyOf(rows[h]) != key
  {
    OrderIsKeys(rows);
    ChosenIsGreatest(rows);
  }

  /** The map's order is the order of first appearance. */
  lemma {:induction false} OrderPrecedes(rows: seq<Row>, i: nat, j: nat)
    requires i < j < |Order(rows)|
    ensures Precedes(rows, Order(rows)[i], Order(rows)[j])
  {
    var front := rows[..|rows| - 1];
    if j < |Order(front)| {
      OrderPrecedes(front, i, j);
      var x: nat, y: nat :| FirstAt(front, Order(front)[i], x) && FirstAt(front, Order(front)[j], y) && x < y;
      FirstAtGrows(rows, Order(front)[i], x);
      FirstAtGrows(rows, Order(front)[j], y);
    } else {
      assert Order(rows)[i] in Order(front);
      var x := OrderHasFirst(front, Order(rows)[i]);
      FirstAtGrows(rows, Order(rows)[i], x);
      assert Order(rows)[j] == KeyOf(rows[|rows| - 1]);
      NotYetPublished(front, Order(rows)[j]);
      assert forall h :: 0 <= h < |front| ==> front[h] == rows[h];
      assert FirstAt(rows, Order(rows)[j], |rows| - 1);
    }
  }

  /** Position `k` of the due rows is a position of the order, and later ones come from later ones. */
  lemma {:induction false} DueRowAt(chosen: map<Key, Row>, order: seq<Key>, k: nat) returns (i: nat)
    requires (forall h :: 0 <= h < |order| ==> order[h] in chosen) && k < |DueRows(chosen, order)|
    ensures i < |order| && DueRows(chosen, order)[k] == chosen[order[i]] && chosen[order[i]].due.DueAt?
    ensures k == |DueRows(chosen, order[..i])|
  {
    var n := |order| - 1;
    if k < |DueRows(chosen, order[..n])| {
      i := DueRowAt(chosen, order[..n], k);
      assert order[..n][..i] == order[..i];
    } else {
      i := n;
    }
  }

  lemma {:induction false} DueRowsGrow(chosen: map<Key, Row>, order: seq<Key>, i: nat, j: nat)
    requires (forall h :: 0 <= h < |order| ==> order[h] in chosen) && i <= j <= |order|
    ensures |DueRows(chosen, order[..i])| <= |DueRows(chosen, order[..j])|
  {
    if i < j {
      DueRowsGrow(chosen, order, i, j - 1);
      assert order[..j][..j - 1] == order[..j - 1];
    }
  }

  lemma {:induction false} DueRowsHas(chosen: map<Key, Row>, order: seq<Key>, i: nat)
    requires (forall h :: 0 <= h < |order| ==> order[h] in chosen) && i < |order| && chosen[order[i]].due.DueAt?
    ensures chosen[order[i]] in DueRows(chosen, order)
  {
    var n := |order| - 1;
    if i < n {
      DueRowsHas(chosen, order[..n], i);
    }
  }

  lemma DueRowsPrecede(rows: seq<Row>, j: nat, k: nat)
    requires (forall i :: 0 <= i < |Order(rows)| ==> Order(rows)[i] in Chosen(rows)) && j < k < |DueRows(Chosen(rows), Order(rows))|
    ensures var latest := DueRows(Chosen(rows), Order(rows));
      latest[j] != latest[k] && Precedes(rows, KeyOf(latest[j]), KeyOf(latest[k]))
  {
    var x := DueRowAt(Chosen(rows), Order(rows), j);
    var y := DueRowAt(Chosen(rows), Order(rows), k);
    if y < x {
      DueRowsGrow(Chosen(rows), Order(rows), y, x);
    }
    ChosenIsGreatest(rows);
    OrderIsKeys(rows);
    OrderPrecedes(rows, x, y);
  }

  /** Without a clash, the due rows of the map are the latest rows that have a due time. */
  lemma DueRowsAreLatest(rows: seq<Row>)
    requires !Clashes(rows)
    ensures forall i :: 0 <= i < |Order(rows)| ==> Order(rows)[i] in Chosen(rows)
    ensures ListsLatest(rows, DueRows(Chosen(rows), Order(rows)))
  {
    OrderIsKeys(rows);
    ChosenIsLatest(rows);
    assert forall i :: 0 <= i < |Order(rows)| ==> Order(rows)[i] in Order(rows);
    var latest := DueRows(Chosen(rows), Order(rows));
    forall row ensures row in latest <==> IsLatest(rows, row) && row.due.DueAt? {
      DueRowIff(rows, row);
    }
    forall j, k | 0 <= j < k < |latest| ensures latest[j] != latest[k] && Precedes(rows, KeyOf(latest[j]), KeyOf(latest[k])) {
      DueRowsPrecede(rows, j, k);
    }
  }

  lemma DueRowIff(rows: seq<Row>, row: Row)
    requires !Clashes(rows) && forall i :: 0 <= i < |Order(rows)| ==> Order(rows)[i] in Chosen(rows)
    ensures row in DueRows(Chosen(rows), Order(rows)) <==> IsLatest(rows, row) && row.due.DueAt?
  {
    OrderIsKeys(rows);
    ChosenIsLatest(rows);
    var latest := DueRows(Chosen(rows), Order(rows));
    if row in latest {
      var k :| 0 <= k < |latest| && latest[k] == row;
      var i := DueRowAt(Chosen(rows), Order(rows), k);
    }
    if IsLatest(rows, row) && row.due.DueAt? {
      LatestIsUnique(rows, row, Chosen(rows)[KeyOf(row)]);
      var i :| 0 <= i < |Order(rows)| && Order(rows)[i] == KeyOf(row);
      DueRowsHas(Chosen(rows), Order(rows), i);
    }
  }

  lemma {:induction false} ItemsShow(data: Catalog, course: Course, chosen: map<Key, Row>, order: seq<Key>)
    requires forall i :: 0 <= i < |order| ==> order[i] in chosen && Printable(data, course, chosen[order[i]])
    ensures ShowsAll(data, course, DueRows(chosen, order), ItemsOf(data, course, chosen, order))
  {
    if order != [] {
      ItemsShow(data, course, chosen, order[..|order| - 1]);
      var row := chosen[order[|order| - 1]];
      if row.due.DueAt? {
        ScopeIsInCatalog(data, course.id, row.classId.value);
      }
    }
  }

  /** The items are those of the latest rows that have a due time. */
  ghost predicate Projects(data: Catalog, course: Course, rows: seq<Row>, items: seq<Item>) {
    exists latest :: ListsLatest(rows, latest) && ShowsAll(data, course, latest, items)
  }

  lemma DeadlinesProject(data: Catalog, course: Course, body: Body)
    requires Deadlines(data, course, body).Ok?
    ensures Projects(data, course, body.activities.value, Deadlines(data, course, body).value)
  {
    var rows := body.activities.value;
    AcceptableIsPrintable(data, course, rows);
    DueRowsAreLatest(rows);
    ItemsShow(data, course, Chosen(rows), Order(rows));
  }

  lemma AcceptableIsPrintable(data: Catalog, course: Course, rows: seq<Row>)
    requires Acceptable(data, course, rows)
    ensures forall i :: 0 <= i < |Order(rows)| ==>
      Order(rows)[i] in Chosen(rows) && Printable(data, course, Chosen(rows)[Order(rows)[i]])
  {
    OrderIsKeys(rows);
    ChosenIsGreatest(rows);
    forall i | 0 <= i < |Order(rows)|
      ensures Order(rows)[i] in Chosen(rows) && Printable(data, course, Chosen(rows)[Order(rows)[i]])
    {
      var row := Chosen(rows)[Order(rows)[i]];
      var j :| 0 <= j < |rows| && rows[j] == row;
    }
  }

  /** The whole answer, as a function of the course's rows. */
  ghost function Deadlines(data: Catalog, course: Course, body: Body): Result<seq<Item>, int> {
    if body.courseId != Some(course.id) then Err(409)
    else if body.activities == None || !Acceptable(data, course, body.activities.value) then Err(502)
    else
      AcceptableIsPrintable(data, course, body.activities.value);
      Ok(ItemsOf(data, course, Chosen(body.activities.value), Order(body.activities.value)))
  }

  lemma ChosenRowsAreSound(data: Catalog, course: Course, rows: seq<Row>)
    requires forall i :: 0 <= i < |rows| ==> Sound(data, course, rows[i])
    ensures forall i :: 0 <= i < |Order(rows)| ==>
      Order(rows)[i] in Chosen(rows) && Sound(data, course, Chosen(rows)[Order(rows)[i]])
    ensures forall key :: key in Chosen(rows) ==> exists i :: 0 <= i < |Order(rows)| && Order(rows)[i] == key
  {
    OrderIsKeys(rows);
    ChosenIsGreatest(rows);
    forall i | 0 <= i < |Order(rows)| ensures Order(rows)[i] in Chosen(rows) && Sound(data, course, Chosen(rows)[Order(rows)[i]]) {
      assert Order(rows)[i] in Order(rows);
      var row := Chosen(rows)[Order(rows)[i]];
      var j :| 0 <= j < |rows| && rows[j] == row;
    }
    forall key | key in Chosen(rows) ensures exists i :: 0 <= i < |Order(rows)| && Order(rows)[i] == key {
      assert key in Order(rows);
    }
  }

  /** One round of the loop: a published row is put in unless it meets its equal. */
  method TakeRow(rows: seq<Row>, i: nat, selected: map<Key, Row>, order: seq<Key>)
    returns (ok: bool, nextSelected: map<Key, Row>, nextOrder: seq<Key>)
    requires i < |rows| && selected == Chosen(rows[..i]) && order == Order(rows[..i])
    ensures ok <==> !MeetsItsEqual(rows, i)
    ensures ok ==> nextSelected == Chosen(rows[..i + 1]) && nextOrder == Order(rows[..i + 1])
  {
    ok, nextSelected, nextOrder := true, selected, order;
    var row := rows[i];
    assert rows[..i + 1][..i] == rows[..i];
    if Published(row) {
      var key := KeyOf(row);
      MeetsIff(rows, i);
      OrderIsKeys(rows[..i]);
      if key in selected && VersionOf(selected[key]) == VersionOf(row) {
        ok := false;
      } else if key !in selected || VersionOf(selected[key]) < VersionOf(row) {
        if key !in selected {
          nextOrder := order + [key];
        }
        nextSelected := selected[key := row];
      }
    }
  }

  /** The loop of `teacherDeadlines`. It stops at the first row that fails a check or meets its equal. */
  method SelectLatest(data: Catalog, course: Course, rows: seq<Row>) returns (ok: bool, selected: map<Key, Row>, order: seq<Key>)
    ensures ok <==> (forall i :: 0 <= i < |rows| ==> RowOk(data, course, rows[i])) && !Clashes(rows)
    ensures ok ==> selected == Chosen(rows) && order == Order(rows)
  {
    selected, order := map[], [];
    for i := 0 to |rows|
      invariant selected == Chosen(rows[..i]) && order == Order(rows[..i])
      invariant forall k :: 0 <= k < i ==> RowOk(data, course, rows[k]) && !MeetsItsEqual(rows, k)
    {
      if !RowOk(data, course, rows[i]) {
        return false, selected, order;
      }
      ok, selected, order := TakeRow(rows, i, selected, order);
      if !ok {
        return;
      }
    }
    assert rows[..|rows|] == rows;
    ok := true;
  }

  /** Every row of an accepted answer is given in full, and the ids of its rows are good and distinct. */
  lemma AcceptedRows(data: Catalog, course: Course, body: Body, i: nat)
    requires Deadlines(data, course, body).Ok? && i < |body.activities.value|
    ensures var rows := body.activities.value;
      RowGiven(data, course, rows[i]) && rows[i].id.Some? && IdText(rows[i].id.value) && (forall j :: 0 <= j < |rows| && j != i ==> rows[j].id != rows[i].id)
  {
    var rows := body.activities.value;
    assert Sound(data, course, rows[i]);
    RowOkIff(data, course, rows[i]);
    IdTextIff(rows[i].id.value);
    forall j | 0 <= j < |rows| && j != i ensures rows[j].id != rows[i].id {
      assert Sound(data, course, rows[j]);
      assert RowIds(rows)[i] == rows[i].id.value && RowIds(rows)[j] == rows[j].id.value;
    }
  }

  method CheckIds(rows: seq<Row>) returns (ok: bool)
    ensures ok <==> (forall i :: 0 <= i < |rows| ==> GoodId(rows[i].id)) && NoDuplicates(RowIds(rows))
  {
    for i := 0 to |rows|
      invariant forall k :: 0 <= k < i ==> GoodId(rows[k].id)
    {
      if !GoodId(rows[i].id) {
        return false;
      }
    }
    ok := !HasDuplicate(RowIds(rows));
  }

  lemma AnswerProjects(data: Catalog, course: Course, body: Body, r: Result<seq<Item>, int>)
    requires body.activities.Some? && (r.Ok? ==> r == Deadlines(data, course, body))
    ensures r.Ok? ==> Projects(data, course, body.activities.value, r.value)
  {
    if r.Ok? {
      DeadlinesProject(data, course, body);
    }
  }

  method TeacherDeadlines(data: Catalog, course: Course, body: Body) returns (r: Result<seq<Item>, int>)
    ensures r == Err(409) <==> body.courseId != Some(course.id)
    ensures r.Ok? <==> body.courseId == Some(course.id) && body.activities.Some? && Acceptable(data, course, body.activities.value)
    ensures r.Err? ==> r.error == 409 || r.error == 502
    ensures r.Ok? ==> Projects(data, course, body.activities.value, r.value)
    ensures r == Deadlines(data, course, body)
  {
    if body.courseId != Some(course.id) {
      return Err(409);
    }
    if body.activities == None {
      return Err(502);
    }
    var rows := body.activities.value;
    var ids := CheckIds(rows);
    if !ids {
      return Err(502);
    }
    var ok, selected, order := SelectLatest(data, course, rows);
    if !ok {
      return Err(502);
    }
    assert forall i :: 0 <= i < |rows| ==> Sound(data, course, rows[i]);
    ChosenRowsAreSound(data, course, rows);
    r := CollectItems(data, course, selected, order);
    assert r.Ok? ==> forall key :: key in Chosen(rows) ==> TitleOk(Chosen(rows)[key]);
    AnswerProjects(data, course, body, r);
  }

  lemma ItemsStep(data: Catalog, course: Course, chosen: map<Key, Row>, order: seq<Key>, i: nat)
    requires i < |order| && forall k :: 0 <= k <= i ==> order[k] in chosen && Printable(data, course, chosen[order[k]])
    ensures ItemsOf(data, course, chosen, order[..i + 1]) ==
      ItemsOf(data, course, chosen, order[..i]) +
      (if chosen[order[i]].due.DueAt? then [ItemOf(data, course, chosen[order[i]])] else [])
  {
    assert order[..i + 1][..i] == order[..i];
  }

  /** The final `flatMap`: a chosen row with a due time needs both titles. */
  method CollectItems(data: Catalog, course: Course, selected: map<Key, Row>, order: seq<Key>) returns (r: Result<seq<Item>, int>)
    requires forall i :: 0 <= i < |order| ==> order[i] in selected && Sound(data, course, selected[order[i]])
    ensures r.Err? ==> r.error == 502 && exists i :: 0 <= i < |order| && !TitleOk(selected[order[i]])
    ensures r.Ok? ==>
      (forall i :: 0 <= i < |order| ==> Printable(data, course, selected[order[i]])) && r.value == ItemsOf(data, course, selected, order)
    ensures r.Ok? ==> ShowsAll(data, course, DueRows(selected, order), r.value)
  {
    var items := [];
    for i := 0 to |order|
      invariant forall k :: 0 <= k < i ==> Printable(data, course, selected[order[k]])
      invariant items == ItemsOf(data, course, selected, order[..i])
    {
      var row := selected[order[i]];
      if !TitleOk(row) {
        return Err(502);
      }
      ItemsStep(data, course, selected, order, i);
      if row.due.DueAt? {
        items := items + [ItemOf(data, course, row)];
      }
    }
    assert order[..|order|] == order;
    ItemsShow(data, course, selected, order);
    r := Ok(items);
  }
}

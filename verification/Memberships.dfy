/**
 * The student's class list: a join of three untrusted lists through two maps, and the plain scan
 * it must agree with.
 */
module Memberships {
  import opened Prelude
  import opened JsText

  datatype CourseRow = CourseRow(courseId: Option<string>, courseName: Option<string>, semester: Option<string>)
  datatype ClassRow = ClassRow(classId: Option<string>, courseId: Option<string>, className: Option<string>, semester: Option<string>)
  datatype MembershipRow = MembershipRow(membershipId: Option<string>, classId: Option<string>, status: Option<string>)

  datatype Status = Approved | PendingReview | Rejected | Removed

  datatype Item = Item(
    id: string, courseId: string, classId: string, courseName: string, className: string, semester: string, status: Status)

  datatype Course = Course(name: string, semester: string)
  datatype Class = Class(courseId: string, name: string, semester: string)

  /** `value?.trim()`, with absent and blank alike. */
  function Clean(value: Option<string>): string {
    if value.Some? then Trim(value.value) else ""
  }

  function ReadStatus(value: Option<string>): Status {
    if value == Some("approved") then Approved
    else if value == Some("rejected") then Rejected
    else if value == Some("removed") then Removed
    else PendingReview
  }

  function MakeItem(row: MembershipRow, c: Class, course: Course): Item {
    Item(Clean(row.membershipId), c.courseId, Clean(row.classId), course.name, c.name,
         if c.semester != "" then c.semester else course.semester, ReadStatus(row.status))
  }

  // ---------------------------------------------------------------- through maps

  /** What a row contributes to the map: nothing unless its fields are present and not blank. */
  function CourseEntry(row: CourseRow): Option<(string, Course)> {
    var id, name := Clean(row.courseId), Clean(row.courseName);
    if id == "" || name == "" then None else Some((id, Course(name, Clean(row.semester))))
  }

  function ClassEntry(row: ClassRow): Option<(string, Class)> {
    var id, courseId, name := Clean(row.classId), Clean(row.courseId), Clean(row.className);
    if id == "" || courseId == "" || name == "" then None else Some((id, Class(courseId, name, Clean(row.semester))))
  }

  function CourseEntries(rows: seq<CourseRow>): seq<Option<(string, Course)>> {
    seq(|rows|, i requires 0 <= i < |rows| => CourseEntry(rows[i]))
  }

  function ClassEntries(rows: seq<ClassRow>): seq<Option<(string, Class)>> {
    seq(|rows|, i requires 0 <= i < |rows| => ClassEntry(rows[i]))
  }

  /** `new Map(entries.filter(Boolean))`: a later entry replaces an earlier one. */
  function MapOf<V>(entries: seq<Option<(string, V)>>): map<string, V> {
    if entries == [] then map[]
    else
      var before := MapOf(entries[..|entries| - 1]);
      var last := entries[|entries| - 1];
      if last.Some? then before[last.value.0 := last.value.1] else before
  }

  function Joined(row: MembershipRow, classes: map<string, Class>, courses: map<string, Course>): Option<Item> {
    if Clean(row.membershipId) == "" || Clean(row.classId) == "" then None
    else if Clean(row.classId) !in classes then None
    else
      var c := classes[Clean(row.classId)];
      if c.courseId !in courses then None else Some(MakeItem(row, c, courses[c.courseId]))
  }

  /** `rows.map(look).filter(Boolean)`. */
  function JoinAll(rows: seq<MembershipRow>, look: MembershipRow -> Option<Item>): seq<Item> {
    if rows == [] then []
    else
      var first := look(rows[0]);
      (if first.Some? then [first.value] else []) + JoinAll(rows[1..], look)
  }

  function Look(courses: seq<CourseRow>, classes: seq<ClassRow>): MembershipRow -> Option<Item> {
    var classesById, coursesById := MapOf(ClassEntries(classes)), MapOf(CourseEntries(courses));
    row => Joined(row, classesById, coursesById)
  }

  function CreateItems(courses: seq<CourseRow>, classes: seq<ClassRow>, memberships: seq<MembershipRow>): seq<Item> {
    JoinAll(memberships, Look(courses, classes))
  }

  // ---------------------------------------------------------------- by scanning

  /** The text is what the field holds without its outer white space. */
  ghost predicate IsTrimmed(field: Option<string>, text: string) {
    if field.Some? then text == Trim(field.value) else text == ""
  }

  /** A usable class row for this id: id, course id and name are all there and not blank. */
  ghost predicate NamesClass(row: ClassRow, id: string) {
    && id != "" && IsTrimmed(row.classId, id)
    && !IsTrimmed(row.courseId, "") && !IsTrimmed(row.className, "")
  }

  ghost predicate NamesCourse(row: CourseRow, id: string) {
    id != "" && IsTrimmed(row.courseId, id) && !IsTrimmed(row.courseName, "")
  }

  /** Row `i` is the last usable one for this id. */
  ghost predicate IsLastClass(rows: seq<ClassRow>, id: string, i: nat) {
    && i < |rows| && NamesClass(rows[i], id)
    && forall j :: i < j < |rows| ==> !NamesClass(rows[j], id)
  }

  ghost predicate IsLastCourse(rows: seq<CourseRow>, id: string, i: nat) {
    && i < |rows| && NamesCourse(rows[i], id)
    && forall j :: i < j < |rows| ==> !NamesCourse(rows[j], id)
  }

  /** Only the three named answers are taken as they are; anything else waits for the teacher. */
  ghost predicate StatusGiven(given: Option<string>, status: Status) {
    && (status == Approved <==> given == Some("approved"))
    && (status == Rejected <==> given == Some("rejected"))
    && (status == Removed <==> given == Some("removed"))
  }

  /** The item, field by field, of a membership row with its class row and its course row. */
  ghost predicate ShowsRows(row: MembershipRow, c: ClassRow, course: CourseRow, item: Item) {
    && IsTrimmed(row.membershipId, item.id) && IsTrimmed(row.classId, item.classId)
    && IsTrimmed(c.courseId, item.courseId) && IsTrimmed(c.className, item.className)
    && IsTrimmed(course.courseName, item.courseName)
    && (if IsTrimmed(c.semester, "") then IsTrimmed(course.semester, item.semester) else IsTrimmed(c.semester, item.semester))
    && StatusGiven(row.status, item.status)
  }

  ghost predicate ScansAt(row: MembershipRow, classes: seq<ClassRow>, courses: seq<CourseRow>, item: Item, i: nat, j: nat) {
    && IsLastClass(classes, item.classId, i) && IsLastCourse(courses, item.courseId, j)
    && ShowsRows(row, classes[i], courses[j], item)
  }

  /**
   * The item of one membership by looking through the lists: the last usable class row with its
   * trimmed class id, and the last usable course row with that class's trimmed course id.
   */
  ghost predicate Scans(row: MembershipRow, classes: seq<ClassRow>, courses: seq<CourseRow>, item: Item) {
    item.id != "" && exists i: nat, j: nat :: ScansAt(row, classes, courses, item, i, j)
  }

  ghost function ScanOf(courses: seq<CourseRow>, classes: seq<ClassRow>): (MembershipRow, Item) -> bool {
    (row: MembershipRow, item: Item) => Scans(row, classes, courses, item)
  }

  /** `items` lists, in order, the items of exactly those rows that have one. */
  ghost predicate IsScan(rows: seq<MembershipRow>, scans: (MembershipRow, Item) -> bool, items: seq<Item>) {
    if rows == [] then items == []
    else if exists item :: scans(rows[0], item) then
      items != [] && scans(rows[0], items[0]) && IsScan(rows[1..], scans, items[1..])
    else IsScan(rows[1..], scans, items)
  }

  /** Entry `i` is the last one with this id. */
  ghost predicate IsLast<V>(entries: seq<Option<(string, V)>>, id: string, i: nat) {
    && i < |entries| && entries[i].Some? && entries[i].value.0 == id
    && forall j :: i < j < |entries| && entries[j].Some? ==> entries[j].value.0 != id
  }

  /** The map holds the last entry of every id. */
  lemma {:induction false} MapOfIsLast<V>(entries: seq<Option<(string, V)>>, id: string) returns (i: nat)
    ensures id in MapOf(entries) ==> IsLast(entries, id, i) && MapOf(entries)[id] == entries[i].value.1
    ensures id !in MapOf(entries) ==> forall j :: 0 <= j < |entries| && entries[j].Some? ==> entries[j].value.0 != id
  {
    i := 0;
    if entries != [] {
      var n := |entries| - 1;
      var front := entries[..n];
      assert forall j :: 0 <= j < n ==> front[j] == entries[j];
      if entries[n].Some? && entries[n].value.0 == id {
        i := n;
      } else {
        i := MapOfIsLast(front, id);
      }
    }
  }

  lemma TrimmedIsClean(field: Option<string>, text: string)
    ensures IsTrimmed(field, text) <==> text == Clean(field)
  {
  }

  /** A row has an entry exactly if it is usable. */
  lemma EntryNames(row: ClassRow, id: string)
    ensures NamesClass(row, id) <==> ClassEntry(row).Some? && ClassEntry(row).value.0 == id
  {
  }

  lemma EntryNamesCourse(row: CourseRow, id: string)
    ensures NamesCourse(row, id) <==> CourseEntry(row).Some? && CourseEntry(row).value.0 == id
  {
  }

  /** The map's class of an id is its last usable row, and no map entry means no usable row. */
  lemma LastClass(rows: seq<ClassRow>, id: string) returns (i: nat)
    ensures if id in MapOf(ClassEntries(rows)) then
        IsLastClass(rows, id, i) && MapOf(ClassEntries(rows))[id] == Class(Clean(rows[i].courseId), Clean(rows[i].className), Clean(rows[i].semester))
      else forall j :: 0 <= j < |rows| ==> !NamesClass(rows[j], id)
  {
    var entries := ClassEntries(rows);
    i := MapOfIsLast(entries, id);
    forall j | 0 <= j < |rows| ensures NamesClass(rows[j], id) <==> entries[j].Some? && entries[j].value.0 == id {
      EntryNames(rows[j], id);
    }
  }

  lemma LastCourse(rows: seq<CourseRow>, id: string) returns (i: nat)
    ensures if id in MapOf(CourseEntries(rows)) then
        IsLastCourse(rows, id, i) && MapOf(CourseEntries(rows))[id] == Course(Clean(rows[i].courseName), Clean(rows[i].semester))
      else forall j :: 0 <= j < |rows| ==> !NamesCourse(rows[j], id)
  {
    var entries := CourseEntries(rows);
    i := MapOfIsLast(entries, id);
    forall j | 0 <= j < |rows| ensures NamesCourse(rows[j], id) <==> entries[j].Some? && entries[j].value.0 == id {
      EntryNamesCourse(rows[j], id);
    }
  }

  lemma LastClassIsUnique(rows: seq<ClassRow>, id: string, i: nat, k: nat)
    requires IsLastClass(rows, id, i) && IsLastClass(rows, id, k)
    ensures i == k
  {
  }

  lemma LastCourseIsUnique(rows: seq<CourseRow>, id: string, i: nat, k: nat)
    requires IsLastCourse(rows, id, i) && IsLastCourse(rows, id, k)
    ensures i == k
  {
  }

  /** The item made from the map entries of two rows shows those rows, and no other item does. */
  lemma MadeShows(row: MembershipRow, c: ClassRow, course: CourseRow, item: Item)
    ensures var made := MakeItem(row, Class(Clean(c.courseId), Clean(c.className), Clean(c.semester)), Course(Clean(course.courseName), Clean(course.semester)));
      item == made <==> ShowsRows(row, c, course, item)
  {
    TrimmedIsClean(c.semester, "");
  }

  lemma JoinedScans(row: MembershipRow, classes: seq<ClassRow>, courses: seq<CourseRow>, item: Item)
    requires Joined(row, MapOf(ClassEntries(classes)), MapOf(CourseEntries(courses))) == Some(item)
    ensures Scans(row, classes, courses, item)
  {
    var i := LastClass(classes, Clean(row.classId));
    var j := LastCourse(courses, Clean(classes[i].courseId));
    MadeShows(row, classes[i], courses[j], item);
    assert ScansAt(row, classes, courses, item, i, j);
  }

  lemma ScansJoined(row: MembershipRow, classes: seq<ClassRow>, courses: seq<CourseRow>, item: Item)
    requires Scans(row, classes, courses, item)
    ensures Joined(row, MapOf(ClassEntries(classes)), MapOf(CourseEntries(courses))) == Some(item)
  {
    var k: nat, l: nat :| ScansAt(row, classes, courses, item, k, l);
    var i := LastClass(classes, Clean(row.classId));
    LastClassIsUnique(classes, Clean(row.classId), i, k);
    var j := LastCourse(courses, Clean(classes[i].courseId));
    LastCourseIsUnique(courses, Clean(classes[i].courseId), j, l);
    MadeShows(row, classes[i], courses[j], item);
  }

  /** The lookup finds, for every row, exactly what the scan finds. */
  ghost predicate Agrees(look: MembershipRow -> Option<Item>, scans: (MembershipRow, Item) -> bool) {
    forall row, item :: look(row) == Some(item) <==> scans(row, item)
  }

  /** One membership: the map lookup finds an item exactly when the scan does, and the same one. */
  lemma LookupAgrees(courses: seq<CourseRow>, classes: seq<ClassRow>)
    ensures Agrees(Look(courses, classes), ScanOf(courses, classes))
  {
    forall row, item ensures Look(courses, classes)(row) == Some(item) <==> ScanOf(courses, classes)(row, item) {
      if Look(courses, classes)(row) == Some(item) {
        JoinedScans(row, classes, courses, item);
      }
      if Scans(row, classes, courses, item) {
        ScansJoined(row, classes, courses, item);
      }
    }
  }

  lemma {:induction false} JoinAllIff(rows: seq<MembershipRow>, look: MembershipRow -> Option<Item>,
          scans: (MembershipRow, Item) -> bool, items: seq<Item>)
    requires Agrees(look, scans)
    ensures items == JoinAll(rows, look) <==> IsScan(rows, scans, items)
  {
    if rows != [] {
      var first := look(rows[0]);
      if first.Some? {
        assert scans(rows[0], first.value);
        if items != [] {
          JoinAllIff(rows[1..], look, scans, items[1..]);
          assert scans(rows[0], items[0]) <==> first == Some(items[0]);
          assert items == [items[0]] + items[1..];
        }
      } else {
        assert forall item :: !scans(rows[0], item);
        JoinAllIff(rows[1..], look, scans, items);
      }
    }
  }

  /**
   * The indexed join is the scan: for every answer, its items are the one list that has, in
   * membership order, the scanned item of every membership that has one.
   */
  lemma CreateItemsIff(courses: seq<CourseRow>, classes: seq<ClassRow>, memberships: seq<MembershipRow>, items: seq<Item>)
    ensures items == CreateItems(courses, classes, memberships) <==> IsScan(memberships, ScanOf(courses, classes), items)
  {
    LookupAgrees(courses, classes);
    JoinAllIff(memberships, Look(courses, classes), ScanOf(courses, classes), items);
  }

  lemma {:induction false} ItemHasRow(rows: seq<MembershipRow>, look: MembershipRow -> Option<Item>, k: nat)
    requires k < |JoinAll(rows, look)|
    ensures exists i :: 0 <= i < |rows| && look(rows[i]) == Some(JoinAll(rows, look)[k])
  {
    var first := look(rows[0]);
    if !(first.Some? && k == 0) {
      var n := if first.Some? then k - 1 else k;
      ItemHasRow(rows[1..], look, n);
      var i :| 0 <= i < |rows[1..]| && look(rows[1..][i]) == Some(JoinAll(rows[1..], look)[n]);
      assert rows[i + 1] == rows[1..][i];
    }
  }

  /** Every item comes from a membership row, and is approved exactly when that row says "approved". */
  lemma ApprovedIsGiven(courses: seq<CourseRow>, classes: seq<ClassRow>, memberships: seq<MembershipRow>, k: nat)
    requires k < |CreateItems(courses, classes, memberships)|
    ensures var item := CreateItems(courses, classes, memberships)[k];
      exists i :: 0 <= i < |memberships| && Scans(memberships[i], classes, courses, item) &&
                  (item.status == Approved <==> memberships[i].status == Some("approved"))
  {
    ItemHasRow(memberships, Look(courses, classes), k);
    var item := CreateItems(courses, classes, memberships)[k];
    var i :| 0 <= i < |memberships| && Look(courses, classes)(memberships[i]) == Some(item);
    StatusIsTheRows(memberships[i], MapOf(ClassEntries(classes)), MapOf(CourseEntries(courses)), item);
    JoinedScans(memberships[i], classes, courses, item);
  }

  lemma StatusIsTheRows(row: MembershipRow, classes: map<string, Class>, courses: map<string, Course>, item: Item)
    requires Joined(row, classes, courses) == Some(item)
    ensures item.status == Approved <==> row.status == Some("approved")
  {
  }
}

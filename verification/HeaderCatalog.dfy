/**
 * The header's course activity, first part: validating the catalog answer, the approval counts a
 * teacher sees, and the check that a student's dashboard covers exactly the approved memberships.
 * Untrusted rows carry `None` where a field is missing or has the wrong type; numbers in `Err`
 * are the statuses of the thrown errors.
 */
module HeaderCatalog {
  import opened Prelude
  import opened JsText

  datatype Role = Teacher | Student

  datatype Course = Course(id: string, name: string)
  datatype ClassItem = ClassItem(id: string, courseId: string, name: string)
  datatype MemberStatus = Pending | Approved | Rejected | Removed
  datatype Membership = Membership(id: string, courseId: string, classId: string, status: MemberStatus)
  datatype Catalog = Catalog(courses: seq<Course>, classes: seq<ClassItem>, memberships: seq<Membership>)

  datatype RawCourse = RawCourse(id: Option<string>, name: Option<string>, owner: Option<string>)
  datatype RawClass = RawClass(id: Option<string>, courseId: Option<string>, name: Option<string>, owner: Option<string>)
  datatype RawMembership = RawMembership(id: Option<string>, courseId: Option<string>, classId: Option<string>, status: Option<string>)
  datatype Receipt = Receipt(actorId: Option<string>, status: Option<string>, action: Option<string>)

  /** A list is `None` when it is not an array of objects. */
  datatype RawCatalog = RawCatalog(
    receipt: Option<Receipt>,
    courses: Option<seq<RawCourse>>,
    classes: Option<seq<RawClass>>,
    memberships: Option<seq<RawMembership>>)

  /** The signed-in user, with the comparison of actor ids that their role uses. */
  datatype User = User(role: Role, account: string, same: (string, string) -> bool)

  predicate IsIdChar(c: char) {
    IsNameChar(c) || c == ':'
  }

  predicate ValidId(s: string) {
    1 <= |s| <= 200 && IsLetterOrDigit(s[0]) && forall i :: 1 <= i < |s| ==> IsIdChar(s[i])
  }

  /** The ids the header accepts: up to 200 letters, digits and `._:-`, beginning with a letter or digit. */
  predicate IdText(s: string) {
    && s != "" && |s| <= 200
    && ('A' <= s[0] <= 'Z' || 'a' <= s[0] <= 'z' || '0' <= s[0] <= '9')
    && forall i :: 0 <= i < |s| ==> 'A' <= s[i] <= 'Z' || 'a' <= s[i] <= 'z' || '0' <= s[i] <= '9' || s[i] in "._:-"
  }

  lemma IdTextIff(s: string)
    ensures ValidId(s) <==> IdText(s)
  {
  }

  predicate GoodId(v: Option<string>) {
    v.Some? && ValidId(v.value)
  }

  predicate GoodText(v: Option<string>) {
    v.Some? && Trim(v.value) != ""
  }

  ghost predicate NoDuplicates<T>(s: seq<T>) {
    forall i, j :: 0 <= i < j < |s| ==> s[i] != s[j]
  }

  function HasDuplicate(s: seq<string>): (r: bool)
    ensures r <==> !NoDuplicates(s)
  {
    exists i, j :: 0 <= i < j < |s| && s[i] == s[j]
  }

  function CourseIds(courses: seq<Course>): seq<string> {
    seq(|courses|, i requires 0 <= i < |courses| => courses[i].id)
  }

  function ClassIds(classes: seq<ClassItem>): seq<string> {
    seq(|classes|, i requires 0 <= i < |classes| => classes[i].id)
  }

  function MembershipIds(ms: seq<Membership>): seq<string> {
    seq(|ms|, i requires 0 <= i < |ms| => ms[i].id)
  }

  predicate HasCourse(courses: seq<Course>, id: string) {
    exists i :: 0 <= i < |courses| && courses[i].id == id
  }

  predicate HasClass(classes: seq<ClassItem>, id: string, courseId: string) {
    exists i :: 0 <= i < |classes| && classes[i].id == id && classes[i].courseId == courseId
  }

  // ---------------------------------------------------------------- validation

  function OwnerError(user: User, owner: Option<string>): Option<int> {
    if user.role == Student then None
    else if !GoodText(owner) then Some(502)
    else if !user.same(owner.value, user.account) then Some(403)
    else None
  }

  function ParseCourse(user: User, row: RawCourse): Result<Course, int> {
    var owner := OwnerError(user, row.owner);
    if owner.Some? then Err(owner.value)
    else if !GoodId(row.id) || !GoodText(row.name) then Err(502)
    else Ok(Course(row.id.value, row.name.value))
  }

  function ParseCourses(user: User, rows: seq<RawCourse>): Result<seq<Course>, int> {
    if rows == [] then Ok([])
    else
      var first := ParseCourse(user, rows[0]);
      if first.Err? then Err(first.error)
      else
        var rest := ParseCourses(user, rows[1..]);
        if rest.Err? then rest else Ok([first.value] + rest.value)
  }

  function ParseClass(user: User, courses: seq<Course>, row: RawClass): Result<ClassItem, int> {
    var owner := OwnerError(user, row.owner);
    if owner.Some? then Err(owner.value)
    else if !GoodId(row.courseId) || !HasCourse(courses, row.courseId.value) then Err(502)
    else if !GoodId(row.id) || !GoodText(row.name) then Err(502)
    else Ok(ClassItem(row.id.value, row.courseId.value, row.name.value))
  }

  function ParseClasses(user: User, courses: seq<Course>, rows: seq<RawClass>): Result<seq<ClassItem>, int> {
    if rows == [] then Ok([])
    else
      var first := ParseClass(user, courses, rows[0]);
      if first.Err? then Err(first.error)
      else
        var rest := ParseClasses(user, courses, rows[1..]);
        if rest.Err? then rest else Ok([first.value] + rest.value)
  }

  function ParseStatus(status: Option<string>): Option<MemberStatus> {
    if status == Some("pending-teacher-review") then Some(Pending)
    else if status == Some("approved") then Some(Approved)
    else if status == Some("rejected") then Some(Rejected)
    else if status == Some("removed") then Some(Removed)
    else None
  }

  function ParseMembership(classes: seq<ClassItem>, row: RawMembership): Result<Membership, int> {
    if !GoodId(row.courseId) || !GoodId(row.classId) then Err(502)
    else if !HasClass(classes, row.classId.value, row.courseId.value) || ParseStatus(row.status) == None then Err(502)
    else if !GoodId(row.id) then Err(502)
    else Ok(Membership(row.id.value, row.courseId.value, row.classId.value, ParseStatus(row.status).value))
  }

  function ParseMemberships(classes: seq<ClassItem>, rows: seq<RawMembership>): Result<seq<Membership>, int> {
    if rows == [] then Ok([])
    else
      var first := ParseMembership(classes, rows[0]);
      if first.Err? then Err(first.error)
      else
        var rest := ParseMemberships(classes, rows[1..]);
        if rest.Err? then rest else Ok([first.value] + rest.value)
  }

  function ReceiptError(user: User, receipt: Option<Receipt>): Option<int> {
    if receipt == None || !GoodText(receipt.value.actorId) then Some(502)
    else
      var actor := receipt.value.actorId.value;
      var matches := if user.role == Teacher then user.same(actor, user.account) else actor == user.account;
      var action := if user.role == Teacher then "list-courses" else "list-student-courses";
      if receipt.value.status != Some("read") || !matches || receipt.value.action != Some(action) then Some(403) else None
  }

  function ReadCatalog(user: User, raw: RawCatalog): Result<Catalog, int> {
    var receipt := ReceiptError(user, raw.receipt);
    if receipt.Some? then Err(receipt.value)
    else if raw.courses == None then Err(502)
    else
      var courses := ParseCourses(user, raw.courses.value);
      if courses.Err? then Err(courses.error)
      else if HasDuplicate(CourseIds(courses.value)) || raw.classes == None then Err(502)
      else
        var classes := ParseClasses(user, courses.value, raw.classes.value);
        if classes.Err? then Err(classes.error)
        else if HasDuplicate(ClassIds(classes.value)) || raw.memberships == None then Err(502)
        else
          var memberships := ParseMemberships(classes.value, raw.memberships.value);
          if memberships.Err? then Err(memberships.error)
          else if HasDuplicate(MembershipIds(memberships.value)) then Err(502)
          else Ok(Catalog(courses.value, classes.value, memberships.value))
  }

  /** What the rest of the header relies on. */
  ghost predicate ValidCatalog(data: Catalog) {
    && NoDuplicates(CourseIds(data.courses)) && NoDuplicates(ClassIds(data.classes))
    && NoDuplicates(MembershipIds(data.memberships))
    && (forall i :: 0 <= i < |data.classes| ==> HasCourse(data.courses, data.classes[i].courseId))
    && (forall i :: 0 <= i < |data.memberships| ==>
          HasClass(data.classes, data.memberships[i].classId, data.memberships[i].courseId))
  }

  lemma {:induction false} ClassesHaveCourses(user: User, courses: seq<Course>, rows: seq<RawClass>)
    requires ParseClasses(user, courses, rows).Ok?
    ensures var classes := ParseClasses(user, courses, rows).value;
      |classes| == |rows| && forall i :: 0 <= i < |classes| ==> HasCourse(courses, classes[i].courseId)
  {
    if rows != [] {
      ClassesHaveCourses(user, courses, rows[1..]);
    }
  }

  lemma {:induction false} MembershipsHaveClasses(classes: seq<ClassItem>, rows: seq<RawMembership>)
    requires ParseMemberships(classes, rows).Ok?
    ensures var ms := ParseMemberships(classes, rows).value;
      |ms| == |rows| && forall i :: 0 <= i < |ms| ==> HasClass(classes, ms[i].classId, ms[i].courseId)
  {
    if rows != [] {
      MembershipsHaveClasses(classes, rows[1..]);
    }
  }

  /** Every catalog that is accepted is valid: unique ids, no dangling course or class. */
  lemma AcceptedCatalogIsValid(user: User, raw: RawCatalog)
    requires ReadCatalog(user, raw).Ok?
    ensures ValidCatalog(ReadCatalog(user, raw).value)
  {
    var courses := ParseCourses(user, raw.courses.value).value;
    var classes := ParseClasses(user, courses, raw.classes.value).value;
    ClassesHaveCourses(user, courses, raw.classes.value);
    MembershipsHaveClasses(classes, raw.memberships.value);
  }

  // ---------------------------------------------------------------- which answers are accepted, and as what

  /** The answer is about this user, and for the list this role reads. */
  predicate ReceiptFits(user: User, receipt: Option<Receipt>) {
    && receipt.Some? && receipt.value.status == Some("read") && GoodText(receipt.value.actorId)
    && (match user.role
        case Teacher => receipt.value.action == Some("list-courses") && user.same(receipt.value.actorId.value, user.account)
        case Student => receipt.value.action == Some("list-student-courses") && receipt.value.actorId == Some(user.account))
  }

  /** A teacher reads only their own rows. */
  predicate Owned(user: User, owner: Option<string>) {
    user.role == Teacher ==> GoodText(owner) && user.same(owner.value, user.account)
  }

  ghost predicate CourseIs(user: User, row: RawCourse, c: Course) {
    Owned(user, row.owner) && row.id == Some(c.id) && ValidId(c.id) && row.name == Some(c.name) && Trim(c.name) != ""
  }

  ghost predicate ClassIs(user: User, courses: seq<Course>, row: RawClass, c: ClassItem) {
    && Owned(user, row.owner) && row.id == Some(c.id) && ValidId(c.id) && row.name == Some(c.name) && Trim(c.name) != ""
    && row.courseId == Some(c.courseId) && ValidId(c.courseId) && HasCourse(courses, c.courseId)
  }

  /** The four statuses by their names. */
  ghost predicate StatusIs(name: string, status: MemberStatus) {
    match status
    case Pending => name == "pending-teacher-review"
    case Approved => name == "approved"
    case Rejected => name == "rejected"
    case Removed => name == "removed"
  }

  ghost predicate MembershipIs(classes: seq<ClassItem>, row: RawMembership, m: Membership) {
    && row.id == Some(m.id) && ValidId(m.id) && row.courseId == Some(m.courseId) && row.classId == Some(m.classId)
    && ValidId(m.courseId) && ValidId(m.classId) && HasClass(classes, m.classId, m.courseId)
    && row.status.Some? && StatusIs(row.status.value, m.status)
  }

  /** Every row of the answer is taken over, in order and field by field; ids are unique and nothing dangles. */
  ghost predicate CatalogIs(user: User, raw: RawCatalog, data: Catalog) {
    && ReceiptFits(user, raw.receipt) && raw.courses.Some? && raw.classes.Some? && raw.memberships.Some?
    && |data.courses| == |raw.courses.value| && |data.classes| == |raw.classes.value| && |data.memberships| == |raw.memberships.value|
    && (forall i :: 0 <= i < |data.courses| ==> CourseIs(user, raw.courses.value[i], data.courses[i]))
    && (forall i :: 0 <= i < |data.classes| ==> ClassIs(user, data.courses, raw.classes.value[i], data.classes[i]))
    && (forall i :: 0 <= i < |data.memberships| ==> MembershipIs(data.classes, raw.memberships.value[i], data.memberships[i]))
    && NoDuplicates(CourseIds(data.courses)) && NoDuplicates(ClassIds(data.classes)) && NoDuplicates(MembershipIds(data.memberships))
  }

  lemma {:induction false} CoursesIff(user: User, rows: seq<RawCourse>, courses: seq<Course>)
    ensures ParseCourses(user, rows) == Ok(courses) <==>
      |courses| == |rows| && forall i :: 0 <= i < |rows| ==> CourseIs(user, rows[i], courses[i])
  {
    if rows != [] && courses != [] {
      CoursesIff(user, rows[1..], courses[1..]);
      assert courses == [courses[0]] + courses[1..];
      assert ParseCourse(user, rows[0]) == Ok(courses[0]) <==> CourseIs(user, rows[0], courses[0]);
      assert forall i :: 1 <= i < |rows| ==> rows[i] == rows[1..][i - 1];
      assert forall i :: 1 <= i < |courses| ==> courses[i] == courses[1..][i - 1];
    }
  }

  lemma {:induction false} ClassesIff(user: User, courses: seq<Course>, rows: seq<RawClass>, classes: seq<ClassItem>)
    ensures ParseClasses(user, courses, rows) == Ok(classes) <==>
      |classes| == |rows| && forall i :: 0 <= i < |rows| ==> ClassIs(user, courses, rows[i], classes[i])
  {
    if rows != [] && classes != [] {
      ClassesIff(user, courses, rows[1..], classes[1..]);
      assert classes == [classes[0]] + classes[1..];
      assert ParseClass(user, courses, rows[0]) == Ok(classes[0]) <==> ClassIs(user, courses, rows[0], classes[0]);
      assert forall i :: 1 <= i < |rows| ==> rows[i] == rows[1..][i - 1];
      assert forall i :: 1 <= i < |classes| ==> classes[i] == classes[1..][i - 1];
    }
  }

  lemma MembershipIff(classes: seq<ClassItem>, row: RawMembership, m: Membership)
    ensures ParseMembership(classes, row) == Ok(m) <==> MembershipIs(classes, row, m)
  {
  }

  lemma {:induction false} MembershipsIff(classes: seq<ClassItem>, rows: seq<RawMembership>, ms: seq<Membership>)
    ensures ParseMemberships(classes, rows) == Ok(ms) <==>
      |ms| == |rows| && forall i :: 0 <= i < |rows| ==> MembershipIs(classes, rows[i], ms[i])
  {
    if rows != [] && ms != [] {
      MembershipsIff(classes, rows[1..], ms[1..]);
      assert ms == [ms[0]] + ms[1..];
      MembershipIff(classes, rows[0], ms[0]);
      assert forall i :: 1 <= i < |rows| ==> rows[i] == rows[1..][i - 1];
      assert forall i :: 1 <= i < |ms| ==> ms[i] == ms[1..][i - 1];
    }
  }

  lemma ReceiptIff(user: User, receipt: Option<Receipt>)
    ensures ReceiptError(user, receipt) == None <==> ReceiptFits(user, receipt)
    ensures ReceiptError(user, receipt) in {None, Some(403), Some(502)}
  {
  }

  /** The three lists are read one after the other. */
  ghost predicate ListsRead(user: User, raw: RawCatalog, data: Catalog)
    requires raw.courses.Some? && raw.classes.Some? && raw.memberships.Some?
  {
    && ParseCourses(user, raw.courses.value) == Ok(data.courses) && NoDuplicates(CourseIds(data.courses))
    && ParseClasses(user, data.courses, raw.classes.value) == Ok(data.classes) && NoDuplicates(ClassIds(data.classes))
    && ParseMemberships(data.classes, raw.memberships.value) == Ok(data.memberships) && NoDuplicates(MembershipIds(data.memberships))
  }

  /** Nothing is missing, and the answer is for this user. */
  predicate Complete(user: User, raw: RawCatalog) {
    ReceiptError(user, raw.receipt) == None && raw.courses.Some? && raw.classes.Some? && raw.memberships.Some?
  }

  lemma ReadNeedsAll(user: User, raw: RawCatalog)
    ensures ReadCatalog(user, raw).Ok? ==> Complete(user, raw)
  {
  }

  lemma ReadInOrder(user: User, raw: RawCatalog, data: Catalog)
    requires Complete(user, raw)
    ensures ReadCatalog(user, raw) == Ok(data) <==> ListsRead(user, raw, data)
  {
  }

  /** The accepted answers are exactly these, and what is accepted is what was given. */
  lemma ReadCatalogIff(user: User, raw: RawCatalog, data: Catalog)
    ensures ReadCatalog(user, raw) == Ok(data) <==> CatalogIs(user, raw, data)
  {
    ReceiptIff(user, raw.receipt);
    ReadNeedsAll(user, raw);
    if Complete(user, raw) {
      ReadInOrder(user, raw, data);
      CoursesIff(user, raw.courses.value, data.courses);
      ClassesIff(user, data.courses, raw.classes.value, data.classes);
      MembershipsIff(data.classes, raw.memberships.value, data.memberships);
    }
  }

  /** Row `i` is the first that cannot be taken over, and it belongs to somebody else. */
  ghost predicate ForeignAt(user: User, rows: seq<RawCourse>, i: nat) {
    && i < |rows| && user.role == Teacher && GoodText(rows[i].owner) && !user.same(rows[i].owner.value, user.account)
    && forall j :: 0 <= j < i ==> ParseCourse(user, rows[j]).Ok?
  }

  /** 403 says that the first row at fault belongs to somebody else; every other fault is a 502. */
  lemma {:induction false} CoursesForbidden(user: User, rows: seq<RawCourse>)
    ensures ParseCourses(user, rows) == Err(403) <==> exists i: nat :: ForeignAt(user, rows, i)
    ensures ParseCourses(user, rows).Err? ==> ParseCourses(user, rows).error in {403, 502}
  {
    if rows != [] {
      var rest := rows[1..];
      CoursesForbidden(user, rest);
      assert forall j :: 1 <= j < |rows| ==> rows[j] == rest[j - 1];
      if ParseCourse(user, rows[0]).Err? {
        assert ParseCourse(user, rows[0]) == Err(403) <==> ForeignAt(user, rows, 0);
      } else {
        if i: nat :| ForeignAt(user, rest, i) {
          assert ForeignAt(user, rows, i + 1);
        }
        if i: nat :| ForeignAt(user, rows, i) {
          assert i > 0 && ForeignAt(user, rest, i - 1);
        }
      }
    }
  }

  // ---------------------------------------------------------------- scope

  datatype Scope = Scope(courseId: string, courseName: string, classId: string, className: string)

  function FindCourse(courses: seq<Course>, id: string): (r: Option<Course>)
    ensures r.Some? <==> HasCourse(courses, id)
    ensures r.Some? ==> r.value in courses && r.value.id == id
  {
    if courses == [] then None
    else if courses[0].id == id then Some(courses[0])
    else
      assert forall i :: 1 <= i < |courses| ==> courses[i] == courses[1..][i - 1];
      FindCourse(courses[1..], id)
  }

  function FindClass(classes: seq<ClassItem>, id: string, courseId: string): (r: Option<ClassItem>)
    ensures r.Some? <==> HasClass(classes, id, courseId)
    ensures r.Some? ==> r.value in classes && r.value.id == id && r.value.courseId == courseId
  {
    if classes == [] then None
    else if classes[0].id == id && classes[0].courseId == courseId then Some(classes[0])
    else
      assert forall i :: 1 <= i < |classes| ==> classes[i] == classes[1..][i - 1];
      FindClass(classes[1..], id, courseId)
  }

  function ScopeOf(data: Catalog, courseId: string, classId: string): Option<Scope> {
    var course := FindCourse(data.courses, courseId);
    var item := FindClass(data.classes, classId, courseId);
    if course == None || item == None then None
    else Some(Scope(courseId, course.value.name, classId, item.value.name))
  }

  /** The scope names a course and a class of the catalog that belong together. */
  ghost predicate InCatalog(data: Catalog, scope: Scope) {
    && (exists i :: 0 <= i < |data.courses| && data.courses[i] == Course(scope.courseId, scope.courseName))
    && (exists i :: 0 <= i < |data.classes| && data.classes[i] == ClassItem(scope.classId, scope.courseId, scope.className))
  }

  lemma ScopeIsInCatalog(data: Catalog, courseId: string, classId: string)
    requires ScopeOf(data, courseId, classId).Some?
    ensures InCatalog(data, ScopeOf(data, courseId, classId).value)
  {
    var course := FindCourse(data.courses, courseId).value;
    var item := FindClass(data.classes, classId, courseId).value;
    var i :| 0 <= i < |data.courses| && data.courses[i] == course;
    var j :| 0 <= j < |data.classes| && data.classes[j] == item;
  }

  // ---------------------------------------------------------------- pending approvals

  datatype ApprovalItem = ApprovalItem(scope: Scope, count: nat)

  predicate PendingIn(m: Membership, c: ClassItem) {
    m.classId == c.id && m.courseId == c.courseId && m.status == Pending
  }

  function PendingCount(ms: seq<Membership>, c: ClassItem): nat {
    if ms == [] then 0 else PendingCount(ms[1..], c) + (if PendingIn(ms[0], c) then 1 else 0)
  }

  /** The teacher's approval items, in class order; `None` if `scope` throws. */
  function ApprovalItems(data: Catalog, classes: seq<ClassItem>): Option<seq<ApprovalItem>> {
    if classes == [] then Some([])
    else
      var rest := ApprovalItems(data, classes[1..]);
      var count := PendingCount(data.memberships, classes[0]);
      if count == 0 then rest
      else
        var scope := ScopeOf(data, classes[0].courseId, classes[0].id);
        if scope == None || rest == None then None else Some([ApprovalItem(scope.value, count)] + rest.value)
  }

  function TotalCount(items: seq<ApprovalItem>): nat {
    if items == [] then 0 else items[0].count + TotalCount(items[1..])
  }

  function PendingMemberships(ms: seq<Membership>): nat {
    if ms == [] then 0 else PendingMemberships(ms[1..]) + (if ms[0].status == Pending then 1 else 0)
  }

  function SumOver(classes: seq<ClassItem>, ms: seq<Membership>): nat {
    if classes == [] then 0 else PendingCount(ms, classes[0]) + SumOver(classes[1..], ms)
  }

  lemma {:induction false} SumOverNobody(classes: seq<ClassItem>)
    ensures SumOver(classes, []) == 0
  {
    if classes != [] {
      SumOverNobody(classes[1..]);
    }
  }

  function Matches(classes: seq<ClassItem>, m: Membership): nat {
    if classes == [] then 0 else Matches(classes[1..], m) + (if PendingIn(m, classes[0]) then 1 else 0)
  }

  lemma {:induction false} SumOverOneMore(classes: seq<ClassItem>, ms: seq<Membership>)
    requires ms != []
    ensures SumOver(classes, ms) == SumOver(classes, ms[1..]) + Matches(classes, ms[0])
  {
    if classes != [] {
      SumOverOneMore(classes[1..], ms);
    }
  }

  lemma {:induction false} NoMatch(classes: seq<ClassItem>, m: Membership)
    requires forall i :: 0 <= i < |classes| ==> !PendingIn(m, classes[i])
    ensures Matches(classes, m) == 0
  {
    if classes != [] {
      NoMatch(classes[1..], m);
    }
  }

  /** With unique class ids a pending membership is counted by its own class and by no other. */
  lemma {:induction false} OneMatch(classes: seq<ClassItem>, m: Membership)
    requires NoDuplicates(ClassIds(classes)) && HasClass(classes, m.classId, m.courseId) && m.status == Pending
    ensures Matches(classes, m) == 1
  {
    var k :| 0 <= k < |classes| && classes[k].id == m.classId && classes[k].courseId == m.courseId;
    assert forall i :: 0 <= i < |classes| ==> ClassIds(classes)[i] == classes[i].id;
    var rest := classes[1..];
    assert forall i :: 0 <= i < |rest| ==> ClassIds(rest)[i] == rest[i].id == ClassIds(classes)[i + 1];
    if k == 0 {
      NoMatch(rest, m);
    } else {
      assert rest[k - 1] == classes[k];
      OneMatch(rest, m);
    }
  }

  lemma {:induction false} SumIsPending(classes: seq<ClassItem>, ms: seq<Membership>)
    requires NoDuplicates(ClassIds(classes))
    requires forall i :: 0 <= i < |ms| ==> HasClass(classes, ms[i].classId, ms[i].courseId)
    ensures SumOver(classes, ms) == PendingMemberships(ms)
  {
    if ms == [] {
      SumOverNobody(classes);
    } else {
      SumOverOneMore(classes, ms);
      SumIsPending(classes, ms[1..]);
      if ms[0].status == Pending {
        OneMatch(classes, ms[0]);
      } else {
        NoMatch(classes, ms[0]);
      }
    }
  }

  lemma {:induction false} ItemsSum(data: Catalog, classes: seq<ClassItem>)
    requires forall i :: 0 <= i < |classes| ==> classes[i] in data.classes && HasCourse(data.courses, classes[i].courseId)
    ensures ApprovalItems(data, classes).Some?
    ensures TotalCount(ApprovalItems(data, classes).value) == SumOver(classes, data.memberships)
  {
    if classes != [] {
      assert forall i :: 1 <= i < |classes| ==> classes[1..][i - 1] == classes[i];
      ItemsSum(data, classes[1..]);
      var i :| 0 <= i < |data.classes| && data.classes[i] == classes[0];
      assert HasClass(data.classes, classes[0].id, classes[0].courseId);
      var rest := ApprovalItems(data, classes[1..]).value;
      assert forall scope: Scope, n: nat :: ([ApprovalItem(scope, n)] + rest)[1..] == rest;
    }
  }

  /**
   * Conservation: for every accepted catalog, the counts of the approval items add up to the
   * number of pending memberships, and no item fails to find its scope.
   */
  lemma ApprovalsConserved(user: User, raw: RawCatalog)
    requires ReadCatalog(user, raw).Ok?
    ensures var data := ReadCatalog(user, raw).value;
      var items := ApprovalItems(data, data.classes);
      items.Some? && TotalCount(items.value) == PendingMemberships(data.memberships)
  {
    AcceptedCatalogIsValid(user, raw);
    var data := ReadCatalog(user, raw).value;
    ItemsSum(data, data.classes);
    SumIsPending(data.classes, data.memberships);
  }

  lemma {:induction false} CountedIff(ms: seq<Membership>, c: ClassItem)
    ensures PendingCount(ms, c) > 0 <==> exists i :: 0 <= i < |ms| && PendingIn(ms[i], c)
  {
    if ms != [] {
      CountedIff(ms[1..], c);
      if i :| 1 <= i < |ms| && PendingIn(ms[i], c) {
        assert PendingIn(ms[1..][i - 1], c);
      }
      if i :| 0 <= i < |ms[1..]| && PendingIn(ms[1..][i], c) {
        assert PendingIn(ms[i + 1], c);
      }
    }
  }

  ghost predicate ItemFor(items: seq<ApprovalItem>, c: ClassItem) {
    exists i :: 0 <= i < |items| && items[i].scope.classId == c.id && items[i].scope.courseId == c.courseId
  }

  ghost predicate Waiting(data: Catalog, c: ClassItem) {
    exists i :: 0 <= i < |data.memberships| && PendingIn(data.memberships[i], c)
  }

  /** Items of different classes of the list. */
  ghost predicate ItemsOfClasses(items: seq<ApprovalItem>, classes: seq<ClassItem>) {
    && (forall i :: 0 <= i < |items| ==> items[i].scope.classId in ClassIds(classes))
    && (forall i, j :: 0 <= i < j < |items| ==> items[i].scope.classId != items[j].scope.classId)
  }

  lemma ItemsOfMore(items: seq<ApprovalItem>, others: seq<ApprovalItem>, classes: seq<ClassItem>)
    requires classes != [] && NoDuplicates(ClassIds(classes)) && ItemsOfClasses(others, classes[1..])
    requires items == others || (|items| > 0 && items == [items[0]] + others && items[0].scope.classId == classes[0].id)
    ensures ItemsOfClasses(items, classes)
  {
    var ids, rest := ClassIds(classes), ClassIds(classes[1..]);
    assert forall k :: 0 <= k < |rest| ==> rest[k] == ids[k + 1];
    assert ids[0] == classes[0].id;
    forall i | 0 <= i < |others| ensures others[i].scope.classId in ids && others[i].scope.classId != classes[0].id {
      var k :| 0 <= k < |rest| && rest[k] == others[i].scope.classId;
      assert ids[k + 1] == others[i].scope.classId;
    }
  }

  /** The classes with an item are exactly those with a pending membership, each once. */
  lemma {:induction false} OneItemPerWaitingClass(data: Catalog, classes: seq<ClassItem>)
    requires ApprovalItems(data, classes).Some? && NoDuplicates(ClassIds(classes))
    ensures var items := ApprovalItems(data, classes).value;
      && (forall k :: 0 <= k < |classes| ==> (ItemFor(items, classes[k]) <==> Waiting(data, classes[k])))
      && ItemsOfClasses(items, classes)
  {
    if classes != [] {
      var rest := classes[1..];
      assert forall i :: 0 <= i < |rest| ==> ClassIds(rest)[i] == ClassIds(classes)[i + 1];
      OneItemPerWaitingClass(data, rest);
      CountedIff(data.memberships, classes[0]);
      var items := ApprovalItems(data, classes).value;
      var others := ApprovalItems(data, rest).value;
      ItemsOfMore(items, others, classes);
      ItemsHead(items, others, classes);
      forall k | 1 <= k < |classes| ensures ItemFor(items, classes[k]) <==> Waiting(data, classes[k]) {
        assert classes[k] == rest[k - 1];
      }
    }
  }

  /** The memberships that wait for a decision about this class. */
  ghost function WaitingFor(ms: seq<Membership>, c: ClassItem): set<int> {
    set i | 0 <= i < |ms| && ms[i].classId == c.id && ms[i].courseId == c.courseId && ms[i].status == Pending
  }

  lemma {:induction false} CountIsSize(ms: seq<Membership>, c: ClassItem)
    ensures PendingCount(ms, c) == |WaitingFor(ms, c)|
  {
    if ms != [] {
      CountIsSize(ms[1..], c);
      var rest := WaitingFor(ms[1..], c);
      var shifted := set i | i in rest :: i + 1;
      ShiftKeepsSize(rest, shifted);
      var first := if PendingIn(ms[0], c) then {0} else {};
      assert WaitingFor(ms, c) == first + shifted by {
        forall i ensures i in WaitingFor(ms, c) <==> i in first + shifted {
          if i > 0 {
            assert i in shifted <==> i - 1 in rest;
            assert i < |ms| ==> ms[i] == ms[1..][i - 1];
          }
        }
      }
    }
  }

  lemma Member<T>(s: set<T>) returns (x: T)
    requires |s| > 0
    ensures x in s
  {
    x :| x in s;
  }

  /** Renumbering does not change how many there are. */
  lemma {:induction false} ShiftKeepsSize(a: set<int>, b: set<int>)
    requires forall i :: i in b <==> i - 1 in a
    ensures |a| == |b|
  {
    if |a| > 0 {
      var x := Member(a);
      assert x + 1 in b;
      ShiftKeepsSize(a - {x}, b - {x + 1});
    } else if |b| > 0 {
      var y := Member(b);
    }
  }

  /** Each item names a class and a course of the catalog and counts exactly the memberships that wait for that class. */
  ghost predicate CountsClass(data: Catalog, item: ApprovalItem) {
    && InCatalog(data, item.scope)
    && item.count == |WaitingFor(data.memberships, ClassItem(item.scope.classId, item.scope.courseId, item.scope.className))|
  }

  lemma {:induction false} ItemsCount(data: Catalog, classes: seq<ClassItem>, k: nat)
    requires ApprovalItems(data, classes).Some? && k < |ApprovalItems(data, classes).value|
    ensures CountsClass(data, ApprovalItems(data, classes).value[k])
  {
    var others := ApprovalItems(data, classes[1..]).value;
    if ApprovalItems(data, classes).value == others {
      ItemsCount(data, classes[1..], k);
    } else if k > 0 {
      ItemsCount(data, classes[1..], k - 1);
    } else {
      ScopeIsInCatalog(data, classes[0].courseId, classes[0].id);
      CountIsSize(data.memberships, classes[0]);
      var scope := ScopeOf(data, classes[0].courseId, classes[0].id).value;
      assert WaitingFor(data.memberships, classes[0]) == WaitingFor(data.memberships, ClassItem(scope.classId, scope.courseId, scope.className));
    }
  }

  lemma ItemsHead(items: seq<ApprovalItem>, others: seq<ApprovalItem>, classes: seq<ClassItem>)
    requires classes != [] && NoDuplicates(ClassIds(classes))
    requires items == others || (|items| > 0 && items == [items[0]] + others &&
                                 items[0].scope.classId == classes[0].id && items[0].scope.courseId == classes[0].courseId)
    requires forall i :: 0 <= i < |others| ==> others[i].scope.classId in ClassIds(classes[1..])
    ensures ItemFor(items, classes[0]) <==> items != others
    ensures forall k :: 1 <= k < |classes| ==> (ItemFor(items, classes[k]) <==> ItemFor(others, classes[k]))
  {
    assert forall i :: 0 <= i < |classes| ==> ClassIds(classes)[i] == classes[i].id;
    assert forall i :: 0 <= i < |classes| - 1 ==> ClassIds(classes[1..])[i] == ClassIds(classes)[i + 1];
    if items != others {
      assert items[1..] == others;
      forall k | 1 <= k < |classes| && ItemFor(others, classes[k]) ensures ItemFor(items, classes[k]) {
        var i :| 0 <= i < |others| && others[i].scope.classId == classes[k].id && others[i].scope.courseId == classes[k].courseId;
        assert items[i + 1] == others[i];
      }
      forall k | 1 <= k < |classes| && ItemFor(items, classes[k]) ensures ItemFor(others, classes[k]) {
        var i :| 0 <= i < |items| && items[i].scope.classId == classes[k].id && items[i].scope.courseId == classes[k].courseId;
        assert items[i] == others[i - 1];
      }
    }
  }
}

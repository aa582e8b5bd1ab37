/**
 * Course ids: the id of a course, the provisional id of a draft course, and the recogniser of an
 * actor's own provisional ids. `fold` stands for the Unicode part of the string chain
 * (compatibility decomposition, removal of combining marks, lower case); nothing is asked of it.
 */
module CourseId {
  import opened Prelude
  import opened JsText
  import opened Slugs

  /** A moment as `toISOString` prints it; other than four-digit years carry a sign and six digits. */
  datatype Moment = Moment(year: int, month: nat, day: nat, hour: nat, minute: nat, second: nat, milli: nat)

  function Digit(n: nat): char
    requires n < 10
  {
    "0123456789"[n]
  }

  function Digits(n: nat, width: nat): string {
    if width == 0 then [] else Digits(n / 10, width - 1) + [Digit(n % 10)]
  }

  function Year(y: int): string {
    if 0 <= y <= 9999 then Digits(y, 4) else if y < 0 then "-" + Digits(-y, 6) else "+" + Digits(y, 6)
  }

  function IsoDate(m: Moment): string {
    Year(m.year) + "-" + Digits(m.month, 2) + "-" + Digits(m.day, 2)
  }

  function IsoTime(m: Moment): string {
    Digits(m.hour, 2) + ":" + Digits(m.minute, 2) + ":" + Digits(m.second, 2)
  }

  function Iso(m: Moment): string {
    IsoDate(m) + "T" + IsoTime(m) + "." + Digits(m.milli, 3) + "Z"
  }

  /** `replace(/[-:]/g, "")`. */
  function DropSeparators(s: string): string {
    if s == [] then []
    else if s[0] == '-' || s[0] == ':' then DropSeparators(s[1..])
    else [s[0]] + DropSeparators(s[1..])
  }

  predicate IsDigit(c: char) {
    '0' <= c <= '9'
  }

  /** `replace(/\.\d{3}Z$/, "")`. */
  function DropFraction(s: string): string {
    var n := |s|;
    if n >= 5 && s[n - 5] == '.' && IsDigit(s[n - 4]) && IsDigit(s[n - 3]) && IsDigit(s[n - 2]) && s[n - 1] == 'Z'
    then s[..n - 5] else s
  }

  /** `replace("T", "-")`: the first `T` only. */
  function DashForT(s: string): string {
    if s == [] then [] else if s[0] == 'T' then ['-'] + s[1..] else [s[0]] + DashForT(s[1..])
  }

  function Stamp(m: Moment): string {
    DashForT(DropFraction(DropSeparators(Iso(m))))
  }

  predicate SlugChar(c: char) {
    'a' <= c <= 'z' || '0' <= c <= '9'
  }

  predicate SegmentChar(c: char) {
    SlugChar(c) || c == '.' || c == '_' || c == '-'
  }

  predicate Dash(c: char) {
    c == '-'
  }

  function StripDashes(s: string): string {
    StripEnd(Dash, StripStart(Dash, s))
  }

  function Slug(fold: string -> string, name: string): string {
    Take(StripDashes(Squeeze(SlugChar, fold(name))), 72)
  }

  predicate SafeCourseId(s: string) {
    1 <= |s| <= 120 && IsLetterOrDigit(s[0]) && forall i :: 1 <= i < |s| ==> IsNameChar(s[i])
  }

  function Segment(fold: string -> string, actor: string): Option<string> {
    var s := Take(StripDashes(Squeeze(SegmentChar, fold(Trim(actor)))), 72);
    if s != [] && SafeCourseId(s) then Some(s) else None
  }

  function CourseSegment(fold: string -> string, name: string): string {
    Or(Slug(fold, name), "course")
  }

  const COURSE := "teacher-course-"
  const DRAFT := "teacher-draft-course-"

  function Create(fold: string -> string, name: string, now: Moment): string {
    COURSE + CourseSegment(fold, name) + "-" + Stamp(now)
  }

  function CreateProvisional(fold: string -> string, actor: string, name: string, now: Moment): string {
    var segment := Segment(fold, actor);
    DRAFT + (if segment.Some? then segment.value else "teacher") + "-" + CourseSegment(fold, name) + "-" + Stamp(now)
  }

  predicate IsProvisionalFor(fold: string -> string, id: string, actor: string) {
    var segment := Segment(fold, actor);
    segment.Some? && SafeCourseId(id) && DRAFT + segment.value + "-" <= id
  }

  // ---------------------------------------------------------------- the timestamp

  lemma {:induction false} DigitsAreDigits(n: nat, width: nat)
    ensures |Digits(n, width)| == width && Over(IsDigit, Digits(n, width))
  {
    if width > 0 {
      DigitsAreDigits(n / 10, width - 1);
    }
  }

  function Pow10(n: nat): nat {
    if n == 0 then 1 else 10 * Pow10(n - 1)
  }

  /** The number a string of digits stands for. */
  function NumberOf(s: string): nat
    requires Over(IsDigit, s)
  {
    if s == [] then 0 else 10 * NumberOf(s[..|s| - 1]) + (s[|s| - 1] as nat - '0' as nat)
  }

  /** The digits of a number that fits stand for it. */
  lemma {:induction false} DigitsValue(n: nat, width: nat)
    requires n < Pow10(width)
    ensures Over(IsDigit, Digits(n, width)) && NumberOf(Digits(n, width)) == n
  {
    DigitsAreDigits(n, width);
    if width > 0 {
      DigitsValue(n / 10, width - 1);
      var s := Digits(n, width);
      assert s[..|s| - 1] == Digits(n / 10, width - 1);
    }
  }

  lemma {:induction false} DropConcat(a: string, b: string)
    ensures DropSeparators(a + b) == DropSeparators(a) + DropSeparators(b)
  {
    if a == [] {
      assert a + b == b;
    } else {
      assert (a + b)[1..] == a[1..] + b;
      DropConcat(a[1..], b);
    }
  }

  predicate NoSeparator(c: char) {
    c != '-' && c != ':'
  }

  lemma {:induction false} DropNothing(s: string)
    requires Over(NoSeparator, s)
    ensures DropSeparators(s) == s
  {
    if s != [] {
      assert forall i :: 0 <= i < |s[1..]| ==> s[1..][i] == s[i + 1];
      DropNothing(s[1..]);
      assert s == [s[0]] + s[1..];
    }
  }

  lemma DigitsStay(n: nat, width: nat)
    ensures DropSeparators(Digits(n, width)) == Digits(n, width)
  {
    DigitsAreDigits(n, width);
    DropNothing(Digits(n, width));
  }

  /** The year without its minus sign; the plus sign of a far future year stays. */
  function YearStamp(y: int): string {
    if 0 <= y <= 9999 then Digits(y, 4) else if y < 0 then Digits(-y, 6) else "+" + Digits(y, 6)
  }

  lemma YearStays(y: int)
    ensures DropSeparators(Year(y)) == YearStamp(y)
  {
    if 0 <= y <= 9999 {
      DigitsStay(y, 4);
    } else if y < 0 {
      DigitsStay(-y, 6);
      DropConcat("-", Digits(-y, 6));
    } else {
      DigitsStay(y, 6);
      DropConcat("+", Digits(y, 6));
      assert DropSeparators("+") == "+";
    }
  }

  function Date(m: Moment): string {
    YearStamp(m.year) + Digits(m.month, 2) + Digits(m.day, 2)
  }

  function Time(m: Moment): string {
    Digits(m.hour, 2) + Digits(m.minute, 2) + Digits(m.second, 2)
  }

  /** Two separators between three parts. */
  lemma DropTwo(a: string, b: string, c: string, sep: string)
    requires sep == "-" || sep == ":"
    requires DropSeparators(b) == b && DropSeparators(c) == c
    ensures DropSeparators(a + sep + b + sep + c) == DropSeparators(a) + b + c
  {
    assert DropSeparators(sep) == [];
    DropConcat(a + sep + b + sep, c);
    DropConcat(a + sep + b, sep);
    DropConcat(a + sep, b);
    DropConcat(a, sep);
  }

  lemma SeparatorsGone(m: Moment)
    ensures DropSeparators(Iso(m)) == Date(m) + "T" + Time(m) + "." + Digits(m.milli, 3) + "Z"
  {
    YearStays(m.year);
    DigitsStay(m.month, 2);
    DigitsStay(m.day, 2);
    DropTwo(Year(m.year), Digits(m.month, 2), Digits(m.day, 2), "-");
    DigitsStay(m.hour, 2);
    DigitsStay(m.minute, 2);
    DigitsStay(m.second, 2);
    DropTwo(Digits(m.hour, 2), Digits(m.minute, 2), Digits(m.second, 2), ":");
    DropPlain(IsoDate(m), IsoTime(m), Digits(m.milli, 3), Date(m), Time(m));
    DigitsStay(m.milli, 3);
  }

  lemma DropPlain(date: string, time: string, milli: string, d: string, t: string)
    requires DropSeparators(date) == d && DropSeparators(time) == t
    ensures DropSeparators(date + "T" + time + "." + milli + "Z") == d + "T" + t + "." + DropSeparators(milli) + "Z"
  {
    DropConcat(date + "T" + time + "." + milli, "Z");
    DropConcat(date + "T" + time + ".", milli);
    DropConcat(date + "T" + time, ".");
    DropConcat(date + "T", time);
    DropConcat(date, "T");
    assert DropSeparators("T") == "T" && DropSeparators(".") == "." && DropSeparators("Z") == "Z";
  }

  lemma {:induction false} DashAt(a: string, b: string)
    requires Over(NotT, a)
    ensures DashForT(a + "T" + b) == a + "-" + b
  {
    if a == [] {
      assert a + "T" + b == ['T'] + b;
    } else {
      assert (a + "T" + b)[1..] == a[1..] + "T" + b;
      assert forall i :: 0 <= i < |a[1..]| ==> a[1..][i] == a[i + 1];
      DashAt(a[1..], b);
      assert a == [a[0]] + a[1..];
    }
  }

  predicate NotT(c: char) {
    c != 'T'
  }

  lemma FractionGone(s: string, milli: nat)
    ensures DropFraction(s + "." + Digits(milli, 3) + "Z") == s
  {
    DigitsAreDigits(milli, 3);
    var d := Digits(milli, 3);
    var t := s + "." + d + "Z";
    var n := |t|;
    assert t[n - 4] == d[0] && t[n - 3] == d[1] && t[n - 2] == d[2];
    assert t[..n - 5] == s;
  }

  /** The time stamp: the date without separators, a dash, the time without separators. */
  lemma StampShape(m: Moment)
    ensures Stamp(m) == Date(m) + "-" + Time(m)
  {
    SeparatorsGone(m);
    FractionGone(Date(m) + "T" + Time(m), m.milli);
    YearDigits(m.year);
    DigitsAreDigits(m.month, 2);
    DigitsAreDigits(m.day, 2);
    assert Over(NotT, Date(m));
    DashAt(Date(m), Time(m));
  }

  lemma YearDigits(y: int)
    ensures |YearStamp(y)| == if 0 <= y <= 9999 then 4 else if y < 0 then 6 else 7
    ensures forall i :: 0 <= i < |YearStamp(y)| ==> IsDigit(YearStamp(y)[i]) || (YearStamp(y)[i] == '+' && y > 9999)
    ensures y > 9999 ==> YearStamp(y)[0] == '+'
  {
    DigitsAreDigits(if y < 0 then -y else y, 6);
    if 0 <= y {
      DigitsAreDigits(y, 4);
    }
  }

  lemma StampLength(m: Moment)
    ensures |Stamp(m)| == if 0 <= m.year <= 9999 then 15 else if m.year < 0 then 17 else 18
    ensures Over(IsNameChar, Stamp(m)) <==> m.year <= 9999
  {
    StampShape(m);
    YearDigits(m.year);
    DigitsAreDigits(m.month, 2);
    DigitsAreDigits(m.day, 2);
    DigitsAreDigits(m.hour, 2);
    DigitsAreDigits(m.minute, 2);
    DigitsAreDigits(m.second, 2);
    if m.year > 9999 {
      assert Stamp(m)[0] == '+';
    }
  }

  // ---------------------------------------------------------------- the segments

  lemma StripKeeps(class_: char -> bool, s: string)
    requires Over(class_, s)
    ensures Over(class_, StripDashes(s)) && |StripDashes(s)| <= |s|
  {
    StripStartSuffix(Dash, s);
    StripEndPrefix(Dash, StripStart(Dash, s));
    var t := StripStart(Dash, s);
    assert forall i :: 0 <= i < |t| ==> t[i] == s[|s| - |t| + i];
  }

  lemma CourseSegmentShape(fold: string -> string, name: string)
    ensures 1 <= |CourseSegment(fold, name)| <= 72 && Over(IsNameChar, CourseSegment(fold, name))
  {
    var squeezed := Squeeze(SlugChar, fold(name));
    SqueezeOver(SlugChar, fold(name));
    assert Over(IsNameChar, squeezed);
    StripKeeps(IsNameChar, squeezed);
  }

  lemma ConcatOver(a: string, b: string)
    ensures Over(IsNameChar, a + b) <==> Over(IsNameChar, a) && Over(IsNameChar, b)
  {
    if Over(IsNameChar, a + b) {
      forall i | 0 <= i < |a| ensures IsNameChar(a[i]) {
        assert (a + b)[i] == a[i];
      }
      forall i | 0 <= i < |b| ensures IsNameChar(b[i]) {
        assert (a + b)[|a| + i] == b[i];
      }
    }
  }

  lemma IdOver(s: string)
    requires s != [] && IsLetterOrDigit(s[0])
    ensures SafeCourseId(s) <==> |s| <= 120 && Over(IsNameChar, s)
  {
  }

  // ---------------------------------------------------------------- main results

  /**
   * For years 0 to 9999 every course id has at most 103 characters and is safe, whatever the name;
   * for any year it is safe exactly up to the year 9999.
   */
  lemma CourseIdBounds(fold: string -> string, name: string, now: Moment)
    ensures 0 <= now.year <= 9999 ==> |Create(fold, name, now)| <= 103
    ensures SafeCourseId(Create(fold, name, now)) <==> now.year <= 9999
  {
    CourseSegmentShape(fold, name);
    StampLength(now);
    var id := Create(fold, name, now);
    ConcatOver(COURSE, CourseSegment(fold, name));
    ConcatOver(COURSE + CourseSegment(fold, name), "-");
    ConcatOver(COURSE + CourseSegment(fold, name) + "-", Stamp(now));
    assert id[0] == 't';
    IdOver(id);
  }

  /** `part` stands in the text at `i`, with dashes before and behind it. */
  ghost predicate Between(s: string, part: string, i: nat) {
    && i + |part| <= |s| && s[i..i + |part|] == part
    && (forall k :: 0 <= k < i ==> s[k] == '-') && (forall k :: i + |part| <= k < |s| ==> s[k] == '-')
  }

  /** The text without the dashes at its two ends. */
  ghost predicate WithoutEnds(s: string, part: string) {
    && (exists i: nat :: Between(s, part, i))
    && (part != [] ==> part[0] != '-' && part[|part| - 1] != '-')
  }

  lemma StartStripped(s: string)
    ensures var t := StripStart(Dash, s);
      |t| <= |s| && t == s[|s| - |t|..] && (forall k :: 0 <= k < |s| - |t| ==> s[k] == '-') && (t != [] ==> t[0] != '-')
  {
    StripStartSuffix(Dash, s);
  }

  lemma EndStripped(s: string)
    ensures var t := StripEnd(Dash, s);
      t <= s && (forall k :: |t| <= k < |s| ==> s[k] == '-') && (t != [] ==> t[|t| - 1] != '-')
  {
    StripEndPrefix(Dash, s);
  }

  lemma StrippedIs(s: string)
    ensures WithoutEnds(s, StripDashes(s))
  {
    var t := StripStart(Dash, s);
    var u := StripEnd(Dash, t);
    StartStripped(s);
    EndStripped(t);
    var i: nat := |s| - |t|;
    assert s[i..i + |u|] == t[..|u|] == u;
    forall k | i + |u| <= k < |s| ensures s[k] == '-' {
      assert s[k] == t[k - i];
    }
    assert Between(s, u, i);
  }

  /** What a name contributes: its folding with every run of other characters as one dash, without dashes at the ends, at most 72 characters; or the word "course". */
  lemma SegmentIs(fold: string -> string, name: string)
    ensures var stripped := StripDashes(Squeeze(SlugChar, fold(name)));
      && WithoutEnds(Squeeze(SlugChar, fold(name)), stripped)
      && CourseSegment(fold, name) == if stripped == [] then "course" else if |stripped| <= 72 then stripped else stripped[..72]
  {
    StrippedIs(Squeeze(SlugChar, fold(name)));
  }

  /** A folded name that is a slug already is used as it is. */
  predicate Plain(s: string) {
    1 <= |s| <= 72 && forall i :: 0 <= i < |s| ==> SlugChar(s[i])
  }

  lemma PlainSlug(fold: string -> string, name: string)
    requires Plain(fold(name))
    ensures CourseSegment(fold, name) == fold(name)
  {
    SqueezeKept(SlugChar, fold(name));
  }

  lemma PlainSegment(fold: string -> string, actor: string)
    requires Plain(fold(Trim(actor)))
    ensures Segment(fold, actor) == Some(fold(Trim(actor)))
  {
    var s := fold(Trim(actor));
    assert Over(SegmentChar, s);
    SqueezeKept(SegmentChar, s);
  }

  /** The ids of a plainly named course, part by part. */
  lemma PlainIds(fold: string -> string, actor: string, name: string, now: Moment)
    requires Plain(fold(name)) && Plain(fold(Trim(actor)))
    ensures Create(fold, name, now) == "teacher-course-" + fold(name) + "-" + Stamp(now)
    ensures CreateProvisional(fold, actor, name, now) == "teacher-draft-course-" + fold(Trim(actor)) + "-" + fold(name) + "-" + Stamp(now)
  {
    PlainSlug(fold, name);
    PlainSegment(fold, actor);
  }

  /** Without anything to make a segment of, the fixed words stand in. */
  lemma EmptyParts(fold: string -> string, actor: string, name: string, now: Moment)
    requires fold(name) == "" && fold(Trim(actor)) == ""
    ensures Create(fold, name, now) == "teacher-course-" + "course" + "-" + Stamp(now)
    ensures CreateProvisional(fold, actor, name, now) == "teacher-draft-course-" + "teacher" + "-" + "course" + "-" + Stamp(now)
  {
  }

  lemma DraftShape(segment: string, course: string, stamp: string)
    requires Over(IsNameChar, segment) && Over(IsNameChar, course)
    ensures var id := DRAFT + segment + "-" + course + "-" + stamp;
      && (SafeCourseId(id) <==> |segment| + |course| + |stamp| <= 97 && Over(IsNameChar, stamp))
      && DRAFT + segment + "-" <= id
  {
    var id := DRAFT + segment + "-" + course + "-" + stamp;
    ConcatOver(DRAFT, segment);
    ConcatOver(DRAFT + segment, "-");
    ConcatOver(DRAFT + segment + "-", course);
    ConcatOver(DRAFT + segment + "-" + course, "-");
    ConcatOver(DRAFT + segment + "-" + course + "-", stamp);
    assert id == DRAFT + segment + "-" + (course + "-" + stamp);
    assert id[0] == 't';
    IdOver(id);
  }

  /**
   * An actor's own provisional id is recognised exactly when the actor has a valid segment, the
   * year is at most 9999 and the three variable parts fit into the 120 characters.
   */
  lemma OwnProvisionalIff(fold: string -> string, actor: string, name: string, now: Moment)
    ensures IsProvisionalFor(fold, CreateProvisional(fold, actor, name, now), actor) <==>
      && Segment(fold, actor).Some? && now.year <= 9999
      && |Segment(fold, actor).value| + |CourseSegment(fold, name)| + |Stamp(now)| <= 97
  {
    if Segment(fold, actor).Some? {
      CourseSegmentShape(fold, name);
      StampLength(now);
      DraftShape(Segment(fold, actor).value, CourseSegment(fold, name), Stamp(now));
    }
  }

  /** What follows the fixed head of a provisional id. */
  function AfterHead(fold: string -> string, actor: string, name: string, now: Moment): string {
    var segment := Segment(fold, actor);
    (if segment.Some? then segment.value else "teacher") + "-" + (CourseSegment(fold, name) + "-" + Stamp(now))
  }

  lemma Grouped(head: string, a: string, x: string, y: string)
    ensures head + a + "-" + x + "-" + y == head + (a + "-" + (x + "-" + y))
  {
  }

  lemma HeadsApart(head: string, a: string, b: string)
    ensures head + a <= head + b <==> a <= b
  {
    assert (head + b)[|head|..] == b && (head + a)[|head|..] == a;
    if head + a <= head + b {
      assert (head + b)[..|head + a|] == head + a;
      assert b[..|a|] == (head + b)[|head|..|head| + |a|] == a;
    }
  }

  /** Whose provisional ids an actor takes for their own, exactly: safe ones that go on with the actor's segment and a dash. */
  lemma RecognisedIff(fold: string -> string, actor: string, other: string, name: string, now: Moment)
    ensures var id := CreateProvisional(fold, other, name, now);
      IsProvisionalFor(fold, id, actor) <==>
        Segment(fold, actor).Some? && SafeCourseId(id) && Segment(fold, actor).value + "-" <= AfterHead(fold, other, name, now)
  {
    var id := CreateProvisional(fold, other, name, now);
    var segment := Segment(fold, other);
    Grouped(DRAFT, if segment.Some? then segment.value else "teacher", CourseSegment(fold, name), Stamp(now));
    if Segment(fold, actor).Some? {
      assert DRAFT + Segment(fold, actor).value + "-" == DRAFT + (Segment(fold, actor).value + "-");
      HeadsApart(DRAFT, Segment(fold, actor).value + "-", AfterHead(fold, other, name, now));
    }
  }

  lemma BeforeDash(a: string, b: string, rest: string)
    requires '-' !in a && '-' !in b
    ensures a + "-" <= b + "-" + rest <==> a == b
  {
    if a + "-" <= b + "-" + rest {
      assert (b + "-" + rest)[|a|] == '-' && (b + "-" + rest)[|b|] == '-';
      assert forall i :: 0 <= i < |b| ==> (b + "-" + rest)[i] == b[i];
      assert forall i :: 0 <= i < |a| ==> (b + "-" + rest)[i] == a[i];
      assert |a| == |b|;
      assert a == (b + "-" + rest)[..|a|] == b;
    }
    if a == b {
      assert (b + "-" + rest)[..|a| + 1] == a + "-";
    }
  }

  /** Between actors whose segments have no dash, ids are told apart: recognised exactly by the actor they were made for. */
  lemma OwnersApart(fold: string -> string, actor: string, other: string, name: string, now: Moment)
    requires Segment(fold, actor).Some? && Segment(fold, other).Some? && '-' !in Segment(fold, actor).value && '-' !in Segment(fold, other).value
    requires SafeCourseId(CreateProvisional(fold, other, name, now))
    ensures IsProvisionalFor(fold, CreateProvisional(fold, other, name, now), actor) <==> Segment(fold, actor) == Segment(fold, other)
  {
    RecognisedIff(fold, actor, other, name, now);
    BeforeDash(Segment(fold, actor).value, Segment(fold, other).value, CourseSegment(fold, name) + "-" + Stamp(now));
  }

  /** With dashes they are not: whose segment goes on after another's with a dash makes ids that the other recognises. */
  lemma DashesConfuseOwners(fold: string -> string, actor: string, other: string, tail: string, name: string, now: Moment)
    requires Segment(fold, actor).Some? && Segment(fold, other) == Some(Segment(fold, actor).value + "-" + tail)
    requires SafeCourseId(CreateProvisional(fold, other, name, now))
    ensures Segment(fold, actor) != Segment(fold, other) && IsProvisionalFor(fold, CreateProvisional(fold, other, name, now), actor)
  {
    RecognisedIff(fold, actor, other, name, now);
    GoesOn(Segment(fold, actor).value, tail, CourseSegment(fold, name) + "-" + Stamp(now));
  }

  lemma GoesOn(a: string, tail: string, rest: string)
    ensures a + "-" <= a + "-" + tail + "-" + rest && a != a + "-" + tail
  {
    assert |a + "-" + tail| > |a|;
  }

  /** For years 0 to 9999 the two segments may have 82 characters together. */
  lemma OwnProvisionalBound(fold: string -> string, actor: string, name: string, now: Moment)
    requires 0 <= now.year <= 9999
    ensures IsProvisionalFor(fold, CreateProvisional(fold, actor, name, now), actor) <==>
      Segment(fold, actor).Some? && |Segment(fold, actor).value| + |CourseSegment(fold, name)| <= 82
  {
    OwnProvisionalIff(fold, actor, name, now);
    StampLength(now);
  }
}

/**
 * The two string operations of the learning loop that decide whether two texts count as equal:
 * `String.prototype.trim`, and the normalisation the server applies to every saved text
 * (line breaks folded to "\n", then trimmed).
 */
module JsText {
  /** White space and line terminators as `trim` removes them. */
  predicate IsSpace(c: char) {
    || '\t' <= c <= '\r'
    || c == ' '
    || c == '\U{00A0}'
    || c == '\U{1680}'
    || '\U{2000}' <= c <= '\U{200A}'
    || '\U{2028}' <= c <= '\U{2029}'
    || c == '\U{202F}'
    || c == '\U{205F}'
    || c == '\U{3000}'
    || c == '\U{FEFF}'
  }

  /** The white space and line terminators of ECMAScript (sections 12.2 and 12.3 of ECMA-262), one by one. */
  const SPACES: string :=
    "\U{0009}\U{000A}\U{000B}\U{000C}\U{000D}\U{0020}\U{00A0}\U{1680}\U{2000}\U{2001}\U{2002}\U{2003}\U{2004}" +
    "\U{2005}\U{2006}\U{2007}\U{2008}\U{2009}\U{200A}\U{2028}\U{2029}\U{202F}\U{205F}\U{3000}\U{FEFF}"

  lemma SpacesAreListed(c: char)
    ensures IsSpace(c) <==> c in SPACES
  {
    var i := c as int;
    assert 9 <= i <= 13 || i == 0x20 || i == 0xA0 || i == 0x1680 || 0x2000 <= i <= 0x200A || 0x2028 <= i <= 0x2029 || i > 0x2029 || !IsSpace(c);
  }

  /** An ASCII letter or digit. */
  predicate IsLetterOrDigit(c: char) {
    'A' <= c <= 'Z' || 'a' <= c <= 'z' || '0' <= c <= '9'
  }

  /** The alphabet of ids, keys and codes: `[A-Za-z0-9._-]`. */
  predicate IsNameChar(c: char) {
    IsLetterOrDigit(c) || c == '.' || c == '_' || c == '-'
  }

  function TrimStart(s: string): string {
    if s != [] && IsSpace(s[0]) then TrimStart(s[1..]) else s
  }

  function TrimEnd(s: string): string {
    if s != [] && IsSpace(s[|s| - 1]) then TrimEnd(s[..|s| - 1]) else s
  }

  function Trim(s: string): string {
    TrimEnd(TrimStart(s))
  }

  /** Every "\r\n" and every lone "\r" becomes "\n". */
  function FoldBreaks(s: string): string {
    if s == [] then []
    else if s[0] == '\r' then ['\n'] + FoldBreaks(if |s| > 1 && s[1] == '\n' then s[2..] else s[1..])
    else [s[0]] + FoldBreaks(s[1..])
  }

  function Normalize(s: string): string {
    Trim(FoldBreaks(s))
  }

  ghost predicate Trimmed(s: string) {
    s == [] || (!IsSpace(s[0]) && !IsSpace(s[|s| - 1]))
  }

  /** `part` occurs in `whole` as one uninterrupted stretch. */
  ghost predicate Contains(whole: string, part: string) {
    exists i, j :: 0 <= i <= j <= |whole| && whole[i..j] == part
  }

  lemma {:induction false} TrimStartSuffix(s: string) returns (i: nat)
    ensures i <= |s| && TrimStart(s) == s[i..]
    ensures i < |s| ==> !IsSpace(s[i])
    ensures forall k :: 0 <= k < i ==> IsSpace(s[k])
  {
    if s != [] && IsSpace(s[0]) {
      var j := TrimStartSuffix(s[1..]);
      i := j + 1;
      assert s[1..][j..] == s[i..];
      assert forall k :: 1 <= k < i ==> s[k] == s[1..][k - 1];
    } else {
      i := 0;
    }
  }

  lemma {:induction false} TrimEndPrefix(s: string) returns (j: nat)
    ensures j <= |s| && TrimEnd(s) == s[..j]
    ensures j > 0 ==> !IsSpace(s[j - 1])
    ensures forall k :: j <= k < |s| ==> IsSpace(s[k])
  {
    if s != [] && IsSpace(s[|s| - 1]) {
      j := TrimEndPrefix(s[..|s| - 1]);
      assert s[..|s| - 1][..j] == s[..j];
    } else {
      j := |s|;
    }
  }

  /** Trimming cuts a stretch out of the text whose two ends are not white space. */
  lemma TrimIsStretch(s: string)
    ensures Trimmed(Trim(s)) && Contains(s, Trim(s))
  {
    var i := TrimStartSuffix(s);
    var j := TrimEndPrefix(TrimStart(s));
    assert s[i..][..j] == s[i..i + j];
  }

  lemma TrimmedIsFixed(s: string)
    requires Trimmed(s)
    ensures Trim(s) == s
  {
  }

  lemma {:induction false} FoldBreaksHasNoReturn(s: string)
    ensures '\r' !in FoldBreaks(s)
  {
    if s != [] {
      FoldBreaksHasNoReturn(if s[0] == '\r' && |s| > 1 && s[1] == '\n' then s[2..] else s[1..]);
    }
  }

  lemma {:induction false} FoldBreaksFixed(s: string)
    requires '\r' !in s
    ensures FoldBreaks(s) == s
  {
    if s != [] {
      FoldBreaksFixed(s[1..]);
    }
  }

  /** A text that was saved once is not changed by saving it again. */
  lemma NormalizeIdempotent(s: string)
    ensures Normalize(Normalize(s)) == Normalize(s)
  {
    FoldBreaksHasNoReturn(s);
    TrimIsStretch(FoldBreaks(s));
    FoldBreaksFixed(Normalize(s));
    TrimmedIsFixed(Normalize(s));
  }

  /** One character, or one pair, at a time. */
  lemma FoldBreaksStep(s: string, n: nat, c: char)
    requires s != [] && n == (if s[0] == '\r' && |s| > 1 && s[1] == '\n' then 2 else 1) && c == (if s[0] == '\r' then '\n' else s[0])
    ensures FoldBreaks(s) == [c] + FoldBreaks(s[n..])
  {
  }

  lemma {:induction false} FoldBreaksConcat(a: string, b: string)
    requires a == [] || a[|a| - 1] != '\r'
    ensures FoldBreaks(a + b) == FoldBreaks(a) + FoldBreaks(b)
  {
    if a == [] {
      assert a + b == b;
    } else {
      var n := if a[0] == '\r' && |a| > 1 && a[1] == '\n' then 2 else 1;
      var c := if a[0] == '\r' then '\n' else a[0];
      assert (a + b)[n..] == a[n..] + b && (a + b)[0] == a[0];
      assert n == if (a + b)[0] == '\r' && |a + b| > 1 && (a + b)[1] == '\n' then 2 else 1;
      FoldBreaksStep(a, n, c);
      FoldBreaksStep(a + b, n, c);
      FoldBreaksConcat(a[n..], b);
      OneInFront(c, FoldBreaks(a[n..]), FoldBreaks(b));
    }
  }

  lemma OneInFront(c: char, x: string, y: string)
    ensures [c] + (x + y) == [c] + x + y
  {
  }

  /** A text with a line break in it. */
  function Broken(x: string, mark: string, y: string): string {
    x + mark + y
  }

  /** A Windows line break counts as one, wherever it stands. */
  lemma FoldsPairs(x: string, y: string)
    requires x == [] || x[|x| - 1] != '\r'
    ensures FoldBreaks(Broken(x, "\r\n", y)) == FoldBreaks(Broken(x, "\n", y))
  {
    assert Broken(x, "\r\n", y) == x + ("\r\n" + y) && Broken(x, "\n", y) == x + ("\n" + y);
    FoldBreaksConcat(x, "\r\n" + y);
    FoldBreaksConcat(x, "\n" + y);
    assert ("\r\n" + y)[2..] == y && ("\n" + y)[1..] == y;
  }

  /** So does a lone carriage return. */
  lemma FoldsReturns(x: string, y: string)
    requires (x == [] || x[|x| - 1] != '\r') && (y == [] || y[0] != '\n')
    ensures FoldBreaks(Broken(x, "\r", y)) == FoldBreaks(Broken(x, "\n", y))
  {
    assert Broken(x, "\r", y) == x + ("\r" + y) && Broken(x, "\n", y) == x + ("\n" + y);
    FoldBreaksConcat(x, "\r" + y);
    FoldBreaksConcat(x, "\n" + y);
    assert ("\r" + y)[1..] == y && ("\n" + y)[1..] == y;
  }

  /** The first carriage return of a text, and what stands around its line break. */
  lemma {:induction false} FirstReturn(s: string) returns (x: string, y: string)
    requires '\r' in s
    ensures '\r' !in x
    ensures s == Broken(x, "\r\n", y) || (s == Broken(x, "\r", y) && (y == [] || y[0] != '\n'))
  {
    if s[0] == '\r' {
      x := [];
      y := if |s| > 1 && s[1] == '\n' then s[2..] else s[1..];
    } else {
      var x1, y1 := FirstReturn(s[1..]);
      x, y := [s[0]] + x1, y1;
      assert s == [s[0]] + s[1..];
    }
  }

  /** A folding: it leaves texts without a carriage return alone and reads every kind of line break as "\n". */
  ghost predicate Folds(fold: string -> string) {
    && (forall s: string :: '\r' !in s ==> fold(s) == s)
    && (forall x: string, y: string :: '\r' !in x ==> fold(Broken(x, "\r\n", y)) == fold(Broken(x, "\n", y)))
    && (forall x: string, y: string :: '\r' !in x && (y == [] || y[0] != '\n') ==> fold(Broken(x, "\r", y)) == fold(Broken(x, "\n", y)))
  }

  lemma OneReturnLess(s: string, x: string, y: string)
    requires s == Broken(x, "\r\n", y) || s == Broken(x, "\r", y)
    ensures multiset(Broken(x, "\n", y))['\r'] == multiset(s)['\r'] - 1
  {
    assert multiset("\n")['\r'] == 0 && multiset("\r")['\r'] == 1 && multiset("\r\n")['\r'] == 1;
  }

  /** There is only one folding: these three rules say what every text is stored as. */
  lemma {:induction false} OneFolding(fold: string -> string, s: string)
    requires Folds(fold)
    ensures fold(s) == FoldBreaks(s)
    decreases multiset(s)['\r']
  {
    if '\r' in s {
      var x, y := FirstReturn(s);
      OneReturnLess(s, x, y);
      OneFolding(fold, Broken(x, "\n", y));
      if s == Broken(x, "\r\n", y) {
        FoldsPairs(x, y);
      } else {
        FoldsReturns(x, y);
      }
    } else {
      FoldBreaksFixed(s);
    }
  }

  lemma FoldBreaksFolds()
    ensures Folds(FoldBreaks)
  {
    forall s: string | '\r' !in s ensures FoldBreaks(s) == s {
      FoldBreaksFixed(s);
    }
    forall x: string, y: string | '\r' !in x ensures FoldBreaks(Broken(x, "\r\n", y)) == FoldBreaks(Broken(x, "\n", y)) {
      FoldsPairs(x, y);
    }
    forall x: string, y: string | '\r' !in x && (y == [] || y[0] != '\n')
      ensures FoldBreaks(Broken(x, "\r", y)) == FoldBreaks(Broken(x, "\n", y))
    {
      FoldsReturns(x, y);
    }
  }

  /** Texts that differ only in how they spell a line break have one normal form. */
  lemma NormalizeFoldsBreaks(x: string, y: string)
    requires x == [] || x[|x| - 1] != '\r'
    ensures Normalize(x + "\r\n" + y) == Normalize(x + "\n" + y)
    ensures y == [] || y[0] != '\n' ==> Normalize(x + "\r" + y) == Normalize(x + "\n" + y)
  {
    FoldsPairs(x, y);
    assert Broken(x, "\r\n", y) == x + "\r\n" + y && Broken(x, "\n", y) == x + "\n" + y;
    if y == [] || y[0] != '\n' {
      FoldsReturns(x, y);
      assert Broken(x, "\r", y) == x + "\r" + y;
    }
  }

  lemma SliceOfSlice(s: string, i: nat, j: nat, k: nat, l: nat)
    requires i <= j <= |s| && k <= l <= j - i
    ensures s[i..j][k..l] == s[i + k..i + l]
  {
    assert |s[i..j][k..l]| == |s[i + k..i + l]|;
    assert forall n :: 0 <= n < l - k ==> s[i..j][k..l][n] == s[i + k..i + l][n];
  }

  lemma ContainsTransitive(a: string, b: string, c: string)
    requires Contains(a, b) && Contains(b, c)
    ensures Contains(a, c)
  {
    var i, j :| 0 <= i <= j <= |a| && a[i..j] == b;
    var k, l :| 0 <= k <= l <= |b| && b[k..l] == c;
    SliceOfSlice(a, i, j, k, l);
  }

  /** `Trim` as one cut, with the white space on both sides of it. */
  lemma TrimBounds(s: string) returns (a: nat, b: nat)
    ensures a <= b <= |s| && Trim(s) == s[a..b]
    ensures forall k :: 0 <= k < a ==> IsSpace(s[k])
    ensures forall k :: b <= k < |s| ==> IsSpace(s[k])
  {
    a := TrimStartSuffix(s);
    var t := s[a..];
    var j := TrimEndPrefix(t);
    b := a + j;
    assert t[..j] == s[a..b];
    forall k | b <= k < |s| ensures IsSpace(s[k]) {
      assert s[k] == t[k - a];
    }
  }

  /** A stretch with clean ends is never cut by trimming the text around it. */
  lemma TrimKeepsStretch(whole: string, part: string)
    requires Contains(whole, part) && Trimmed(part)
    ensures Contains(Trim(whole), part)
  {
    var i, j :| 0 <= i <= j <= |whole| && whole[i..j] == part;
    var a, b := TrimBounds(whole);
    if i == j {
      assert Trim(whole)[0..0] == part;
    } else {
      StretchInside(whole, i, j, a, b);
      SliceOfSlice(whole, a, b, i - a, j - a);
    }
  }

  lemma StretchInside(whole: string, i: nat, j: nat, a: nat, b: nat)
    requires i < j <= |whole| && Trimmed(whole[i..j])
    requires a <= b <= |whole|
    requires forall k :: 0 <= k < a ==> IsSpace(whole[k])
    requires forall k :: b <= k < |whole| ==> IsSpace(whole[k])
    ensures a <= i && j <= b
  {
    assert whole[i..j][0] == whole[i];
    assert whole[i..j][j - i - 1] == whole[j - 1];
  }

  /** Joining with `:` can be undone if the first part has none. */
  lemma SplitAtColon(a: string, b: string, x: string, y: string)
    requires ':' !in a && ':' !in b && a + ":" + x == b + ":" + y
    ensures a == b && x == y
  {
    assert (a + ":" + x)[|a|] == ':' && (b + ":" + y)[|b|] == ':';
    assert forall i :: 0 <= i < |a| ==> (a + ":" + x)[i] == a[i];
    assert forall i :: 0 <= i < |b| ==> (b + ":" + y)[i] == b[i];
    assert |a| == |b|;
    assert a == (a + ":" + x)[..|a|] && b == (b + ":" + y)[..|b|];
    assert x == (a + ":" + x)[|a| + 1..] && y == (b + ":" + y)[|b| + 1..];
  }

  /** A stored text that is not this one. */
  function OtherText(text: string): (other: string)
    ensures other != text && Normalize(other) == other
  {
    assert Normalize("") == "" && Normalize("x") == "x";
    if text == "" then "x" else ""
  }
}

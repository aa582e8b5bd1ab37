/**
 * Idempotency keys of teaching operations: five sanitised parts and a nonce, at most 120
 * characters. The nonce is a parameter.
 */
module IdempotencyKey {
  import opened Prelude
  import opened JsText
  import opened Slugs

  datatype Input = Input(operation: string, slot: string, course: Option<string>, source: Option<string>)

  const MAX := 120
  const HEAD := "teaching-operation"

  predicate Edge(c: char) {
    c == '-' || c == '.' || c == '_'
  }

  function Sanitize(value: string): string {
    Or(Take(StripStart(c => !IsLetterOrDigit(c), Squeeze(IsNameChar, Trim(value))), 64), "unspecified")
  }

  function Parts(input: Input): seq<string> {
    [HEAD, input.operation, input.slot,
     if input.course.Some? then input.course.value else "course-unspecified",
     if input.source.Some? then input.source.value else "source-unspecified"]
  }

  /** `parts.map(sanitize).join("-")`. */
  function Joined(parts: seq<string>): string
    requires parts != []
  {
    if |parts| == 1 then Sanitize(parts[0]) else Sanitize(parts[0]) + ("-" + Joined(parts[1..]))
  }

  function Prefix(input: Input): string {
    Joined(Parts(input))
  }

  function CreateKey(input: Input, nonce: string): string
    requires |nonce| < MAX
  {
    var prefix := Prefix(input);
    var full := prefix + "-" + nonce;
    if |full| <= MAX then full
    else Or(StripEnd(Edge, Take(prefix, MAX - |nonce| - 1)), HEAD) + "-" + nonce
  }

  // ---------------------------------------------------------------- one part

  lemma SanitizeSafe(value: string)
    ensures Over(IsNameChar, Sanitize(value)) && 1 <= |Sanitize(value)| <= 64 && IsLetterOrDigit(Sanitize(value)[0])
  {
    var squeezed := Squeeze(IsNameChar, Trim(value));
    SqueezeOver(IsNameChar, Trim(value));
    StripStartSuffix(c => !IsLetterOrDigit(c), squeezed);
  }

  /** A part in key form: it is used as it is. */
  predicate Clean(value: string) {
    1 <= |value| <= 64 && IsLetterOrDigit(value[0]) && forall i :: 0 <= i < |value| ==> IsNameChar(value[i])
  }

  lemma CleanIsKept(value: string)
    requires Clean(value)
    ensures Sanitize(value) == value
  {
    TrimmedIsFixed(value);
    SqueezeKept(IsNameChar, value);
  }

  /** A blank part is spelt out. */
  lemma BlankIsSpelt(value: string)
    requires Trim(value) == ""
    ensures Sanitize(value) == "unspecified"
  {
  }

  lemma SanitizeHead()
    ensures Sanitize(HEAD) == HEAD
  {
    TrimmedIsFixed(HEAD);
    SqueezeKept(IsNameChar, HEAD);
  }

  lemma OverConcat(class_: char -> bool, a: string, b: string)
    requires Over(class_, a) && Over(class_, b)
    ensures Over(class_, a + b)
  {
  }

  lemma {:induction false} JoinedShape(parts: seq<string>)
    requires parts != []
    ensures Over(IsNameChar, Joined(parts)) && Sanitize(parts[0]) <= Joined(parts)
  {
    SanitizeSafe(parts[0]);
    if |parts| > 1 {
      JoinedShape(parts[1..]);
      OverConcat(IsNameChar, "-", Joined(parts[1..]));
      OverConcat(IsNameChar, Sanitize(parts[0]), "-" + Joined(parts[1..]));
    }
  }

  lemma PrefixShape(input: Input)
    ensures HEAD <= Prefix(input) && Over(IsNameChar, Prefix(input))
  {
    SanitizeHead();
    JoinedShape(Parts(input));
  }

  /** The parts of an operation whose fields are all in key form, one after the other. */
  function PlainPrefix(operation: string, slot: string, course: string, source: string): string {
    "teaching-operation" + ("-" + (operation + ("-" + (slot + ("-" + (course + ("-" + source)))))))
  }

  /** Such an operation's key names it in full, as long as that fits: so different operations have different keys. */
  lemma PlainKey(operation: string, slot: string, course: string, source: string, nonce: string)
    requires Clean(operation) && Clean(slot) && Clean(course) && Clean(source)
    requires |PlainPrefix(operation, slot, course, source)| + 1 + |nonce| <= 120
    ensures CreateKey(Input(operation, slot, Some(course), Some(source)), nonce) == PlainPrefix(operation, slot, course, source) + "-" + nonce
  {
    var input := Input(operation, slot, Some(course), Some(source));
    PlainParts(input, operation, slot, course, source);
    assert |Prefix(input) + "-" + nonce| <= 120;
  }

  lemma PlainParts(input: Input, operation: string, slot: string, course: string, source: string)
    requires Parts(input) == ["teaching-operation", operation, slot, course, source]
    requires Clean(operation) && Clean(slot) && Clean(course) && Clean(source)
    ensures Prefix(input) == PlainPrefix(operation, slot, course, source)
  {
    SanitizeHead();
    CleanIsKept(operation);
    CleanIsKept(slot);
    CleanIsKept(course);
    CleanIsKept(source);
    var two := JoinedBefore(course, [source]);
    var three := JoinedBefore(slot, [course, source]);
    var four := JoinedBefore(operation, [slot, course, source]);
    var five := JoinedBefore(HEAD, [operation, slot, course, source]);
  }

  /** One part in front of the others. */
  lemma JoinedBefore(part: string, rest: seq<string>) returns (joined: string)
    requires rest != []
    ensures joined == Joined([part] + rest) == Sanitize(part) + ("-" + Joined(rest))
  {
    joined := Joined([part] + rest);
    assert ([part] + rest)[1..] == rest;
  }

  /** A missing course or source is spelt out like a blank one. */
  lemma MissingAreSpelt(input: Input)
    ensures |Parts(input)| == 5 && Parts(input)[0] == "teaching-operation" && Parts(input)[1] == input.operation && Parts(input)[2] == input.slot
    ensures Parts(input)[3] == (if input.course.Some? then input.course.value else "course-unspecified")
    ensures Parts(input)[4] == (if input.source.Some? then input.source.value else "source-unspecified")
  {
  }

  // ---------------------------------------------------------------- the whole key

  /** The shortened prefix keeps the whole head, so the fallback is never taken. */
  lemma ShortenedKeepsHead(prefix: string, budget: nat)
    requires HEAD <= prefix && budget >= |HEAD|
    ensures HEAD <= StripEnd(Edge, Take(prefix, budget))
  {
    var cut := Take(prefix, budget);
    StripEndPrefix(Edge, cut);
    assert cut[|HEAD| - 1] == HEAD[|HEAD| - 1] == 'n';
    var t := StripEnd(Edge, cut);
    assert |t| > |HEAD| - 1;
    assert t[..|HEAD|] == cut[..|HEAD|] == HEAD;
  }

  lemma KeptShape(prefix: string, budget: nat)
    requires HEAD <= prefix && Over(IsNameChar, prefix) && budget >= |HEAD|
    ensures var kept := StripEnd(Edge, Take(prefix, budget));
      HEAD <= kept && Over(IsNameChar, kept) && |kept| <= budget && kept != []
  {
    ShortenedKeepsHead(prefix, budget);
    StripEndPrefix(Edge, Take(prefix, budget));
  }

  /** At most 120 key characters, the head in front, and the whole nonce at the end. */
  ghost predicate Shaped(key: string, nonce: string) {
    && |HEAD| + 1 + |nonce| <= |key| <= MAX && Over(IsNameChar, key) && HEAD <= key
    && key[|key| - |nonce| - 1..] == "-" + nonce
  }

  lemma Appended(kept: string, nonce: string)
    requires HEAD <= kept && Over(IsNameChar, kept) && Over(IsNameChar, nonce) && |kept| + 1 + |nonce| <= MAX
    ensures Shaped(kept + "-" + nonce, nonce)
  {
    OverConcat(IsNameChar, kept, "-");
    OverConcat(IsNameChar, kept + "-", nonce);
    assert (kept + "-" + nonce)[|kept|..] == "-" + nonce;
  }

  /** The part of the key in front of the nonce. */
  ghost predicate KeptIn(input: Input, nonce: string, kept: string) {
    && |nonce| < MAX && CreateKey(input, nonce) == kept + "-" + nonce
    && HEAD <= kept && Over(IsNameChar, kept) && |kept| + 1 + |nonce| <= MAX
  }

  lemma KeptPart(input: Input, nonce: string) returns (kept: string)
    requires |nonce| <= 101 && HEAD <= Prefix(input) && Over(IsNameChar, Prefix(input))
    ensures KeptIn(input, nonce, kept)
  {
    var prefix := Prefix(input);
    if |prefix + "-" + nonce| <= MAX {
      kept := prefix;
    } else {
      KeptShape(prefix, MAX - |nonce| - 1);
      kept := StripEnd(Edge, Take(prefix, MAX - |nonce| - 1));
    }
  }

  lemma KeptIsShaped(input: Input, nonce: string, kept: string)
    requires KeptIn(input, nonce, kept) && Over(IsNameChar, nonce)
    ensures Shaped(CreateKey(input, nonce), nonce)
  {
    Appended(kept, nonce);
  }

  /**
   * For all inputs and every nonce of up to 101 key characters (the nonces in use have at most
   * 18): at most 120 characters of the key alphabet, the head in front, the whole nonce at the
   * end, and no use of the fallback for an empty prefix.
   */
  lemma KeyShape(input: Input, nonce: string)
    requires |nonce| <= 101 && Over(IsNameChar, nonce)
    ensures Shaped(CreateKey(input, nonce), nonce)
    ensures StripEnd(Edge, Take(Prefix(input), MAX - |nonce| - 1)) != []
  {
    PrefixShape(input);
    KeptShape(Prefix(input), MAX - |nonce| - 1);
    var kept := KeptPart(input, nonce);
    KeptIsShaped(input, nonce, kept);
  }

  /** Distinct nonces of one length never give the same key, whatever the inputs. */
  lemma NoncesSeparate(a: Input, x: string, b: Input, y: string)
    requires |x| == |y| <= 101 && Over(IsNameChar, x) && Over(IsNameChar, y) && x != y
    ensures CreateKey(a, x) != CreateKey(b, y)
  {
    KeyShape(a, x);
    KeyShape(b, y);
    assert ("-" + x)[1..] == x && ("-" + y)[1..] == y;
  }

  /** The bound on the nonce is needed: from 119 characters on the fallback makes the key too long. */
  lemma LongNonceOverflows(input: Input, nonce: string)
    requires |nonce| == 119
    ensures |CreateKey(input, nonce)| == 138 && HEAD <= CreateKey(input, nonce)
  {
    PrefixShape(input);
    assert Take(Prefix(input), 0) == [];
  }
}

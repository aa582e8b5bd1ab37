/**
 * `encodeURIComponent` and `decodeURIComponent` (percent-encoding, section 2.1 of RFC 3986, over
 * UTF-8). Strings are sequences of Unicode scalar values; lone surrogates are not part of the model.
 */
module UriComponent {
  import opened Prelude
  import opened JsText

  predicate Unreserved(c: char) {
    IsLetterOrDigit(c) || c in {'-', '_', '.', '!', '~', '*', '\'', '(', ')'}
  }

  function HexDigit(n: nat): char
    requires n < 16
  {
    "0123456789ABCDEF"[n]
  }

  function HexValue(c: char): Option<nat> {
    if '0' <= c <= '9' then Some(c as nat - '0' as nat)
    else if 'A' <= c <= 'F' then Some(c as nat - 'A' as nat + 10)
    else if 'a' <= c <= 'f' then Some(c as nat - 'a' as nat + 10)
    else None
  }

  function PercentByte(b: nat): string
    requires b < 256
  {
    ['%', HexDigit(b / 16), HexDigit(b % 16)]
  }

  function Escapes2(x: nat, y: nat): (r: string)
    requires x < 32 && y < 64
    ensures |r| == 6
  {
    PercentByte(0xC0 + x) + PercentByte(0x80 + y)
  }

  function Escapes3(x: nat, y: nat, z: nat): (r: string)
    requires x < 16 && y < 64 && z < 64
    ensures |r| == 9
  {
    PercentByte(0xE0 + x) + PercentByte(0x80 + y) + PercentByte(0x80 + z)
  }

  function Escapes4(x: nat, y: nat, z: nat, w: nat): (r: string)
    requires x < 8 && y < 64 && z < 64 && w < 64
    ensures |r| == 12
  {
    PercentByte(0xF0 + x) + PercentByte(0x80 + y) + PercentByte(0x80 + z) + PercentByte(0x80 + w)
  }

  function EncodeChar(c: char): string {
    var p := c as nat;
    if Unreserved(c) then [c]
    else if p < 0x80 then PercentByte(p)
    else if p < 0x800 then Escapes2(p / 64, p % 64)
    else if p < 0x10000 then Escapes3(p / 4096, p / 64 % 64, p % 64)
    else Escapes4(p / 262144, p / 4096 % 64, p / 64 % 64, p % 64)
  }

  function Encode(s: string): string {
    if s == [] then [] else EncodeChar(s[0]) + Encode(s[1..])
  }

  function ByteAt(s: string, i: nat): Option<nat> {
    if i + 2 < |s| && s[i] == '%' && HexValue(s[i + 1]).Some? && HexValue(s[i + 2]).Some?
    then Some(16 * HexValue(s[i + 1]).value + HexValue(s[i + 2]).value) else None
  }

  /** A continuation byte's six bits. */
  function TailAt(s: string, i: nat): Option<nat> {
    var b := ByteAt(s, i);
    if b.Some? && 0x80 <= b.value < 0xC0 then Some(b.value - 0x80) else None
  }

  /** The first decoded character and the number of characters it takes up; `None` is a malformed escape. */
  function DecodeOne(s: string): (r: Option<(char, nat)>)
    requires s != []
    ensures r.Some? ==> 1 <= r.value.1 <= |s|
  {
    if s[0] != '%' then Some((s[0], 1))
    else
      var lead := ByteAt(s, 0);
      if lead == None then None
      else if lead.value < 0x80 then Some((lead.value as char, 3))
      else if lead.value < 0xC2 || lead.value >= 0xF5 || TailAt(s, 3) == None then None
      else if lead.value < 0xE0 then Some((((lead.value - 0xC0) * 64 + TailAt(s, 3).value) as char, 6))
      else if TailAt(s, 6) == None then None
      else if lead.value < 0xF0 then
        var p := (lead.value - 0xE0) * 4096 + TailAt(s, 3).value * 64 + TailAt(s, 6).value;
        if p < 0x800 || 0xD800 <= p < 0xE000 then None else Some((p as char, 9))
      else if TailAt(s, 9) == None then None
      else
        var p := (lead.value - 0xF0) * 262144 + TailAt(s, 3).value * 4096 + TailAt(s, 6).value * 64 + TailAt(s, 9).value;
        if p < 0x10000 || p > 0x10FFFF then None else Some((p as char, 12))
  }

  function Decode(s: string): Option<string> {
    if s == [] then Some([])
    else
      var first := DecodeOne(s);
      if first == None then None
      else
        var rest := Decode(s[first.value.1..]);
        if rest == None then None else Some([first.value.0] + rest.value)
  }

  lemma HexRoundTrip(n: nat)
    requires n < 16
    ensures HexValue(HexDigit(n)) == Some(n)
  {
  }

  lemma ByteRoundTrip(before: string, b: nat, after: string)
    requires b < 256
    ensures ByteAt(before + PercentByte(b) + after, |before|) == Some(b)
  {
    var s := before + PercentByte(b) + after;
    var i := |before|;
    HexRoundTrip(b / 16);
    HexRoundTrip(b % 16);
    assert s[i] == '%' && s[i + 1] == HexDigit(b / 16) && s[i + 2] == HexDigit(b % 16);
  }

  lemma ThreeBytesAt(a: nat, b: nat, c: nat, rest: string)
    requires a < 256 && b < 256 && c < 256
    ensures var s := PercentByte(a) + PercentByte(b) + PercentByte(c) + rest;
      s[0] == '%' && ByteAt(s, 0) == Some(a) && ByteAt(s, 3) == Some(b) && ByteAt(s, 6) == Some(c)
  {
    var pa, pb, pc := PercentByte(a), PercentByte(b), PercentByte(c);
    var s := pa + pb + pc + rest;
    ByteRoundTrip([], a, pb + pc + rest);
    assert s == [] + pa + (pb + pc + rest);
    ByteRoundTrip(pa, b, pc + rest);
    assert s == pa + pb + (pc + rest);
    ByteRoundTrip(pa + pb, c, rest);
  }

  lemma FourBytesAt(a: nat, b: nat, c: nat, d: nat, rest: string)
    requires a < 256 && b < 256 && c < 256 && d < 256
    ensures var s := PercentByte(a) + PercentByte(b) + PercentByte(c) + PercentByte(d) + rest;
      s[0] == '%' && ByteAt(s, 0) == Some(a) && ByteAt(s, 3) == Some(b) && ByteAt(s, 6) == Some(c) && ByteAt(s, 9) == Some(d)
  {
    var front, pd := PercentByte(a) + PercentByte(b) + PercentByte(c), PercentByte(d);
    ThreeBytesAt(a, b, c, pd + rest);
    assert front + pd + rest == front + (pd + rest);
    ByteRoundTrip(front, d, rest);
  }

  lemma OneByte(p: nat, rest: string)
    requires p < 0x80
    ensures DecodeOne(PercentByte(p) + rest) == Some((p as char, 3))
  {
    ByteRoundTrip([], p, rest);
    assert [] + PercentByte(p) + rest == PercentByte(p) + rest;
  }

  lemma DecodeTwo(s: string, x: nat, y: nat, p: nat)
    requires 2 <= x < 32 && y < 64 && p == x * 64 + y && s != [] && s[0] == '%'
    requires ByteAt(s, 0) == Some(0xC0 + x) && ByteAt(s, 3) == Some(0x80 + y)
    ensures DecodeOne(s) == Some((p as char, 6))
  {
  }

  lemma TwoPrinted(x: nat, y: nat, p: nat, rest: string)
    requires 2 <= x < 32 && y < 64 && p == x * 64 + y
    ensures DecodeOne(Escapes2(x, y) + rest) == Some((p as char, 6))
  {
    var a, b := PercentByte(0xC0 + x), PercentByte(0x80 + y);
    var s := a + b + rest;
    ByteRoundTrip([], 0xC0 + x, b + rest);
    assert s == [] + a + (b + rest);
    ByteRoundTrip(a, 0x80 + y, rest);
    assert s == Escapes2(x, y) + rest;
    DecodeTwo(s, x, y, p);
  }

  lemma DecodeThree(s: string, x: nat, y: nat, z: nat, p: nat)
    requires x < 16 && y < 64 && z < 64 && p == x * 4096 + y * 64 + z
    requires 0x800 <= p && !(0xD800 <= p < 0xE000) && s != [] && s[0] == '%'
    requires ByteAt(s, 0) == Some(0xE0 + x) && ByteAt(s, 3) == Some(0x80 + y) && ByteAt(s, 6) == Some(0x80 + z)
    ensures DecodeOne(s) == Some((p as char, 9))
  {
  }

  lemma Escapes3At(x: nat, y: nat, z: nat, rest: string)
    requires x < 16 && y < 64 && z < 64
    ensures var s := Escapes3(x, y, z) + rest;
      s[0] == '%' && ByteAt(s, 0) == Some(0xE0 + x) && ByteAt(s, 3) == Some(0x80 + y) && ByteAt(s, 6) == Some(0x80 + z)
  {
    ThreeBytesAt(0xE0 + x, 0x80 + y, 0x80 + z, rest);
    assert Escapes3(x, y, z) == PercentByte(0xE0 + x) + PercentByte(0x80 + y) + PercentByte(0x80 + z);
  }

  lemma ThreePrinted(x: nat, y: nat, z: nat, p: nat, rest: string)
    requires x < 16 && y < 64 && z < 64 && p == x * 4096 + y * 64 + z
    requires 0x800 <= p && !(0xD800 <= p < 0xE000)
    ensures DecodeOne(Escapes3(x, y, z) + rest) == Some((p as char, 9))
  {
    Escapes3At(x, y, z, rest);
    DecodeThree(Escapes3(x, y, z) + rest, x, y, z, p);
  }

  /** Cutting a code point into groups of six bits. */
  lemma Split(p: nat)
    ensures p == p / 4096 * 4096 + p / 64 % 64 * 64 + p % 64
    ensures p / 4096 == p / 262144 * 64 + p / 4096 % 64
  {
    var q := p / 64;
    assert p == q * 64 + p % 64;
    assert q == q / 64 * 64 + q % 64;
    assert p / 4096 == q / 64;
    var r := p / 4096;
    assert r == r / 64 * 64 + r % 64;
    assert p / 262144 == r / 64;
  }

  lemma DecodeFour(s: string, x: nat, y: nat, z: nat, w: nat, p: nat)
    requires x < 5 && y < 64 && z < 64 && w < 64 && p == x * 262144 + y * 4096 + z * 64 + w
    requires 0x10000 <= p <= 0x10FFFF && s != [] && s[0] == '%'
    requires ByteAt(s, 0) == Some(0xF0 + x) && ByteAt(s, 3) == Some(0x80 + y)
    requires ByteAt(s, 6) == Some(0x80 + z) && ByteAt(s, 9) == Some(0x80 + w)
    ensures DecodeOne(s) == Some((p as char, 12))
  {
  }

  lemma SplitHigh(p: nat)
    requires p <= 0x10FFFF
    ensures p / 262144 < 5
    ensures p == p / 262144 * 262144 + p / 4096 % 64 * 4096 + p / 64 % 64 * 64 + p % 64
  {
    Split(p);
  }

  lemma FourPrinted(x: nat, y: nat, z: nat, w: nat, p: nat, rest: string)
    requires x < 5 && y < 64 && z < 64 && w < 64 && p == x * 262144 + y * 4096 + z * 64 + w
    requires 0x10000 <= p <= 0x10FFFF
    ensures DecodeOne(Escapes4(x, y, z, w) + rest) == Some((p as char, 12))
  {
    FourBytesAt(0xF0 + x, 0x80 + y, 0x80 + z, 0x80 + w, rest);
    var s := PercentByte(0xF0 + x) + PercentByte(0x80 + y) + PercentByte(0x80 + z) + PercentByte(0x80 + w) + rest;
    assert s == Escapes4(x, y, z, w) + rest;
    DecodeFour(s, x, y, z, w, p);
  }

  lemma CharRoundTrip(c: char, rest: string)
    ensures DecodeOne(EncodeChar(c) + rest) == Some((c, |EncodeChar(c)|))
  {
    var p := c as nat;
    if Unreserved(c) {
      assert EncodeChar(c) == [c];
    } else if p < 0x80 {
      OneByte(p, rest);
    } else if p < 0x800 {
      TwoPrinted(p / 64, p % 64, p, rest);
    } else if p < 0x10000 {
      Split(p);
      ThreePrinted(p / 4096, p / 64 % 64, p % 64, p, rest);
    } else {
      Split(p);
      SplitHigh(p);
      FourPrinted(p / 262144, p / 4096 % 64, p / 64 % 64, p % 64, p, rest);
    }
  }

  lemma DecodeStep(e: string, rest: string, c: char, t: string)
    requires e != [] && DecodeOne(e + rest) == Some((c, |e|)) && Decode(rest) == Some(t)
    ensures Decode(e + rest) == Some([c] + t)
  {
    assert (e + rest)[|e|..] == rest;
  }

  /** Every string comes back from its encoding. */
  lemma {:induction false} RoundTrip(s: string)
    ensures Decode(Encode(s)) == Some(s)
  {
    if s != [] {
      RoundTrip(s[1..]);
      CharRoundTrip(s[0], Encode(s[1..]));
      DecodeStep(EncodeChar(s[0]), Encode(s[1..]), s[0], s[1..]);
      assert s == [s[0]] + s[1..];
    }
  }

  /** Hence no two strings share an encoding. */
  lemma EncodeInjective(a: string, b: string)
    requires Encode(a) == Encode(b)
    ensures a == b
  {
    RoundTrip(a);
    RoundTrip(b);
  }

  predicate EncodedChar(c: char) {
    Unreserved(c) || c == '%'
  }

  lemma CharAlphabet(c: char)
    ensures forall i :: 0 <= i < |EncodeChar(c)| ==> EncodedChar(EncodeChar(c)[i])
  {
    forall n: nat | n < 16 ensures EncodedChar(HexDigit(n)) {
    }
    forall b: nat | b < 256 ensures forall i :: 0 <= i < 3 ==> EncodedChar(PercentByte(b)[i]) {
    }
  }

  lemma {:induction false} EncodedChars(s: string)
    ensures forall i :: 0 <= i < |Encode(s)| ==> EncodedChar(Encode(s)[i])
  {
    if s != [] {
      EncodedChars(s[1..]);
      CharAlphabet(s[0]);
    }
  }

  /** An encoding consists of unreserved characters and `%`; in particular it has no `:` and no `/`. */
  lemma EncodeAlphabet(s: string)
    ensures forall i :: 0 <= i < |Encode(s)| ==> EncodedChar(Encode(s)[i])
    ensures ':' !in Encode(s) && '/' !in Encode(s)
  {
    EncodedChars(s);
    assert !EncodedChar(':') && !EncodedChar('/');
  }

  /** What is left as it is: letters, digits and the nine marks of section 2.3 of RFC 2396. */
  predicate Plain(c: char) {
    'A' <= c <= 'Z' || 'a' <= c <= 'z' || '0' <= c <= '9' || c in "-_.!~*'()"
  }

  lemma PlainOrEscaped(c: char)
    ensures EncodeChar(c) == [c] <==> Plain(c)
    ensures EncodeChar(c) != [c] ==> EncodeChar(c)[0] == '%'
  {
  }

  /** One escaped byte: the sign and two upper-case hexadecimal digits. */
  predicate EscapedByte(s: string, b: nat) {
    && |s| == 3 && s[0] == '%' && b < 256
    && s[1] == "0123456789ABCDEF"[b / 16] && s[2] == "0123456789ABCDEF"[b % 16]
  }

  /** Every other ASCII character is one escaped byte, its own code. */
  lemma AsciiIsOneByte(c: char)
    requires c as int < 0x80 && !Plain(c)
    ensures EscapedByte(EncodeChar(c), c as int)
  {
    PlainOrEscaped(c);
  }

  /** Unreserved strings are their own encoding and decoding. */
  lemma {:induction false} PlainIsFixed(s: string)
    requires forall i :: 0 <= i < |s| ==> Unreserved(s[i])
    ensures Encode(s) == s && Decode(s) == Some(s)
  {
    if s != [] {
      PlainIsFixed(s[1..]);
      assert s == [s[0]] + s[1..];
    }
  }
}

/**
 * Download targets of the narration workflow: parsing an untrusted path and printing the
 * canonical one. The URL parser is the parameter `keeps`: whether it accepts the path and returns
 * it unchanged, with the expected origin, no query and no fragment.
 */
module DownloadTarget {
  import opened Prelude
  import opened JsText
  import opened UriComponent

  datatype Target = Export(manifest: string) | Audio(manifest: string, audio: string)

  const EXPORT := "/api/ai/ppt-narration/export/"
  const AUDIO := "/api/ai/ppt-narration/audio/"

  predicate SafeId(s: string) {
    s != [] && forall i :: 0 <= i < |s| ==> IsLetterOrDigit(s[i]) || s[i] == '_' || s[i] == '-'
  }

  predicate SafeTarget(t: Target) {
    SafeId(t.manifest) && (t.Audio? ==> SafeId(t.audio))
  }

  /** `downloadPath`. */
  function Print(t: Target): string {
    match t
    case Export(m) => EXPORT + Encode(m)
    case Audio(m, a) => AUDIO + Encode(m) + "/" + Encode(a)
  }

  /** A match of `[^/]+`. */
  predicate Segment(s: string) {
    s != [] && '/' !in s
  }

  function FirstSlash(s: string): (n: nat)
    ensures n <= |s| && '/' !in s[..n] && (n < |s| ==> s[n] == '/')
  {
    if s == [] || s[0] == '/' then 0 else FirstSlash(s[1..]) + 1
  }

  function After(prefix: string, s: string): Option<string> {
    if prefix <= s then Some(s[|prefix|..]) else None
  }

  function ParseExport(tail: string): Option<Target> {
    var id := Decode(tail);
    if id == None || !SafeId(id.value) then None else Some(Export(id.value))
  }

  function ParseAudio(manifest: string, audio: string): Option<Target> {
    var m, a := Decode(manifest), Decode(audio);
    if m == None || a == None || !SafeId(m.value) || !SafeId(a.value) then None else Some(Audio(m.value, a.value))
  }

  function Parse(keeps: string -> bool, url: string): Option<Target> {
    if !("/" <= url) || "//" <= url || '\\' in url then None
    else if !keeps(url) then None
    else
      var exported := After(EXPORT, url);
      if exported.Some? && Segment(exported.value) then ParseExport(exported.value)
      else
        var audio := After(AUDIO, url);
        if audio == None then None
        else
          var n := FirstSlash(audio.value);
          if n == |audio.value| || !Segment(audio.value[..n]) || !Segment(audio.value[n + 1..]) then None
          else ParseAudio(audio.value[..n], audio.value[n + 1..])
  }

  lemma SafeIsUnreserved(s: string)
    requires SafeId(s)
    ensures Encode(s) == s
  {
    PlainIsFixed(s);
  }

  /** The path of a safe target, character by character. */
  lemma PrintedPath(m: string, a: string)
    requires SafeId(m) && SafeId(a)
    ensures Print(Export(m)) == "/api/ai/ppt-narration/export/" + m
    ensures Print(Audio(m, a)) == "/api/ai/ppt-narration/audio/" + m + "/" + a
  {
    SafeIsUnreserved(m);
    SafeIsUnreserved(a);
  }

  /** The one law of the URL parser that is needed: a canonical path comes back unchanged. */
  ghost predicate KeepsCanonical(keeps: string -> bool) {
    forall t :: SafeTarget(t) ==> keeps(Print(t))
  }

  /** What the accepted paths look like, escapes included. */
  ghost predicate Spells(url: string, t: Target) {
    match t
    case Export(m) => exists seg :: Segment(seg) && url == EXPORT + seg && Decode(seg) == Some(m)
    case Audio(m, a) =>
      exists x, y :: Segment(x) && Segment(y) && url == AUDIO + x + "/" + y && Decode(x) == Some(m) && Decode(y) == Some(a)
  }

  lemma {:induction false} PlainCharDecodes(s: string, c: char)
    requires Decode(s).Some? && c in s && c != '%' && !IsLetterOrDigit(c)
    ensures c in Decode(s).value
  {
    var first := DecodeOne(s).value;
    if s[0] == c {
    } else {
      var i :| 0 <= i < |s| && s[i] == c;
      EscapeIsPlain(s, i);
      assert s[first.1..][i - first.1] == c;
      PlainCharDecodes(s[first.1..], c);
    }
  }

  /** Inside an escape there are only `%` and hexadecimal digits. */
  lemma EscapeIsPlain(s: string, i: nat)
    requires s != [] && DecodeOne(s).Some? && 0 < i < |s| && s[i] != '%' && !IsLetterOrDigit(s[i])
    ensures i >= DecodeOne(s).value.1
  {
    var at := if i < 3 then 0 else if i < 6 then 3 else if i < 9 then 6 else 9;
    assert ByteAt(s, at).Some? && i <= at + 2 ==> s[i] == '%' || HexValue(s[i]).Some?;
  }

  /** A spelling of a safe target has no backslash, whatever its escapes. */
  lemma NoBackslash(seg: string)
    requires Decode(seg).Some? && SafeId(Decode(seg).value)
    ensures '\\' !in seg
  {
    if '\\' in seg {
      PlainCharDecodes(seg, '\\');
    }
  }

  lemma SplitAtSlash(x: string, y: string)
    requires '/' !in x
    ensures FirstSlash(x + "/" + y) == |x|
  {
    var s := x + "/" + y;
    var n := FirstSlash(s);
    assert s[|x|] == '/';
    assert forall i :: 0 <= i < |x| ==> s[i] == x[i];
    assert forall i :: 0 <= i < n ==> s[..n][i] == s[i];
  }

  lemma Heads(tail: string)
    requires '\\' !in tail
    ensures "/" <= EXPORT + tail && !("//" <= EXPORT + tail) && '\\' !in EXPORT + tail
    ensures "/" <= AUDIO + tail && !("//" <= AUDIO + tail) && '\\' !in AUDIO + tail
    ensures After(EXPORT, EXPORT + tail) == Some(tail)
    ensures After(AUDIO, AUDIO + tail) == Some(tail) && After(EXPORT, AUDIO + tail) == None
  {
    assert (EXPORT + tail)[1] == 'a' && (AUDIO + tail)[1] == 'a';
    assert '\\' !in EXPORT && '\\' !in AUDIO;
    assert (EXPORT + tail)[|EXPORT|..] == tail && (AUDIO + tail)[|AUDIO|..] == tail;
    assert (AUDIO + tail)[22] == 'a' && EXPORT[22] == 'e';
  }

  lemma ParseExportSpelling(keeps: string -> bool, seg: string)
    requires Segment(seg) && keeps(EXPORT + seg) && Decode(seg).Some? && SafeId(Decode(seg).value)
    ensures Parse(keeps, EXPORT + seg) == Some(Export(Decode(seg).value))
  {
    NoBackslash(seg);
    Heads(seg);
  }

  lemma ParseAudioSpelling(keeps: string -> bool, x: string, y: string)
    requires Segment(x) && Segment(y) && keeps(AUDIO + x + "/" + y)
    requires Decode(x).Some? && SafeId(Decode(x).value) && Decode(y).Some? && SafeId(Decode(y).value)
    ensures Parse(keeps, AUDIO + x + "/" + y) == Some(Audio(Decode(x).value, Decode(y).value))
  {
    var tail := x + "/" + y;
    assert AUDIO + x + "/" + y == AUDIO + tail;
    NoBackslash(x);
    NoBackslash(y);
    Heads(tail);
    ParseAudioTail(keeps, AUDIO + tail, x, y);
  }

  lemma ParseAudioTail(keeps: string -> bool, url: string, x: string, y: string)
    requires "/" <= url && !("//" <= url) && '\\' !in url && keeps(url) && Segment(x) && Segment(y)
    requires After(EXPORT, url) == None && After(AUDIO, url) == Some(x + "/" + y)
    ensures Parse(keeps, url) == ParseAudio(x, y)
  {
    var tail := x + "/" + y;
    SplitAtSlash(x, y);
    assert tail[..|x|] == x && tail[|x| + 1..] == y;
  }

  lemma ParsedIsSpelled(keeps: string -> bool, url: string)
    requires Parse(keeps, url).Some?
    ensures var t := Parse(keeps, url).value; keeps(url) && SafeTarget(t) && Spells(url, t)
  {
    var exported := After(EXPORT, url);
    if exported.Some? && Segment(exported.value) {
      assert url == EXPORT + exported.value;
    } else {
      var audio := After(AUDIO, url).value;
      var n := FirstSlash(audio);
      var x, y := audio[..n], audio[n + 1..];
      assert audio == x + "/" + y;
      assert url == AUDIO + x + "/" + y;
    }
  }

  /**
   * The accepted inputs, exactly: a path that the URL parser leaves alone and that spells a safe
   * target, percent-escaped or not, parses to that target; nothing else parses.
   */
  lemma ParseIff(keeps: string -> bool, url: string, t: Target)
    ensures Parse(keeps, url) == Some(t) <==> keeps(url) && SafeTarget(t) && Spells(url, t)
  {
    if Parse(keeps, url) == Some(t) {
      ParsedIsSpelled(keeps, url);
    }
    if keeps(url) && SafeTarget(t) && Spells(url, t) {
      match t
      case Export(m) =>
        var seg :| Segment(seg) && url == EXPORT + seg && Decode(seg) == Some(m);
        ParseExportSpelling(keeps, seg);
      case Audio(m, a) =>
        var x, y :| Segment(x) && Segment(y) && url == AUDIO + x + "/" + y && Decode(x) == Some(m) && Decode(y) == Some(a);
        ParseAudioSpelling(keeps, x, y);
    }
  }

  lemma SafeIsPlain(id: string)
    requires SafeId(id)
    ensures Encode(id) == id && Decode(id) == Some(id) && Segment(id)
  {
    PlainIsFixed(id);
  }

  /** Every safe target, printed as a path, parses back to itself. */
  lemma PrintParse(keeps: string -> bool, t: Target)
    requires KeepsCanonical(keeps) && SafeTarget(t)
    ensures Parse(keeps, Print(t)) == Some(t)
  {
    SafeIsPlain(t.manifest);
    if t.Audio? {
      SafeIsPlain(t.audio);
      ParseAudioSpelling(keeps, t.manifest, t.audio);
    } else {
      ParseExportSpelling(keeps, t.manifest);
    }
  }

  /** Canonicalisation is idempotent: the download path of any accepted input gives the same target again. */
  lemma ReparseIsSame(keeps: string -> bool, url: string)
    requires KeepsCanonical(keeps) && Parse(keeps, url).Some?
    ensures Parse(keeps, Print(Parse(keeps, url).value)) == Parse(keeps, url)
  {
    ParsedIsSpelled(keeps, url);
    PrintParse(keeps, Parse(keeps, url).value);
  }

  /** Different safe targets have different paths. */
  lemma PrintInjective(a: Target, b: Target)
    requires SafeTarget(a) && SafeTarget(b) && Print(a) == Print(b)
    ensures a == b
  {
    PrintParse(_ => true, a);
    PrintParse(_ => true, b);
  }
}

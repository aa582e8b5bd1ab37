/** The `replace` patterns that the id and key builders share. */
module Slugs {
  /** Every run of characters outside the class becomes one `-`. */
  function Squeeze(keep: char -> bool, s: string): string {
    if s == [] then []
    else if keep(s[0]) then [s[0]] + Squeeze(keep, s[1..])
    else if |s| > 1 && !keep(s[1]) then Squeeze(keep, s[1..])
    else ['-'] + Squeeze(keep, s[1..])
  }

  function StripStart(strip: char -> bool, s: string): string {
    if s != [] && strip(s[0]) then StripStart(strip, s[1..]) else s
  }

  function StripEnd(strip: char -> bool, s: string): string {
    if s != [] && strip(s[|s| - 1]) then StripEnd(strip, s[..|s| - 1]) else s
  }

  function Take(s: string, n: nat): string {
    if |s| <= n then s else s[..n]
  }

  function Or(s: string, fallback: string): string {
    if s == [] then fallback else s
  }

  ghost predicate Over(class_: char -> bool, s: string) {
    forall i :: 0 <= i < |s| ==> class_(s[i])
  }

  lemma {:induction false} SqueezeOver(keep: char -> bool, s: string)
    ensures forall i :: 0 <= i < |Squeeze(keep, s)| ==> keep(Squeeze(keep, s)[i]) || Squeeze(keep, s)[i] == '-'
  {
    if s != [] {
      SqueezeOver(keep, s[1..]);
    }
  }

  lemma {:induction false} SqueezeKept(keep: char -> bool, s: string)
    requires Over(keep, s)
    ensures Squeeze(keep, s) == s
  {
    if s != [] {
      assert forall i :: 0 <= i < |s[1..]| ==> s[1..][i] == s[i + 1];
      SqueezeKept(keep, s[1..]);
      assert s == [s[0]] + s[1..];
    }
  }

  /** A run of characters outside the class, with nothing or a character of the class on either side. */
  ghost predicate Gap(keep: char -> bool, before: string, gap: string, after: string) {
    && gap != [] && (forall i :: 0 <= i < |gap| ==> !keep(gap[i]))
    && (before != [] ==> keep(before[|before| - 1])) && (after != [] ==> keep(after[0]))
  }

  /** It becomes one `-`, and both sides are treated on their own; with `SqueezeKept` this says what every text becomes. */
  lemma {:induction false} SqueezeGap(keep: char -> bool, before: string, gap: string, after: string)
    requires Gap(keep, before, gap, after)
    ensures Squeeze(keep, before + gap + after) == Squeeze(keep, before) + "-" + Squeeze(keep, after)
    decreases |before| + |gap|
  {
    var s := before + gap + after;
    if before == [] {
      if |gap| == 1 {
        assert s == gap + after && s[1..] == after;
        assert Squeeze(keep, s) == ['-'] + Squeeze(keep, after);
      } else {
        assert s[1..] == [] + gap[1..] + after;
        SqueezeGap(keep, [], gap[1..], after);
      }
    } else {
      assert s[1..] == before[1..] + gap + after && s[0] == before[0];
      SqueezeGap(keep, before[1..], gap, after);
      SqueezeHead(keep, before, s, Squeeze(keep, before[1..]), Squeeze(keep, after));
    }
  }

  lemma SqueezeHead(keep: char -> bool, before: string, s: string, x: string, y: string)
    requires before != [] && s != [] && s[0] == before[0] && x == Squeeze(keep, before[1..]) && Squeeze(keep, s[1..]) == x + "-" + y
    requires |before| == 1 ==> keep(before[0])
    requires |before| > 1 ==> |s| > 1 && s[1] == before[1]
    ensures Squeeze(keep, s) == Squeeze(keep, before) + "-" + y
  {
  }

  lemma {:induction false} StripStartSuffix(strip: char -> bool, s: string)
    ensures |StripStart(strip, s)| <= |s| && StripStart(strip, s) == s[|s| - |StripStart(strip, s)|..]
    ensures StripStart(strip, s) != [] ==> !strip(StripStart(strip, s)[0])
    ensures forall k :: 0 <= k < |s| - |StripStart(strip, s)| ==> strip(s[k])
  {
    if s != [] && strip(s[0]) {
      StripStartSuffix(strip, s[1..]);
      assert forall k :: 1 <= k < |s| ==> s[k] == s[1..][k - 1];
    }
  }

  lemma {:induction false} StripEndPrefix(strip: char -> bool, s: string)
    ensures StripEnd(strip, s) <= s
    ensures StripEnd(strip, s) != [] ==> !strip(StripEnd(strip, s)[|StripEnd(strip, s)| - 1])
    ensures forall k :: 0 <= k < |s| && !strip(s[k]) ==> |StripEnd(strip, s)| > k
  {
    if s != [] && strip(s[|s| - 1]) {
      StripEndPrefix(strip, s[..|s| - 1]);
    }
  }
}

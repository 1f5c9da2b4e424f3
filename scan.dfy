/**
 * The pieces of JavaScript regular-expression matching the scrapers of system_info.ts rely on:
 * `.+` up to the end of a line, `\s+` and `\d+` runs, and the leftmost match of a literal
 * text followed by a number.
 */
module Scan {
  import opened Wrappers
  import opened Text

  /** The characters `.` does not match in a JavaScript regular expression. */
  predicate IsLineTerminator(c: char) {
    c == '\n' || c == '\r' || c == '\U{2028}' || c == '\U{2029}'
  }

  /** How far `.+` reaches from index `i`: up to the next line terminator or the end. */
  function LineRun(s: string, i: nat): (n: nat)
    requires i <= |s|
    decreases |s| - i
    ensures i + n <= |s|
    ensures forall k :: i <= k < i + n ==> !IsLineTerminator(s[k])
    ensures i + n < |s| ==> IsLineTerminator(s[i + n])
  {
    if i < |s| && !IsLineTerminator(s[i]) then 1 + LineRun(s, i + 1) else 0
  }

  /** `/tag(.+)/` can match at `p`: the tag, then at least one character of the same line. */
  predicate LabelAt(s: string, tag: string, p: int) {
    OccursAt(s, tag, p) && p + |tag| < |s| && !IsLineTerminator(s[p + |tag|])
  }

  /** The leftmost match position of `/tag(.+)/` at or after `from`, or -1. */
  function FindLabel(s: string, tag: string, from: nat): (p: int)
    decreases |s| - from
    ensures p == -1 || (from <= p && LabelAt(s, tag, p))
    ensures forall k :: from <= k && (p == -1 || k < p) ==> !LabelAt(s, tag, k)
  {
    if from + |tag| >= |s| then -1
    else if LabelAt(s, tag, from) then from
    else FindLabel(s, tag, from + 1)
  }

  /** `p` is the leftmost position where `/tag(.+)/` can match. */
  predicate FirstLabel(s: string, tag: string, p: int) {
    LabelAt(s, tag, p) && forall k :: 0 <= k < p ==> !LabelAt(s, tag, k)
  }

  /** `s.match(/tag(.+)/)?.[1]`: the rest of the line after the leftmost usable tag. */
  function Capture(s: string, tag: string): (r: Option<string>)
    ensures r.None? <==> forall k :: !LabelAt(s, tag, k)
    ensures r.Some? ==> exists p :: FirstLabel(s, tag, p) && r.value == s[p + |tag|..p + |tag| + LineRun(s, p + |tag|)]
    ensures r.Some? ==> r.value != [] && forall k :: 0 <= k < |r.value| ==> !IsLineTerminator(r.value[k])
  {
    var p := FindLabel(s, tag, 0);
    if p < 0 then None
    else
      var start := p + |tag|;
      assert FirstLabel(s, tag, p);
      Some(s[start..start + LineRun(s, start)])
  }

  /**
   * Text in which the tag first occurs after `lead`, followed by the value and the end of its
   * line, yields that value: what precedes the first occurrence does not matter.
   */
  lemma CaptureAfter(lead: string, tag: string, v: string, rest: string)
    requires v != [] && forall k :: 0 <= k < |v| ==> !IsLineTerminator(v[k])
    requires rest == [] || IsLineTerminator(rest[0])
    requires forall k :: 0 <= k < |lead| ==> !OccursAt(lead + tag + v + rest, tag, k)
    ensures Capture(lead + tag + v + rest, tag) == Some(v)
  {
    var s := lead + tag + v + rest;
    var p := |lead|;
    assert s[p..p + |tag|] == tag;
    assert s[p + |tag|] == v[0];
    assert LabelAt(s, tag, p);
    assert FindLabel(s, tag, 0) == p;
    forall k | p + |tag| <= k < p + |tag| + |v| ensures !IsLineTerminator(s[k]) {
      assert s[k] == v[k - p - |tag|];
    }
    LineRunStops(s, p + |tag|, |v|);
    assert s[p + |tag|..p + |tag| + |v|] == v;
  }

  /** A tag on a line of its own after lines that do not mention it yields the rest of that line. */
  lemma CaptureAfterLines(lead: string, tag: string, v: string, rest: string)
    requires lead == [] || IsLineTerminator(lead[|lead| - 1])
    requires forall k :: 0 <= k < |tag| ==> !IsLineTerminator(tag[k])
    requires forall k :: !OccursAt(lead, tag, k)
    requires v != [] && forall k :: 0 <= k < |v| ==> !IsLineTerminator(v[k])
    requires rest == [] || IsLineTerminator(rest[0])
    ensures Capture(lead + (tag + v + rest), tag) == Some(v)
  {
    LinesBefore(lead, tag + v + rest, tag);
    assert lead + (tag + v + rest) == lead + tag + v + rest;
    CaptureAfter(lead, tag, v, rest);
  }

  /** A pattern cannot occur before `|lead|` when its first character is missing from `lead`. */
  lemma StartAbsent(lead: string, t: string, pat: string)
    requires pat != [] && pat[0] !in lead
    ensures forall k :: 0 <= k < |lead| ==> !OccursAt(lead + t, pat, k)
  {
  }

  /**
   * Nor when `lead` is whole lines, none of which holds the pattern, and the pattern lies within
   * one line.
   */
  lemma LinesBefore(lead: string, t: string, pat: string)
    requires lead == [] || IsLineTerminator(lead[|lead| - 1])
    requires forall k :: 0 <= k < |pat| ==> !IsLineTerminator(pat[k])
    requires forall k :: !OccursAt(lead, pat, k)
    ensures forall k :: 0 <= k < |lead| ==> !OccursAt(lead + t, pat, k)
  {
    forall k | 0 <= k < |lead|
      ensures !OccursAt(lead + t, pat, k)
    {
      if k + |pat| <= |lead| {
        assert !OccursAt(lead, pat, k);
        assert (lead + t)[k..k + |pat|] == lead[k..k + |pat|];
      } else if k + |pat| <= |lead + t| {
        assert (lead + t)[k..k + |pat|][|lead| - 1 - k] == lead[|lead| - 1];
      }
    }
  }

  /** A pattern does not occur in text that lacks one of its characters. */
  lemma CharAbsent(lead: string, pat: string, c: char)
    requires c in pat && c !in lead
    ensures forall k :: !OccursAt(lead, pat, k)
  {
  }

  lemma {:induction false} LineRunStops(s: string, i: nat, n: nat)
    requires i + n <= |s|
    requires forall k :: i <= k < i + n ==> !IsLineTerminator(s[k])
    requires i + n == |s| || IsLineTerminator(s[i + n])
    ensures LineRun(s, i) == n
    decreases n
  {
    if n > 0 {
      LineRunStops(s, i + 1, n - 1);
    }
  }

  lemma {:induction false} DigitRunStops(s: string, i: nat, n: nat)
    requires i + n <= |s|
    requires forall k :: i <= k < i + n ==> IsDigit(s[k])
    requires i + n == |s| || !IsDigit(s[i + n])
    ensures DigitRun(s, i) == n
    decreases n
  {
    if n > 0 {
      DigitRunStops(s, i + 1, n - 1);
    }
  }

  /** `parseInt` of a string that starts with a run of `n` digits reads that run. */
  lemma ParseIntRun(s: string, n: nat)
    requires 0 < n <= |s| && forall k :: 0 <= k < n ==> IsDigit(s[k])
    requires n == |s| || !IsDigit(s[n])
    ensures ParseInt(s) == Some(DigitsValue(s[..n]))
  {
    DigitRunStops(s, 0, n);
    ParseIntUnsigned(s);
  }

  /** A string that starts with a digit is read without white space or sign. */
  lemma ParseIntUnsigned(s: string)
    requires s != [] && IsDigit(s[0])
    ensures DigitRun(s, 0) > 0 && ParseInt(s) == Some(DigitsValue(s[..DigitRun(s, 0)]))
  {
    assert !IsSpace(s[0]);
    assert TrimStart(s) == s;
  }

  /** `parseInt` reads a decimal rendering back even when other text follows it. */
  lemma ParseNatPrefix(n: nat, rest: string)
    requires rest == [] || !IsDigit(rest[0])
    ensures ParseInt(NatToString(n) + rest) == Some(n)
  {
    var d := NatToString(n);
    var s := d + rest;
    assert forall k :: 0 <= k < |d| ==> s[k] == d[k];
    assert |d| == |s| || s[|d|] == rest[0];
    ParseIntRun(s, |d|);
    assert s[..|d|] == d;
  }

  /** How far `\s+` reaches from index `i`. */
  function SpaceRun(s: string, i: nat): (n: nat)
    requires i <= |s|
    decreases |s| - i
    ensures i + n <= |s|
    ensures forall k :: i <= k < i + n ==> IsSpace(s[k])
    ensures i + n < |s| ==> !IsSpace(s[i + n])
  {
    if i < |s| && IsSpace(s[i]) then 1 + SpaceRun(s, i + 1) else 0
  }

  lemma {:induction false} SpaceRunStops(s: string, i: nat, n: nat)
    requires i + n <= |s|
    requires forall k :: i <= k < i + n ==> IsSpace(s[k])
    requires i + n == |s| || !IsSpace(s[i + n])
    ensures SpaceRun(s, i) == n
    decreases n
  {
    if n > 0 {
      SpaceRunStops(s, i + 1, n - 1);
    }
  }

  /**
   * `/pre(\d+)post/` can match at `p`, for a `post` that does not start with a digit: the greedy
   * digit run cannot give anything back, since a shorter run is followed by a digit.
   */
  predicate NumberAt(s: string, pre: string, post: string, p: int) {
    && OccursAt(s, pre, p)
    && var d := DigitRun(s, p + |pre|);
    && d > 0
    && OccursAt(s, post, p + |pre| + d)
  }

  /** The number captured by `(\d+)` right after `pre` at `p`. */
  function NumberAfter(s: string, pre: string, p: nat): nat
    requires p + |pre| <= |s|
  {
    var start := p + |pre|;
    DigitsValue(s[start..start + DigitRun(s, start)])
  }

  /** The leftmost match position of `/pre(\d+)post/` at or after `from`, or -1. */
  function FindNumber(s: string, pre: string, post: string, from: nat): (p: int)
    decreases |s| - from
    ensures p == -1 || (from <= p && NumberAt(s, pre, post, p))
    ensures forall k :: from <= k && (p == -1 || k < p) ==> !NumberAt(s, pre, post, k)
  {
    if from + |pre| > |s| then -1
    else if NumberAt(s, pre, post, from) then from
    else FindNumber(s, pre, post, from + 1)
  }

  /**
   * Text holding, after `lead`, `pre`, a decimal rendering and `post` matches there and
   * captures the number.
   */
  lemma NumberLine(lead: string, pre: string, n: nat, post: string, rest: string)
    requires post != [] && !IsDigit(post[0])
    ensures NumberAt(lead + pre + NatToString(n) + post + rest, pre, post, |lead|)
    ensures NumberAfter(lead + pre + NatToString(n) + post + rest, pre, |lead|) == n
  {
    var d := NatToString(n);
    NumberLineRun(lead, pre, d, post, rest);
    NumberLineMatches(lead, pre, d, post, rest);
    NumberLineValue(lead, pre, d, post, rest);
  }

  lemma NumberLineRun(lead: string, pre: string, d: string, post: string, rest: string)
    requires AllDigits(d) && post != [] && !IsDigit(post[0])
    ensures DigitRun(lead + pre + d + post + rest, |lead| + |pre|) == |d|
  {
    var s := lead + pre + d + post + rest;
    LineParts(lead, pre, d, post, rest);
    assert s[|lead| + |pre| + |d|] == post[0];
    DigitsAt(s, |lead| + |pre|, d);
  }

  lemma NumberLineMatches(lead: string, pre: string, d: string, post: string, rest: string)
    requires d != [] && post != [] && DigitRun(lead + pre + d + post + rest, |lead| + |pre|) == |d|
    ensures NumberAt(lead + pre + d + post + rest, pre, post, |lead|)
  {
    LineParts(lead, pre, d, post, rest);
  }

  lemma NumberLineValue(lead: string, pre: string, d: string, post: string, rest: string)
    requires AllDigits(d) && post != [] && DigitRun(lead + pre + d + post + rest, |lead| + |pre|) == |d|
    ensures NumberAfter(lead + pre + d + post + rest, pre, |lead|) == DigitsValue(d)
  {
    LineParts(lead, pre, d, post, rest);
  }

  /** Where the pieces of `lead + pre + d + post + rest` sit. */
  lemma LineParts(lead: string, pre: string, d: string, post: string, rest: string)
    requires post != []
    ensures var s := lead + pre + d + post + rest;
            var i := |lead|;
            && s[i..i + |pre|] == pre
            && s[i + |pre|..i + |pre| + |d|] == d
            && s[i + |pre| + |d|..i + |pre| + |d| + |post|] == post
  {
  }

  /** A run of digits followed by a non-digit is exactly what `\d+` takes. */
  lemma DigitsAt(s: string, start: nat, d: string)
    requires start + |d| <= |s| && s[start..start + |d|] == d && AllDigits(d)
    requires start + |d| == |s| || !IsDigit(s[start + |d|])
    ensures DigitRun(s, start) == |d|
  {
    forall k | start <= k < start + |d|
      ensures IsDigit(s[k])
    {
      assert s[k] == s[start..start + |d|][k - start];
    }
    DigitRunStops(s, start, |d|);
  }

  /** `trim` drops one leading space from a string that has no space at either end. */
  lemma {:induction false} TrimPadded(x: string)
    requires x != [] && !IsSpace(x[0]) && !IsSpace(x[|x| - 1])
    ensures Trim([' '] + x) == x
  {
    var s := [' '] + x;
    assert s[0] == ' ' && s[1..] == x;
    assert TrimStart(x) == x;
    assert TrimStart(s) == x;
    assert TrimEnd(x) == x;
  }

}

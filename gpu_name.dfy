/**
 * The GPU name normalisation of `getDeviceCapabilities` (system_info.ts): the name reported by
 * `nvidia-smi` is upper-cased, every run of white space becomes one space, and the ends are
 * trimmed, so that it can be looked up in the chip table.
 */
module GpuName {
  import opened Text

  predicate IsLower(c: char) {
    'a' <= c <= 'z'
  }

  /** No lower-case letter anywhere. */
  predicate NoLower(s: string) {
    forall i :: 0 <= i < |s| ==> !IsLower(s[i])
  }

  /** The only white space is the plain space, and no two spaces are adjacent. */
  predicate SingleSpaced(s: string) {
    && (forall i :: 0 <= i < |s| && IsSpace(s[i]) ==> s[i] == ' ')
    && (forall i :: 0 <= i < |s| - 1 ==> !(s[i] == ' ' && s[i + 1] == ' '))
  }

  /** No white space at either end. */
  predicate Trimmed(s: string) {
    s == [] || (!IsSpace(s[0]) && !IsSpace(s[|s| - 1]))
  }

  /** The characters of `s` that are not white space, in order. */
  function Visible(s: string): string {
    if s == [] then [] else (if IsSpace(s[0]) then [] else [s[0]]) + Visible(s[1..])
  }

  /** `toUpperCase` on one character, for the ASCII letters. */
  function UpperChar(c: char): (u: char)
    ensures !IsLower(u)
    ensures IsLower(c) ==> u as int == c as int - 32
    ensures !IsLower(c) ==> u == c
  {
    if IsLower(c) then (c as int - 32) as char else c
  }

  /** `toUpperCase` on a string: each character upper-cased in place. */
  function Upper(s: string): (r: string)
    ensures |r| == |s|
    ensures forall i :: 0 <= i < |s| ==> r[i] == UpperChar(s[i])
    ensures NoLower(r)
  {
    if s == [] then [] else [UpperChar(s[0])] + Upper(s[1..])
  }

  /** Upper-casing changes nothing in a string without lower-case letters. */
  lemma UpperFixes(s: string)
    requires NoLower(s)
    ensures Upper(s) == s
  {
    assert forall i :: 0 <= i < |s| ==> Upper(s)[i] == s[i];
  }

  /** `replace(/\s+/g, ' ')`: every maximal run of white space becomes one space. */
  function CollapseSpace(s: string): (r: string)
    decreases |s|
    ensures |r| <= |s|
    ensures r == [] <==> s == []
    ensures r != [] ==> (IsSpace(r[0]) <==> IsSpace(s[0]))
    ensures SingleSpaced(r)
  {
    if s == [] then []
    else if IsSpace(s[0]) then
      var t := TrimStart(s);
      [' '] + CollapseSpace(t)
    else
      [s[0]] + CollapseSpace(s[1..])
  }

  /**
   * Where the spaces go: a word free of white space is kept as it is, and the white-space run
   * after it, whatever its length, becomes one plain space in its place.
   */
  lemma {:induction false} CollapseRun(w: string, ws: string, t: string)
    requires forall k :: 0 <= k < |w| ==> !IsSpace(w[k])
    requires ws != [] && forall k :: 0 <= k < |ws| ==> IsSpace(ws[k])
    requires t == [] || !IsSpace(t[0])
    ensures CollapseSpace(w + ws + t) == w + " " + CollapseSpace(t)
    decreases |w|
  {
    if w == [] {
      assert w + ws + t == ws + t;
      CollapseLeadingRun(ws, t);
    } else {
      CollapseRun(w[1..], ws, t);
      CollapseRunStep(w, ws, t);
    }
  }

  /** The step of CollapseRun: the first letter of the word is kept in front. */
  lemma CollapseRunStep(w: string, ws: string, t: string)
    requires w != [] && !IsSpace(w[0])
    requires CollapseSpace(w[1..] + ws + t) == w[1..] + " " + CollapseSpace(t)
    ensures CollapseSpace(w + ws + t) == w + " " + CollapseSpace(t)
  {
    var u := w[1..] + ws + t;
    HeadOff(w, ws, t);
    CollapseCons(w[0], u);
    HeadOff(w, " ", CollapseSpace(t));
  }

  /** The first character of `a` comes off the front of `a + b + c`. */
  lemma HeadOff(a: string, b: string, c: string)
    requires a != []
    ensures a + b + c == [a[0]] + (a[1..] + b + c)
  {
    assert a == [a[0]] + a[1..];
  }

  /** A leading white-space run becomes one space. */
  lemma CollapseLeadingRun(ws: string, t: string)
    requires ws != [] && forall k :: 0 <= k < |ws| ==> IsSpace(ws[k])
    requires t == [] || !IsSpace(t[0])
    ensures CollapseSpace(ws + t) == " " + CollapseSpace(t)
  {
    assert (ws + t)[0] == ws[0];
    TrimStartRun(ws, t);
  }

  /** A leading character that is not white space is kept. */
  lemma CollapseCons(c: char, u: string)
    requires !IsSpace(c)
    ensures CollapseSpace([c] + u) == [c] + CollapseSpace(u)
  {
    assert ([c] + u)[0] == c && ([c] + u)[1..] == u;
  }

  /** `trimStart` removes exactly a leading white-space run. */
  lemma {:induction false} TrimStartRun(ws: string, t: string)
    requires forall k :: 0 <= k < |ws| ==> IsSpace(ws[k])
    requires t == [] || !IsSpace(t[0])
    ensures TrimStart(ws + t) == t
    decreases |ws|
  {
    if ws == [] {
      assert ws + t == t;
    } else {
      assert (ws + t)[0] == ws[0] && (ws + t)[1..] == ws[1..] + t;
      TrimStartRun(ws[1..], t);
    }
  }

  /** A string with no white space at all is kept as it is. */
  lemma {:induction false} CollapseWord(w: string)
    requires forall k :: 0 <= k < |w| ==> !IsSpace(w[k])
    ensures CollapseSpace(w) == w
    decreases |w|
  {
    if w != [] {
      CollapseWord(w[1..]);
      assert w == [w[0]] + w[1..];
    }
  }

  /** The whole normalisation: upper-case, collapse white space, trim. */
  function Normalize(s: string): (r: string)
    ensures NoLower(r) && SingleSpaced(r) && Trimmed(r)
    ensures Visible(r) == Visible(Upper(s))
  {
    var u := Upper(s);
    var c := CollapseSpace(u);
    CollapseKeepsNoLower(u);
    CollapseKeepsVisible(u);
    TrimVisible(c);
    TrimKeepsShape(c);
    Trim(c)
  }

  lemma {:induction false} VisibleAppend(a: string, b: string)
    ensures Visible(a + b) == Visible(a) + Visible(b)
  {
    if a != [] {
      var head := if IsSpace(a[0]) then [] else [a[0]];
      assert (a + b)[0] == a[0] && (a + b)[1..] == a[1..] + b;
      assert Visible(a + b) == head + Visible(a[1..] + b);
      VisibleAppend(a[1..], b);
      assert Visible(a) == head + Visible(a[1..]);
    } else {
      assert a + b == b;
    }
  }

  lemma {:induction false} TrimStartVisible(s: string)
    ensures Visible(TrimStart(s)) == Visible(s)
  {
    if s != [] && IsSpace(s[0]) {
      TrimStartVisible(s[1..]);
    }
  }

  lemma {:induction false} TrimEndVisible(s: string)
    ensures Visible(TrimEnd(s)) == Visible(s)
  {
    if s != [] && IsSpace(s[|s| - 1]) {
      var init := s[..|s| - 1];
      TrimEndVisible(init);
      assert s == init + [s[|s| - 1]];
      VisibleAppend(init, [s[|s| - 1]]);
    }
  }

  /** A slice of a string keeps both shape properties. */
  lemma SliceKeeps(s: string, a: nat, b: nat)
    requires a <= b <= |s|
    ensures NoLower(s) ==> NoLower(s[a..b])
    ensures SingleSpaced(s) ==> SingleSpaced(s[a..b])
  {
    assert forall i :: 0 <= i < b - a ==> s[a..b][i] == s[a + i];
  }

  /** `trim` keeps the visible characters. */
  lemma TrimVisible(s: string)
    ensures Visible(Trim(s)) == Visible(s)
  {
    TrimStartVisible(s);
    TrimEndVisible(TrimStart(s));
  }

  /** `trim` keeps both shape properties of what it trims. */
  lemma TrimKeepsShape(s: string)
    ensures NoLower(s) ==> NoLower(Trim(s))
    ensures SingleSpaced(s) ==> SingleSpaced(Trim(s))
  {
    var t := TrimStart(s);
    ShapeOfPiece(s, t, TrimEnd(t));
  }

  /** A piece cut out of a string between two white-space runs keeps the string's shape. */
  lemma ShapeOfPiece(s: string, t: string, r: string)
    requires |t| <= |s| && t == s[|s| - |t|..] && forall i :: 0 <= i < |s| - |t| ==> IsSpace(s[i])
    requires |r| <= |t| && r == t[..|r|] && forall i :: |r| <= i < |t| ==> IsSpace(t[i])
    ensures NoLower(s) ==> NoLower(r)
    ensures SingleSpaced(s) ==> SingleSpaced(r)
  {
    var d := |s| - |t|;
    PieceOfPiece(s, t, r);
    SliceKeeps(s, d, d + |r|);
  }

  /** Collapsing white space introduces no lower-case letter. */
  lemma {:induction false} CollapseKeepsNoLower(s: string)
    requires NoLower(s)
    ensures NoLower(CollapseSpace(s))
    decreases |s|
  {
    if s != [] {
      if IsSpace(s[0]) {
        var t := TrimStart(s);
        SliceKeeps(s, |s| - |t|, |s|);
        CollapseKeepsNoLower(t);
      } else {
        SliceKeeps(s, 1, |s|);
        CollapseKeepsNoLower(s[1..]);
      }
    }
  }

  /** Collapsing white space keeps every visible character, in order. */
  lemma {:induction false} CollapseKeepsVisible(s: string)
    ensures Visible(CollapseSpace(s)) == Visible(s)
    decreases |s|
  {
    if s != [] {
      if IsSpace(s[0]) {
        var t := TrimStart(s);
        CollapseKeepsVisible(t);
        TrimStartVisible(s);
        VisibleAppend([' '], CollapseSpace(t));
      } else {
        CollapseKeepsVisible(s[1..]);
        VisibleAppend([s[0]], CollapseSpace(s[1..]));
      }
    }
  }

  /** A single-spaced string has nothing to collapse. */
  lemma {:induction false} CollapseFixes(s: string)
    requires SingleSpaced(s)
    ensures CollapseSpace(s) == s
  {
    if s != [] {
      SliceKeeps(s, 1, |s|);
      CollapseFixes(s[1..]);
      CollapseFixesStep(s);
    }
  }

  /** The step of CollapseFixes: a single-spaced string keeps its first character. */
  lemma CollapseFixesStep(s: string)
    requires s != [] && SingleSpaced(s) && CollapseSpace(s[1..]) == s[1..]
    ensures CollapseSpace(s) == s
  {
    if IsSpace(s[0]) {
      assert s[0] == ' ';
      assert s[1..] == [] || !IsSpace(s[1..][0]);
      assert TrimStart(s[1..]) == s[1..];
      assert s == [' '] + s[1..];
    }
  }

  /** Normalising twice is normalising once. */
  lemma NormalizeIdempotent(s: string)
    ensures Normalize(Normalize(s)) == Normalize(s)
  {
    var r := Normalize(s);
    UpperFixes(r);
    CollapseFixes(r);
  }

  /** A normalised name is already in the form normalisation produces. */
  lemma NormalizeFixes(s: string)
    requires NoLower(s) && SingleSpaced(s) && Trimmed(s)
    ensures Normalize(s) == s
  {
    UpperFixes(s);
    CollapseFixes(s);
  }

  /** `t` is `s` upper-cased, character by character. */
  predicate UpperOf(s: string, t: string) {
    |s| == |t| && forall i :: 0 <= i < |s| ==> UpperChar(s[i]) == t[i]
  }

  /** Upper-case ASCII letters, digits and the plain space. */
  predicate IsPlain(c: char) {
    'A' <= c <= 'Z' || '0' <= c <= '9' || c == ' '
  }

  /** A string of plain characters without a double space is single-spaced. */
  lemma PlainSingleSpaced(t: string)
    requires forall i :: 0 <= i < |t| ==> IsPlain(t[i])
    requires forall i :: 0 <= i < |t| - 1 ==> !(t[i] == ' ' && t[i + 1] == ' ')
    ensures SingleSpaced(t)
  {
  }

  /** A name whose upper-cased form is already single-spaced and trimmed normalises to that form. */
  lemma NormalizeTo(s: string, t: string)
    requires UpperOf(s, t) && SingleSpaced(t) && Trimmed(t)
    ensures Normalize(s) == t
  {
    assert Upper(s) == t;
    CollapseFixes(t);
  }

  /** A normalised name never equals a string with a lower-case letter. */
  lemma NormalizeNotLower(s: string, t: string, i: nat)
    requires i < |t| && IsLower(t[i])
    ensures Normalize(s) != t
  {
    var r := Normalize(s);
    if i < |r| {
      assert !IsLower(r[i]);
    }
  }
}

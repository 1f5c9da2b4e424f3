/**
 * The base 64 encoding of section 4 of RFC 4648 as the browser globals apply it to strings.
 * `btoa` reads each character of its argument as one byte (it throws when a character is
 * above U+00FF) and writes the padded encoding; `atob` follows the "forgiving-base64 decode"
 * of section 4 of the WHATWG Infra standard: ASCII white space is skipped, one or two final
 * `=` may be dropped when the length is a multiple of four, a length of the form 4k+1 or a
 * character outside the alphabet is a failure, and the bits left over at the end are ignored.
 */
module Base64 {
  import opened Wrappers

  newtype byte = x: int | 0 <= x < 256

  /** A six-bit group: the value one character of the alphabet stands for. */
  type sextet = x: int | 0 <= x < 64

  /** The alphabet of Table 1 of RFC 4648: A-Z, a-z, 0-9, `+`, `/`. */
  function CharOf(v: sextet): (c: char)
    ensures c != '='
  {
    if v < 26 then ('A' as int + v) as char
    else if v < 52 then ('a' as int + (v - 26)) as char
    else if v < 62 then ('0' as int + (v - 52)) as char
    else if v == 62 then '+'
    else '/'
  }

  /** The value of an alphabet character; `None` for any other character, `=` included. */
  function ValueOf(c: char): (r: Option<sextet>)
    ensures r.Some? ==> CharOf(r.value) == c
    ensures c == '=' ==> r.None?
  {
    if 'A' <= c <= 'Z' then Some((c as int - 'A' as int) as sextet)
    else if 'a' <= c <= 'z' then Some((c as int - 'a' as int + 26) as sextet)
    else if '0' <= c <= '9' then Some((c as int - '0' as int + 52) as sextet)
    else if c == '+' then Some(62)
    else if c == '/' then Some(63)
    else None
  }

  /** Every sextet has a character, and the character reads back as that sextet. */
  lemma ValueOfCharOf(v: sextet)
    ensures ValueOf(CharOf(v)) == Some(v)
  {
  }

  /** The characters stripped by the forgiving decoder: TAB, LF, FF, CR and SPACE. */
  predicate IsAsciiSpace(c: char) {
    c == '\t' || c == '\n' || c == '\U{000C}' || c == '\r' || c == ' '
  }

  /** The number of sextets a final group of `k` bytes (k < 3) occupies. */
  function TailSextets(k: nat): nat {
    if k == 0 then 0 else k + 1
  }

  /** The padding that completes a final group of `k` bytes (k < 3) to four characters. */
  function Padding(k: nat): string {
    if k == 1 then "==" else if k == 2 then "=" else ""
  }

  /** The first sextet of a group starting with byte `b0`. */
  function Hi6(b0: int): int { b0 / 4 }

  /** The sextet made of the low two bits of `b0` and the high four bits of `b1`. */
  function Mid6a(b0: int, b1: int): int { (b0 % 4) * 16 + b1 / 16 }

  /** The sextet made of the low four bits of `b1` and the high two bits of `b2`. */
  function Mid6b(b1: int, b2: int): int { (b1 % 16) * 4 + b2 / 64 }

  /**
   * The sextets of a byte string: each group of three bytes gives four, a final group of one
   * byte gives two and a final group of two bytes gives three, zero bits filling the last one.
   */
  function Sextets(b: seq<byte>): (r: seq<sextet>)
    ensures |r| % 4 == TailSextets(|b| % 3)
    ensures |r| == 0 <==> |b| == 0
  {
    if |b| == 0 then []
    else
      var b0 := b[0] as int;
      if |b| == 1 then [Hi6(b0), Mid6a(b0, 0)]
      else
        var b1 := b[1] as int;
        if |b| == 2 then [Hi6(b0), Mid6a(b0, b1), Mid6b(b1, 0)]
        else
          var b2 := b[2] as int;
          [Hi6(b0), Mid6a(b0, b1), Mid6b(b1, b2), b2 % 64] + Sextets(b[3..])
  }

  /** The byte made of the sextet `c0` and the high two bits of `c1`. */
  function Byte0(c0: int, c1: int): byte
    requires 0 <= c0 < 64 && 0 <= c1 < 64
  {
    (c0 * 4 + c1 / 16) as byte
  }

  /** The byte made of the low four bits of `c1` and the high four bits of `c2`. */
  function Byte1(c1: int, c2: int): byte
    requires 0 <= c1 < 64 && 0 <= c2 < 64
  {
    ((c1 % 16) * 16 + c2 / 4) as byte
  }

  /** The byte made of the low two bits of `c2` and the sextet `c3`. */
  function Byte2(c2: int, c3: int): byte
    requires 0 <= c2 < 64 && 0 <= c3 < 64
  {
    ((c2 % 4) * 64 + c3) as byte
  }

  /** The bytes a run of sextets stands for; a final single sextet cannot stand for any. */
  function Bytes(v: seq<sextet>): seq<byte>
    requires |v| % 4 != 1
  {
    if |v| == 0 then []
    else if |v| == 2 then [Byte0(v[0], v[1])]
    else if |v| == 3 then [Byte0(v[0], v[1]), Byte1(v[1], v[2])]
    else [Byte0(v[0], v[1]), Byte1(v[1], v[2]), Byte2(v[2], v[3])] + Bytes(v[4..])
  }

  /** The bit arithmetic of one group: each byte is rebuilt from the sextets that hold it. */
  lemma GroupRoundTrip(b0: int, b1: int, b2: int)
    requires 0 <= b0 < 256 && 0 <= b1 < 256 && 0 <= b2 < 256
    ensures 0 <= Hi6(b0) < 64 && 0 <= Mid6a(b0, b1) < 64 && 0 <= Mid6b(b1, b2) < 64
    ensures Byte0(Hi6(b0), Mid6a(b0, b1)) as int == b0
    ensures Byte1(Mid6a(b0, b1), Mid6b(b1, b2)) as int == b1
    ensures Byte2(Mid6b(b1, b2), b2 % 64) as int == b2
  {
  }

  /** Decoding a whole group of four sextets in front of the rest. */
  lemma BytesCons(g: seq<sextet>, rest: seq<sextet>)
    requires |g| == 4 && |rest| % 4 != 1
    ensures Bytes(g + rest) == [Byte0(g[0], g[1]), Byte1(g[1], g[2]), Byte2(g[2], g[3])] + Bytes(rest)
  {
    assert (g + rest)[4..] == rest;
  }

  lemma SplitThree(b: seq<byte>)
    requires |b| >= 3
    ensures b == [b[0], b[1], b[2]] + b[3..]
  {
  }

  /** One step of `BytesOfSextets`: a whole group of three bytes in front of the rest. */
  lemma GroupThenRest(b: seq<byte>)
    requires |b| >= 3 && Bytes(Sextets(b[3..])) == b[3..]
    ensures Bytes(Sextets(b)) == b
  {
    SplitThree(b);
    var v := Sextets(b);
    assert v == v[..4] + Sextets(b[3..]);
    BytesCons(v[..4], Sextets(b[3..]));
    GroupRoundTrip(b[0] as int, b[1] as int, b[2] as int);
  }

  /** A final group of two bytes. */
  lemma LastTwo(b0: byte, b1: byte)
    ensures Bytes(Sextets([b0, b1])) == [b0, b1]
  {
    GroupRoundTrip(b0 as int, b1 as int, 0);
    var v: seq<sextet> := [Hi6(b0 as int), Mid6a(b0 as int, b1 as int), Mid6b(b1 as int, 0)];
    assert Sextets([b0, b1]) == v;
  }

  /** A final group of one byte. */
  lemma LastOne(b0: byte)
    ensures Bytes(Sextets([b0])) == [b0]
  {
    var x := b0 as int;
    var v: seq<sextet> := [x / 4, (x % 4) * 16];
    assert Sextets([b0]) == v;
    assert Byte0(v[0], v[1]) as int == x;
  }

  /** Decoding the sextets of a byte string gives the bytes back. */
  lemma {:induction false} BytesOfSextets(b: seq<byte>)
    ensures Bytes(Sextets(b)) == b
  {
    if |b| >= 3 {
      BytesOfSextets(b[3..]);
      GroupThenRest(b);
    } else if |b| == 2 {
      LastTwo(b[0], b[1]);
      assert b == [b[0], b[1]];
    } else if |b| == 1 {
      LastOne(b[0]);
      assert b == [b[0]];
    }
  }

  /** The characters of a run of sextets. */
  function Chars(v: seq<sextet>): (s: string)
    ensures |s| == |v|
    ensures forall i :: 0 <= i < |v| ==> s[i] == CharOf(v[i])
  {
    seq(|v|, i requires 0 <= i < |v| => CharOf(v[i]))
  }

  /** The sextets of a string of alphabet characters; `None` when some character is not one. */
  function Values(s: string): (r: Option<seq<sextet>>)
    ensures r.Some? <==> forall i :: 0 <= i < |s| ==> ValueOf(s[i]).Some?
    ensures r.Some? ==> Chars(r.value) == s
  {
    if s == [] then Some([])
    else
      var head, rest := ValueOf(s[0]), Values(s[1..]);
      if head.None? || rest.None? then None
      else
        assert Chars([head.value] + rest.value) == [s[0]] + s[1..];
        Some([head.value] + rest.value)
  }

  /** Reading the characters of a run of sextets gives the sextets back. */
  lemma {:induction false} ValuesOfChars(v: seq<sextet>)
    ensures Values(Chars(v)) == Some(v)
  {
    if v != [] {
      ValuesOfChars(v[1..]);
      ValueOfCharOf(v[0]);
      var s := Chars(v);
      assert s[0] == CharOf(v[0]) && s[1..] == Chars(v[1..]);
      assert [v[0]] + v[1..] == v;
    }
  }

  /** The padded encoding of a byte string (section 4 of RFC 4648). */
  function Encode(b: seq<byte>): (s: string)
    ensures |s| % 4 == 0
  {
    Chars(Sextets(b)) + Padding(|b| % 3)
  }

  /** A string whose every character fits in one byte: what `btoa` accepts. */
  predicate IsByteString(s: string) {
    forall i :: 0 <= i < |s| ==> s[i] as int < 256
  }

  /** The bytes of a string whose characters all fit in one byte. */
  function BytesOf(s: string): (b: seq<byte>)
    requires IsByteString(s)
    ensures |b| == |s|
  {
    seq(|s|, i requires 0 <= i < |s| => s[i] as int as byte)
  }

  /** The string whose characters are the given bytes, as `atob` returns it. */
  function StringOf(b: seq<byte>): (s: string)
    ensures |s| == |b| && IsByteString(s)
    ensures BytesOf(s) == b
  {
    seq(|b|, i requires 0 <= i < |b| => b[i] as int as char)
  }

  /** `btoa(s)`: the encoding of the bytes of `s`, or `None` where it throws. */
  function Btoa(s: string): (r: Option<string>)
    ensures r.Some? <==> IsByteString(s)
    ensures r.Some? ==> r.value == Encode(BytesOf(s))
  {
    if IsByteString(s) then Some(Encode(BytesOf(s))) else None
  }

  /** `s` with its ASCII white space removed. */
  function WithoutSpace(s: string): (r: string)
    ensures |r| <= |s|
    ensures forall i :: 0 <= i < |r| ==> !IsAsciiSpace(r[i])
    ensures (forall i :: 0 <= i < |s| ==> !IsAsciiSpace(s[i])) ==> r == s
  {
    if s == [] then []
    else if IsAsciiSpace(s[0]) then WithoutSpace(s[1..])
    else [s[0]] + WithoutSpace(s[1..])
  }

  /** Drops one or two final `=` (the caller applies it to lengths that are multiples of 4). */
  function WithoutPadding(s: string): (r: string)
    ensures |s| - 2 <= |r| <= |s| && r == s[..|r|]
    ensures forall i :: |r| <= i < |s| ==> s[i] == '='
    ensures |r| == |s| - 2 || r == [] || r[|r| - 1] != '='
  {
    if |s| >= 2 && s[|s| - 1] == '=' && s[|s| - 2] == '=' then s[..|s| - 2]
    else if |s| >= 1 && s[|s| - 1] == '=' then s[..|s| - 1]
    else s
  }

  /** `atob(s)`: the forgiving decode, or `None` where it throws. */
  function Atob(s: string): (r: Option<string>)
    ensures r.Some? ==> IsByteString(r.value)
  {
    var t := WithoutSpace(s);
    var u := if |t| % 4 == 0 then WithoutPadding(t) else t;
    if |u| % 4 == 1 then None
    else
      match Values(u)
      case None => None
      case Some(v) => Some(StringOf(Bytes(v)))
  }

  /** An encoding holds no white space. */
  lemma EncodingHasNoSpace(b: seq<byte>)
    ensures WithoutSpace(Encode(b)) == Encode(b)
  {
    var v, e := Sextets(b), Encode(b);
    forall i | 0 <= i < |e|
      ensures !IsAsciiSpace(e[i])
    {
      if i < |v| {
        assert e[i] == CharOf(v[i]);
      }
    }
  }

  /** Dropping the padding of an encoding leaves exactly the characters of the sextets. */
  lemma EncodingPadding(b: seq<byte>)
    ensures WithoutPadding(Encode(b)) == Chars(Sextets(b))
  {
    var v, e := Sextets(b), Encode(b);
    if |b| % 3 == 0 && v != [] {
      assert e[|e| - 1] == CharOf(v[|v| - 1]);
    } else if |b| % 3 == 2 {
      assert e[|e| - 2] == CharOf(v[|v| - 1]);
    }
  }

  /** `atob` undoes `btoa`: whatever `btoa` encodes, `atob` decodes to the same string. */
  lemma AtobBtoa(s: string)
    requires Btoa(s).Some?
    ensures Atob(Btoa(s).value) == Some(s)
  {
    var b := BytesOf(s);
    EncodingHasNoSpace(b);
    EncodingPadding(b);
    BytesOfSextets(b);
    ValuesOfChars(Sextets(b));
    assert StringOf(b) == s;
  }
}

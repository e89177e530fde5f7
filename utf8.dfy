/** Bytes, UTF-8 well-formedness (RFC 3629, section 4) and whitespace trimming on UTF-8 text
    held as bytes.  The servers keep every frame as raw bytes; Rust's `from_utf8` and Go's
    `utf8.ValidString` are both `ValidUtf8` here, and `str::trim`, `str::trim_start` and
    Go's `strings.TrimSpace` are `Trim` and `TrimStart` over the encodings of the Unicode
    White_Space characters. */
module Utf8 {

  newtype byte = x: int | 0 <= x < 256

  /** A continuation byte, 10xxxxxx (UTF8-tail in RFC 3629). */
  predicate IsTail(b: byte) { 0x80 <= b <= 0xBF }

  /** Length of the well-formed UTF-8 character that starts `s`, or 0 when `s` does not
      start with one (the UTF8-char rule of RFC 3629, section 4). */
  function CharLen(s: seq<byte>): (n: nat)
    ensures n <= |s| && n <= 4
    ensures n > 0 ==> (n == 1 <==> s[0] < 0x80)
    ensures |s| > 0 && s[0] < 0x80 ==> n == 1
  {
    if |s| == 0 then 0
    else if s[0] < 0x80 then 1
    else if 0xC2 <= s[0] <= 0xDF then
      (if |s| >= 2 && IsTail(s[1]) then 2 else 0)
    else if s[0] == 0xE0 then
      (if |s| >= 3 && 0xA0 <= s[1] <= 0xBF && IsTail(s[2]) then 3 else 0)
    else if 0xE1 <= s[0] <= 0xEC || 0xEE <= s[0] <= 0xEF then
      (if |s| >= 3 && IsTail(s[1]) && IsTail(s[2]) then 3 else 0)
    else if s[0] == 0xED then
      (if |s| >= 3 && 0x80 <= s[1] <= 0x9F && IsTail(s[2]) then 3 else 0)
    else if s[0] == 0xF0 then
      (if |s| >= 4 && 0x90 <= s[1] <= 0xBF && IsTail(s[2]) && IsTail(s[3]) then 4 else 0)
    else if 0xF1 <= s[0] <= 0xF3 then
      (if |s| >= 4 && IsTail(s[1]) && IsTail(s[2]) && IsTail(s[3]) then 4 else 0)
    else if s[0] == 0xF4 then
      (if |s| >= 4 && 0x80 <= s[1] <= 0x8F && IsTail(s[2]) && IsTail(s[3]) then 4 else 0)
    else 0
  }

  /** A character longer than one byte is a lead byte of its length's range followed by
      continuation bytes. */
  lemma CharLenShape(s: seq<byte>)
    ensures var n := CharLen(s);
      && (n >= 2 ==> forall j :: 1 <= j < n ==> IsTail(s[j]))
      && (n == 2 ==> 0xC2 <= s[0] <= 0xDF)
      && (n == 3 ==> 0xE0 <= s[0] <= 0xEF)
      && (n == 4 ==> 0xF0 <= s[0] <= 0xF4)
  {
  }

  /** `s` is a sequence of well-formed UTF-8 characters (UTF8-octets). */
  predicate ValidUtf8(s: seq<byte>)
    decreases |s|
  {
    s == [] || (CharLen(s) > 0 && ValidUtf8(s[CharLen(s)..]))
  }

  predicate IsAscii(s: seq<byte>) { forall i :: 0 <= i < |s| ==> s[i] < 0x80 }

  /** Every 7-bit byte string is well-formed UTF-8. */
  lemma {:induction false} AsciiIsValid(s: seq<byte>)
    requires IsAscii(s)
    ensures ValidUtf8(s)
    decreases |s|
  {
    if s != [] {
      assert CharLen(s) == 1;
      AsciiIsValid(s[1..]);
    }
  }

  /** Well-formed UTF-8 is closed under concatenation. */
  lemma {:induction false} ValidConcat(a: seq<byte>, b: seq<byte>)
    requires ValidUtf8(a) && ValidUtf8(b)
    ensures ValidUtf8(a + b)
    decreases |a|
  {
    if a == [] {
      assert a + b == b;
    } else {
      var n := CharLen(a);
      assert (a + b)[..n] == a[..n];
      CharLenPrefix(a, a + b);
      assert (a + b)[n..] == a[n..] + b;
      ValidConcat(a[n..], b);
    }
  }

  /** The length of the first character depends only on the bytes it spans. */
  lemma CharLenPrefix(a: seq<byte>, s: seq<byte>)
    requires CharLen(a) > 0 && |a| <= |s| && s[..|a|] == a
    ensures CharLen(s) == CharLen(a)
  {
    var n := CharLen(a);
    assert forall i :: 0 <= i < n ==> s[i] == a[i] by {
      forall i | 0 <= i < n ensures s[i] == a[i] { assert s[..|a|][i] == a[i]; }
    }
  }

  // ---------------------------------------------------------------- whitespace

  /** The ASCII characters with the White_Space property: TAB, LF, VT, FF, CR and SPACE. */
  predicate IsAsciiSpace(b: byte) { 9 <= b <= 13 || b == 32 }

  /** The three-byte encodings of U+1680, U+2000..U+200A, U+2028, U+2029, U+202F, U+205F
      and U+3000. */
  predicate IsSpace3(a: byte, b: byte, c: byte) {
    || (a == 0xE1 && b == 0x9A && c == 0x80)
    || (a == 0xE2 && b == 0x80 && (0x80 <= c <= 0x8A || c == 0xA8 || c == 0xA9 || c == 0xAF))
    || (a == 0xE2 && b == 0x81 && c == 0x9F)
    || (a == 0xE3 && b == 0x80 && c == 0x80)
  }

  /** Length of the whitespace character that starts `s` (U+0085 and U+00A0 are the two
      two-byte ones), or 0 when `s` does not start with whitespace. */
  function LeadingSpace(s: seq<byte>): (n: nat)
    ensures n <= |s| && n <= 3
  {
    if |s| >= 1 && IsAsciiSpace(s[0]) then 1
    else if |s| >= 2 && s[0] == 0xC2 && (s[1] == 0x85 || s[1] == 0xA0) then 2
    else if |s| >= 3 && IsSpace3(s[0], s[1], s[2]) then 3
    else 0
  }

  /** Length of the whitespace character that ends `s`, or 0 when `s` does not end with one. */
  function TrailingSpace(s: seq<byte>): (n: nat)
    ensures n <= |s| && n <= 3
  {
    var k := |s|;
    if k >= 1 && IsAsciiSpace(s[k - 1]) then 1
    else if k >= 2 && s[k - 2] == 0xC2 && (s[k - 1] == 0x85 || s[k - 1] == 0xA0) then 2
    else if k >= 3 && IsSpace3(s[k - 3], s[k - 2], s[k - 1]) then 3
    else 0
  }

  /** `s` consists of whitespace characters only. */
  predicate AllSpace(s: seq<byte>)
    decreases |s|
  {
    s == [] || (LeadingSpace(s) > 0 && AllSpace(s[LeadingSpace(s)..]))
  }

  /** A whitespace character that starts `p` also starts every extension of `p`. */
  lemma LeadingSpaceExtends(p: seq<byte>, s: seq<byte>)
    requires LeadingSpace(p) > 0 && |p| <= |s| && s[..|p|] == p
    ensures LeadingSpace(s) == LeadingSpace(p)
  {
    var n := LeadingSpace(p);
    assert forall i :: 0 <= i < n ==> s[i] == p[i] by {
      forall i | 0 <= i < n ensures s[i] == p[i] { assert s[..|p|][i] == p[i]; }
    }
  }

  /** The whitespace character that starts `s`, taken on its own, is one whitespace character. */
  lemma LeadingSpaceAlone(s: seq<byte>)
    requires LeadingSpace(s) > 0
    ensures LeadingSpace(s[..LeadingSpace(s)]) == LeadingSpace(s)
    ensures AllSpace(s[..LeadingSpace(s)])
  {
    var n := LeadingSpace(s);
    var c := s[..n];
    assert c[n..] == [];
  }

  /** The whitespace character that ends `s`, read from the front, is one whitespace character. */
  lemma TrailingSpaceAlone(s: seq<byte>)
    requires TrailingSpace(s) > 0
    ensures AllSpace(s[|s| - TrailingSpace(s)..])
  {
    var n := TrailingSpace(s);
    var c := s[|s| - n..];
    assert forall i :: 0 <= i < n ==> c[i] == s[|s| - n + i];
    assert LeadingSpace(c) == n;
    assert c[n..] == [];
  }

  lemma SliceSplit(s: seq<byte>, n: nat, k: nat)
    requires n + k <= |s|
    ensures s[..n + k] == s[..n] + s[n..][..k]
  {
  }

  /** Concatenating two runs of whitespace gives a run of whitespace. */
  lemma {:induction false} AllSpaceConcat(a: seq<byte>, b: seq<byte>)
    requires AllSpace(a) && AllSpace(b)
    ensures AllSpace(a + b)
    decreases |a|
  {
    if a == [] {
      assert a + b == b;
    } else {
      var n := LeadingSpace(a);
      assert (a + b)[..|a|] == a;
      LeadingSpaceExtends(a, a + b);
      assert (a + b)[n..] == a[n..] + b;
      AllSpaceConcat(a[n..], b);
    }
  }

  /** Length of the run of whitespace characters that starts `s`. */
  function SpacePrefix(s: seq<byte>): (n: nat)
    ensures n <= |s| && AllSpace(s[..n]) && LeadingSpace(s[n..]) == 0
    decreases |s|
  {
    var k := LeadingSpace(s);
    if k == 0 then
      assert s[..0] == [] && s[0..] == s;
      0
    else
      var m := SpacePrefix(s[k..]);
      SpaceRunExtends(s, m);
      k + m
  }

  /** A whitespace character and then a run of `m` bytes of whitespace. */
  lemma SpaceRunExtends(s: seq<byte>, m: nat)
    requires LeadingSpace(s) > 0 && m <= |s| - LeadingSpace(s)
    requires AllSpace(s[LeadingSpace(s)..][..m]) && LeadingSpace(s[LeadingSpace(s)..][m..]) == 0
    ensures AllSpace(s[..LeadingSpace(s) + m]) && LeadingSpace(s[LeadingSpace(s) + m..]) == 0
  {
    var k := LeadingSpace(s);
    assert s[k..][m..] == s[k + m..];
    LeadingSpaceAlone(s);
    SliceSplit(s, k, m);
    AllSpaceConcat(s[..k], s[k..][..m]);
  }

  /** `trim_start`: drops the leading whitespace characters.  What is dropped is a run of
      whitespace, and what remains does not start with whitespace. */
  function TrimStart(s: seq<byte>): (r: seq<byte>)
    ensures |r| <= |s| && r == s[|s| - |r|..]
    ensures AllSpace(s[..|s| - |r|])
    ensures LeadingSpace(r) == 0
  {
    s[SpacePrefix(s)..]
  }

  /** `trim_end`: drops the trailing whitespace characters.  What is dropped is a run of
      whitespace, and what remains does not end with whitespace. */
  function TrimEnd(s: seq<byte>): (r: seq<byte>)
    ensures |r| <= |s| && r == s[..|r|]
    ensures AllSpace(s[|r|..])
    ensures TrailingSpace(r) == 0
    decreases |s|
  {
    var n := TrailingSpace(s);
    if n == 0 then s
    else
      var front := s[..|s| - n];
      var r := TrimEnd(front);
      TrailingSpaceAlone(s);
      assert s[|r|..] == front[|r|..] + s[|s| - n..];
      AllSpaceConcat(front[|r|..], s[|s| - n..]);
      r
  }

  /** `trim`: both ends. */
  function Trim(s: seq<byte>): (r: seq<byte>)
    ensures |r| <= |s|
    ensures LeadingSpace(r) == 0 && TrailingSpace(r) == 0
    ensures SpaceTrimmed(s, r)
  {
    var t := TrimStart(s);
    var r := TrimEnd(t);
    assert LeadingSpace(r) == 0 by {
      if LeadingSpace(r) > 0 { LeadingSpaceExtends(r, t); }
    }
    TrimPieces(s, t, r);
    r
  }

  /** `r` is a contiguous piece of `s` with only whitespace before and after it. */
  ghost predicate SpaceTrimmed(s: seq<byte>, r: seq<byte>) {
    exists k ::
      && 0 <= k <= |s| - |r| && r == s[k..k + |r|]
      && AllSpace(s[..k]) && AllSpace(s[k + |r|..])
  }

  /** Cutting a prefix of whitespace and then a suffix of whitespace leaves a piece of the
      original input with whitespace on both sides. */
  lemma TrimPieces(s: seq<byte>, t: seq<byte>, r: seq<byte>)
    requires |t| <= |s| && t == s[|s| - |t|..] && AllSpace(s[..|s| - |t|])
    requires |r| <= |t| && r == t[..|r|] && AllSpace(t[|r|..])
    ensures SpaceTrimmed(s, r)
  {
    var k := |s| - |t|;
    assert s[k + |r|..] == t[|r|..];
    assert r == s[k..k + |r|] && AllSpace(s[..k]) && AllSpace(s[k + |r|..]);
  }

  /** Trimming text that has nothing to trim changes nothing; in particular `Trim` is
      idempotent. */
  lemma TrimmedIsFixed(s: seq<byte>)
    requires LeadingSpace(s) == 0 && TrailingSpace(s) == 0
    ensures Trim(s) == s
  {
  }

  lemma TrimIdempotent(s: seq<byte>)
    ensures Trim(Trim(s)) == Trim(s)
  {
    TrimmedIsFixed(Trim(s));
  }

  /** Whitespace followed by text that does not start with whitespace trims at the start to
      that text: `TrimStart` removes exactly the leading run of whitespace and nothing else. */
  lemma {:induction false} TrimStartOfSpaceThenText(w: seq<byte>, t: seq<byte>)
    requires AllSpace(w) && LeadingSpace(t) == 0
    ensures TrimStart(w + t) == t
    decreases |w|
  {
    if w == [] {
      assert w + t == t;
    } else {
      var n := LeadingSpace(w);
      assert (w + t)[..|w|] == w;
      LeadingSpaceExtends(w, w + t);
      assert (w + t)[n..] == w[n..] + t;
      TrimStartOfSpaceThenText(w[n..], t);
    }
  }
}

/**
 * UTF-8, the encoding of Rust's `str`: how many bytes a character takes, the
 * bytes of a string, and the byte offsets at which its characters start.
 * A Dafny `char` is a Unicode scalar value, as a Rust `char` is.
 */
module Utf8 {
  import opened Wrappers

  type Byte = b: int | 0 <= b < 0x100

  /** Every character is ASCII, so UTF-8 spends one byte on each. */
  predicate Ascii(s: string)
  {
    forall i :: 0 <= i < |s| ==> s[i] as int < 0x80
  }

  /** The number of bytes UTF-8 uses for `c`. */
  function CharLen(c: char): (n: nat)
    ensures 1 <= n <= 4
    ensures n == 1 <==> c as int < 0x80
  {
    if c as int < 0x80 then 1
    else if c as int < 0x800 then 2
    else if c as int < 0x1_0000 then 3
    else 4
  }

  /** The UTF-8 bytes of one character. */
  function EncodeChar(c: char): (bs: seq<Byte>)
    ensures |bs| == CharLen(c)
  {
    var cp := c as int;
    if cp < 0x80 then [cp]
    else if cp < 0x800 then [0xC0 + cp / 0x40, 0x80 + cp % 0x40]
    else if cp < 0x1_0000 then [0xE0 + cp / 0x1000, 0x80 + cp / 0x40 % 0x40, 0x80 + cp % 0x40]
    else [0xF0 + cp / 0x4_0000, 0x80 + cp / 0x1000 % 0x40, 0x80 + cp / 0x40 % 0x40, 0x80 + cp % 0x40]
  }

  /** The UTF-8 bytes of a string (`str::as_bytes`). */
  function EncodeString(s: string): seq<Byte>
  {
    if s == [] then [] else EncodeChar(s[0]) + EncodeString(s[1..])
  }

  lemma {:induction false} EncodeAppend(a: string, b: string)
    ensures EncodeString(a + b) == EncodeString(a) + EncodeString(b)
  {
    if a == [] {
      assert a + b == b;
    } else {
      assert (a + b)[0] == a[0] && (a + b)[1..] == a[1..] + b;
      EncodeAppend(a[1..], b);
    }
  }

  /**
   * The byte length (`str::len`) is at least the character count, and equal
   * to it exactly when every character is ASCII.
   */
  lemma {:induction false} ByteLenBounds(s: string)
    ensures |s| <= |EncodeString(s)| <= 4 * |s|
    ensures |EncodeString(s)| == |s| <==> Ascii(s)
  {
    if s != [] {
      ByteLenBounds(s[1..]);
      if |EncodeString(s)| == |s| {
        forall i | 0 <= i < |s| ensures s[i] as int < 0x80 {
          if i > 0 { assert s[i] == s[1..][i - 1]; }
        }
      }
    }
  }

  /** A line without a '\n' character has no line-feed byte (0x0A) in its encoding. */
  lemma {:induction false} NoLineFeedByte(s: string)
    requires '\n' !in s
    ensures 0x0A !in EncodeString(s)
  {
    if s != [] {
      assert s[0] != '\n';
      assert '\n' !in s[1..] by {
        forall i | 0 <= i < |s| - 1 ensures s[1..][i] != '\n' { assert s[1..][i] == s[i + 1]; }
      }
      NoLineFeedByte(s[1..]);
    }
  }

  /**
   * `char_indices`: the byte offset of each character of `s`.
   */
  function CharIndices(s: string): (offsets: seq<nat>)
    ensures |offsets| == |s|
    ensures forall k :: 0 <= k < |s| ==> offsets[k] == |EncodeString(s[..k])|
  {
    seq(|s|, k requires 0 <= k < |s| => |EncodeString(s[..k])|)
  }

  /** `s.char_indices().nth(n).map(|(i, _)| i)`: the byte offset of character `n`, if there is one. */
  function NthCharIndex(s: string, n: nat): (r: Option<nat>)
    ensures r.Some? <==> n < |s|
    ensures r.Some? ==> r.value < |EncodeString(s)|
    ensures r.Some? ==> r.value == |EncodeString(s[..n])|
  {
    if n < |s| then
      CharBoundary(s, n);
      Some(CharIndices(s)[n])
    else None
  }

  /**
   * Slicing the bytes of `s` at the offset of character `k` splits it on a
   * character boundary: the two halves are the encodings of `s[..k]` and `s[k..]`.
   */
  lemma CharBoundary(s: string, k: nat)
    requires k <= |s|
    ensures var off := |EncodeString(s[..k])|;
      && off <= |EncodeString(s)|
      && (k < |s| ==> off < |EncodeString(s)|)
      && EncodeString(s)[..off] == EncodeString(s[..k])
      && EncodeString(s)[off..] == EncodeString(s[k..])
  {
    assert s == s[..k] + s[k..];
    EncodeAppend(s[..k], s[k..]);
  }

  /**
   * The number of characters whose bytes make up the first `b` bytes of `s`,
   * or None when byte `b` falls inside a character's encoding (where Rust's
   * `str` slicing panics).
   */
  function CharsBefore(s: string, b: nat): (r: Option<nat>)
    ensures r.Some? ==> r.value <= |s| && |EncodeString(s[..r.value])| == b
    ensures r.Some? ==> b <= |EncodeString(s)|
  {
    if b == 0 then Some(0)
    else if s == [] || b < CharLen(s[0]) then None
    else match CharsBefore(s[1..], b - CharLen(s[0]))
      case None => None
      case Some(k) =>
        assert s[..k + 1] == [s[0]] + s[1..][..k];
        EncodeAppend([s[0]], s[1..][..k]);
        Some(k + 1)
  }

  /** Every character boundary is found as one. */
  lemma {:induction false} CharsBeforeBoundary(s: string, k: nat)
    requires k <= |s|
    ensures CharsBefore(s, |EncodeString(s[..k])|) == Some(k)
  {
    if k > 0 {
      assert s[..k] == [s[0]] + s[1..][..k - 1];
      EncodeAppend([s[0]], s[1..][..k - 1]);
      CharsBeforeBoundary(s[1..], k - 1);
    }
  }

  /** `&s[b..]`, defined when `b` is a character boundary. */
  function SliceFrom(s: string, b: nat): (r: string)
    requires CharsBefore(s, b).Some?
    ensures EncodeString(r) == EncodeString(s)[b..]
  {
    var k := CharsBefore(s, b).value;
    CharBoundary(s, k);
    s[k..]
  }

  /** `&s[..b]`, defined when `b` is a character boundary. */
  function SliceTo(s: string, b: nat): (r: string)
    requires CharsBefore(s, b).Some?
    ensures EncodeString(r) == EncodeString(s)[..b]
  {
    var k := CharsBefore(s, b).value;
    CharBoundary(s, k);
    s[..k]
  }

  /**
   * Slicing at the byte offset `char_indices` gives for character `n`, or at
   * the end of the string, is slicing at character `n`.
   */
  lemma SliceAtCharIndex(s: string, n: nat)
    requires n <= |s|
    ensures CharsBefore(s, |EncodeString(s[..n])|) == Some(n)
    ensures SliceFrom(s, |EncodeString(s[..n])|) == s[n..]
    ensures SliceTo(s, |EncodeString(s[..n])|) == s[..n]
  {
    CharsBeforeBoundary(s, n);
  }

  // ---------------------------------------------------------------------
  // Decoding, the inverse of EncodeString

  /** The length of the sequence a lead byte starts, or 0 for a byte that cannot lead. */
  function LeadLen(b: Byte): nat
  {
    if b < 0x80 then 1
    else if 0xC0 <= b < 0xE0 then 2
    else if 0xE0 <= b < 0xF0 then 3
    else if 0xF0 <= b < 0xF8 then 4
    else 0
  }

  predicate IsContinuation(b: Byte) { 0x80 <= b < 0xC0 }

  /** The scalar value encoded by exactly the bytes `bs`, rejecting overlong forms and surrogates. */
  function DecodeScalar(bs: seq<Byte>): Option<char>
  {
    if |bs| == 0 || LeadLen(bs[0]) != |bs| then None
    else if exists i :: 1 <= i < |bs| && !IsContinuation(bs[i]) then None
    else
      var cp: int :=
        if |bs| == 1 then bs[0] as int
        else if |bs| == 2 then (bs[0] as int - 0xC0) * 0x40 + (bs[1] as int - 0x80)
        else if |bs| == 3 then (bs[0] as int - 0xE0) * 0x1000 + (bs[1] as int - 0x80) * 0x40 + (bs[2] as int - 0x80)
        else (bs[0] as int - 0xF0) * 0x4_0000 + (bs[1] as int - 0x80) * 0x1000 + (bs[2] as int - 0x80) * 0x40 + (bs[3] as int - 0x80);
      var least: int := if |bs| == 1 then 0 else if |bs| == 2 then 0x80 else if |bs| == 3 then 0x800 else 0x1_0000;
      if cp < least || (0xD800 <= cp < 0xE000) || cp >= 0x11_0000 then None
      else Some(cp as char)
  }

  /** The string whose UTF-8 encoding is `bs`, if `bs` is well-formed. */
  function DecodeString(bs: seq<Byte>): Option<string>
    decreases |bs|
  {
    if bs == [] then Some([])
    else
      var n := LeadLen(bs[0]);
      if n == 0 || n > |bs| then None
      else match (DecodeScalar(bs[..n]), DecodeString(bs[n..]))
        case (Some(c), Some(rest)) => Some([c] + rest)
        case _ => None
  }

  lemma SplitSix(cp: int)
    requires cp >= 0
    ensures cp == cp / 0x40 * 0x40 + cp % 0x40
    ensures cp / 0x40 == cp / 0x1000 * 0x40 + cp / 0x40 % 0x40
    ensures cp / 0x1000 == cp / 0x4_0000 * 0x40 + cp / 0x1000 % 0x40
  {
    assert cp / 0x40 / 0x40 == cp / 0x1000;
    assert cp / 0x1000 / 0x40 == cp / 0x4_0000;
  }

  lemma DecodeEncodeChar(c: char)
    ensures LeadLen(EncodeChar(c)[0]) == CharLen(c)
    ensures DecodeScalar(EncodeChar(c)) == Some(c)
  {
    var cp := c as int;
    var bs := EncodeChar(c);
    if cp < 0x80 {
    } else if cp < 0x800 {
      SplitSix(cp);
      assert IsContinuation(bs[1]);
      assert (bs[0] as int - 0xC0) * 0x40 + (bs[1] as int - 0x80) == cp;
    } else if cp < 0x1_0000 {
      SplitSix(cp);
      assert IsContinuation(bs[1]) && IsContinuation(bs[2]);
      assert (bs[0] as int - 0xE0) * 0x1000 + (bs[1] as int - 0x80) * 0x40 + (bs[2] as int - 0x80) == cp;
    } else {
      SplitSix(cp);
      assert IsContinuation(bs[1]) && IsContinuation(bs[2]) && IsContinuation(bs[3]);
      assert (bs[0] as int - 0xF0) * 0x4_0000 + (bs[1] as int - 0x80) * 0x1000 + (bs[2] as int - 0x80) * 0x40 + (bs[3] as int - 0x80) == cp;
    }
  }

  /** Decoding the bytes of a string gives back the string. */
  lemma {:induction false} DecodeEncode(s: string)
    ensures DecodeString(EncodeString(s)) == Some(s)
  {
    if s != [] {
      var bs := EncodeString(s);
      var head := EncodeChar(s[0]);
      DecodeEncodeChar(s[0]);
      assert bs[..|head|] == head && bs[|head|..] == EncodeString(s[1..]);
      DecodeEncode(s[1..]);
      assert [s[0]] + s[1..] == s;
    }
  }
}

/**
 * UTF-8 (RFC 3629), as `String.getBytes(UTF_8)` and `new String(bytes, UTF_8)` use it.
 * Dafny characters are Unicode scalar values, so the encoder never meets a lone surrogate.
 */
module Utf8 {
  import opened Binary

  /** The one to four bytes of one scalar value. */
  function EncodeChar(c: char): (r: seq<uint8>)
    ensures 1 <= |r| <= 4
    ensures (r[0] < 0x80) == (|r| == 1)
  {
    var v := c as int;
    if v < 0x80 then [v]
    else if v < 0x800 then [0xC0 + v / 64, 0x80 + v % 64]
    else if v < 0x1_0000 then [0xE0 + v / 4096, 0x80 + (v / 64) % 64, 0x80 + v % 64]
    else [0xF0 + v / 0x4_0000, 0x80 + (v / 4096) % 64, 0x80 + (v / 64) % 64, 0x80 + v % 64]
  }

  /** `getBytes(UTF_8)`: the encodings of the characters, in order. */
  function Encode(s: string): seq<uint8>
  {
    if s == [] then [] else EncodeChar(s[0]) + Encode(s[1..])
  }

  predicate IsContinuation(b: uint8)
  {
    0x80 <= b < 0xC0
  }

  /** U+FFFD, which the decoder substitutes for malformed input. */
  const Replacement: char := 0xFFFD as char

  /** The bits of byte `b` after its marker `mark`, shifted to position `scale`. */
  function Payload(b: int, mark: int, scale: nat): int
  {
    (b - mark) * scale
  }

  /**
   * Decodes the character at the front of `s` and says how many bytes it used. A byte that
   * does not start a well-formed sequence (overlong, surrogate, above U+10FFFF, truncated)
   * decodes as U+FFFD and uses one byte.
   */
  function DecodeChar(s: seq<uint8>): (r: (char, nat))
    requires |s| > 0
    ensures 1 <= r.1 <= |s| && r.1 <= 4
  {
    var b0: int := s[0];
    if b0 < 0x80 then (b0 as char, 1)
    else if 0xC2 <= b0 < 0xE0 && |s| >= 2 && IsContinuation(s[1]) then
      ((Payload(b0, 0xC0, 64) + Payload(s[1], 0x80, 1)) as char, 2)
    else if 0xE0 <= b0 < 0xF0 && |s| >= 3 && IsContinuation(s[1]) && IsContinuation(s[2]) then
      var v := Payload(b0, 0xE0, 4096) + Payload(s[1], 0x80, 64) + Payload(s[2], 0x80, 1);
      if 0x800 <= v < 0xD800 || 0xE000 <= v then (v as char, 3) else (Replacement, 1)
    else if 0xF0 <= b0 < 0xF5 && |s| >= 4 && IsContinuation(s[1]) && IsContinuation(s[2]) && IsContinuation(s[3]) then
      var v := Payload(b0, 0xF0, 0x4_0000) + Payload(s[1], 0x80, 4096) + Payload(s[2], 0x80, 64) + Payload(s[3], 0x80, 1);
      if 0x1_0000 <= v < 0x11_0000 then (v as char, 4) else (Replacement, 1)
    else (Replacement, 1)
  }

  /** `new String(bytes, UTF_8)`. */
  function Decode(s: seq<uint8>): string
    decreases |s|
  {
    if s == [] then [] else
      var (c, k) := DecodeChar(s);
      [c] + Decode(s[k..])
  }

  /** The encoding of a character is exactly what the decoder reads back at the front. */
  lemma DecodeCharOfEncodeChar(c: char, rest: seq<uint8>)
    ensures DecodeChar(EncodeChar(c) + rest) == (c, |EncodeChar(c)|)
  {
    var v := c as int;
    if v < 0x80 {
    } else if v < 0x800 {
      DecodeTwo(c, rest);
    } else if v < 0x1_0000 {
      DecodeThree(c, rest);
    } else {
      DecodeFour(c, rest);
    }
  }

  lemma DecodeTwo(c: char, rest: seq<uint8>)
    requires 0x80 <= c as int < 0x800
    ensures DecodeChar(EncodeChar(c) + rest) == (c, 2)
  {
    var v := c as int;
    var s := EncodeChar(c) + rest;
    assert s[0] == 0xC0 + v / 64 && s[1] == 0x80 + v % 64;
    assert Payload(s[0], 0xC0, 64) + Payload(s[1], 0x80, 1) == v;
  }

  lemma DecodeThree(c: char, rest: seq<uint8>)
    requires 0x800 <= c as int < 0x1_0000
    ensures DecodeChar(EncodeChar(c) + rest) == (c, 3)
  {
    var v := c as int;
    var s := EncodeChar(c) + rest;
    assert s[0] == 0xE0 + v / 4096 && s[1] == 0x80 + (v / 64) % 64 && s[2] == 0x80 + v % 64;
    assert (v / 4096) * 64 + (v / 64) % 64 == v / 64;
    assert Payload(s[0], 0xE0, 4096) + Payload(s[1], 0x80, 64) + Payload(s[2], 0x80, 1) == v;
  }

  lemma DecodeFour(c: char, rest: seq<uint8>)
    requires 0x1_0000 <= c as int
    ensures DecodeChar(EncodeChar(c) + rest) == (c, 4)
  {
    var v := c as int;
    var s := EncodeChar(c) + rest;
    assert s[0] == 0xF0 + v / 0x4_0000 && s[1] == 0x80 + (v / 4096) % 64;
    assert s[2] == 0x80 + (v / 64) % 64 && s[3] == 0x80 + v % 64;
    assert (v / 0x4_0000) * 64 + (v / 4096) % 64 == v / 4096;
    assert (v / 4096) * 64 + (v / 64) % 64 == v / 64;
    assert Payload(s[0], 0xF0, 0x4_0000) + Payload(s[1], 0x80, 4096) + Payload(s[2], 0x80, 64) + Payload(s[3], 0x80, 1) == v;
  }

  lemma {:induction false} EncodeAppend(a: string, b: string)
    ensures Encode(a + b) == Encode(a) + Encode(b)
  {
    if a == [] {
      assert a + b == b;
    } else {
      assert (a + b)[1..] == a[1..] + b;
      EncodeAppend(a[1..], b);
    }
  }

  /** Decoding the encoding of a string gives the string back. */
  lemma {:induction false} DecodeOfEncode(s: string)
    ensures Decode(Encode(s)) == s
  {
    if s != [] {
      var e := Encode(s);
      DecodeCharOfEncodeChar(s[0], Encode(s[1..]));
      assert e[|EncodeChar(s[0])|..] == Encode(s[1..]);
      DecodeOfEncode(s[1..]);
      assert s == [s[0]] + s[1..];
    }
  }

  /** Strings with different characters have different encodings. */
  lemma EncodeInjective(s: string, t: string)
    requires Encode(s) == Encode(t)
    ensures s == t
  {
    DecodeOfEncode(s);
    DecodeOfEncode(t);
  }

  /** ASCII characters encode as one byte each, equal to their code. */
  lemma {:induction false} EncodeAscii(s: string)
    requires forall i :: 0 <= i < |s| ==> s[i] as int < 0x80
    ensures |Encode(s)| == |s|
    ensures forall i :: 0 <= i < |s| ==> Encode(s)[i] == s[i] as int
  {
    if s != [] {
      EncodeAscii(s[1..]);
    }
  }
}

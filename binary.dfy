/**
 * Java's primitive integer ranges and the big-endian two's-complement byte layout that
 * `DataOutputStream.writeByte/Short/Int/Long` produce and `DataInputStream.readX` consume.
 */
module Binary {

  /** One byte of the binary stream. */
  type uint8 = x: int | 0 <= x < 0x100

  /** Java `byte`, `short`, `int` and `long` values. */
  type Int8 = x: int | -0x80 <= x < 0x80
  type Int16 = x: int | -0x8000 <= x < 0x8000
  type Int32 = x: int | -0x8000_0000 <= x < 0x8000_0000
  type Int64 = x: int | -0x8000_0000_0000_0000 <= x < 0x8000_0000_0000_0000

  /** `Integer.MAX_VALUE`. */
  const MaxInt32: int := 0x7FFF_FFFF

  /** The raw bits of a Java `float` / `double` (`floatToIntBits` / `doubleToLongBits`). */
  type Bits32 = x: int | 0 <= x < 0x1_0000_0000
  type Bits64 = x: int | 0 <= x < 0x1_0000_0000_0000_0000

  /**
   * A float's bits denote a NaN: the 8 exponent bits all set and the 23 fraction bits not all
   * clear, that is, above positive or negative infinity (`0x7f800000`, `0xff800000`) within the
   * same sign.
   */
  predicate IsFloatNaN(f: Bits32)
  {
    0x7F80_0000 < f < 0x8000_0000 || 0xFF80_0000 < f
  }

  /**
   * A double's bits denote a NaN: the 11 exponent bits all set and the 52 fraction bits not all
   * clear, that is, above positive or negative infinity within the same sign.
   */
  predicate IsDoubleNaN(d: Bits64)
  {
    0x7FF0_0000_0000_0000 < d < 0x8000_0000_0000_0000 || 0xFFF0_0000_0000_0000 < d
  }

  /**
   * `Float.floatToIntBits`, which `DataOutputStream.writeFloat` writes: the bits unchanged,
   * except that every NaN becomes the one canonical NaN `0x7fc00000`.
   */
  function FloatToIntBits(f: Bits32): (r: Bits32)
    ensures IsFloatNaN(r) <==> IsFloatNaN(f)
    ensures !IsFloatNaN(f) ==> r == f
    ensures IsFloatNaN(f) ==> r == 0x7FC0_0000
  {
    if IsFloatNaN(f) then 0x7FC0_0000 else f
  }

  /**
   * `Double.doubleToLongBits`, which `DataOutputStream.writeDouble` writes: the bits unchanged,
   * except that every NaN becomes the one canonical NaN `0x7ff8000000000000`.
   */
  function DoubleToLongBits(d: Bits64): (r: Bits64)
    ensures IsDoubleNaN(r) <==> IsDoubleNaN(d)
    ensures !IsDoubleNaN(d) ==> r == d
    ensures IsDoubleNaN(d) ==> r == 0x7FF8_0000_0000_0000
  {
    if IsDoubleNaN(d) then 0x7FF8_0000_0000_0000 else d
  }

  /** Writing bits that were already written changes nothing: the canonical NaNs are NaNs. */
  lemma CanonicalBitsStable(f: Bits32, d: Bits64)
    ensures FloatToIntBits(FloatToIntBits(f)) == FloatToIntBits(f)
    ensures DoubleToLongBits(DoubleToLongBits(d)) == DoubleToLongBits(d)
  {
    assert IsFloatNaN(0x7FC0_0000);
    assert IsDoubleNaN(0x7FF8_0000_0000_0000);
  }

  /** The byte widths of the four integer kinds. */
  type Width = n: nat | n == 1 || n == 2 || n == 4 || n == 8 witness 1

  function Pow256(n: nat): (p: nat)
    ensures p >= 1
  {
    if n == 0 then 1 else 256 * Pow256(n - 1)
  }

  /** 2 to the power of 8 times the width, written out. */
  function Modulus(n: Width): (m: nat)
    ensures m == Pow256(n)
  {
    assert Pow256(2) == 0x1_0000;
    assert Pow256(4) == 0x1_0000 * Pow256(2);
    assert Pow256(8) == 0x1_0000_0000 * Pow256(4);
    match n
    case 1 => 0x100
    case 2 => 0x1_0000
    case 4 => 0x1_0000_0000
    case 8 => 0x1_0000_0000_0000_0000
  }

  /** The low `n` bytes of `v` as an unsigned number: what a write of that width keeps. */
  function LowBits(v: int, n: Width): (u: nat)
    ensures u < Pow256(n)
    ensures 0 <= v < Pow256(n) ==> u == v
    ensures -(Pow256(n) as int) <= v < 0 ==> u == v + Pow256(n)
  {
    v % Modulus(n)
  }

  /** `v` lies in the two's-complement range of `n` bytes. */
  predicate InSigned(v: int, n: Width)
  {
    -(Modulus(n) as int) <= 2 * v < Modulus(n)
  }

  /** The unsigned number `u` as `n` big-endian bytes. */
  function BigEndian(u: nat, n: nat): (r: seq<uint8>)
    requires u < Pow256(n)
    ensures |r| == n
  {
    if n == 0 then [] else BigEndian(u / 256, n - 1) + [u % 256]
  }

  /** The unsigned number that a sequence of big-endian bytes denotes. */
  function FromBigEndian(s: seq<uint8>): (u: nat)
    ensures u < Pow256(|s|)
  {
    if s == [] then 0 else FromBigEndian(s[..|s| - 1]) * 256 + s[|s| - 1]
  }

  /** `DataOutputStream.writeX(v)`: the low `n` bytes of `v`, most significant first. */
  function Encode(v: int, n: Width): (r: seq<uint8>)
    ensures |r| == n
  {
    BigEndian(LowBits(v, n), n)
  }

  /** `DataInputStream.readX()`: the bytes read as a two's-complement number. */
  function DecodeSigned(s: seq<uint8>): int
  {
    var u := FromBigEndian(s);
    if 2 * u >= Pow256(|s|) then u - Pow256(|s|) else u
  }

  /** `readUnsignedShort` and friends: the bytes read as an unsigned number. */
  function DecodeUnsigned(s: seq<uint8>): nat
  {
    FromBigEndian(s)
  }

  lemma {:induction false} FromBigEndianOfBigEndian(u: nat, n: nat)
    requires u < Pow256(n)
    ensures FromBigEndian(BigEndian(u, n)) == u
  {
    if n > 0 {
      var r := BigEndian(u, n);
      assert r[..n - 1] == BigEndian(u / 256, n - 1);
      FromBigEndianOfBigEndian(u / 256, n - 1);
    }
  }

  lemma {:induction false} BigEndianOfFromBigEndian(s: seq<uint8>)
    ensures BigEndian(FromBigEndian(s), |s|) == s
  {
    if s != [] {
      var front, last := s[..|s| - 1], s[|s| - 1];
      BigEndianOfFromBigEndian(front);
      var x := FromBigEndian(s);
      assert x == FromBigEndian(front) * 256 + last;
      SplitByte(FromBigEndian(front), last);
      assert BigEndian(x, |s|) == BigEndian(FromBigEndian(front), |front|) + [last];
      assert s == front + [last];
    }
  }

  /** A number with one more low byte: dividing and reducing by 256 take it apart again. */
  lemma SplitByte(u: nat, b: uint8)
    ensures (u * 256 + b) / 256 == u && (u * 256 + b) % 256 == b
  {
  }

  /** A written value reads back as its low `n` bytes, unsigned. */
  lemma DecodeUnsignedOfEncode(v: int, n: Width)
    ensures DecodeUnsigned(Encode(v, n)) == LowBits(v, n)
  {
    FromBigEndianOfBigEndian(LowBits(v, n), n);
  }

  /** A value in the signed range of `n` bytes reads back unchanged. */
  lemma DecodeSignedOfEncode(v: int, n: Width)
    requires InSigned(v, n)
    ensures DecodeSigned(Encode(v, n)) == v
  {
    var s := Encode(v, n);
    var u := LowBits(v, n);
    FromBigEndianOfBigEndian(u, n);
    assert |s| == n && FromBigEndian(s) == u;
    if v < 0 {
      assert u == v + Pow256(n) && 2 * u >= Pow256(n);
    } else {
      assert u == v && 2 * u < Pow256(n);
    }
  }

  /** Reading `n` bytes signed always yields a value of the matching Java type. */
  lemma DecodeSignedRange(s: seq<uint8>)
    ensures -(Pow256(|s|) as int) <= 2 * DecodeSigned(s) < Pow256(|s|)
  {
  }

  /**
   * The bytes that `count` values of width `n` take: `n * count`, written as a sum so that the
   * proofs about runs of values stay in linear arithmetic (`SpanIsProduct` links the two).
   */
  function Span(n: Width, count: nat): nat
  {
    if count == 0 then 0 else n + Span(n, count - 1)
  }

  lemma {:induction false} SpanIsProduct(n: Width, count: nat)
    ensures Span(n, count) == n * count
  {
    if count > 0 {
      SpanIsProduct(n, count - 1);
    }
  }

  lemma {:induction false} SpanAdd(n: Width, a: nat, b: nat)
    ensures Span(n, a + b) == Span(n, a) + Span(n, b)
  {
    if a > 0 {
      SpanAdd(n, a - 1, b);
    }
  }

  lemma SpanMonotonic(n: Width, a: nat, b: nat)
    requires a <= b
    ensures Span(n, a) <= Span(n, b)
  {
    SpanAdd(n, a, b - a);
  }

  /** Concatenated encodings: the big-endian encodings of a sequence of values of one width. */
  function EncodeAll(vs: seq<int>, n: Width): (r: seq<uint8>)
    ensures |r| == Span(n, |vs|)
  {
    if vs == [] then [] else Encode(vs[0], n) + EncodeAll(vs[1..], n)
  }

  /** Reading `count` consecutive values of width `n`, signed. */
  function DecodeAll(s: seq<uint8>, n: Width, count: nat): (r: seq<int>)
    requires |s| >= Span(n, count)
    ensures |r| == count
  {
    if count == 0 then [] else [DecodeSigned(s[..n])] + DecodeAll(s[n..], n, count - 1)
  }

  /** Every value read is in the range of the `n`-byte Java type. */
  lemma {:induction false} DecodeAllInSigned(s: seq<uint8>, n: Width, count: nat)
    requires |s| >= Span(n, count)
    ensures forall i :: 0 <= i < count ==> InSigned(DecodeAll(s, n, count)[i], n)
  {
    if count > 0 {
      DecodeSignedInSigned(s[..n], n);
      DecodeAllInSigned(s[n..], n, count - 1);
      var r := DecodeAll(s, n, count);
      forall i | 0 <= i < count
        ensures InSigned(r[i], n)
      {
        if i > 0 {
          assert r[i] == DecodeAll(s[n..], n, count - 1)[i - 1];
        }
      }
    }
  }

  /** `n` bytes read signed give a value of the `n`-byte Java type. */
  lemma DecodeSignedInSigned(s: seq<uint8>, n: Width)
    requires |s| == n
    ensures InSigned(DecodeSigned(s), n)
  {
    DecodeSignedRange(s);
  }

  lemma {:induction false} EncodeAllAppend(a: seq<int>, b: seq<int>, n: Width)
    ensures EncodeAll(a + b, n) == EncodeAll(a, n) + EncodeAll(b, n)
  {
    if a != [] {
      assert (a + b)[1..] == a[1..] + b;
      EncodeAllAppend(a[1..], b, n);
    } else {
      assert a + b == b;
    }
  }

  lemma DecodeAllCons(v: int, n: Width, t: seq<uint8>, k: nat)
    requires InSigned(v, n) && |t| >= Span(n, k)
    ensures DecodeAll(Encode(v, n) + t, n, k + 1) == [v] + DecodeAll(t, n, k)
  {
    var s := Encode(v, n) + t;
    assert s[..n] == Encode(v, n);
    assert s[n..] == t;
    DecodeSignedOfEncode(v, n);
  }

  /** Values in the signed range of the width decode back from their concatenated encoding. */
  lemma {:induction false} DecodeAllOfEncodeAll(vs: seq<int>, n: Width, rest: seq<uint8>)
    requires forall i :: 0 <= i < |vs| ==> InSigned(vs[i], n)
    ensures DecodeAll(EncodeAll(vs, n) + rest, n, |vs|) == vs
  {
    if vs != [] {
      var v, us := vs[0], vs[1..];
      assert vs == [v] + us;
      DecodeAllOfEncodeAll(us, n, rest);
      var tail := EncodeAll(us, n) + rest;
      assert EncodeAll(vs, n) + rest == Encode(v, n) + tail;
      DecodeAllCons(v, n, tail, |us|);
    }
  }

  /** Decoding `count` values looks at the first `Span(n, count)` bytes only. */
  lemma {:induction false} DecodeAllPrefix(s: seq<uint8>, t: seq<uint8>, n: Width, count: nat)
    requires |s| >= Span(n, count) && |t| >= Span(n, count) && s[..Span(n, count)] == t[..Span(n, count)]
    ensures DecodeAll(s, n, count) == DecodeAll(t, n, count)
  {
    if count > 0 {
      var k := Span(n, count);
      assert s[..n] == s[..k][..n] == t[..k][..n] == t[..n];
      assert s[n..][..k - n] == s[..k][n..] == t[..k][n..] == t[n..][..k - n];
      DecodeAllPrefix(s[n..], t[n..], n, count - 1);
    }
  }

  /** The values decoded from the first `k + 1` slots are those of the first `k`, then the next one. */
  lemma DecodeAllSnoc(s: seq<uint8>, n: Width, k: nat)
    requires |s| >= Span(n, k + 1)
    ensures Span(n, k + 1) == Span(n, k) + n
    ensures DecodeAll(s, n, k + 1) == DecodeAll(s, n, k) + [DecodeSigned(s[Span(n, k)..Span(n, k) + n])]
  {
    DecodeAllSplit(s, n, k, 1);
    assert s[Span(n, k)..][..n] == s[Span(n, k)..Span(n, k) + n];
  }

  /** Decoding `a + b` values is decoding `a` values, then `b` more from where they end. */
  lemma {:induction false} DecodeAllSplit(s: seq<uint8>, n: Width, a: nat, b: nat)
    requires |s| >= Span(n, a + b)
    ensures Span(n, a + b) == Span(n, a) + Span(n, b)
    ensures DecodeAll(s, n, a + b) == DecodeAll(s, n, a) + DecodeAll(s[Span(n, a)..], n, b)
  {
    SpanAdd(n, a, b);
    if a > 0 {
      var t := s[n..];
      SpanAdd(n, a - 1, b);
      DecodeAllSplit(t, n, a - 1, b);
      assert t[Span(n, a - 1)..] == s[Span(n, a)..];
    }
  }

  /**
   * A Java narrowing cast to `n` bytes (`(byte) l`, `(short) l`, `(int) l`): the low `n` bytes of
   * `v` read back as a two's-complement number.
   */
  function Wrap(v: int, n: Width): (r: int)
    ensures InSigned(r, n)
    ensures (r - v) % Modulus(n) == 0
    ensures InSigned(v, n) ==> r == v
  {
    var u := LowBits(v, n);
    if 2 * u >= Modulus(n) then u - Modulus(n) else u
  }

  /** Reading back any written value gives that value narrowed to the width. */
  lemma DecodeSignedIsWrap(v: int, n: Width)
    ensures DecodeSigned(Encode(v, n)) == Wrap(v, n)
  {
    FromBigEndianOfBigEndian(LowBits(v, n), n);
  }
}

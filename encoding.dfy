/**
 * Byte-level encodings used when a request body is built: UTF-8 (Python's
 * `str.encode('utf-8')`), ASCII case folding (`str.lower` as used on header
 * names) and decimal integers (the value of a Content-Length header).
 */
module Encoding {
  import opened Wrappers

  newtype byte = x: int | 0 <= x < 256

  /** Unicode scalar values: what a Dafny `char` holds. */
  predicate IsScalar(n: int) {
    0 <= n < 0xD800 || 0xE000 <= n < 0x11_0000
  }

  // ---------------------------------------------------------------------
  // ASCII case folding

  function LowerChar(c: char): char {
    if 'A' <= c <= 'Z' then (c as int + 32) as char else c
  }

  function Lower(s: string): (r: string)
    ensures |r| == |s|
    ensures forall i :: 0 <= i < |s| ==> r[i] == LowerChar(s[i])
  {
    if s == [] then [] else [LowerChar(s[0])] + Lower(s[1..])
  }

  // ---------------------------------------------------------------------
  // UTF-8

  function IsContinuation(b: byte): bool {
    0x80 <= b < 0xC0
  }

  /** The UTF-8 encoding of one scalar value: one to four bytes. */
  function CharBytes(c: char): (r: seq<byte>)
    ensures 1 <= |r| <= 4
    ensures (c as int < 0x80) <==> |r| == 1
    ensures |r| == 1 ==> r[0] as int == c as int
    ensures forall i :: 1 <= i < |r| ==> IsContinuation(r[i])
  {
    var n := c as int;
    if n < 0x80 then
      [n as byte]
    else if n < 0x800 then
      [(0xC0 + n / 64) as byte, (0x80 + n % 64) as byte]
    else if n < 0x1_0000 then
      [(0xE0 + n / 4096) as byte, (0x80 + n / 64 % 64) as byte, (0x80 + n % 64) as byte]
    else
      [(0xF0 + n / 262144) as byte, (0x80 + n / 4096 % 64) as byte,
       (0x80 + n / 64 % 64) as byte, (0x80 + n % 64) as byte]
  }

  /** `s.encode('utf-8')`. */
  function Utf8(s: string): (r: seq<byte>)
    ensures |s| <= |r| <= 4 * |s|
  {
    if s == [] then [] else CharBytes(s[0]) + Utf8(s[1..])
  }

  /**
   * Decodes the first scalar value of `b` in strict UTF-8 (no overlong forms,
   * no surrogates, nothing above U+10FFFF), returning it and its length.
   */
  function DecodeFirst(b: seq<byte>): (r: Option<(char, nat)>)
    ensures r.Some? ==> 1 <= r.value.1 <= |b| && r.value.1 <= 4
  {
    if |b| == 0 then None
    else if b[0] < 0x80 then Some(((b[0] as int) as char, 1))
    else if b[0] < 0xC0 then None
    else if b[0] < 0xE0 then
      if |b| < 2 || !IsContinuation(b[1]) then None
      else
        var n := (b[0] as int - 0xC0) * 64 + (b[1] as int - 0x80);
        if n < 0x80 then None else Some((n as char, 2))
    else if b[0] < 0xF0 then
      if |b| < 3 || !IsContinuation(b[1]) || !IsContinuation(b[2]) then None
      else
        var n := (b[0] as int - 0xE0) * 4096 + (b[1] as int - 0x80) * 64 + (b[2] as int - 0x80);
        if n < 0x800 || !IsScalar(n) then None else Some((n as char, 3))
    else if b[0] < 0xF8 then
      if |b| < 4 || !IsContinuation(b[1]) || !IsContinuation(b[2]) || !IsContinuation(b[3]) then None
      else
        var n := (b[0] as int - 0xF0) * 262144 + (b[1] as int - 0x80) * 4096
                 + (b[2] as int - 0x80) * 64 + (b[3] as int - 0x80);
        if n < 0x1_0000 || !IsScalar(n) then None else Some((n as char, 4))
    else None
  }

  /** `b.decode('utf-8')` in strict mode: `None` where Python raises. */
  function Utf8Decode(b: seq<byte>): Option<string>
    decreases |b|
  {
    if b == [] then Some([])
    else match DecodeFirst(b)
      case None => None
      case Some((c, k)) =>
        match Utf8Decode(b[k..])
        case None => None
        case Some(rest) => Some([c] + rest)
  }

  /** The first character of an encoding is decoded back from its own bytes, whatever follows. */
  lemma DecodeFirstCharBytes(c: char, tail: seq<byte>)
    ensures DecodeFirst(CharBytes(c) + tail) == Some((c, |CharBytes(c)|))
  {
    var n := c as int;
    if n < 0x80 {
    } else if n < 0x800 {
      DecodeTwo(c, tail);
    } else if n < 0x1_0000 {
      DecodeThree(c, tail);
    } else {
      DecodeFour(c, tail);
    }
  }

  lemma DecodeTwo(c: char, tail: seq<byte>)
    requires 0x80 <= c as int < 0x800
    ensures DecodeFirst(CharBytes(c) + tail) == Some((c, 2))
  {
    var b := CharBytes(c) + tail;
    var n := c as int;
    var d0, n1 := n % 64, n / 64;
    assert n == n1 * 64 + d0;
    assert b[0] as int == 0xC0 + n1 && b[1] as int == 0x80 + d0;
    assert (b[0] as int - 0xC0) * 64 + (b[1] as int - 0x80) == n;
  }

  lemma DecodeThree(c: char, tail: seq<byte>)
    requires 0x800 <= c as int < 0x1_0000
    ensures DecodeFirst(CharBytes(c) + tail) == Some((c, 3))
  {
    var b := CharBytes(c) + tail;
    var n := c as int;
    var d0, n1 := n % 64, n / 64;
    var d1, n2 := n1 % 64, n1 / 64;
    assert n == n1 * 64 + d0 && n1 == n2 * 64 + d1;
    assert n / 4096 == n2 && n / 64 % 64 == d1;
    assert b[0] as int == 0xE0 + n2 && b[1] as int == 0x80 + d1 && b[2] as int == 0x80 + d0;
    assert (b[0] as int - 0xE0) * 4096 + (b[1] as int - 0x80) * 64 + (b[2] as int - 0x80) == n;
  }

  lemma DecodeFour(c: char, tail: seq<byte>)
    requires 0x1_0000 <= c as int
    ensures DecodeFirst(CharBytes(c) + tail) == Some((c, 4))
  {
    var b := CharBytes(c) + tail;
    var n := c as int;
    var d0, n1 := n % 64, n / 64;
    var d1, n2 := n1 % 64, n1 / 64;
    var d2, n3 := n2 % 64, n2 / 64;
    assert n == n1 * 64 + d0 && n1 == n2 * 64 + d1 && n2 == n3 * 64 + d2;
    assert n / 262144 == n3 && n / 4096 % 64 == d2 && n / 64 % 64 == d1;
    assert b[0] as int == 0xF0 + n3 && b[1] as int == 0x80 + d2;
    assert b[2] as int == 0x80 + d1 && b[3] as int == 0x80 + d0;
    assert (b[0] as int - 0xF0) * 262144 + (b[1] as int - 0x80) * 4096
           + (b[2] as int - 0x80) * 64 + (b[3] as int - 0x80) == n;
  }

  /** Decoding undoes encoding. */
  lemma {:induction false} Utf8RoundTrip(s: string)
    ensures Utf8Decode(Utf8(s)) == Some(s)
  {
    if s != [] {
      var b := Utf8(s);
      var k := |CharBytes(s[0])|;
      DecodeFirstCharBytes(s[0], Utf8(s[1..]));
      assert b[k..] == Utf8(s[1..]);
      Utf8RoundTrip(s[1..]);
      assert [s[0]] + s[1..] == s;
    }
  }

  /** The bytes of one decoded character are exactly that character's encoding. */
  lemma DecodeFirstCanonical(b: seq<byte>)
    requires DecodeFirst(b).Some?
    ensures CharBytes(DecodeFirst(b).value.0) == b[..DecodeFirst(b).value.1]
  {
    var k := DecodeFirst(b).value.1;
    if k == 2 {
      CanonicalTwo(b);
    } else if k == 3 {
      CanonicalThree(b);
    } else if k == 4 {
      CanonicalFour(b);
    }
  }

  lemma CanonicalTwo(b: seq<byte>)
    requires DecodeFirst(b).Some? && DecodeFirst(b).value.1 == 2
    ensures CharBytes(DecodeFirst(b).value.0) == b[..2]
  {
    var e := CharBytes(DecodeFirst(b).value.0);
    var n := DecodeFirst(b).value.0 as int;
    var x0, x1 := b[0] as int - 0xC0, b[1] as int - 0x80;
    assert n == x0 * 64 + x1 && 0 <= x1 < 64;
    assert n / 64 == x0 && n % 64 == x1;
    assert e[0] == b[0] && e[1] == b[1];
  }

  lemma CanonicalThree(b: seq<byte>)
    requires DecodeFirst(b).Some? && DecodeFirst(b).value.1 == 3
    ensures CharBytes(DecodeFirst(b).value.0) == b[..3]
  {
    var e := CharBytes(DecodeFirst(b).value.0);
    var n := DecodeFirst(b).value.0 as int;
    var x0, x1, x2 := b[0] as int - 0xE0, b[1] as int - 0x80, b[2] as int - 0x80;
    var n1 := x0 * 64 + x1;
    assert n == n1 * 64 + x2 && 0 <= x2 < 64 && 0 <= x1 < 64;
    assert n / 64 == n1 && n % 64 == x2;
    assert n1 / 64 == x0 && n1 % 64 == x1;
    assert n / 4096 == x0;
    assert e[0] == b[0] && e[1] == b[1] && e[2] == b[2];
  }

  lemma CanonicalFour(b: seq<byte>)
    requires DecodeFirst(b).Some? && DecodeFirst(b).value.1 == 4
    ensures CharBytes(DecodeFirst(b).value.0) == b[..4]
  {
    var e := CharBytes(DecodeFirst(b).value.0);
    var n := DecodeFirst(b).value.0 as int;
    var x0, x1 := b[0] as int - 0xF0, b[1] as int - 0x80;
    var x2, x3 := b[2] as int - 0x80, b[3] as int - 0x80;
    var n2 := x0 * 64 + x1;
    var n1 := n2 * 64 + x2;
    assert n == n1 * 64 + x3 && 0 <= x3 < 64 && 0 <= x2 < 64 && 0 <= x1 < 64;
    assert n / 64 == n1 && n % 64 == x3;
    assert n1 / 64 == n2 && n1 % 64 == x2;
    assert n2 / 64 == x0 && n2 % 64 == x1;
    assert n / 4096 == n2 && n / 262144 == x0;
    assert e[0] == b[0] && e[1] == b[1] && e[2] == b[2] && e[3] == b[3];
  }

  /**
   * A successful decode is a first character, whose encoding is exactly the
   * bytes it was decoded from, followed by the decode of the remaining bytes.
   */
  lemma Utf8DecodeStep(b: seq<byte>) returns (c: char, k: nat, rest: string)
    requires b != [] && Utf8Decode(b).Some?
    ensures 1 <= k <= |b| && CharBytes(c) == b[..k]
    ensures Utf8Decode(b[k..]) == Some(rest) && Utf8Decode(b) == Some([c] + rest)
  {
    c, k := DecodeFirst(b).value.0, DecodeFirst(b).value.1;
    rest := Utf8Decode(b[k..]).value;
    DecodeFirstCanonical(b);
  }

  /** Strict decoding accepts only canonical encodings: what it returns encodes back to the input. */
  lemma {:induction false} Utf8DecodeCanonical(b: seq<byte>)
    requires Utf8Decode(b).Some?
    ensures Utf8(Utf8Decode(b).value) == b
    decreases |b|
  {
    if b != [] {
      var c, k, rest := Utf8DecodeStep(b);
      Utf8DecodeCanonical(b[k..]);
      assert ([c] + rest)[1..] == rest;
      assert b == b[..k] + b[k..];
    }
  }

  /** An ASCII-only string encodes to one byte per character. */
  lemma {:induction false} Utf8Ascii(s: string)
    requires forall i :: 0 <= i < |s| ==> s[i] as int < 0x80
    ensures |Utf8(s)| == |s|
    ensures forall i :: 0 <= i < |s| ==> Utf8(s)[i] as int == s[i] as int
  {
    if s != [] {
      Utf8Ascii(s[1..]);
    }
  }

  // ---------------------------------------------------------------------
  // Decimal integers

  function DigitChar(d: nat): char
    requires d < 10
  {
    ('0' as int + d) as char
  }

  /** `str(n)` for a non-negative integer. */
  function Decimal(n: nat): (r: string)
    ensures |r| > 0
    ensures forall i :: 0 <= i < |r| ==> '0' <= r[i] <= '9'
  {
    if n < 10 then [DigitChar(n)] else Decimal(n / 10) + [DigitChar(n % 10)]
  }

  /** `int(s)` restricted to non-empty strings of ASCII digits. */
  function ParseDecimal(s: string): (r: Option<nat>)
    decreases |s|
  {
    if s == [] || !('0' <= s[|s| - 1] <= '9') then None
    else
      var d := s[|s| - 1] as int - '0' as int;
      if |s| == 1 then Some(d)
      else match ParseDecimal(s[..|s| - 1])
        case None => None
        case Some(m) => Some(m * 10 + d)
  }

  /** A Content-Length value reads back as the length it was written from. */
  lemma {:induction false} DecimalRoundTrip(n: nat)
    ensures ParseDecimal(Decimal(n)) == Some(n)
  {
    if n >= 10 {
      var s := Decimal(n);
      assert s[..|s| - 1] == Decimal(n / 10);
      DecimalRoundTrip(n / 10);
    }
  }
}

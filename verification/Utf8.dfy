/** UTF-8 by the encoding form of the Unicode Standard: texts are the encodings of scalar values. */
module Utf8 {
  import opened Bytes
  import opened Resp

  /** Unicode scalar values: all code points but the surrogates. */
  predicate IsScalar(c: int) { 0 <= c <= 0x10FFFF && !(0xD800 <= c <= 0xDFFF) }

  predicate AllScalar(cs: seq<int>) { forall i :: 0 <= i < |cs| ==> IsScalar(cs[i]) }

  /** The bytes of one scalar value: its bits, six to each byte after the first. */
  function EncodeChar(c: int): (s: seq<byte>)
    requires IsScalar(c)
    ensures |s| >= 1
  {
    if c < 0x80 then [c]
    else if c < 0x800 then [0xC0 + c / 64, 0x80 + c % 64]
    else if c < 0x10000 then [0xE0 + c / 4096, 0x80 + c / 64 % 64, 0x80 + c % 64]
    else [0xF0 + c / 262144, 0x80 + c / 4096 % 64, 0x80 + c / 64 % 64, 0x80 + c % 64]
  }

  function EncodeChars(cs: seq<int>): seq<byte>
    requires AllScalar(cs)
  {
    if cs == [] then [] else EncodeChar(cs[0]) + EncodeChars(cs[1..])
  }

  /** Six bits to a byte: the parts put together give the number back. */
  lemma Parts(c: int)
    requires 0 <= c
    ensures c == 64 * (c / 64) + c % 64
    ensures c / 64 == 64 * (c / 4096) + c / 64 % 64
    ensures c / 4096 == 64 * (c / 262144) + c / 4096 % 64
  {
    assert c / 4096 == c / 64 / 64 && c / 262144 == c / 4096 / 64;
  }

  /** One scalar value is taken off the front. */
  lemma CharIsUtf8(c: int, rest: seq<byte>)
    requires IsScalar(c)
    ensures IsUtf8(EncodeChar(c) + rest) <==> IsUtf8(rest)
  {
    Parts(c);
    var a := EncodeChar(c);
    var s := a + rest;
    assert s[|a|..] == rest && forall i :: 0 <= i < |a| ==> s[i] == a[i];
  }

  lemma {:induction false} EncodedIsUtf8(cs: seq<int>)
    requires AllScalar(cs)
    ensures IsUtf8(EncodeChars(cs))
  {
    hide EncodeChar;
    if cs != [] {
      EncodedIsUtf8(cs[1..]);
      CharIsUtf8(cs[0], EncodeChars(cs[1..]));
    }
  }

  lemma TwoByteChar(a: byte, b: byte) returns (c: int)
    requires 0xC2 <= a <= 0xDF && IsTail(b)
    ensures IsScalar(c) && EncodeChar(c) == [a, b]
  {
    c := (a - 0xC0) as int * 64 + (b - 0x80) as int;
  }

  lemma ThreeByteChar(a: byte, b: byte, d: byte) returns (c: int)
    requires ThreeBytes(a, b, d)
    ensures IsScalar(c) && EncodeChar(c) == [a, b, d]
  {
    c := (a - 0xE0) as int * 4096 + (b - 0x80) as int * 64 + (d - 0x80) as int;
    assert c / 64 == (a - 0xE0) as int * 64 + (b - 0x80) as int;
  }

  lemma FourByteChar(a: byte, b: byte, d: byte, e: byte) returns (c: int)
    requires FourBytes(a, b, d, e)
    ensures IsScalar(c) && EncodeChar(c) == [a, b, d, e]
  {
    c := (a - 0xF0) as int * 262144 + (b - 0x80) as int * 4096 + (d - 0x80) as int * 64 + (e - 0x80) as int;
    assert c / 64 == (a - 0xF0) as int * 4096 + (b - 0x80) as int * 64 + (d - 0x80) as int;
    assert c / 4096 == (a - 0xF0) as int * 64 + (b - 0x80) as int;
  }

  /** The scalar value in front of a text, and what follows it. */
  lemma FirstChar(s: seq<byte>) returns (c: int)
    requires IsUtf8(s) && s != []
    ensures IsScalar(c) && |EncodeChar(c)| <= |s| && s == EncodeChar(c) + s[|EncodeChar(c)|..]
    ensures IsUtf8(s[|EncodeChar(c)|..])
  {
    hide EncodeChar, ThreeBytes, FourBytes;
    if s[0] < 0x80 {
      c := s[0];
      assert EncodeChar(c) == [s[0]] by { OneByteChar(s[0]); }
    } else if |s| >= 2 && 0xC2 <= s[0] <= 0xDF && IsTail(s[1]) {
      c := TwoByteChar(s[0], s[1]);
    } else if |s| >= 3 && ThreeBytes(s[0], s[1], s[2]) {
      c := ThreeByteChar(s[0], s[1], s[2]);
    } else {
      c := FourByteChar(s[0], s[1], s[2], s[3]);
    }
  }

  lemma OneByteChar(a: byte)
    requires a < 0x80
    ensures IsScalar(a) && EncodeChar(a) == [a]
  {
  }

  lemma {:induction false} Utf8IsEncoded(s: seq<byte>) returns (cs: seq<int>)
    requires IsUtf8(s)
    ensures AllScalar(cs) && EncodeChars(cs) == s
    decreases |s|
  {
    hide IsUtf8, EncodeChar;
    cs := [];
    if s != [] {
      var c := FirstChar(s);
      var rest := Utf8IsEncoded(s[|EncodeChar(c)|..]);
      cs := [c] + rest;
      assert cs[1..] == rest;
    }
  }

  /** A text is accepted exactly when it is the encoding of some scalar values. */
  lemma TextIsExact(s: seq<byte>)
    ensures IsUtf8(s) <==> exists cs :: AllScalar(cs) && EncodeChars(cs) == s
  {
    hide IsUtf8, EncodeChars;
    if IsUtf8(s) {
      var cs := Utf8IsEncoded(s);
    }
    if cs :| AllScalar(cs) && EncodeChars(cs) == s {
      EncodedIsUtf8(cs);
    }
  }
}

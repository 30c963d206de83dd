/** Bytes, machine words and their little-endian layout in a mapped file. */
module Bytes {
  type byte = b: int | 0 <= b < 0x100
  type u32 = x: int | 0 <= x < U32_RANGE
  type u64 = x: int | 0 <= x < U64_RANGE

  const U32_RANGE := 0x1_0000_0000
  const U64_RANGE := 0x1_0000_0000_0000_0000

  datatype Option<+T> = None | Some(value: T)

  /** The number of values that fit in `n` bytes. */
  function Range(n: nat): nat {
    if n == 0 then 1 else 0x100 * Range(n - 1)
  }

  lemma RangeOfWords()
    ensures Range(4) == U32_RANGE && Range(8) == U64_RANGE
  {
    assert Range(4) == 0x100 * (0x100 * Range(2));
    assert Range(8) == 0x100 * (0x100 * (0x100 * (0x100 * Range(4))));
  }

  /** The `n` low bytes of `v`, least significant first. */
  function Encode(n: nat, v: nat): (s: seq<byte>)
    ensures |s| == n
  {
    if n == 0 then [] else [v % 0x100] + Encode(n - 1, v / 0x100)
  }

  function Decode(s: seq<byte>): (v: nat)
    ensures v < Range(|s|)
  {
    if s == [] then 0 else s[0] + 0x100 * Decode(s[1..])
  }

  lemma {:induction false} DecodeEncode(n: nat, v: nat)
    requires v < Range(n)
    ensures Decode(Encode(n, v)) == v
  {
    if n > 0 {
      DecodeEncode(n - 1, v / 0x100);
      assert Encode(n, v)[1..] == Encode(n - 1, v / 0x100);
    }
  }

  lemma {:induction false} DecodeZeros(s: seq<byte>)
    requires forall i :: 0 <= i < |s| ==> s[i] == 0
    ensures Decode(s) == 0
  {
    if s != [] {
      DecodeZeros(s[1..]);
    }
  }

  lemma {:induction false} EncodeDecode(s: seq<byte>)
    ensures Encode(|s|, Decode(s)) == s
  {
    if s != [] {
      EncodeDecode(s[1..]);
      assert Decode(s) % 0x100 == s[0] && Decode(s) / 0x100 == Decode(s[1..]);
      assert s == [s[0]] + s[1..];
    }
  }

  /** Zeroing the high bytes of a number does not make it larger. */
  lemma {:induction false} DecodeCut(s: seq<byte>, t: seq<byte>, k: nat)
    requires |s| == |t| && k <= |s| && s[..k] == t[..k]
    requires forall i :: k <= i < |t| ==> t[i] == 0
    ensures Decode(t) <= Decode(s)
  {
    if k == 0 {
      DecodeZeros(t);
    } else {
      assert s[0] == s[..k][0] == t[..k][0] == t[0];
      assert s[1..][..k - 1] == s[..k][1..] && t[1..][..k - 1] == t[..k][1..];
      DecodeCut(s[1..], t[1..], k - 1);
    }
  }

  lemma SliceOfSlice(s: seq<byte>, i: nat, j: nat, a: nat, b: nat)
    requires i <= j <= |s| && a <= b <= j - i
    ensures s[i..j][a..b] == s[i + a..i + b]
  {
    forall k | 0 <= k < b - a
      ensures s[i..j][a..b][k] == s[i + a..i + b][k]
    {
    }
  }

  /** `file` with the bytes from `off` on overwritten by `bytes`. */
  function Splice(file: seq<byte>, off: nat, bytes: seq<byte>): (r: seq<byte>)
    requires off + |bytes| <= |file|
    ensures |r| == |file|
    ensures r[..off] == file[..off]
    ensures r[off..off + |bytes|] == bytes
    ensures r[off + |bytes|..] == file[off + |bytes|..]
  {
    file[..off] + bytes + file[off + |bytes|..]
  }

  /** Two writes side by side amount to one, in either order. */
  lemma SpliceAdjacent(file: seq<byte>, off: nat, a: seq<byte>, b: seq<byte>)
    requires off + |a| + |b| <= |file|
    ensures Splice(Splice(file, off, a), off + |a|, b) == Splice(file, off, a + b)
    ensures Splice(Splice(file, off + |a|, b), off, a) == Splice(file, off, a + b)
  {
  }
}

/**
 * Bytes and the fixed-width integers the format is built from: unsigned
 * big-endian values of byte strings, two's complement readings of them, and
 * the unchecked narrowing casts of C# (`(int)`, `(short)`, `(byte)`).
 */
module Bytes {
  import opened Wrappers

  type Byte = x: int | 0 <= x < 256

  /** A C# `long`. */
  type Long = x: int | -0x8000_0000_0000_0000 <= x < 0x8000_0000_0000_0000

  const IntMax: int := 0x7FFF_FFFF
  const IntMin: int := -0x8000_0000
  const ShortMax: int := 0x7FFF
  const ShortMin: int := -0x8000

  function Pow2(n: nat): (r: nat)
    ensures r >= 1
  {
    if n == 0 then 1 else 2 * Pow2(n - 1)
  }

  function Pow256(n: nat): (r: nat)
    ensures r >= 1
  {
    if n == 0 then 1 else 256 * Pow256(n - 1)
  }

  /** The unsigned value of `s` read most significant byte first. */
  function BeValue(s: seq<Byte>): (v: nat)
    ensures v < Pow256(|s|)
  {
    if s == [] then 0 else BeValue(s[..|s| - 1]) * 256 + s[|s| - 1]
  }

  /** `v` written in exactly `w` bytes, most significant byte first. */
  function BeEncode(v: nat, w: nat): (s: seq<Byte>)
    requires v < Pow256(w)
    ensures |s| == w && BeValue(s) == v
  {
    if w == 0 then []
    else
      var s := BeEncode(v / 256, w - 1) + [v % 256];
      assert s[..|s| - 1] == BeEncode(v / 256, w - 1);
      s
  }

  /** `n` zero bytes, the placeholder the writer reserves. */
  function Zeros(n: nat): (s: seq<Byte>)
    ensures |s| == n && forall i :: 0 <= i < n ==> s[i] == 0
  {
    seq(n, _ => 0)
  }

  /** Encoding is the inverse of decoding as well: a byte string is fixed by its width and value. */
  lemma {:induction false} BeEncodeValue(s: seq<Byte>)
    ensures BeEncode(BeValue(s), |s|) == s
  {
    if s != [] {
      var p := s[..|s| - 1];
      BeEncodeValue(p);
      assert BeValue(s) / 256 == BeValue(p);
      assert s == p + [s[|s| - 1]];
    }
  }

  /** Leading zero bytes do not change the unsigned value. */
  lemma {:induction false} BeValueZeroPrefix(k: nat, s: seq<Byte>)
    ensures BeValue(Zeros(k) + s) == BeValue(s)
  {
    if s == [] {
      ZerosValue(k);
      assert Zeros(k) + s == Zeros(k);
    } else {
      var t := Zeros(k) + s;
      assert t[..|t| - 1] == Zeros(k) + s[..|s| - 1];
      BeValueZeroPrefix(k, s[..|s| - 1]);
    }
  }

  lemma {:induction false} ZerosValue(k: nat)
    ensures BeValue(Zeros(k)) == 0
  {
    if k > 0 {
      assert Zeros(k)[..k - 1] == Zeros(k - 1);
      ZerosValue(k - 1);
    }
  }

  /** Half the range of a `w`-byte value: the bound of the signed readings. */
  function Half(w: nat): (h: nat)
    requires w > 0
    ensures 2 * h == Pow256(w)
  {
    128 * Pow256(w - 1)
  }

  /** `v` fits the signed range of `w` bytes. */
  predicate InSigned(v: int, w: nat)
    requires w > 0
  {
    -(Half(w) as int) <= v < Half(w)
  }

  /** The two's complement reading of the `w`-byte unsigned value `u`. */
  function ToSigned(u: nat, w: nat): (v: int)
    requires 0 < w && u < Pow256(w)
    ensures InSigned(v, w)
    ensures v == u || v == u - Pow256(w)
  {
    if u < Half(w) then u else u - Pow256(w)
  }

  /** The `w`-byte bit pattern of `v`: what a C# narrowing cast keeps. */
  function FromSigned(v: int, w: nat): (u: nat)
    ensures u < Pow256(w)
  {
    v % Pow256(w)
  }

  lemma ModInRange(x: int, m: int)
    requires 0 <= x < m
    ensures x % m == x
  {
  }

  lemma ModAddModulus(x: int, m: int)
    requires 0 <= x < m
    ensures (x - m) % m == x
  {
  }

  /** Reading back the bit pattern of an in-range value gives the value. */
  lemma SignedRoundTrip(v: int, w: nat)
    requires 0 < w && InSigned(v, w)
    ensures ToSigned(FromSigned(v, w), w) == v
  {
    var m := Pow256(w);
    if v >= 0 {
      ModInRange(v, m);
    } else {
      ModAddModulus(v + m, m);
    }
  }

  /** The unchecked C# cast `(int) x`: keep the low 32 bits, read them as signed. */
  function Wrap32(x: int): (r: int)
    ensures IntMin <= r <= IntMax
    ensures 0 <= x <= IntMax ==> r == x
    ensures (r - x) % 0x1_0000_0000 == 0
  {
    var low := x % 0x1_0000_0000;
    if low <= IntMax then low else low - 0x1_0000_0000
  }

  /** `Wrap32` is the signed reading of the four-byte bit pattern. */
  lemma Wrap32IsSigned(x: int)
    ensures Wrap32(x) == ToSigned(FromSigned(x, 4), 4)
  {
    assert Pow256(4) == 0x1_0000_0000;
  }

  /** The signed big-endian value of a byte string, as `ToInt16`/`ToInt32`/`ToInt64` read it. */
  function BeSigned(s: seq<Byte>): (v: int)
    requires |s| > 0
    ensures InSigned(v, |s|)
  {
    ToSigned(BeValue(s), |s|)
  }

  /** The `w`-byte two's complement big-endian encoding of `v`, as `GetBytes` after a network-order swap writes it. */
  function BeEncodeSigned(v: int, w: nat): (s: seq<Byte>)
    ensures |s| == w
  {
    BeEncode(FromSigned(v, w), w)
  }

  /** Signed encoding and decoding are inverse on the range of the width. */
  lemma BeSignedRoundTrip(v: int, w: nat)
    requires 0 < w && InSigned(v, w)
    ensures BeSigned(BeEncodeSigned(v, w)) == v
  {
    SignedRoundTrip(v, w);
  }

  /**
   * `stream.Read` of `n` bytes at position `pos` of a stream holding `data`:
   * `None` when fewer than `n` bytes are left, which every caller reports as a
   * format error. A position past the end is allowed, as after a seek there.
   */
  function Take(data: seq<Byte>, pos: int, n: int): (r: Option<seq<Byte>>)
    requires 0 <= pos && 0 <= n
    ensures r.Some? <==> n == 0 || pos + n <= |data|
    ensures r.Some? ==> |r.value| == n
    ensures r.Some? && pos + n <= |data| ==> r.value == data[pos..pos + n]
  {
    if n == 0 then Some([])
    else if pos + n <= |data| then Some(data[pos..pos + n])
    else None
  }

  /**
   * `1 << n` on a C# `int`: the shift count is taken modulo 32, and a one
   * shifted into bit 31 is the sign bit.
   */
  function OneShiftedLeft(n: int): (r: int)
    ensures 0 <= n <= 30 ==> r == Pow2(n)
    ensures r < 0 <==> n % 32 == 31
  {
    if n % 32 == 31 then IntMin else Pow2(n % 32)
  }
}

/**
 * The byte swaps used to put 16-, 32- and 64-bit values into network
 * (big-endian) order. Values are their two's complement bit patterns, so the
 * shift-and-mask expressions of the library carry over unchanged: every mask
 * keeps only bits that the arithmetic shifts of C# fill from the operand, so
 * sign extension never reaches the result.
 */
module Endian {
  import opened Bytes

  /** Byte `k` (0 = least significant) of a 16-bit pattern. */
  function Octet16(x: bv16, k: nat): bv16
    requires k < 2
  {
    if k == 0 then x & 0xFF else (x >> 8) & 0xFF
  }

  /** Byte `k` (0 = least significant) of a 32-bit pattern. */
  function Octet32(x: bv32, k: nat): bv32
    requires k < 4
  {
    match k
    case 0 => x & 0xFF
    case 1 => (x >> 8) & 0xFF
    case 2 => (x >> 16) & 0xFF
    case _ => (x >> 24) & 0xFF
  }

  /** Byte `k` (0 = least significant) of a 64-bit pattern. */
  function Octet64(x: bv64, k: nat): bv64
    requires k < 8
  {
    match k
    case 0 => x & 0xFF
    case 1 => (x >> 8) & 0xFF
    case 2 => (x >> 16) & 0xFF
    case 3 => (x >> 24) & 0xFF
    case 4 => (x >> 32) & 0xFF
    case 5 => (x >> 40) & 0xFF
    case 6 => (x >> 48) & 0xFF
    case _ => (x >> 56) & 0xFF
  }

  /** Exchanges the two bytes of a `short`. */
  function SwapShort(n: bv16): (r: bv16)
    ensures Octet16(r, 0) == Octet16(n, 1) && Octet16(r, 1) == Octet16(n, 0)
  {
    ((n >> 8) & 0xFF) | ((n << 8) & 0xFF00)
  }

  /** Reverses the four bytes of an `int`. */
  function SwapInt(n: bv32): (r: bv32)
    ensures Octet32(r, 0) == Octet32(n, 3) && Octet32(r, 1) == Octet32(n, 2)
    ensures Octet32(r, 2) == Octet32(n, 1) && Octet32(r, 3) == Octet32(n, 0)
  {
    ((n >> 24) & 0xFF)
    | ((n >> 8) & 0xFF00)
    | ((n << 8) & 0xFF_0000)
    | (n << 24)
  }

  /** Reverses the eight bytes of a `long`. */
  function SwapLong(n: bv64): (r: bv64)
    ensures Octet64(r, 0) == Octet64(n, 7) && Octet64(r, 1) == Octet64(n, 6)
    ensures Octet64(r, 2) == Octet64(n, 5) && Octet64(r, 3) == Octet64(n, 4)
    ensures Octet64(r, 4) == Octet64(n, 3) && Octet64(r, 5) == Octet64(n, 2)
    ensures Octet64(r, 6) == Octet64(n, 1) && Octet64(r, 7) == Octet64(n, 0)
  {
    ((n >> 56) & 0xFF)
    | ((n >> 40) & 0xFF00)
    | ((n >> 24) & 0xFF_0000)
    | ((n >> 8) & 0xFF00_0000)
    | ((n << 8) & 0xFF_0000_0000)
    | ((n << 24) & 0xFF00_0000_0000)
    | ((n << 40) & 0xFF_0000_0000_0000)
    | (n << 56)
  }

  /** Swapping twice restores the value, for every width. */
  lemma SwapInvolution(s: bv16, i: bv32, l: bv64)
    ensures SwapShort(SwapShort(s)) == s
    ensures SwapInt(SwapInt(i)) == i
    ensures SwapLong(SwapLong(l)) == l
  {
  }

  // `BitConverter.IsLittleEndian` is a parameter: the host byte order is not
  // something the model can observe.

  function HostToNetworkOrderShort(littleEndianHost: bool, host: bv16): bv16
  {
    if !littleEndianHost then host else SwapShort(host)
  }

  function HostToNetworkOrderInt(littleEndianHost: bool, host: bv32): bv32
  {
    if !littleEndianHost then host else SwapInt(host)
  }

  function HostToNetworkOrderLong(littleEndianHost: bool, host: bv64): bv64
  {
    if !littleEndianHost then host else SwapLong(host)
  }

  function NetworkToHostOrderShort(littleEndianHost: bool, network: bv16): bv16
  {
    if !littleEndianHost then network else SwapShort(network)
  }

  function NetworkToHostOrderInt(littleEndianHost: bool, network: bv32): bv32
  {
    if !littleEndianHost then network else SwapInt(network)
  }

  function NetworkToHostOrderLong(littleEndianHost: bool, network: bv64): bv64
  {
    if !littleEndianHost then network else SwapLong(network)
  }

  /** On a big-endian host both directions leave every value alone. */
  lemma BigEndianHostIsIdentity(s: bv16, i: bv32, l: bv64)
    ensures HostToNetworkOrderShort(false, s) == s && NetworkToHostOrderShort(false, s) == s
    ensures HostToNetworkOrderInt(false, i) == i && NetworkToHostOrderInt(false, i) == i
    ensures HostToNetworkOrderLong(false, l) == l && NetworkToHostOrderLong(false, l) == l
  {
  }

  /** Converting to network order and back is the identity on either host. */
  lemma NetworkRoundTrip(littleEndianHost: bool, s: bv16, i: bv32, l: bv64)
    ensures NetworkToHostOrderShort(littleEndianHost, HostToNetworkOrderShort(littleEndianHost, s)) == s
    ensures NetworkToHostOrderInt(littleEndianHost, HostToNetworkOrderInt(littleEndianHost, i)) == i
    ensures NetworkToHostOrderLong(littleEndianHost, HostToNetworkOrderLong(littleEndianHost, l)) == l
    ensures HostToNetworkOrderShort(littleEndianHost, NetworkToHostOrderShort(littleEndianHost, s)) == s
    ensures HostToNetworkOrderInt(littleEndianHost, NetworkToHostOrderInt(littleEndianHost, i)) == i
    ensures HostToNetworkOrderLong(littleEndianHost, NetworkToHostOrderLong(littleEndianHost, l)) == l
  {
    SwapInvolution(s, i, l);
  }

  // `BitConverter.GetBytes` lays a value out in host byte order. The writer
  // always applies it to a value already put in network order.

  function HostBytesShort(littleEndianHost: bool, x: bv16): (s: seq<Byte>)
    ensures |s| == 2
  {
    var b := [Octet16(x, 0) as int, Octet16(x, 1) as int];
    if littleEndianHost then b else [b[1], b[0]]
  }

  function HostBytesInt(littleEndianHost: bool, x: bv32): (s: seq<Byte>)
    ensures |s| == 4
  {
    var b := [Octet32(x, 0) as int, Octet32(x, 1) as int, Octet32(x, 2) as int, Octet32(x, 3) as int];
    if littleEndianHost then b else [b[3], b[2], b[1], b[0]]
  }

  /** The bytes of a value most significant first: the order the file format uses. */
  function NetworkBytesShort(x: bv16): seq<Byte>
  {
    [Octet16(x, 1) as int, Octet16(x, 0) as int]
  }

  function NetworkBytesInt(x: bv32): seq<Byte>
  {
    [Octet32(x, 3) as int, Octet32(x, 2) as int, Octet32(x, 1) as int, Octet32(x, 0) as int]
  }

  /**
   * `GetBytes(HostToNetworkOrder(x))`, the writer's idiom, yields the
   * big-endian bytes of `x` whatever the host byte order.
   */
  lemma GetBytesOfNetworkOrder(littleEndianHost: bool, s: bv16, i: bv32)
    ensures HostBytesShort(littleEndianHost, HostToNetworkOrderShort(littleEndianHost, s)) == NetworkBytesShort(s)
    ensures HostBytesInt(littleEndianHost, HostToNetworkOrderInt(littleEndianHost, i)) == NetworkBytesInt(i)
  {
  }

  /** For 16 bits the big-endian bytes are the unsigned value's base-256 digits. */
  lemma NetworkBytesShortValue(x: bv16)
    ensures NetworkBytesShort(x) == BeEncode(x as int, 2)
  {
    var hi, lo := Octet16(x, 1) as int, Octet16(x, 0) as int;
    ShortDigits(x);
    assert Octet16(x, 1) == (x >> 8) & 0xFF && Octet16(x, 0) == x & 0xFF;
    TwoDigits(x as int, hi, lo);
  }

  lemma TwoDigits(v: int, hi: Byte, lo: Byte)
    requires v == hi * 256 + lo
    ensures BeEncode(v, 2) == [hi, lo]
  {
    Digits(v, hi, lo);
    Digits(hi, 0, hi);
    assert BeEncode(hi, 1) == BeEncode(0, 0) + [hi];
  }

  lemma ShortDigits(x: bv16)
    ensures x as int == (((x >> 8) & 0xFF) as int) * 256 + ((x & 0xFF) as int)
  {
  }

  lemma Digits(v: int, hi: int, lo: int)
    requires 0 <= lo < 256 && 0 <= hi && v == hi * 256 + lo
    ensures v / 256 == hi && v % 256 == lo
  {
  }
}

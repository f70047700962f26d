/** Byte order of the wire: what the host/network conversions of Common/ByteOrder.h
    leave in memory, on a little-endian and on a big-endian host.

    Integers of 32 and 64 bits are bit-vectors, as in the source; a 16-bit integer is a
    bounded natural, because it also counts the entries of a batch. */
module ByteOrder {

  type byte = bv8
  type u16 = n: nat | n < 0x1_0000
  type u32 = n: nat | n < 0x1_0000_0000

  // ----- bytes and small numbers -----

  function ByteOf(n: nat): byte
    requires n < 256
  {
    n as bv8
  }

  function NatOf(b: byte): (n: nat)
    ensures n < 256
  {
    b as int
  }

  function CountUp(n: nat): byte
    requires n < 256
  {
    if n == 0 then 0 else CountUp(n - 1) + 1
  }

  lemma Increment(b: byte)
    requires b as int < 255
    ensures (b + 1) as int == b as int + 1
  {
  }

  lemma {:induction false} CountUpIsNat(n: nat)
    requires n < 256
    ensures NatOf(CountUp(n)) == n
  {
    if n > 0 {
      CountUpIsNat(n - 1);
      Increment(CountUp(n - 1));
    }
  }

  lemma ByteOfNatOf(b: byte)
    ensures ByteOf(NatOf(b)) == b
  {
  }

  lemma NatOfByteOf(n: nat)
    requires n < 256
    ensures NatOf(ByteOf(n)) == n
  {
    CountUpIsNat(n);
    ByteOfNatOf(CountUp(n));
  }

  // ----- the network (big-endian) image of an integer -----

  function BigEndian16(v: u16): (r: seq<byte>)
    ensures |r| == 2
  {
    [ByteOf(v / 256), ByteOf(v % 256)]
  }

  function BigEndian32(v: bv32): (r: seq<byte>)
    ensures |r| == 4
  {
    [(v >> 24) as bv8, ((v >> 16) & 0xFF) as bv8, ((v >> 8) & 0xFF) as bv8, (v & 0xFF) as bv8]
  }

  function BigEndian64(v: bv64): (r: seq<byte>)
    ensures |r| == 8
  {
    [(v >> 56) as bv8, ((v >> 48) & 0xFF) as bv8, ((v >> 40) & 0xFF) as bv8, ((v >> 32) & 0xFF) as bv8,
     ((v >> 24) & 0xFF) as bv8, ((v >> 16) & 0xFF) as bv8, ((v >> 8) & 0xFF) as bv8, (v & 0xFF) as bv8]
  }

  function Join32(a: byte, b: byte, c: byte, d: byte): bv32 {
    ((a as bv32) << 24) | ((b as bv32) << 16) | ((c as bv32) << 8) | (d as bv32)
  }

  function Join64(a: byte, b: byte, c: byte, d: byte, e: byte, f: byte, g: byte, h: byte): bv64 {
    ((a as bv64) << 56) | ((b as bv64) << 48) | ((c as bv64) << 40) | ((d as bv64) << 32) |
    ((e as bv64) << 24) | ((f as bv64) << 16) | ((g as bv64) << 8) | (h as bv64)
  }

  function FromBigEndian16(b: seq<byte>): u16
    requires |b| == 2
  {
    NatOf(b[0]) * 256 + NatOf(b[1])
  }

  function FromBigEndian32(b: seq<byte>): bv32
    requires |b| == 4
  {
    Join32(b[0], b[1], b[2], b[3])
  }

  function FromBigEndian64(b: seq<byte>): bv64
    requires |b| == 8
  {
    Join64(b[0], b[1], b[2], b[3], b[4], b[5], b[6], b[7])
  }

  // ----- host memory -----

  function LittleEndian16(v: u16): (r: seq<byte>)
    ensures |r| == 2
  {
    [ByteOf(v % 256), ByteOf(v / 256)]
  }

  function LittleEndian32(v: bv32): (r: seq<byte>)
    ensures |r| == 4
  {
    [(v & 0xFF) as bv8, ((v >> 8) & 0xFF) as bv8, ((v >> 16) & 0xFF) as bv8, (v >> 24) as bv8]
  }

  function LittleEndian64(v: bv64): (r: seq<byte>)
    ensures |r| == 8
  {
    [(v & 0xFF) as bv8, ((v >> 8) & 0xFF) as bv8, ((v >> 16) & 0xFF) as bv8, ((v >> 24) & 0xFF) as bv8,
     ((v >> 32) & 0xFF) as bv8, ((v >> 40) & 0xFF) as bv8, ((v >> 48) & 0xFF) as bv8, (v >> 56) as bv8]
  }

  /** The bytes an integer occupies in the memory of a host; memcpy copies them as they are. */
  function Memory16(v: u16, littleEndian: bool): seq<byte> {
    if littleEndian then LittleEndian16(v) else BigEndian16(v)
  }

  function Memory32(v: bv32, littleEndian: bool): seq<byte> {
    if littleEndian then LittleEndian32(v) else BigEndian32(v)
  }

  function Memory64(v: bv64, littleEndian: bool): (r: seq<byte>)
    ensures |r| == 8
  {
    if littleEndian then LittleEndian64(v) else BigEndian64(v)
  }

  /** The integer a host finds in such bytes. */
  function Native16(b: seq<byte>, littleEndian: bool): u16
    requires |b| == 2
  {
    if littleEndian then NatOf(b[1]) * 256 + NatOf(b[0]) else FromBigEndian16(b)
  }

  function Native32(b: seq<byte>, littleEndian: bool): bv32
    requires |b| == 4
  {
    if littleEndian then Join32(b[3], b[2], b[1], b[0]) else FromBigEndian32(b)
  }

  function Native64(b: seq<byte>, littleEndian: bool): bv64
    requires |b| == 8
  {
    if littleEndian then Join64(b[7], b[6], b[5], b[4], b[3], b[2], b[1], b[0]) else FromBigEndian64(b)
  }

  // ----- the conversions of the source -----

  function ByteSwap16(v: u16): u16 {
    (v % 256) * 256 + v / 256
  }

  function ByteSwap32(v: bv32): bv32 {
    ((v & 0x0000_00FF) << 24) | ((v & 0x0000_FF00) << 8) | ((v & 0x00FF_0000) >> 8) | ((v & 0xFF00_0000) >> 24)
  }

  function ByteSwap64(v: bv64): bv64 {
    ((v & 0x0000_0000_0000_00FF) << 56) |
    ((v & 0x0000_0000_0000_FF00) << 40) |
    ((v & 0x0000_0000_00FF_0000) << 24) |
    ((v & 0x0000_0000_FF00_0000) << 8) |
    ((v & 0x0000_00FF_0000_0000) >> 8) |
    ((v & 0x0000_FF00_0000_0000) >> 24) |
    ((v & 0x00FF_0000_0000_0000) >> 40) |
    ((v & 0xFF00_0000_0000_0000) >> 56)
  }

  /** htons, htonl and the 64-bit conversion: identity on a big-endian host. The inverse
      conversions are the same functions. */
  function HostToNetwork16(v: u16, littleEndian: bool): u16 {
    if littleEndian then ByteSwap16(v) else v
  }

  function HostToNetwork32(v: bv32, littleEndian: bool): bv32 {
    if littleEndian then ByteSwap32(v) else v
  }

  function HostToNetwork64(v: bv64, littleEndian: bool): bv64 {
    if littleEndian then ByteSwap64(v) else v
  }

  // ----- what the wire carries -----

  /** Converting and then copying out of memory gives the big-endian image on either host. */
  lemma HostToNetworkIsBigEndian16(v: u16, littleEndian: bool)
    ensures Memory16(HostToNetwork16(v, littleEndian), littleEndian) == BigEndian16(v)
  {
    hide ByteOf;
    Split16(v % 256, v / 256);
  }

  lemma HostToNetworkIsBigEndian32(v: bv32, littleEndian: bool)
    ensures Memory32(HostToNetwork32(v, littleEndian), littleEndian) == BigEndian32(v)
  {
  }

  lemma HostToNetworkIsBigEndian64(v: bv64, littleEndian: bool)
    ensures Memory64(HostToNetwork64(v, littleEndian), littleEndian) == BigEndian64(v)
  {
  }

  lemma SwapReversesBytes32(a: byte, b: byte, c: byte, d: byte)
    ensures ByteSwap32(Join32(d, c, b, a)) == Join32(a, b, c, d)
  {
  }

  lemma SwapReversesBytes64(a: byte, b: byte, c: byte, d: byte, e: byte, f: byte, g: byte, h: byte)
    ensures ByteSwap64(Join64(h, g, f, e, d, c, b, a)) == Join64(a, b, c, d, e, f, g, h)
  {
  }

  /** Reading them back natively and converting gives the integer whose image they are. */
  lemma NetworkToHostIsBigEndian16(b: seq<byte>, littleEndian: bool)
    requires |b| == 2
    ensures HostToNetwork16(Native16(b, littleEndian), littleEndian) == FromBigEndian16(b)
  {
    hide NatOf;
    Split16(NatOf(b[1]), NatOf(b[0]));
  }

  lemma NetworkToHostIsBigEndian32(b: seq<byte>, littleEndian: bool)
    requires |b| == 4
    ensures HostToNetwork32(Native32(b, littleEndian), littleEndian) == FromBigEndian32(b)
  {
    SwapReversesBytes32(b[0], b[1], b[2], b[3]);
  }

  lemma NetworkToHostIsBigEndian64(b: seq<byte>, littleEndian: bool)
    requires |b| == 8
    ensures HostToNetwork64(Native64(b, littleEndian), littleEndian) == FromBigEndian64(b)
  {
    SwapReversesBytes64(b[0], b[1], b[2], b[3], b[4], b[5], b[6], b[7]);
  }

  lemma Split16(hi: nat, lo: nat)
    requires lo < 256
    ensures (hi * 256 + lo) / 256 == hi && (hi * 256 + lo) % 256 == lo
  {
  }

  lemma ValueOfImage16(v: u16)
    ensures FromBigEndian16(BigEndian16(v)) == v
  {
    hide ByteOf, NatOf;
    NatOfByteOf(v / 256);
    NatOfByteOf(v % 256);
  }

  lemma ImageOfValue16(b: seq<byte>)
    requires |b| == 2
    ensures BigEndian16(FromBigEndian16(b)) == b
  {
    hide ByteOf, NatOf;
    ByteOfNatOf(b[0]);
    ByteOfNatOf(b[1]);
    Split16(NatOf(b[0]), NatOf(b[1]));
  }

  lemma RoundTrip32(v: bv32, b: seq<byte>)
    requires |b| == 4
    ensures FromBigEndian32(BigEndian32(v)) == v
    ensures BigEndian32(FromBigEndian32(b)) == b
  {
  }

  lemma RoundTrip64(v: bv64, b: seq<byte>)
    requires |b| == 8
    ensures FromBigEndian64(BigEndian64(v)) == v
    ensures BigEndian64(FromBigEndian64(b)) == b
  {
  }

  // ----- words as numbers -----

  const TWO_TO_32: nat := 0x1_0000_0000
  const TWO_TO_64: nat := 0x1_0000_0000_0000_0000

  function Power256(k: nat): (p: nat)
    ensures p > 0
  {
    if k == 0 then 1 else 256 * Power256(k - 1)
  }

  /** The last k base-256 digits of a number, most significant first. */
  function Digits(n: nat, k: nat): (b: seq<byte>)
    ensures |b| == k
  {
    if k == 0 then [] else Digits(n / 256, k - 1) + [ByteOf(n % 256)]
  }

  /** The number some digits spell. */
  function Number(b: seq<byte>): nat {
    if b == [] then 0 else Number(b[..|b| - 1]) * 256 + NatOf(b[|b| - 1])
  }

  lemma {:induction false} NumberOfDigits(n: nat, k: nat)
    requires n < Power256(k)
    ensures Number(Digits(n, k)) == n
  {
    if k > 0 {
      hide ByteOf, NatOf;
      NumberOfDigits(n / 256, k - 1);
      NatOfByteOf(n % 256);
      assert Digits(n, k)[..k - 1] == Digits(n / 256, k - 1);
    }
  }

  lemma DigitsSnoc(hi: nat, lo: nat, k: nat)
    requires lo < 256
    ensures Digits(hi * 256 + lo, k + 1) == Digits(hi, k) + [ByteOf(lo)]
  {
    Split16(hi, lo);
  }

  lemma {:induction false} DigitsOfNumber(b: seq<byte>)
    ensures Number(b) < Power256(|b|)
    ensures Digits(Number(b), |b|) == b
  {
    if b != [] {
      var init, last := b[..|b| - 1], b[|b| - 1];
      DigitsOfNumber(init);
      DigitsSnoc(Number(init), NatOf(last), |init|);
      ByteOfNatOf(last);
      hide ByteOf, NatOf, Digits;
      assert b == init + [last];
      assert Power256(|b|) == 256 * Power256(|init|);
    } else {
      assert Digits(0, 0) == [];
    }
  }

  lemma Powers()
    ensures Power256(4) == TWO_TO_32
    ensures Power256(8) == TWO_TO_64
  {
    assert Power256(2) == 65536;
    assert Power256(4) == 256 * (256 * Power256(2));
    assert Power256(6) == 256 * (256 * Power256(4));
    assert Power256(8) == 256 * (256 * Power256(6));
  }

  /** A number as a machine word, and back. The solver does not relate its own conversions
      between numbers and wide bit-vectors to arithmetic, so they are spelled out in digits. */
  function Word32(n: u32): bv32 {
    FromBigEndian32(Digits(n, 4))
  }

  function Value32(v: bv32): u32 {
    DigitsOfNumber(BigEndian32(v));
    Powers();
    Number(BigEndian32(v))
  }

  function Word64(n: nat): bv64
    requires n < TWO_TO_64
  {
    FromBigEndian64(Digits(n, 8))
  }

  function Value64(v: bv64): (n: nat)
    ensures n < TWO_TO_64
  {
    DigitsOfNumber(BigEndian64(v));
    Powers();
    Number(BigEndian64(v))
  }

  /** Words and the numbers below 2^32 correspond one to one. */
  lemma WordValue32(n: u32, v: bv32)
    ensures Value32(Word32(n)) == n
    ensures Word32(Value32(v)) == v
  {
    hide BigEndian32, FromBigEndian32, Digits, Number;
    Powers();
    RoundTrip32(v, Digits(n, 4));
    NumberOfDigits(n, 4);
    DigitsOfNumber(BigEndian32(v));
  }

  lemma WordValue64(n: nat, v: bv64)
    requires n < TWO_TO_64
    ensures Value64(Word64(n)) == n
    ensures Word64(Value64(v)) == v
  {
    hide BigEndian64, FromBigEndian64, Digits, Number;
    Powers();
    RoundTrip64(v, Digits(n, 8));
    NumberOfDigits(n, 8);
    DigitsOfNumber(BigEndian64(v));
  }
}

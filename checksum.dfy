/**
 * The checksum of a character save (`D2SFile._calc_checksum`): a 32-bit
 * signed accumulator that, for each of the first `file_size` bytes, is
 * doubled, gets the byte and its own former sign bit added, and is truncated
 * back to 32 bits; the four bytes of the stored checksum count as zero. The
 * result is stored as four little-endian bytes.
 */
module Checksum {
  import opened Bits
  import opened Streams

  const CHECKSUM_OFFSET: nat := 12
  const CHECKSUM_SIZE: nat := 4

  /** `c_int32(x).value`: x truncated to a signed 32-bit integer. */
  function Int32(x: int): (r: int)
    ensures -0x8000_0000 <= r < 0x8000_0000
    ensures (x - r) % 0x1_0000_0000 == 0
  {
    (x + 0x8000_0000) % 0x1_0000_0000 - 0x8000_0000
  }

  /** The byte the loop adds at offset k: zero inside the stored checksum and past the data. */
  function SummedByte(data: seq<byte>, k: nat): byte
  {
    if CHECKSUM_OFFSET <= k < CHECKSUM_OFFSET + CHECKSUM_SIZE || k >= |data| then 0 else data[k]
  }

  /** One turn of the loop: `c_int32((c << 1) + byte + (c < 0))`. */
  function Mix(c: int, b: byte): int
  {
    Int32(2 * c + b + (if c < 0 then 1 else 0))
  }

  /** The accumulator after the first n bytes. */
  function ChecksumUpTo(data: seq<byte>, n: nat): (r: int)
    ensures -0x8000_0000 <= r < 0x8000_0000
  {
    if n == 0 then 0 else Mix(ChecksumUpTo(data, n - 1), SummedByte(data, n - 1))
  }

  /** `c.to_bytes(4, byteorder='little', signed=True)` for a 32-bit signed c. */
  function SignedLittleEndian4(c: int): (r: seq<byte>)
    requires -0x8000_0000 <= c < 0x8000_0000
    ensures |r| == 4
    ensures LittleEndian(r) == c % 0x1_0000_0000
  {
    var u := c % 0x1_0000_0000;
    var v1 := u / 256;
    var v2 := v1 / 256;
    var v3 := v2 / 256;
    FourBytes(u, v1, v2, v3);
    [u % 256, v1 % 256, v2 % 256, v3]
  }

  lemma FourBytes(u: nat, v1: nat, v2: nat, v3: nat)
    requires u < 0x1_0000_0000 && v1 == u / 256 && v2 == v1 / 256 && v3 == v2 / 256
    ensures v3 < 256 && LittleEndian([u % 256, v1 % 256, v2 % 256, v3]) == u
  {
    var r: seq<byte> := [u % 256, v1 % 256, v2 % 256, v3];
    assert LittleEndian(r[3..]) == v3;
    assert LittleEndian(r[2..]) == v2 % 256 + 256 * v3;
    assert LittleEndian(r[1..]) == v1 % 256 + 256 * v2;
  }

  /** The checksum the header must hold for a file of `fileSize` bytes. */
  function ChecksumBytes(data: seq<byte>, fileSize: nat): (r: seq<byte>)
    ensures |r| == CHECKSUM_SIZE
  {
    SignedLittleEndian4(ChecksumUpTo(data, fileSize))
  }

  // ---------------------------------------------------------------------
  // The same sum on unsigned words

  /** A 32-bit word rotated left by one bit. */
  function Rotl1(u: nat): (r: nat)
    requires u < 0x1_0000_0000
  {
    2 * u % 0x1_0000_0000 + u / 0x8000_0000
  }

  /**
   * The checksum as the D2S format describes it on unsigned words: rotate
   * left by one, add the byte, modulo 2^32.
   */
  function RotlSum(data: seq<byte>, n: nat): (r: nat)
    ensures r < 0x1_0000_0000
  {
    if n == 0 then 0 else (Rotl1(RotlSum(data, n - 1)) + SummedByte(data, n - 1)) % 0x1_0000_0000
  }

  /** Adding a multiple of m does not change a remainder modulo m. */
  lemma ModShift(y: int, k: int, m: int)
    requires m > 0
    ensures (y + k * m) % m == y % m
  {
    DivMod(y, m);
    var q := y / m;
    assert y + k * m == (q + k) * m + y % m;
    DivModUnique(y + k * m, m, q + k, y % m);
  }

  /** Truncating to 32 bits keeps the value modulo 2^32. */
  lemma Int32Mod(x: int)
    ensures Int32(x) % 0x1_0000_0000 == x % 0x1_0000_0000
  {
    var m := 0x1_0000_0000;
    DivMod(x + 0x8000_0000, m);
    var q := (x + 0x8000_0000) / m;
    assert Int32(x) == x + (-q) * m;
    ModShift(x, -q, m);
  }

  /** One signed turn is one unsigned turn on the same 32 bits. */
  lemma MixIsRotl(c: int, b: byte)
    requires -0x8000_0000 <= c < 0x8000_0000
    ensures Mix(c, b) % 0x1_0000_0000 == (Rotl1(c % 0x1_0000_0000) + b) % 0x1_0000_0000
  {
    var m := 0x1_0000_0000;
    var u := c % m;
    var x := 2 * c + b + (if c < 0 then 1 else 0);
    Int32Mod(x);
    if c >= 0 {
      assert u == c;
      DivMod(2 * c, m);
      assert x == Rotl1(u) + b + (2 * c / m) * m;
      ModShift(Rotl1(u) + b, 2 * c / m, m);
    } else {
      assert u == c + m;
      assert u / 0x8000_0000 == 1;
      DivModUnique(2 * u, m, 1, 2 * c + m);
      assert Rotl1(u) + b == x + 1 * m;
      ModShift(x, 1, m);
    }
  }

  /** The signed accumulator holds the bits of the unsigned rotate-and-add sum. */
  lemma {:induction false} ChecksumIsRotlSum(data: seq<byte>, n: nat)
    ensures ChecksumUpTo(data, n) % 0x1_0000_0000 == RotlSum(data, n)
  {
    if n > 0 {
      ChecksumIsRotlSum(data, n - 1);
      MixIsRotl(ChecksumUpTo(data, n - 1), SummedByte(data, n - 1));
    }
  }

  /**
   * The stored checksum does not take part in its own computation: two
   * files that differ only in bytes 12..15 have the same checksum.
   */
  lemma {:induction false} ChecksumIgnoresStored(data: seq<byte>, other: seq<byte>, n: nat)
    requires |data| == |other|
    requires forall k :: 0 <= k < |data| && !(CHECKSUM_OFFSET <= k < CHECKSUM_OFFSET + CHECKSUM_SIZE) ==> data[k] == other[k]
    ensures ChecksumUpTo(data, n) == ChecksumUpTo(other, n)
  {
    if n > 0 {
      ChecksumIgnoresStored(data, other, n - 1);
      assert SummedByte(data, n - 1) == SummedByte(other, n - 1);
    }
  }

  /** The stored bytes read back as the unsigned rotate-and-add sum. */
  lemma ChecksumBytesValue(data: seq<byte>, fileSize: nat)
    ensures LittleEndian(ChecksumBytes(data, fileSize)) == RotlSum(data, fileSize)
  {
    ChecksumIsRotlSum(data, fileSize);
  }
}

/**
 * The byte stream the decoder reads from (an open binary file or a
 * `BytesIO`), the `int.from_bytes` conversions the code applies to what it
 * reads, and the byte-level null-terminated string reader of the utils
 * modules.
 *
 * Python semantics kept here: `read(n)` returns at most n bytes and fewer,
 * possibly none, at the end of the data; it never moves the position past
 * the end; `seek(k, SEEK_CUR)` may move the position past the end, after
 * which every read returns nothing.
 */
module Streams {
  import opened Bits

  function Min(a: nat, b: nat): nat
  {
    if a <= b then a else b
  }

  /** The bytes `read(n)` returns at position p. */
  function Slice(data: seq<byte>, p: nat, n: nat): (r: seq<byte>)
    ensures |r| <= n
    ensures r != [] ==> p + |r| <= |data|
    ensures forall k :: 0 <= k < |r| ==> r[k] == data[p + k]
    ensures |r| < n ==> p + |r| >= |data|
  {
    if p >= |data| then [] else data[p .. Min(p + n, |data|)]
  }

  /** A one-byte read is the byte at p, or nothing at the end. */
  lemma SliceOne(data: seq<byte>, p: nat)
    ensures Slice(data, p, 1) == if p < |data| then [data[p]] else []
  {
  }

  /**
   * A stream position that stands for offset q of a fixed layout: equal to
   * it, or behind it only because the data ran out (a short read stops at
   * the end, a later seek moves on from there). Either way every read
   * returns what a read at q would.
   */
  predicate Synced(pos: nat, q: nat, len: nat)
  {
    pos <= q && (pos < q ==> pos >= len)
  }

  class ByteStream {
    const data: seq<byte>
    var pos: nat

    constructor (data: seq<byte>)
      ensures this.data == data && pos == 0
    {
      this.data := data;
      pos := 0;
    }

    /** `read(n)`: the next n bytes, or fewer at the end; the position follows them. */
    method Read(n: nat) returns (bytes: seq<byte>)
      modifies this
      ensures bytes == Slice(data, old(pos), n)
      ensures pos == old(pos) + |bytes|
    {
      bytes := Slice(data, pos, n);
      pos := pos + |bytes|;
    }

    /** `seek(n, SEEK_CUR)`. */
    method Skip(n: nat)
      modifies this
      ensures pos == old(pos) + n
    {
      pos := pos + n;
    }

    /** `seek(p)`: an absolute position, possibly past the end. */
    method Seek(p: nat)
      modifies this
      ensures pos == p
    {
      pos := p;
    }

    /**
     * `read(n)` at a position that stands for offset q (see `Synced`): the
     * bytes at q, and the position then stands for q + n.
     */
    method ReadAt(n: nat, ghost q: nat) returns (bytes: seq<byte>)
      requires Synced(pos, q, |data|)
      modifies this
      ensures bytes == Slice(data, q, n)
      ensures Synced(pos, q + n, |data|)
    {
      bytes := Slice(data, pos, n);
      pos := pos + |bytes|;
    }

    /** `seek(n, SEEK_CUR)` at a position that stands for offset q. */
    method SkipAt(n: nat, ghost q: nat)
      requires Synced(pos, q, |data|)
      modifies this
      ensures Synced(pos, q + n, |data|)
    {
      pos := pos + n;
    }
  }

  // ---------------------------------------------------------------------
  // `int.from_bytes`

  /** `int.from_bytes(s, byteorder='little')`; the empty string gives 0. */
  function LittleEndian(s: seq<byte>): (r: nat)
    ensures r < Pow2(8 * |s|)
  {
    if s == [] then 0
    else
      var rest := LittleEndian(s[1..]);
      Pow2Add(8, 8 * (|s| - 1));
      assert 8 + 8 * (|s| - 1) == 8 * |s|;
      assert Pow2(8) == 256;
      assert s[0] + 256 * rest < 256 * Pow2(8 * (|s| - 1)) by {
        assert rest + 1 <= Pow2(8 * (|s| - 1));
        MulMonotone(256, rest + 1, Pow2(8 * (|s| - 1)));
      }
      s[0] + 256 * rest
  }

  /** A little-endian number of n bytes at offset q (`int_from_lbytes(read(n))`). */
  function LeAt(data: seq<byte>, q: nat, n: nat): nat
  {
    LittleEndian(Slice(data, q, n))
  }

  /** `int.from_bytes(s, byteorder='big')`; the empty string gives 0. */
  function BigEndian(s: seq<byte>): (r: nat)
    ensures r < Pow2(8 * |s|)
  {
    if s == [] then 0
    else
      var init := BigEndian(s[..|s| - 1]);
      Pow2Add(8 * (|s| - 1), 8);
      assert 8 * (|s| - 1) + 8 == 8 * |s|;
      assert Pow2(8) == 256;
      assert init * 256 + s[|s| - 1] < Pow2(8 * (|s| - 1)) * 256 by {
        assert init + 1 <= Pow2(8 * (|s| - 1));
        MulMonotone(256, init + 1, Pow2(8 * (|s| - 1)));
      }
      init * 256 + s[|s| - 1]
  }

  lemma MulMonotone(k: nat, a: nat, b: nat)
    requires a <= b
    ensures k * a <= k * b && a * k <= b * k
  {
  }

  /** Two byte strings of the same length with the same big-endian value are equal. */
  lemma {:induction false} BigEndianInjective(s: seq<byte>, t: seq<byte>)
    requires |s| == |t| && BigEndian(s) == BigEndian(t)
    ensures s == t
  {
    if s != [] {
      var n := |s|;
      var a := BigEndian(s[..n - 1]);
      var b := BigEndian(t[..n - 1]);
      DivModUnique(BigEndian(s), 256, a, s[n - 1]);
      DivModUnique(BigEndian(t), 256, b, t[n - 1]);
      BigEndianInjective(s[..n - 1], t[..n - 1]);
      assert s == s[..n - 1] + [s[n - 1]];
      assert t == t[..n - 1] + [t[n - 1]];
    }
  }

  /**
   * A read of two bytes compares equal to the items header 0x4A4D exactly
   * when it returned the bytes "J", "M"; a short read never does.
   */
  lemma ItemsHeaderBytes(s: seq<byte>)
    requires |s| <= 2
    ensures BigEndian(s) == 0x4A4D <==> s == [0x4A, 0x4D]
  {
    assert Pow2(8) == 256;
    var jm: seq<byte> := [0x4A, 0x4D];
    assert BigEndian(jm) == 0x4A4D by {
      assert jm[..1] == [0x4A];
      assert jm[..1][..0] == [];
    }
    if |s| == 2 && BigEndian(s) == 0x4A4D {
      BigEndianInjective(s, jm);
    } else if |s| == 1 {
      assert 8 * |s| == 8;
    }
  }

  // ---------------------------------------------------------------------
  // The integer that a stream spells, and its bits.

  /**
   * Stream bit i is bit i of the little-endian integer of the whole data:
   * the bit order of the reversed bit reader is that of `int.from_bytes(data,
   * 'little')`.
   */
  lemma {:induction false} StreamBitIsLittleEndianBit(data: seq<byte>, i: nat)
    ensures StreamBit(data, i) == (LittleEndian(data) / Pow2(i)) % 2
  {
    ShrIsDiv(ByteAt(data, i / 8), i % 8);
    if data == [] {
      ShrZero(i % 8);
      assert ByteAt(data, i / 8) == 0;
    } else {
      var b := data[0];
      var y := LittleEndian(data[1..]);
      assert LittleEndian(data) == b + 256 * y;
      if i < 8 {
        assert ByteAt(data, i / 8) == b && i % 8 == i;
        LowByteBit(b, y, i);
      } else {
        assert ByteAt(data, i / 8) == ByteAt(data[1..], (i - 8) / 8);
        assert (i - 8) % 8 == i % 8;
        ShrIsDiv(ByteAt(data[1..], (i - 8) / 8), (i - 8) % 8);
        StreamBitIsLittleEndianBit(data[1..], i - 8);
        DivPow2Split(b + 256 * y, 8, i - 8);
        assert Pow2(8) == 256;
        DivModUnique(b + 256 * y, 256, y, b);
      }
    }
  }

  /** Bit i < 8 of b + 256 * y is bit i of the byte b. */
  lemma LowByteBit(b: nat, y: nat, i: nat)
    requires b < 256 && i < 8
    ensures ((b + 256 * y) / Pow2(i)) % 2 == (b / Pow2(i)) % 2
  {
    var m := Pow2(i);
    var e := 7;
    var h := Pow2(e - i);
    Pow2Add(i, e - i);
    assert i + (e - i) == e;
    Pow2Seven(e);
    LowBitOf(b, y, m, h);
  }

  /** `LowByteBit` for a divisor m that divides 128. */
  lemma LowBitOf(b: nat, y: nat, m: nat, h: nat)
    requires m > 0 && m * h == 128
    ensures ((b + 256 * y) / m) % 2 == (b / m) % 2
  {
    var k := h * y;
    MulRegroup(m, h, y);
    DivAddMultiple(b, m, 2 * k);
    var q: nat := b / m;
    AddEvenMod2(q, k);
  }

  lemma Pow2Seven(e: nat)
    requires e == 7
    ensures Pow2(e) == 128
  {
  }

  lemma MulRegroup(m: int, h: int, y: int)
    requires m * h == 128
    ensures 256 * y == m * (2 * (h * y))
  {
    assert m * (2 * (h * y)) == 2 * ((m * h) * y);
  }

  lemma DivAddMultiple(x: nat, m: nat, t: nat)
    requires m > 0
    ensures (x + m * t) / m == x / m + t
  {
    DivMod(x, m);
    DivModUnique(x + m * t, m, x / m + t, x % m);
  }

  lemma AddEvenMod2(a: nat, t: nat)
    ensures (a + 2 * t) % 2 == a % 2
  {
    DivModUnique(a + 2 * t, 2, a / 2 + t, a % 2);
  }

  /** Dividing by 2^(a + b) is dividing by 2^a and then by 2^b. */
  lemma DivPow2Split(x: nat, a: nat, b: nat)
    ensures x / Pow2(a + b) == (x / Pow2(a)) / Pow2(b)
  {
    Pow2Add(a, b);
    DivDivGeneral(x, Pow2(a), Pow2(b));
  }

  lemma DivDivGeneral(x: nat, m: nat, k: nat)
    requires m > 0 && k > 0
    ensures x / (m * k) == (x / m) / k
  {
    var q := (x / m) / k;
    var r := ((x / m) % k) * m + x % m;
    DivMod(x, m);
    DivMod(x / m, k);
    assert x == q * (m * k) + r by {
      assert x == (x / m) * m + x % m;
      assert x / m == q * k + (x / m) % k;
      assert (q * k + (x / m) % k) * m == q * (m * k) + ((x / m) % k) * m;
    }
    assert r < m * k by {
      assert (x / m) % k <= k - 1;
      MulMonotone(m, (x / m) % k, k - 1);
      assert ((x / m) % k) * m <= (k - 1) * m;
      assert (k - 1) * m == m * k - m;
    }
    DivModUnique(x, m * k, q, r);
  }

  /** The low 2m residue splits into the low m residue and the next bit. */
  lemma ModSplitTop(y: nat, m: nat)
    requires m > 0
    ensures y % (2 * m) == y % m + ((y / m) % 2) * m
  {
    var a := y / m;
    DivMod(y, m);
    DivMod(a, 2);
    assert y == (a / 2) * (2 * m) + ((a % 2) * m + y % m) by {
      assert y == a * m + y % m;
      assert a == (a / 2) * 2 + a % 2;
      assert a * m == ((a / 2) * 2 + a % 2) * m;
    }
    assert (a % 2) * m + y % m < 2 * m by {
      assert a % 2 <= 1;
      assert (a % 2) * m <= m;
    }
    DivModUnique(y, 2 * m, a / 2, (a % 2) * m + y % m);
  }

  /**
   * The n stream bits from bit p, read least-significant first, are the
   * little-endian integer of the data shifted right by p, modulo 2^n.
   */
  lemma {:induction false} LsbBitsIsLittleEndian(data: seq<byte>, p: nat, n: nat)
    ensures LsbBits(data, p, n) == (LittleEndian(data) / Pow2(p)) % Pow2(n)
  {
    var x := LittleEndian(data);
    var y := x / Pow2(p);
    if n == 0 {
      assert Pow2(0) == 1;
    } else {
      var m := Pow2(n - 1);
      var q := p + (n - 1);
      var bit := StreamBit(data, q);
      assert LsbBits(data, p, n) == LsbBits(data, p, n - 1) + bit * m;
      var low := LsbBits(data, p, n - 1);
      LsbBitsIsLittleEndian(data, p, n - 1);
      assert low == y % m;
      StreamBitIsLittleEndianBit(data, q);
      DivPow2Split(x, p, n - 1);
      assert bit == (y / m) % 2;
      assert Pow2(n) == 2 * m;
      DivNonNegative(x, Pow2(p));
      AppendTopBit(low, bit, y, m);
    }
  }

  lemma DivNonNegative(x: int, d: int)
    requires x >= 0 && d > 0
    ensures x / d >= 0
  {
  }

  lemma AppendTopBit(low: nat, bit: nat, y: nat, m: nat)
    requires m > 0 && low == y % m && bit == (y / m) % 2
    ensures low + bit * m == y % (2 * m)
  {
    ModSplitTop(y, m);
  }

  // ---------------------------------------------------------------------
  // `read_null_term_bstr(reader)`

  /**
   * The bytes from position p up to the first zero byte or the end of the
   * data: the longest zero-free run of the data starting at p.
   */
  function CStringAt(data: seq<byte>, p: nat): (r: seq<byte>)
    ensures 0 !in r
    ensures r != [] ==> p + |r| <= |data|
    ensures forall k :: 0 <= k < |r| ==> r[k] == data[p + k]
    ensures p + |r| < |data| ==> data[p + |r|] == 0
    decreases |data| - p
  {
    if p >= |data| || data[p] == 0 then []
    else [data[p]] + CStringAt(data, p + 1)
  }

  /** Where the stream stands after the string: just past the zero byte, or at the end. */
  function CStringEnd(data: seq<byte>, p: nat): nat
  {
    var n := |CStringAt(data, p)|;
    if p + n < |data| then p + n + 1 else p + n
  }

  /**
   * `read_null_term_bstr`: reads one byte at a time, stopping at a zero byte
   * (consumed) or at the end of the data (an empty read).
   */
  method ReadNullTermBstr(reader: ByteStream) returns (s: seq<byte>)
    modifies reader
    ensures s == CStringAt(reader.data, old(reader.pos))
    ensures reader.pos == CStringEnd(reader.data, old(reader.pos))
  {
    ghost var start := reader.pos;
    s := [];
    while true
      invariant reader.pos == start + |s|
      invariant CStringAt(reader.data, start) == s + CStringAt(reader.data, reader.pos)
      decreases |reader.data| - reader.pos
    {
      ghost var here := reader.pos;
      CStringStep(reader.data, here);
      SliceOne(reader.data, here);
      var byte := reader.Read(1);
      if byte == [] || byte == [0] {
        assert s + [] == s;
        return;
      }
      assert (s + byte) + CStringAt(reader.data, reader.pos) == s + (byte + CStringAt(reader.data, reader.pos));
      s := s + byte;
    }
  }

  /** One step of `CStringAt`, by the byte at p. */
  lemma CStringStep(data: seq<byte>, p: nat)
    ensures p >= |data| || data[p] == 0 ==> CStringAt(data, p) == []
    ensures p < |data| && data[p] != 0 ==> CStringAt(data, p) == [data[p]] + CStringAt(data, p + 1)
  {
  }

  /** The two cases the source's tests pin down: an empty stream and a leading zero. */
  lemma CStringAtStart(data: seq<byte>)
    ensures data == [] ==> CStringAt(data, 0) == [] && CStringEnd(data, 0) == 0
    ensures data != [] && data[0] == 0 ==> CStringAt(data, 0) == [] && CStringEnd(data, 0) == 1
  {
  }

  /** A zero-free string followed by any number of zeros reads back as that string. */
  lemma {:induction false} CStringOfTerminated(s: seq<byte>, zeros: nat, p: nat)
    requires 0 !in s && p <= |s|
    ensures CStringAt(s + Zeros(zeros), p) == s[p..]
    decreases |s| - p
  {
    var data := s + Zeros(zeros);
    if p < |s| {
      assert data[p] == s[p];
      CStringOfTerminated(s, zeros, p + 1);
      assert s[p..] == [s[p]] + s[p + 1..];
    } else if zeros > 0 {
      assert data[p] == 0;
    }
  }

  function Zeros(n: nat): (r: seq<byte>)
    ensures |r| == n && forall k :: 0 <= k < n ==> r[k] == 0
  {
    if n == 0 then [] else [0] + Zeros(n - 1)
  }
}

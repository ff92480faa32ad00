/**
 * Bit-level arithmetic behind the reversed bit reader of d2lib: powers of
 * two, the bit order of a byte stream, and the `_reverse_bits` helper.
 *
 * A byte stream is `seq<byte>`. Bit `i` of the stream is bit `i % 8` (counted
 * from the least significant end) of byte `i / 8`; bits past the end of the
 * data are zero, because the source turns an empty read into the integer 0.
 */
module Bits {

  type byte = x: int | 0 <= x < 256

  function Pow2(n: nat): (r: nat)
    ensures r >= 1
  {
    if n == 0 then 1 else 2 * Pow2(n - 1)
  }

  lemma {:induction false} Pow2Add(a: nat, b: nat)
    ensures Pow2(a + b) == Pow2(a) * Pow2(b)
  {
    if a > 0 {
      Pow2Add(a - 1, b);
      assert Pow2(a + b) == 2 * Pow2(a - 1 + b);
    }
  }

  lemma Pow2Monotone(a: nat, b: nat)
    requires a <= b
    ensures Pow2(a) <= Pow2(b)
  {
    Pow2Add(a, b - a);
  }

  /** x shifted right by k bits (Python `x >> k` on a non-negative x). */
  function Shr(x: nat, k: nat): nat
  {
    if k == 0 then x else Shr(x, k - 1) / 2
  }

  /** Bit k of x, counted from the least significant bit. */
  function BitOf(x: nat, k: nat): nat
  {
    Shr(x, k) % 2
  }

  function ByteAt(data: seq<byte>, i: nat): byte
  {
    if i < |data| then data[i] else 0
  }

  /** Bit i of the stream: LSB-first inside each byte, zero past the end. */
  function StreamBit(data: seq<byte>, i: nat): nat
  {
    BitOf(ByteAt(data, i / 8), i % 8)
  }

  /**
   * The n stream bits starting at bit p, read least-significant first:
   * stream bit p + k is bit k of the result.
   */
  function LsbBits(data: seq<byte>, p: nat, n: nat): nat
  {
    if n == 0 then 0 else LsbBits(data, p, n - 1) + StreamBit(data, p + n - 1) * Pow2(n - 1)
  }

  /**
   * The same n stream bits read most-significant first: stream bit p is
   * the top bit. This is the order in which the reader's accumulator holds
   * its buffered bits.
   */
  function MsbBits(data: seq<byte>, p: nat, n: nat): nat
    decreases n
  {
    if n == 0 then 0 else StreamBit(data, p) * Pow2(n - 1) + MsbBits(data, p + 1, n - 1)
  }

  /** The low n bits of x in reverse order (the loop of `_reverse_bits` for n > 0). */
  function Reversed(x: nat, n: nat): nat
  {
    if n == 0 then 0 else (x % 2) * Pow2(n - 1) + Reversed(x / 2, n - 1)
  }

  /** `_reverse_bits(data, bits)`: a width of 0 returns the input untouched. */
  function ReverseBitsOf(x: nat, n: nat): nat
  {
    if n == 0 then x else Reversed(x, n)
  }

  /**
   * `_reverse_bits`: the source's accumulator loop, shifting the result left
   * and pulling the low bit of `data` in, `bits` times.
   */
  method ReverseBits(data: nat, bits: nat) returns (result: nat)
    ensures result == ReverseBitsOf(data, bits)
    ensures bits == 0 ==> result == data
    ensures bits > 0 ==> result < Pow2(bits)
  {
    if bits == 0 {
      return data;
    }
    result := 0;
    var d := data;
    var i := 0;
    while i < bits
      invariant 0 <= i <= bits
      invariant d == Shr(data, i)
      invariant result * Pow2(bits - i) + Reversed(d, bits - i) == Reversed(data, bits)
      invariant result < Pow2(i)
    {
      ReversedStep(d, bits - i);
      ShiftInBit(result, d % 2, Pow2(bits - i - 1), Reversed(d / 2, bits - i - 1), Pow2(i));
      result := result * 2 + d % 2;
      d := d / 2;
      i := i + 1;
    }
    ReversedBound(data, bits);
  }

  /** One step of the `_reverse_bits` loop keeps the accumulated value in place. */
  lemma ShiftInBit(result: int, bit: int, half: int, rest: int, bound: int)
    requires 0 <= bit < 2 && 0 <= result < bound
    ensures (result * 2 + bit) * half + rest == result * (2 * half) + (bit * half + rest)
    ensures result * 2 + bit < 2 * bound
  {
  }

  lemma ReversedStep(d: nat, n: nat)
    requires n > 0
    ensures Reversed(d, n) == (d % 2) * Pow2(n - 1) + Reversed(d / 2, n - 1)
  {
  }

  lemma {:induction false} ReversedBound(x: nat, n: nat)
    ensures Reversed(x, n) < Pow2(n)
  {
    if n > 0 {
      ReversedBound(x / 2, n - 1);
      BitTimes(x % 2, Pow2(n - 1));
    }
  }

  lemma BitTimes(bit: int, m: nat)
    requires 0 <= bit <= 1
    ensures bit * m <= m
  {
  }

  // ---------------------------------------------------------------------
  // Division facts used by the reader proof.

  lemma {:induction false} DivModUnique(x: int, d: int, q: int, r: int)
    requires d > 0 && 0 <= r < d && x == q * d + r
    ensures x / d == q && x % d == r
  {
    var q' := x / d;
    var r' := x % d;
    assert x == q' * d + r';
    if q' > q {
      assert (q' - q) * d == r - r';
      MulAtLeast(q' - q, d);
    } else if q' < q {
      assert (q - q') * d == r' - r;
      MulAtLeast(q - q', d);
    }
  }

  lemma MulAtLeast(k: int, d: int)
    requires k >= 1 && d > 0
    ensures k * d >= d
  {
  }

  /** Shifting the accumulator left by one byte and adding a byte below. */
  lemma AccumulateByte(acc: nat, r: nat, b: nat)
    requires b < 256
    ensures (acc * 256 + b) % Pow2(r + 8) == (acc % Pow2(r)) * 256 + b
  {
    var m := Pow2(r);
    var e := 8;
    Pow2Add(r, e);
    Pow2Byte(e);
    var q := acc / m;
    var lo := acc % m;
    assert acc == q * m + lo;
    assert acc * 256 + b == q * (m * 256) + (lo * 256 + b);
    assert lo * 256 + b < m * 256 by {
      assert lo <= m - 1;
      assert lo * 256 <= (m - 1) * 256;
    }
    DivModUnique(acc * 256 + b, m * 256, q, lo * 256 + b);
  }

  /**
   * Taking the top w of the low r bits of x: when those r bits are
   * hi followed by lo, shifting by r - w and masking w bits gives hi,
   * and the r - w bits left behind are lo.
   */
  lemma ExtractTop(x: nat, r: nat, w: nat, hi: nat, lo: nat)
    requires w <= r
    requires hi < Pow2(w) && lo < Pow2(r - w)
    requires x % Pow2(r) == hi * Pow2(r - w) + lo
    ensures x / Pow2(r - w) % Pow2(w) == hi
    ensures x % Pow2(r - w) == lo
  {
    Pow2Add(w, r - w);
    assert w + (r - w) == r;
    SplitTop(x, Pow2(r - w), Pow2(w), hi, lo);
  }

  lemma SplitTop(x: nat, a: nat, b: nat, hi: nat, lo: nat)
    requires a > 0 && b > 0 && hi < b && lo < a
    requires x % (b * a) == hi * a + lo
    ensures x / a % b == hi && x % a == lo
  {
    var q := x / (b * a);
    DivMod(x, b * a);
    Regroup(x, q, a, b, hi, lo);
    DivModUnique(x, a, q * b + hi, lo);
    DivModUnique(q * b + hi, b, q, hi);
  }

  lemma DivMod(x: int, d: int)
    requires d > 0
    ensures x == (x / d) * d + x % d && 0 <= x % d < d
  {
  }

  lemma Regroup(x: int, q: int, a: int, b: int, hi: int, lo: int)
    requires x == q * (b * a) + (hi * a + lo)
    ensures x == (q * b + hi) * a + lo
  {
  }

  // ---------------------------------------------------------------------
  // Stream bit orders.

  lemma {:induction false} LsbBitsBound(data: seq<byte>, p: nat, n: nat)
    ensures LsbBits(data, p, n) < Pow2(n)
  {
    if n > 0 {
      LsbBitsBound(data, p, n - 1);
    }
  }

  lemma {:induction false} MsbBitsBound(data: seq<byte>, p: nat, n: nat)
    ensures MsbBits(data, p, n) < Pow2(n)
    decreases n
  {
    if n > 0 {
      MsbBitsBound(data, p + 1, n - 1);
    }
  }

  /** Reading a + b bits LSB-first is reading a bits, then b more bits above them. */
  lemma {:induction false} LsbConcat(data: seq<byte>, p: nat, a: nat, b: nat)
    ensures LsbBits(data, p, a + b) == LsbBits(data, p, a) + Pow2(a) * LsbBits(data, p + a, b)
  {
    if b > 0 {
      LsbConcat(data, p, a, b - 1);
      Pow2Add(a, b - 1);
      assert a + (b - 1) == a + b - 1;
      assert p + a + (b - 1) == p + a + b - 1;
      var bit := StreamBit(data, p + a + b - 1);
      AddScaled(LsbBits(data, p, a + b), LsbBits(data, p, a + b - 1),
        LsbBits(data, p, a), Pow2(a), LsbBits(data, p + a, b - 1), LsbBits(data, p + a, b),
        bit, Pow2(b - 1), Pow2(a + b - 1));
    }
  }

  lemma AddScaled(total: int, prev: int, base: int, m: int, rest: int, restNext: int, bit: int, k: int, mk: int)
    requires total == prev + bit * mk && prev == base + m * rest
    requires mk == m * k && restNext == rest + bit * k
    ensures total == base + m * restNext
  {
    assert bit * (m * k) == m * (bit * k);
  }

  /** Buffering a + b bits MSB-first is buffering a bits, then b more below them. */
  lemma {:induction false} MsbConcat(data: seq<byte>, p: nat, a: nat, b: nat)
    ensures MsbBits(data, p, a + b) == MsbBits(data, p, a) * Pow2(b) + MsbBits(data, p + a, b)
    decreases a
  {
    if a > 0 {
      MsbConcat(data, p + 1, a - 1, b);
      Pow2Add(a - 1, b);
      assert a - 1 + b == a + b - 1;
      assert p + 1 + (a - 1) == p + a;
      var bit := StreamBit(data, p);
      Prepend(MsbBits(data, p, a + b), MsbBits(data, p + 1, a + b - 1), MsbBits(data, p, a),
        bit, Pow2(a - 1), Pow2(b), Pow2(a + b - 1), MsbBits(data, p + 1, a - 1), MsbBits(data, p + a, b));
    }
  }

  lemma Prepend(total: int, tail: int, head: int, bit: int, m: int, k: int, mk: int, mid: int, low: int)
    requires total == bit * mk + tail && head == bit * m + mid
    requires mk == m * k && tail == mid * k + low
    ensures total == head * k + low
  {
    assert bit * (m * k) + mid * k == (bit * m + mid) * k;
  }

  /** Reversing the MSB-first buffer yields the LSB-first value of the same bits. */
  lemma {:induction false} ReversedMsb(data: seq<byte>, p: nat, n: nat)
    ensures Reversed(MsbBits(data, p, n), n) == LsbBits(data, p, n)
  {
    if n > 0 {
      var x := MsbBits(data, p, n);
      MsbConcat(data, p, n - 1, 1);
      assert MsbBits(data, p + n - 1, 1) == StreamBit(data, p + n - 1);
      assert x == MsbBits(data, p, n - 1) * 2 + StreamBit(data, p + n - 1);
      DivModUnique(x, 2, MsbBits(data, p, n - 1), StreamBit(data, p + n - 1));
      ReversedMsb(data, p, n - 1);
    }
  }

  lemma {:induction false} ByteMsbFrom(data: seq<byte>, i: nat, j: nat, n: nat)
    requires j + n <= 8
    ensures MsbBits(data, 8 * i + j, n) == Reversed(Shr(ByteAt(data, i), j), n)
    decreases n
  {
    if n > 0 {
      assert (8 * i + j) / 8 == i && (8 * i + j) % 8 == j;
      ByteMsbFrom(data, i, j + 1, n - 1);
      assert 8 * i + j + 1 == 8 * i + (j + 1);
    }
  }

  /** Reversing byte i of the stream gives its 8 bits in MSB-first order. */
  lemma ByteMsb(data: seq<byte>, i: nat)
    ensures Reversed(ByteAt(data, i), 8) == MsbBits(data, 8 * i, 8)
  {
    ByteMsbGen(data, i, 8);
  }

  lemma ByteMsbGen(data: seq<byte>, i: nat, n: nat)
    requires n <= 8
    ensures Reversed(ByteAt(data, i), n) == MsbBits(data, 8 * i, n)
  {
    ByteMsbFrom(data, i, 0, n);
    assert 8 * i + 0 == 8 * i;
    assert Shr(ByteAt(data, i), 0) == ByteAt(data, i);
  }

  /** Every stream bit past the data is zero. */
  lemma {:induction false} LsbBitsPastEnd(data: seq<byte>, p: nat, n: nat)
    requires p >= 8 * |data|
    ensures LsbBits(data, p, n) == 0
  {
    if n > 0 {
      LsbBitsPastEnd(data, p, n - 1);
      var k := p + n - 1;
      assert k / 8 >= |data|;
      assert ByteAt(data, k / 8) == 0;
      ShrZero(k % 8);
      assert StreamBit(data, k) == 0;
    }
  }

  lemma {:induction false} ShrZero(k: nat)
    ensures Shr(0, k) == 0
  {
    if k > 0 {
      ShrZero(k - 1);
    }
  }

  lemma {:induction false} MsbBitsPastEnd(data: seq<byte>, p: nat, n: nat)
    requires p >= 8 * |data|
    ensures MsbBits(data, p, n) == 0
    decreases n
  {
    if n > 0 {
      ShrZero(p % 8);
      MsbBitsPastEnd(data, p + 1, n - 1);
    }
  }

  lemma {:induction false} ShrOfByte(x: nat, k: nat)
    requires x < 256 && k >= 8
    ensures Shr(x, k) == 0
  {
    if k == 8 {
      ShrIsDiv(x, 8);
      assert Pow2(8) == 256;
    } else {
      ShrOfByte(x, k - 1);
    }
  }

  /** Eight bits starting at a byte boundary are exactly that byte. */
  lemma ByteLsb(data: seq<byte>, i: nat)
    ensures LsbBits(data, 8 * i, 8) == ByteAt(data, i)
  {
    var n := 8;
    ByteLsbGen(data, i, n);
    Pow2Byte(n);
    ModSmall(ByteAt(data, i), Pow2(n));
  }

  lemma Pow2Byte(n: nat)
    requires n == 8
    ensures Pow2(n) == 256
  {
  }

  lemma ModSmall(x: nat, m: nat)
    requires x < m
    ensures x % m == x
  {
  }

  lemma ByteLsbGen(data: seq<byte>, i: nat, n: nat)
    requires n <= 8
    ensures LsbBits(data, 8 * i, n) == ByteAt(data, i) % Pow2(n)
  {
    ByteMsbGen(data, i, n);
    ReversedMsb(data, 8 * i, n);
    ReversedTwice(ByteAt(data, i), n);
  }

  /** `_reverse_bits` applied twice with the same width b > 0 keeps the low b bits. */
  lemma {:induction false} ReversedTwice(x: nat, n: nat)
    ensures Reversed(Reversed(x, n), n) == x % Pow2(n)
  {
    if n > 0 {
      var y := Reversed(x, n);
      var t := Reversed(x / 2, n - 1);
      // y = (x % 2) * 2^(n-1) + t, with t < 2^(n-1): its low bit is the low bit of t.
      ReversedBound(x / 2, n - 1);
      ReversedLowBit(x, n);
      ReversedTwice(x / 2, n - 1);
      ReversedInit(y, n);
      ReversedDrop(x, n);
      assert Reversed(y, n) == Reversed(y % Pow2(n - 1), n - 1) * 2 + (x % 2);
      assert y % Pow2(n - 1) == t;
      assert Reversed(t, n - 1) == (x / 2) % Pow2(n - 1);
      ModTwoSplit(x, n);
    }
  }

  /** The top bit of Reversed(x, n) is the low bit of x; the rest is Reversed(x / 2, n - 1). */
  lemma ReversedLowBit(x: nat, n: nat)
    requires n > 0
    ensures Reversed(x, n) % Pow2(n - 1) == Reversed(x / 2, n - 1)
    ensures Reversed(x, n) / Pow2(n - 1) == x % 2
  {
    ReversedBound(x / 2, n - 1);
    DivModUnique(Reversed(x, n), Pow2(n - 1), x % 2, Reversed(x / 2, n - 1));
  }

  /** Reversed peels its last bit: the top input bit lands at the bottom. */
  lemma {:induction false} ReversedInit(y: nat, n: nat)
    requires n > 0
    ensures Reversed(y, n) == Reversed(y % Pow2(n - 1), n - 1) * 2 + Shr(y, n - 1) % 2
  {
    if n == 1 {
      assert Reversed(y, 1) == y % 2;
    } else {
      ReversedInit(y / 2, n - 1);
      ShrHalf(y, n - 2);
      HalfMod(y, n - 1);
      ModPow2Low(y, n - 1);
      var low := Reversed((y / 2) % Pow2(n - 2), n - 2);
      var top := Shr(y, n - 1) % 2;
      assert Reversed(y / 2, n - 1) == low * 2 + top;
      assert Reversed(y, n) == (y % 2) * Pow2(n - 1) + Reversed(y / 2, n - 1);
      assert Reversed(y % Pow2(n - 1), n - 1) == (y % 2) * Pow2(n - 2) + low;
      assert Pow2(n - 1) == 2 * Pow2(n - 2);
      Regroup2(y % 2, Pow2(n - 2), low, top);
    }
  }

  lemma Regroup2(bit: int, m: int, low: int, top: int)
    ensures bit * (2 * m) + (low * 2 + top) == (bit * m + low) * 2 + top
  {
  }

  lemma {:induction false} ShrHalf(y: nat, k: nat)
    ensures Shr(y / 2, k) == Shr(y, k + 1)
  {
    if k > 0 {
      ShrHalf(y, k - 1);
    }
  }

  /** (y % 2^k) / 2 == (y / 2) % 2^(k-1) */
  lemma HalfMod(y: nat, k: nat)
    requires k > 0
    ensures (y % Pow2(k)) / 2 == (y / 2) % Pow2(k - 1)
  {
    var m := Pow2(k - 1);
    var q := (y / 2) / m;
    var r := (y / 2) % m;
    assert y / 2 == q * m + r;
    assert y == q * (2 * m) + (2 * r + y % 2);
    DivModUnique(y, 2 * m, q, 2 * r + y % 2);
    DivModUnique(2 * r + y % 2, 2, r, y % 2);
  }

  lemma ModPow2Low(y: nat, k: nat)
    requires k > 0
    ensures (y % Pow2(k)) % 2 == y % 2
  {
    var m := Pow2(k - 1);
    var q := y / (2 * m);
    var r := y % (2 * m);
    assert y == (q * m) * 2 + r;
    var r2 := r % 2;
    assert r == (r / 2) * 2 + r2;
    assert y == (q * m + r / 2) * 2 + r2;
    DivModUnique(y, 2, q * m + r / 2, r2);
  }

  lemma ReversedDrop(x: nat, n: nat)
    requires n > 0
    ensures Shr(Reversed(x, n), n - 1) % 2 == x % 2
  {
    ReversedLowBit(x, n);
    ShrIsDiv(Reversed(x, n), n - 1);
  }

  lemma {:induction false} ShrIsDiv(x: nat, k: nat)
    ensures Shr(x, k) == x / Pow2(k)
  {
    if k > 0 {
      ShrIsDiv(x, k - 1);
      DivDiv(x, Pow2(k - 1));
    }
  }

  lemma DivDiv(x: nat, m: nat)
    requires m > 0
    ensures (x / m) / 2 == x / (m * 2)
  {
    var q := (x / m) / 2;
    var r := x % m + m * ((x / m) % 2);
    assert x / m == q * 2 + (x / m) % 2;
    assert x == (x / m) * m + x % m;
    assert x == q * (m * 2) + r;
    assert r < m * 2 by {
      assert (x / m) % 2 <= 1;
      assert m * ((x / m) % 2) <= m;
    }
    DivModUnique(x, m * 2, q, r);
  }

  lemma ModTwoSplit(x: nat, n: nat)
    requires n > 0
    ensures ((x / 2) % Pow2(n - 1)) * 2 + x % 2 == x % Pow2(n)
  {
    var m := Pow2(n - 1);
    var q := (x / 2) / m;
    var r := (x / 2) % m;
    assert x == q * (m * 2) + (r * 2 + x % 2);
    DivModUnique(x, m * 2, q, r * 2 + x % 2);
  }

  // ---------------------------------------------------------------------
  // Runs of fields read one after another.

  /** Bits taken by the first i fields of widths ws laid end to end. */
  function TotalUpTo(ws: seq<nat>, i: nat): nat
    requires i <= |ws|
  {
    if i == 0 then 0 else TotalUpTo(ws, i - 1) + ws[i - 1]
  }

  /** Bits taken by fields of widths ws laid end to end. */
  function Total(ws: seq<nat>): nat
  {
    TotalUpTo(ws, |ws|)
  }

  /**
   * The values of the first i calls `read(w)`, one per width w of ws in
   * turn, from stream bit p: each field is read LSB-first right after the
   * previous one.
   */
  function FieldsUpTo(data: seq<byte>, p: nat, ws: seq<nat>, i: nat): (r: seq<nat>)
    requires i <= |ws|
    ensures |r| == i
  {
    if i == 0 then [] else FieldsUpTo(data, p, ws, i - 1) + [LsbBits(data, p + TotalUpTo(ws, i - 1), ws[i - 1])]
  }

  /** The values of `read(w)` for every width w of ws in turn, from stream bit p. */
  function Fields(data: seq<byte>, p: nat, ws: seq<nat>): (r: seq<nat>)
    ensures |r| == |ws|
  {
    FieldsUpTo(data, p, ws, |ws|)
  }

  /** Field k of a run starts where the widths before it end. */
  lemma {:induction false} FieldAt(data: seq<byte>, p: nat, ws: seq<nat>, i: nat, k: nat)
    requires k < i <= |ws|
    ensures FieldsUpTo(data, p, ws, i)[k] == LsbBits(data, p + TotalUpTo(ws, k), ws[k])
  {
    if k < i - 1 {
      FieldAt(data, p, ws, i - 1, k);
    }
  }

  /** A run of fields reads no more than it announces: each fits its width. */
  lemma FieldBound(data: seq<byte>, p: nat, ws: seq<nat>, k: nat)
    requires k < |ws|
    ensures Fields(data, p, ws)[k] < Pow2(ws[k])
  {
    FieldAt(data, p, ws, |ws|, k);
    LsbBitsBound(data, p + TotalUpTo(ws, k), ws[k]);
  }

  /** Two widths at once, for runs written out as literals. */
  lemma TotalUpToTwo(ws: seq<nat>, i: nat)
    requires i + 2 <= |ws|
    ensures TotalUpTo(ws, i + 2) == TotalUpTo(ws, i) + ws[i] + ws[i + 1]
  {
  }

  /** Four widths at once, for runs written out as literals. */
  lemma {:induction false} TotalUpToFour(ws: seq<nat>, i: nat)
    requires i + 4 <= |ws|
    ensures TotalUpTo(ws, i + 4) == TotalUpTo(ws, i) + ws[i] + ws[i + 1] + ws[i + 2] + ws[i + 3]
  {
    TotalUpToTwo(ws, i);
    TotalUpToTwo(ws, i + 2);
  }

  // ---------------------------------------------------------------------
  // Pure helpers of the utils modules.

  predicate ByteAligned(bits: nat)
  {
    bits % 8 == 0
  }

  /** `calc_bits_to_align`: the fewest bits that reach the next byte boundary. */
  function CalcBitsToAlign(bits: nat): (r: nat)
    ensures r < 8
    ensures ByteAligned(bits + r)
    ensures forall k :: bits <= k < bits + r ==> !ByteAligned(k)
  {
    var remainder := bits % 8;
    if remainder > 0 then 8 - remainder else 0
  }

  /**
   * `is_set_bit`: whether bit `position` of `x` is one, i.e. the quotient of
   * x by 2^position is odd; no bit at or above 8 is set in a byte.
   */
  function IsSetBit(x: nat, position: nat): (r: bool)
    ensures r <==> (x / Pow2(position)) % 2 == 1
    ensures x < 256 && position >= 8 ==> !r
  {
    ShrIsDiv(x, position);
    var isSet := Shr(x, position) % 2 == 1;
    if x < 256 && position >= 8 then ShrOfByte(x, position); isSet else isSet
  }

  lemma IsSetBitVectors()
    ensures !IsSetBit(0, 0) && IsSetBit(128, 7) && IsSetBit(1, 0) && !IsSetBit(255, 8)
  {
    assert Shr(128, 7) == 1;
    ShrOfByte(255, 8);
  }

  lemma CalcBitsToAlignVectors()
    ensures CalcBitsToAlign(0) == 0 && CalcBitsToAlign(7) == 1
    ensures CalcBitsToAlign(11) == 5 && CalcBitsToAlign(8) == 0
  {
  }

  lemma ReverseBitsVectors()
    ensures ReverseBitsOf(192, 8) == 3 && ReverseBitsOf(192, 7) == 1
  {
    // 192 is 0b1100_0000: one halving per zero bit, then the two set bits.
    assert Reversed(1, 1) == 1 && Reversed(3, 1) == 1;
    assert Reversed(3, 2) == 3 && Reversed(6, 2) == 1;
    assert Reversed(6, 3) == 3 && Reversed(12, 3) == 1;
    assert Reversed(12, 4) == 3 && Reversed(24, 4) == 1;
    assert Reversed(24, 5) == 3 && Reversed(48, 5) == 1;
    assert Reversed(48, 6) == 3 && Reversed(96, 6) == 1;
    assert Reversed(96, 7) == 3 && Reversed(192, 7) == 1;
    assert Reversed(192, 8) == 3;
  }
}

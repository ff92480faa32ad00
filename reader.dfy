/**
 * `ReverseBitReader` of the utils modules: a cursor over a byte stream that
 * hands out bit fields least-significant bit first.
 *
 * The source reaches that order in two reversals: every byte is bit-reversed
 * as it is shifted into the accumulator `_data`, and every field taken from
 * the top of the buffered bits is reversed again (the `_reverse` decorator
 * around `read`). The model keeps that mechanism and proves its net effect:
 * a read of w > 0 bits returns stream bits `Cursor() .. Cursor() + w - 1`
 * as an LSB-first number (`Bits.LsbBits`).
 */
module BitReader {
  import opened Bits
  import opened Streams
  import opened Outcomes

  /** Every stream bit from bit c on is zero. */
  ghost predicate ZeroFrom(data: seq<byte>, c: nat)
  {
    forall k :: c <= k ==> StreamBit(data, k) == 0
  }

  /**
   * The r low bits of the accumulator are stream bits c .. c + r - 1, the
   * first of them highest.
   */
  ghost predicate Buffered(acc: nat, r: nat, data: seq<byte>, c: nat)
  {
    acc % Pow2(r) == MsbBits(data, c, r)
  }

  /**
   * Where the stream stands after the reader fetched `fetched` bytes from
   * `origin`: reads at the end return nothing and leave the position alone.
   */
  function FetchedPos(origin: nat, fetched: nat, len: nat): nat
  {
    if origin >= len then origin else Min(origin + fetched, len)
  }

  class ReverseBitReader {
    const stream: ByteStream
    /** `_data`: every byte fetched so far, each bit-reversed, most recent lowest. */
    var acc: nat
    /** `_bits_read`: how many low bits of `acc` are still unread. */
    var bitsRead: nat
    /** `bits_total`: bits handed out so far. */
    var bitsTotal: nat
    /** Stream position when the reader was created. */
    ghost const origin: nat
    /** Bytes fetched from the stream so far. */
    ghost var fetched: nat

    /** Index, in stream bits, of the next bit `read` hands out. */
    ghost function Cursor(): nat
      reads this
    {
      8 * origin + bitsTotal
    }

    ghost predicate Valid()
      reads this, stream
    {
      && bitsRead < 8
      && 8 * fetched == bitsTotal + bitsRead
      && stream.pos == FetchedPos(origin, fetched, |stream.data|)
      && Buffered(acc, bitsRead, stream.data, Cursor())
    }

    /**
     * The stream is used up and no buffered bit is set: every further read
     * returns zero. A loop that waits for a non-zero terminator never ends
     * from here on.
     */
    predicate Drained()
      reads this, stream
    {
      stream.pos >= |stream.data| && acc % Pow2(bitsRead) == 0
    }

    constructor (reader: ByteStream)
      ensures stream == reader && origin == reader.pos
      ensures bitsTotal == 0 && Cursor() == 8 * reader.pos
      ensures Valid()
    {
      stream := reader;
      origin := reader.pos;
      acc := 0;
      bitsRead := 0;
      bitsTotal := 0;
      fetched := 0;
    }

    /**
     * `read(bits)`: None for a width of 0, otherwise the next `bits` stream
     * bits as an LSB-first number (zero bits past the end of the data).
     */
    method Read(bits: nat) returns (v: Option<nat>)
      requires Valid()
      modifies this, stream
      ensures Valid()
      ensures bits == 0 ==> v == None && unchanged(this, stream)
      ensures bits > 0 ==> v == Some(LsbBits(stream.data, old(Cursor()), bits))
      ensures bits > 0 ==> bitsTotal == old(bitsTotal) + bits && Cursor() == old(Cursor()) + bits
      ensures stream.pos >= old(stream.pos)
      ensures old(Drained()) ==> Drained()
    {
      if bits == 0 {
        return None;
      }
      ghost var data := stream.data;
      ghost var c := Cursor();
      ghost var wasDrained := Drained();
      if wasDrained {
        DrainedZero();
      }
      Fill(bits);
      FetchedPosMonotone(origin, old(fetched), fetched, |data|);
      var result := Take(bits, wasDrained);
      v := Some(result);
    }

    /**
     * `read(w)` for each width w of ws in turn, as the decoders do for a
     * fixed run of fields. The decoders only use widths above zero; a zero
     * width would read nothing and count as 0 here.
     */
    method ReadEach(ws: seq<nat>) returns (xs: seq<nat>)
      requires Valid()
      modifies this, stream
      ensures Valid()
      ensures xs == Fields(stream.data, old(Cursor()), ws)
      ensures Cursor() == old(Cursor()) + Total(ws)
    {
      ghost var c := Cursor();
      xs := [];
      var i := 0;
      while i < |ws|
        invariant i <= |ws|
        invariant Valid()
        invariant xs == FieldsUpTo(stream.data, c, ws, i)
        invariant Cursor() == c + TotalUpTo(ws, i)
      {
        ghost var cur := Cursor();
        var v := Read(ws[i]);
        var x := if v.Some? then v.value else 0;
        FieldsNext(stream.data, c, ws, i, xs, cur, x);
        xs := xs + [x];
        i := i + 1;
      }
    }

    /**
     * The rest of `read`: the top `bits` buffered bits, reversed; they leave
     * the buffer and count as handed out.
     */
    method Take(bits: nat, ghost drained: bool) returns (result: nat)
      requires 0 < bits <= bitsRead && bitsRead - bits < 8
      requires 8 * fetched == bitsTotal + bitsRead
      requires stream.pos == FetchedPos(origin, fetched, |stream.data|)
      requires Buffered(acc, bitsRead, stream.data, Cursor())
      requires drained ==> ZeroFrom(stream.data, Cursor())
      modifies this
      ensures Valid()
      ensures result == LsbBits(stream.data, old(Cursor()), bits)
      ensures bitsTotal == old(bitsTotal) + bits && fetched == old(fetched) && acc == old(acc)
      ensures drained ==> acc % Pow2(bitsRead) == 0
    {
      ghost var c := Cursor();
      TakeField(stream.data, c, bitsRead, bits, acc, drained);
      // `(_data >> (_bits_read - bits)) & ((1 << bits) - 1)`, then `_reverse_bits`.
      var raw := TopField(acc, bitsRead, bits);
      result := ReverseBits(raw, bits);
      bitsRead := bitsRead - bits;
      bitsTotal := bitsTotal + bits;
      assert Cursor() == c + bits;
    }

    /** The `while bits > self._bits_read` loop of `read`: buffer at least `bits` bits. */
    method Fill(bits: nat)
      requires Valid()
      modifies this, stream
      ensures bits <= bitsRead && bitsRead - bits < 8
      ensures bitsTotal == old(bitsTotal) && fetched >= old(fetched)
      ensures 8 * fetched == bitsTotal + bitsRead
      ensures stream.pos == FetchedPos(origin, fetched, |stream.data|)
      ensures Buffered(acc, bitsRead, stream.data, Cursor())
    {
      while bitsRead < bits
        invariant bitsRead < bits + 8 || bitsRead < 8
        invariant bitsTotal == old(bitsTotal)
        invariant 8 * fetched == bitsTotal + bitsRead
        invariant stream.pos == FetchedPos(origin, fetched, |stream.data|)
        invariant fetched >= old(fetched)
        invariant Buffered(acc, bitsRead, stream.data, Cursor())
        decreases bits - bitsRead
      {
        FetchByte();
      }
    }

    /** One pass of that loop: the next byte, bit-reversed, goes under the buffered bits. */
    method FetchByte()
      requires 8 * fetched == bitsTotal + bitsRead
      requires stream.pos == FetchedPos(origin, fetched, |stream.data|)
      requires Buffered(acc, bitsRead, stream.data, Cursor())
      modifies this, stream
      ensures bitsTotal == old(bitsTotal) && bitsRead == old(bitsRead) + 8 && fetched == old(fetched) + 1
      ensures stream.pos == FetchedPos(origin, fetched, |stream.data|)
      ensures Buffered(acc, bitsRead, stream.data, Cursor())
    {
      ghost var i := origin + fetched;
      FetchStep(stream.data, origin, fetched);
      var b := stream.Read(1);
      var byte := LittleEndian(b);
      var reversed := ReverseBits(byte, 8);
      FetchKeepsBuffer(stream.data, Cursor(), bitsRead, acc, i, reversed);
      acc := acc * 256 + reversed;
      bitsRead := bitsRead + 8;
      fetched := fetched + 1;
    }

    /** On a byte boundary nothing is buffered: the stream stands just past the bytes handed out. */
    lemma AlignedPos()
      requires Valid() && ByteAligned(bitsTotal)
      ensures stream.pos == FetchedPos(origin, bitsTotal / 8, |stream.data|)
    {
      assert fetched == bitsTotal / 8;
    }

    /** A drained reader sees only zero bits from its cursor on. */
    lemma DrainedZero()
      requires Valid() && Drained()
      ensures ZeroFrom(stream.data, Cursor())
    {
      var data := stream.data;
      forall k | Cursor() <= k
        ensures StreamBit(data, k) == 0
      {
        if k >= 8 * |data| {
          PastEndBit(data, k);
        } else {
          // Then origin < |data| and the stream stands at |data|: k is a
          // buffered bit, and every buffered bit is zero.
          assert origin + fetched >= |data|;
          MsbBitsZeroBit(data, Cursor(), bitsRead, k - Cursor());
        }
      }
    }

    /** A reader that is not drained is still inside the data. */
    lemma NotDrainedInside()
      requires Valid() && !Drained()
      ensures Cursor() < 8 * |stream.data|
    {
      if Cursor() >= 8 * |stream.data| {
        MsbBitsPastEnd(stream.data, Cursor(), bitsRead);
      }
    }

    /**
     * `read_null_term_bstr(bits)`: codes of `bits` bits up to the first zero
     * code, each written as one byte.
     */
    method ReadNullTermBstr(bits: nat) returns (r: Result<seq<byte>>)
      requires Valid()
      modifies this, stream
      ensures Valid()
      ensures r == NullTermCodes(stream.data, old(Cursor()), bits).codes
      ensures r.Ok? ==> Cursor() == NullTermCodes(stream.data, old(Cursor()), bits).end
    {
      ghost var data := stream.data;
      ghost var cur := Cursor();
      ghost var whole := NullTermCodes(data, cur, bits);
      var buffer: seq<byte> := [];
      PrefixedNil(whole);
      while true
        invariant Valid() && cur == Cursor()
        invariant Pending(whole, buffer, data, cur, bits)
        decreases if cur < 8 * |data| then 8 * |data| - cur else 0
      {
        NullTermCodesNext(data, cur, bits, buffer, whole);
        var code := Read(bits);
        if code == Some(0) {
          return Ok(buffer);
        }
        if code.None? {
          return Err(AttributeError);
        }
        if code.value >= 256 {
          return Err(OverflowError);
        }
        var b: byte := code.value;
        buffer := buffer + [b];
        cur := cur + bits;
      }
    }
  }

  /** Appending the next field of a run. */
  lemma FieldsNext(data: seq<byte>, c: nat, ws: seq<nat>, i: nat, xs: seq<nat>, cur: nat, x: nat)
    requires i < |ws| && xs == FieldsUpTo(data, c, ws, i)
    requires cur == c + TotalUpTo(ws, i) && x == LsbBits(data, cur, ws[i])
    ensures xs + [x] == FieldsUpTo(data, c, ws, i + 1)
  {
  }

  // ---------------------------------------------------------------------
  // The two steps of `read`.

  /** `_reader.read(1)` as `int.from_bytes`: the next byte, or 0 at the end. */
  lemma FetchStep(data: seq<byte>, origin: nat, f: nat)
    ensures var pos := FetchedPos(origin, f, |data|);
      && FetchedPos(origin, f + 1, |data|) == pos + |Slice(data, pos, 1)|
      && LittleEndian(Slice(data, pos, 1)) == ByteAt(data, origin + f)
  {
    var pos := FetchedPos(origin, f, |data|);
    var b := Slice(data, pos, 1);
    assert b == [] || b == [data[origin + f]];
  }

  lemma FetchedPosMonotone(origin: nat, f: nat, g: nat, len: nat)
    requires f <= g
    ensures FetchedPos(origin, f, len) <= FetchedPos(origin, g, len)
  {
  }

  /** Shifting byte i, reversed, into the accumulator extends the buffered bits by that byte. */
  lemma FetchKeepsBuffer(data: seq<byte>, c: nat, r: nat, acc: nat, i: nat, rev: nat)
    requires c + r == 8 * i
    requires Buffered(acc, r, data, c)
    requires rev == ReverseBitsOf(ByteAt(data, i), 8)
    ensures Buffered(acc * 256 + rev, r + 8, data, c)
  {
    var n := 8;
    ByteMsbGen(data, i, n);
    ReversedBound(ByteAt(data, i), n);
    Pow2Byte(n);
    AccumulateByte(acc, r, rev);
    MsbConcat(data, c, r, n);
  }

  /** The top w of the r low bits of acc. */
  function TopField(acc: nat, r: nat, w: nat): nat
    requires w <= r
  {
    (acc / Pow2(r - w)) % Pow2(w)
  }

  /** `ExtractField`, and on a zero tail the bits left in the buffer are zero. */
  lemma TakeField(data: seq<byte>, c: nat, r: nat, w: nat, acc: nat, drained: bool)
    requires 0 < w <= r
    requires Buffered(acc, r, data, c)
    requires drained ==> ZeroFrom(data, c)
    ensures ReverseBitsOf(TopField(acc, r, w), w) == LsbBits(data, c, w)
    ensures Buffered(acc, r - w, data, c + w)
    ensures drained ==> acc % Pow2(r - w) == 0
  {
    ExtractField(data, c, r, w, acc);
    if drained {
      ZeroFromLater(data, c, c + w);
      MsbBitsZeroFrom(data, c + w, r - w);
    }
  }

  /**
   * Taking the top w of the r buffered bits and reversing them gives the
   * next w stream bits LSB-first; the r - w bits left are the ones after them.
   */
  lemma ExtractField(data: seq<byte>, c: nat, r: nat, w: nat, acc: nat)
    requires 0 < w <= r
    requires acc % Pow2(r) == MsbBits(data, c, r)
    ensures ReverseBitsOf((acc / Pow2(r - w)) % Pow2(w), w) == LsbBits(data, c, w)
    ensures acc % Pow2(r - w) == MsbBits(data, c + w, r - w)
  {
    MsbConcat(data, c, w, r - w);
    assert w + (r - w) == r;
    MsbBitsBound(data, c, w);
    MsbBitsBound(data, c + w, r - w);
    ExtractTop(acc, r, w, MsbBits(data, c, w), MsbBits(data, c + w, r - w));
    ReversedMsb(data, c, w);
  }

  // ---------------------------------------------------------------------
  // Zero tails.

  lemma PastEndBit(data: seq<byte>, k: nat)
    requires k >= 8 * |data|
    ensures StreamBit(data, k) == 0
  {
    ShrZero(k % 8);
  }

  /** When the MSB-first value of n bits is zero, each of those bits is zero. */
  lemma {:induction false} MsbBitsZeroBit(data: seq<byte>, p: nat, n: nat, j: nat)
    requires MsbBits(data, p, n) == 0 && j < n
    ensures StreamBit(data, p + j) == 0
    decreases n
  {
    MsbBitsNonNegative(data, p + 1, n - 1);
    if j > 0 {
      MsbBitsZeroBit(data, p + 1, n - 1, j - 1);
    }
  }

  lemma MsbBitsNonNegative(data: seq<byte>, p: nat, n: nat)
    ensures MsbBits(data, p, n) >= 0
  {
  }

  /** Zero bits from c on read as zero MSB-first. */
  lemma {:induction false} MsbBitsZeroFrom(data: seq<byte>, c: nat, n: nat)
    requires ZeroFrom(data, c)
    ensures MsbBits(data, c, n) == 0
    decreases n
  {
    if n > 0 {
      assert StreamBit(data, c) == 0;
      MsbBitsZeroFrom(data, c + 1, n - 1);
    }
  }

  /** Zero bits from c on read as zero LSB-first. */
  lemma {:induction false} LsbBitsZeroFrom(data: seq<byte>, c: nat, n: nat)
    requires ZeroFrom(data, c)
    ensures LsbBits(data, c, n) == 0
  {
    if n > 0 {
      assert StreamBit(data, c + n - 1) == 0;
      LsbBitsZeroFrom(data, c, n - 1);
    }
  }

  lemma ZeroFromLater(data: seq<byte>, c: nat, d: nat)
    requires ZeroFrom(data, c) && c <= d
    ensures ZeroFrom(data, d)
  {
  }

  // ---------------------------------------------------------------------
  // `read_null_term_bstr(bits)` as a function of the stream.

  datatype Codes = Codes(codes: Result<seq<byte>>, end: nat)

  function Prefixed(buffer: seq<byte>, rest: Codes): Codes
  {
    match rest.codes
    case Ok(s) => Codes(Ok(buffer + s), rest.end)
    case Err(e) => rest
  }

  /**
   * The codes of `bits` bits from stream bit p up to the first zero code,
   * and the bit just past that zero code. A width of 0 fails like `None.to_bytes`,
   * a code above 255 like `int.to_bytes(length=1)`.
   */
  function NullTermCodes(data: seq<byte>, p: nat, bits: nat): (r: Codes)
    ensures r.codes.Ok? ==> 0 !in r.codes.value && bits > 0
    ensures r.end >= p
    decreases if p < 8 * |data| then 8 * |data| - p else 0
  {
    if bits == 0 then Codes(Err(AttributeError), p)
    else
      var code := LsbBits(data, p, bits);
      if code == 0 then Codes(Ok([]), p + bits)
      else if code >= 256 then Codes(Err(OverflowError), p)
      else
        NonZeroInside(data, p, bits);
        var rest := NullTermCodes(data, p + bits, bits);
        if rest.codes.Ok? then Prefixed([code], rest) else rest
  }

  /**
   * A string of n codes ends n + 1 codes after p, and the last code read,
   * the terminator, is zero.
   */
  lemma {:induction false} NullTermCodesEnd(data: seq<byte>, p: nat, bits: nat)
    ensures var r := NullTermCodes(data, p, bits);
      r.codes.Ok? ==> r.end == p + bits * (|r.codes.value| + 1) && LsbBits(data, r.end - bits, bits) == 0
    decreases if p < 8 * |data| then 8 * |data| - p else 0
  {
    NullTermCodesStep(data, p, bits);
    if bits > 0 && 0 < LsbBits(data, p, bits) < 256 {
      var rest := NullTermCodes(data, p + bits, bits);
      NullTermCodesEnd(data, p + bits, bits);
      if rest.codes.Ok? {
        EndAfterCode(p, bits, |rest.codes.value|);
      }
    }
  }

  /** One step of `NullTermCodes`, by the code at p. */
  lemma NullTermCodesStep(data: seq<byte>, p: nat, bits: nat)
    ensures bits == 0 ==> NullTermCodes(data, p, bits) == Codes(Err(AttributeError), p)
    ensures bits > 0 && LsbBits(data, p, bits) == 0 ==>
      NullTermCodes(data, p, bits) == Codes(Ok([]), p + bits)
    ensures bits > 0 && LsbBits(data, p, bits) >= 256 ==>
      NullTermCodes(data, p, bits) == Codes(Err(OverflowError), p)
    ensures bits > 0 && 0 < LsbBits(data, p, bits) < 256 ==>
      p < 8 * |data| &&
      NullTermCodes(data, p, bits) == Prefixed([LsbBits(data, p, bits)], NullTermCodes(data, p + bits, bits))
  {
    if bits > 0 && LsbBits(data, p, bits) != 0 {
      NonZeroInside(data, p, bits);
    }
  }

  /** `whole` is the codes in `buffer` followed by what the stream holds from cur on. */
  ghost predicate Pending(whole: Codes, buffer: seq<byte>, data: seq<byte>, cur: nat, bits: nat)
  {
    whole == Prefixed(buffer, NullTermCodes(data, cur, bits))
  }

  /** The loop of `read_null_term_bstr` against `NullTermCodes`: what the next code decides. */
  lemma NullTermCodesNext(data: seq<byte>, cur: nat, bits: nat, buffer: seq<byte>, whole: Codes)
    requires Pending(whole, buffer, data, cur, bits)
    ensures bits == 0 ==> whole.codes == Err(AttributeError)
    ensures bits > 0 && LsbBits(data, cur, bits) == 0 ==>
      whole == Codes(Ok(buffer), cur + bits)
    ensures bits > 0 && LsbBits(data, cur, bits) >= 256 ==> whole.codes == Err(OverflowError)
    ensures bits > 0 && 0 < LsbBits(data, cur, bits) < 256 ==>
      cur < 8 * |data| && Pending(whole, buffer + [LsbBits(data, cur, bits)], data, cur + bits, bits)
  {
    NullTermCodesStep(data, cur, bits);
    if bits > 0 {
      var code := LsbBits(data, cur, bits);
      if code == 0 {
        assert buffer + [] == buffer;
      } else if code < 256 {
        PrefixedTwice(buffer, code, NullTermCodes(data, cur + bits, bits));
      }
    }
  }

  lemma PrefixedNil(rest: Codes)
    ensures Prefixed([], rest) == rest
  {
    if rest.codes.Ok? {
      assert [] + rest.codes.value == rest.codes.value;
    }
  }

  lemma PrefixedTwice(buffer: seq<byte>, code: byte, rest: Codes)
    ensures Prefixed(buffer, Prefixed([code], rest)) == Prefixed(buffer + [code], rest)
  {
    if rest.codes.Ok? {
      assert buffer + ([code] + rest.codes.value) == (buffer + [code]) + rest.codes.value;
    }
  }

  lemma EndAfterCode(p: nat, bits: nat, n: nat)
    ensures p + bits + bits * (n + 1) == p + bits * (n + 1 + 1)
  {
  }

  /** A non-zero field lies, at least in part, inside the data. */
  lemma NonZeroInside(data: seq<byte>, p: nat, bits: nat)
    requires LsbBits(data, p, bits) != 0
    ensures p < 8 * |data|
  {
    if p >= 8 * |data| {
      LsbBitsPastEnd(data, p, bits);
    }
  }

  /**
   * Read eight bits at a time from a byte boundary, the bit-level string
   * reader gives the same bytes as the byte-level one.
   */
  lemma {:induction false} NullTermCodesBytes(data: seq<byte>, i: nat)
    ensures NullTermCodes(data, 8 * i, 8).codes == Ok(CStringAt(data, i))
    decreases |data| - i
  {
    ByteLsb(data, i);
    if i < |data| && data[i] != 0 {
      NullTermCodesBytes(data, i + 1);
      assert 8 * i + 8 == 8 * (i + 1);
    }
  }

  /** On a zero tail the string is empty. */
  lemma NullTermCodesZero(data: seq<byte>, p: nat, bits: nat)
    requires ZeroFrom(data, p) && bits > 0
    ensures NullTermCodes(data, p, bits) == Codes(Ok([]), p + bits)
  {
    LsbBitsZeroFrom(data, p, bits);
  }

  // ---------------------------------------------------------------------
  // The reader on the test streams of the source.

  /** The source's reader test: b'\x01\xc0' read as 9 and then 7 bits. */
  method ReadVectorsNineSeven() returns (a: Option<nat>, b: Option<nat>)
    ensures a == Some(1) && b == Some(96)
  {
    var s := new ByteStream([0x01, 0xC0]);
    ReadVectorValues(s.data);
    var r := new ReverseBitReader(s);
    a := r.Read(9);
    b := r.Read(7);
  }

  /** The same stream read as two bytes. */
  method ReadVectorsBytes() returns (c: Option<nat>, d: Option<nat>)
    ensures c == Some(1) && d == Some(192)
  {
    var s := new ByteStream([0x01, 0xC0]);
    ReadVectorValues(s.data);
    var r := new ReverseBitReader(s);
    c := r.Read(8);
    d := r.Read(8);
  }

  lemma ReadVectorValues(data: seq<byte>)
    requires data == [0x01, 0xC0]
    ensures LsbBits(data, 0, 9) == 1 && LsbBits(data, 9, 7) == 96
    ensures LsbBits(data, 0, 8) == 1 && LsbBits(data, 8, 8) == 192
  {
    assert LittleEndian(data) == 0xC001 by {
      assert data[1..] == [0xC0];
      assert data[1..][1..] == [];
    }
    Pow2Values();
    FieldOfWord(data, 0xC001, 0, 1, 9, 512, 1);
    FieldOfWord(data, 0xC001, 9, 512, 7, 128, 96);
    FieldOfWord(data, 0xC001, 0, 1, 8, 256, 1);
    FieldOfWord(data, 0xC001, 8, 256, 8, 256, 192);
  }

  lemma Pow2Values()
    ensures Pow2(0) == 1 && Pow2(7) == 128 && Pow2(8) == 256 && Pow2(9) == 512
  {
    assert Pow2(7) == 128;
  }

  /** Field (p, n) of a stream whose bytes spell `word` little-endian. */
  lemma FieldOfWord(data: seq<byte>, word: nat, p: nat, scale: nat, n: nat, modulus: nat, expected: nat)
    requires LittleEndian(data) == word && Pow2(p) == scale && Pow2(n) == modulus
    requires (word / scale) % modulus == expected
    ensures LsbBits(data, p, n) == expected
  {
    LsbBitsIsLittleEndian(data, p, n);
  }
}

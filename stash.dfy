/**
 * The PlugY stash files (`_PlugyStashFile`, `D2XFile` and `SSSFile` in
 * `d2lib/files.py`): a header naming the kind of stash, its version and
 * number of pages (and, in a newer shared stash, the shared gold), then
 * the pages one after another, each a page header, optional flags and
 * name, and an item list.
 *
 * The two file kinds are one class here with a `kind` field; the header
 * reader of each subclass is the branch for its kind.
 */
module Stash {
  import opened Bits
  import opened Streams
  import opened Outcomes
  import opened Storage
  import opened Items
  import opened ItemLists

  /** `D2XFile._HEADER`: "CSTM" read as a little-endian number. */
  const D2X_HEADER: nat := 0x4D545343
  /** `SSSFile._HEADER`: "SSS" read as a little-endian number. */
  const SSS_HEADER: nat := 0x535353
  /** `_STASH_HEADER`: "ST" at the start of every page. */
  const STASH_HEADER: nat := 0x5453
  /** `D2XFile._VERSION` and `SSSFile._VERSION_1`: "01". */
  const VERSION_1: nat := 0x3130
  /** `SSSFile._VERSION_2`: "02", the shared stash that also keeps gold. */
  const VERSION_2: nat := 0x3230

  /** The personal stash (`.d2x`) and the shared stash (`.sss`). */
  datatype Kind = D2X | SSS

  /** The `_HEADER` of each kind. */
  function HeaderId(kind: Kind): nat
  {
    match kind
    case D2X => D2X_HEADER
    case SSS => SSS_HEADER
  }

  /** The versions the header reader of each kind accepts. */
  predicate Accepted(kind: Kind, version: nat)
  {
    match kind
    case D2X => version == VERSION_1
    case SSS => version == VERSION_1 || version == VERSION_2
  }

  // ---------------------------------------------------------------------
  // The file header

  /** What `_read_header` sets, and where the stream is afterwards. */
  datatype StashHead = StashHead(version: nat, pageCount: nat, sharedGold: Option<nat>, end: nat)

  /** The header id: a little-endian read of four bytes at p. */
  function HeaderIdAt(data: seq<byte>, p: nat): nat
  {
    LittleEndian(Slice(data, p, 4))
  }

  /** The version: two bytes read after the header id. */
  function VersionAt(data: seq<byte>, p: nat): nat
  {
    LittleEndian(Slice(data, p + |Slice(data, p, 4)|, 2))
  }

  /** Where the stream is after the header id and the version. */
  function VersionEnd(data: seq<byte>, p: nat): nat
  {
    p + |Slice(data, p, 4)| + |Slice(data, p + |Slice(data, p, 4)|, 2)|
  }

  /** `_read_header` of a stash of the given kind, from byte p. */
  function StashHeadAt(data: seq<byte>, p: nat, kind: Kind): (r: Result<StashHead>)
    ensures r.Ok? <==> HeaderIdAt(data, p) == HeaderId(kind) && Accepted(kind, VersionAt(data, p))
    ensures HeaderIdAt(data, p) != HeaderId(kind) ==>
      r == Err(StashFileParseError(InvalidStashFileHeader(HeaderIdAt(data, p))))
    ensures HeaderIdAt(data, p) == HeaderId(kind) && !Accepted(kind, VersionAt(data, p)) ==>
      r == Err(StashFileParseError(InvalidVersion(VersionAt(data, p))))
    ensures r.Ok? ==> r.value.version == VersionAt(data, p)
    ensures r.Ok? ==> (r.value.sharedGold.Some? <==> r.value.version == VERSION_2)
  {
    var idBytes := Slice(data, p, 4);
    var header := LittleEndian(idBytes);
    if header != HeaderId(kind) then
      Err(StashFileParseError(InvalidStashFileHeader(header)))
    else
      var versionBytes := Slice(data, p + |idBytes|, 2);
      var version := LittleEndian(versionBytes);
      var q := VersionEnd(data, p);
      match kind
      case D2X =>
        if version != VERSION_1 then
          Err(StashFileParseError(InvalidVersion(version)))
        else
          var countBytes := Slice(data, q + 4, 4);
          Ok(StashHead(version, LittleEndian(countBytes), None, q + 4 + |countBytes|))
      case SSS =>
        if version == VERSION_1 then
          var countBytes := Slice(data, q, 4);
          Ok(StashHead(version, LittleEndian(countBytes), None, q + |countBytes|))
        else if version == VERSION_2 then
          var goldBytes := Slice(data, q, 4);
          var countBytes := Slice(data, q + |goldBytes|, 4);
          Ok(StashHead(version, LittleEndian(countBytes), Some(LittleEndian(goldBytes)),
            q + |goldBytes| + |countBytes|))
        else
          Err(StashFileParseError(InvalidVersion(version)))
  }

  /** Where the page count sits, counted from the start of the header. */
  function CountOffset(kind: Kind, version: nat): nat
  {
    if kind.D2X? || version == VERSION_2 then 10 else 6
  }

  /**
   * An accepted header spans six whole bytes, so its fields sit at fixed
   * offsets: the version at 4, the shared gold (version 2 only) at 6 and
   * the page count at 10 in a personal stash (after four skipped bytes),
   * at 6 in a version 1 shared stash and at 10 in a version 2 one.
   */
  lemma StashHeadLayout(data: seq<byte>, p: nat, kind: Kind)
    ensures var r := StashHeadAt(data, p, kind);
      r.Ok? ==>
        && p + 6 <= |data|
        && r.value.version == LeAt(data, p + 4, 2)
        && r.value.pageCount == LeAt(data, p + CountOffset(kind, r.value.version), 4)
        && (r.value.sharedGold.Some? ==> r.value.sharedGold.value == LeAt(data, p + 6, 4))
  {
    var r := StashHeadAt(data, p, kind);
    if r.Ok? {
      var idBytes := Slice(data, p, 4);
      var versionBytes := Slice(data, p + |idBytes|, 2);
      FewBytesSmall(versionBytes);
      var q := p + 6;
      if kind.SSS? && r.value.version == VERSION_2 {
        var goldBytes := Slice(data, q, 4);
        if |goldBytes| < 4 {
          assert Slice(data, q + |goldBytes|, 4) == [] == Slice(data, p + 10, 4);
        }
      }
    }
  }

  // ---------------------------------------------------------------------
  // Page flags

  /** The flags of a page that has them (a dictionary of four booleans). */
  datatype PageFlags = PageFlags(isShared: bool, isIndex: bool, isMainIndex: bool, isReserved: bool)

  /** Bits 24, 16, 8 and 0 of the 32-bit flags word. */
  function PageFlagsOf(word: nat): PageFlags
  {
    PageFlags(BitOf(word, 24) == 1, BitOf(word, 16) == 1, BitOf(word, 8) == 1, BitOf(word, 0) == 1)
  }

  /** The big-endian value of two bytes. */
  lemma BigEndianTwo(s: seq<byte>)
    requires |s| == 2
    ensures BigEndian(s) == s[0] as nat * 256 + s[1] as nat
  {
    assert s[..1][..0] == [];
  }

  /** Bit k of x = hi * 2^k + lo, with lo below 2^k, is the low bit of hi. */
  lemma BitAbove(x: nat, hi: nat, lo: nat, k: nat, m: nat)
    requires m == Pow2(k) && lo < m && x == hi * m + lo
    ensures BitOf(x, k) == hi % 2
  {
    ShrIsDiv(x, k);
    DivModUnique(x, m, hi, lo);
  }

  /**
   * The flags word `hi << 16 | lo` of two whole two-byte reads: each flag
   * is the low bit of one of its four bytes, in order.
   */
  lemma FlagsOfBytes(hi: seq<byte>, lo: seq<byte>)
    requires |hi| == 2 && |lo| == 2
    ensures PageFlagsOf(BigEndian(hi) * 0x10000 + BigEndian(lo))
      == PageFlags(hi[0] % 2 == 1, hi[1] % 2 == 1, lo[0] % 2 == 1, lo[1] % 2 == 1)
  {
    BigEndianTwo(hi);
    BigEndianTwo(lo);
    var a: nat, b: nat, c: nat, d: nat := hi[0], hi[1], lo[0], lo[1];
    var word := BigEndian(hi) * 0x10000 + BigEndian(lo);
    assert Pow2(8) == 0x100 && Pow2(16) == 0x10000 && Pow2(24) == 0x1000000 by {
      Pow2Byte(8);
      Pow2Add(8, 8);
      Pow2Add(16, 8);
    }
    BitAbove(word, a, b * 0x10000 + c * 0x100 + d, 24, 0x1000000);
    BitAbove(word, a * 0x100 + b, c * 0x100 + d, 16, 0x10000);
    BitAbove(word, a * 0x10000 + b * 0x100 + c, d, 8, 0x100);
    LowBitPastEven(a * 0x80, b);
    LowBitPastEven(a * 0x8000 + b * 0x80, c);
    LowBitPastEven(a * 0x800000 + b * 0x8000 + c * 0x80, d);
    assert BitOf(word, 24) == a % 2;
    assert BitOf(word, 16) == b % 2;
    assert BitOf(word, 8) == c % 2;
    assert BitOf(word, 0) == d % 2;
  }

  /** An even number added leaves the low bit as it was. */
  lemma LowBitPastEven(x: nat, y: nat)
    ensures (2 * x + y) % 2 == y % 2
  {
  }

  // ---------------------------------------------------------------------
  // Pages

  /**
   * A page header: the flags and the name when the page has them (a page
   * that goes straight on to "JM" has neither), and where its items start.
   */
  datatype PageHead = PageHead(flags: Option<PageFlags>, name: Option<seq<byte>>, end: nat)

  /**
   * The page header from byte p. The "JM" read that shows a page has no
   * flags is not given back, so such a page's item list starts after it.
   * `data << 16 | low` is an addition, the low part having at most 16 bits.
   */
  function PageHeadAt(data: seq<byte>, p: nat): (r: Result<PageHead>)
    ensures r.Ok? <==> LeAt(data, p, 2) == STASH_HEADER
    ensures r.Err? ==> r.error == StashFileParseError(InvalidStashHeader(LeAt(data, p, 2)))
    ensures r.Ok? ==> (r.value.flags.Some? <==> r.value.name.Some?)
    ensures r.Ok? ==> (r.value.flags.None? <==> Slice(data, p + 2, 2) == [0x4A, 0x4D])
    ensures r.Ok? && r.value.flags.None? ==> r.value.end == p + 4
    ensures r.Ok? && r.value.name.Some? ==> 0 !in r.value.name.value
    ensures r.Ok? ==> r.value.end >= p + 4 || r.value.end >= |data|
  {
    var stashHeader := Slice(data, p, 2);
    if LittleEndian(stashHeader) != STASH_HEADER then
      Err(StashFileParseError(InvalidStashHeader(LittleEndian(stashHeader))))
    else
      StashHeaderBytes(data, p);
      var head := Slice(data, p + 2, 2);
      ItemsHeaderBytes(head);
      if BigEndian(head) == ITEMS_HEADER then
        Ok(PageHead(None, None, p + 4))
      else
        var low := Slice(data, p + 2 + |head|, 2);
        var q := p + 2 + |head| + |low|;
        Ok(PageHead(Some(PageFlagsOf(BigEndian(head) * 0x10000 + BigEndian(low))),
          Some(CStringAt(data, q)), CStringEnd(data, q)))
  }

  /** A page header that reads as "ST" took two whole bytes. */
  lemma StashHeaderBytes(data: seq<byte>, p: nat)
    requires LeAt(data, p, 2) == STASH_HEADER
    ensures |Slice(data, p, 2)| == 2
  {
    FewBytesSmall(Slice(data, p, 2));
  }

  /** Fewer than two bytes read make a number below 256. */
  lemma FewBytesSmall(s: seq<byte>)
    ensures |s| < 2 ==> LittleEndian(s) < 256
  {
    if |s| < 2 {
      Pow2Monotone(8 * |s|, 8);
      Pow2Byte(8);
    }
  }

  /**
   * A page with flags whose six header bytes are all there: each flag is
   * the low bit of one of the four bytes after "ST".
   */
  lemma PageFlagsBits(data: seq<byte>, p: nat)
    requires p + 6 <= |data|
    ensures var r := PageHeadAt(data, p);
      r.Ok? && r.value.flags.Some? ==>
        r.value.flags.value == PageFlags(data[p + 2] % 2 == 1, data[p + 3] % 2 == 1, data[p + 4] % 2 == 1, data[p + 5] % 2 == 1)
  {
    var head := Slice(data, p + 2, 2);
    var low := Slice(data, p + 4, 2);
    FlagsOfBytes(head, low);
  }

  /** One page as its values: `dict(page=…, flags=…, name=…, items=…)`. */
  datatype PageValue = PageValue(number: nat, flags: Option<PageFlags>, name: Option<seq<byte>>, items: seq<ItemValue>)

  datatype Paging = Paging(page: PageValue, end: nat)

  /** The page numbered `number` from byte p: its header, then `_read_items()`. */
  function PageAt(data: seq<byte>, p: nat, number: nat, t: ItemsData, names: Names): (r: Result<Paging>)
    ensures r.Ok? ==> r.value.page.number == number
    ensures r.Ok? ==> PageHeadAt(data, p).Ok? && r.value.page.flags == PageHeadAt(data, p).value.flags
    ensures r.Ok? ==> NoneInSocket(r.value.page.items)
    ensures PageHeadAt(data, p).Err? ==> r == Err(PageHeadAt(data, p).error)
  {
    match PageHeadAt(data, p)
    case Err(e) => Err(e)
    case Ok(head) =>
      ListedAreTopLevel(data, head.end, false, t, names);
      match ItemListFrom(data, head.end, false, t, names)
      case Err(e) => Err(e)
      case Ok(listed) => Ok(Paging(PageValue(number, head.flags, head.name, listed.list), listed.end))
  }

  datatype Paged = Paged(pages: seq<PageValue>, end: nat)

  /**
   * The loop of `_read_stash` from byte p, with `done` pages already read:
   * the rest up to `count`, numbered on from where `done` stops.
   */
  function PagesFrom(data: seq<byte>, p: nat, count: nat, done: seq<PageValue>, t: ItemsData, names: Names): (r: Result<Paged>)
    requires |done| <= count
    decreases count - |done|
  {
    if |done| == count then Ok(Paged(done, p))
    else
      match PageAt(data, p, |done| + 1, t, names)
      case Err(e) => Err(e)
      case Ok(next) => PagesFrom(data, next.end, count, done + [next.page], t, names)
  }

  /** Pages numbered 1, 2, … in order, holding only top-level items. */
  predicate InOrder(pages: seq<PageValue>)
  {
    forall k :: 0 <= k < |pages| ==> pages[k].number == k + 1 && NoneInSocket(pages[k].items)
  }

  lemma InOrderAppend(done: seq<PageValue>, page: PageValue)
    requires InOrder(done) && page.number == |done| + 1 && NoneInSocket(page.items)
    ensures InOrder(done + [page])
  {
    assert forall k :: 0 <= k < |done| ==> (done + [page])[k] == done[k];
  }

  /**
   * The pages of a stash are `count` pages numbered 1 to `count` in order,
   * none of them listing an item that was read from a socket.
   */
  lemma {:induction false} PagesInOrder(data: seq<byte>, p: nat, count: nat, done: seq<PageValue>, t: ItemsData, names: Names)
    requires |done| <= count && InOrder(done)
    ensures var r := PagesFrom(data, p, count, done, t, names);
      r.Ok? ==> |r.value.pages| == count && InOrder(r.value.pages)
    decreases count - |done|
  {
    if |done| < count {
      var next := PageAt(data, p, |done| + 1, t, names);
      if next.Ok? {
        InOrderAppend(done, next.value.page);
        PagesInOrder(data, next.value.end, count, done + [next.value.page], t, names);
      }
    }
  }

  /** A page that fails ends the stash with its error. */
  lemma PagesFail(data: seq<byte>, p: nat, count: nat, done: seq<PageValue>, t: ItemsData, names: Names)
    requires |done| < count && PageAt(data, p, |done| + 1, t, names).Err?
    ensures PagesFrom(data, p, count, done, t, names) == Err(PageAt(data, p, |done| + 1, t, names).error)
  {
  }

  /** A page that reads moves the loop on past it. */
  lemma PagesStep(data: seq<byte>, p: nat, count: nat, done: seq<PageValue>, t: ItemsData, names: Names, next: Paging)
    requires |done| < count && PageAt(data, p, |done| + 1, t, names) == Ok(next)
    ensures PagesFrom(data, p, count, done, t, names) == PagesFrom(data, next.end, count, done + [next.page], t, names)
  {
  }

  // ---------------------------------------------------------------------
  // Pages read in place

  /** A page whose items are objects read from the stream. */
  datatype Page = Page(number: nat, flags: Option<PageFlags>, name: Option<seq<byte>>, items: seq<Item>)

  function ItemsOf(pages: seq<Page>): set<Item>
  {
    set k, j | 0 <= k < |pages| && 0 <= j < |pages[k].items| :: pages[k].items[j]
  }

  /** The page read holds the values of the page specified. */
  ghost predicate PageAs(page: Page, v: PageValue)
    reads set j | 0 <= j < |page.items| :: page.items[j]
  {
    && page.number == v.number && page.flags == v.flags && page.name == v.name
    && |page.items| == |v.items|
    && forall j :: 0 <= j < |v.items| ==> page.items[j].value == v.items[j]
  }

  ghost predicate PageReadAs(r: Result<Page>, s: Result<Paging>, pos: nat)
    reads if r.Ok? then set j | 0 <= j < |r.value.items| :: r.value.items[j] else {}
  {
    match s
    case Ok(x) => r.Ok? && PageAs(r.value, x.page) && pos == x.end
    case Err(e) => r == Err(e)
  }

  ghost predicate PagesReadAs(r: Result<seq<Page>>, s: Result<Paged>, pos: nat)
    reads if r.Ok? then ItemsOf(r.value) else {}
  {
    match s
    case Ok(x) => r.Ok? && PagesAs(r.value, x.pages) && pos == x.end
    case Err(e) => r == Err(e)
  }

  ghost predicate PagesAs(pages: seq<Page>, values: seq<PageValue>)
    reads ItemsOf(pages)
  {
    |pages| == |values| && forall k :: 0 <= k < |pages| ==> PageAs(pages[k], values[k])
  }

  lemma PagesAsAppend(pages: seq<Page>, values: seq<PageValue>, page: Page, value: PageValue)
    requires PagesAs(pages, values) && PageAs(page, value)
    ensures PagesAs(pages + [page], values + [value])
  {
    assert forall k :: 0 <= k < |pages| ==> (pages + [page])[k] == pages[k] && (values + [value])[k] == values[k];
  }

  ghost predicate HeadRead(o: Outcome, s: Result<StashHead>, version: Option<nat>, pageCount: Option<nat>, sharedGold: Option<nat>, pos: nat)
  {
    match s
    case Ok(h) =>
      && o == Pass && version == Some(h.version) && pageCount == Some(h.pageCount) && pos == h.end
      && (h.sharedGold.Some? ==> sharedGold == h.sharedGold)
    case Err(e) => o == Fail(e)
  }

  class PlugyStashFile {
    /** Which of the two subclasses this is. */
    const kind: Kind
    /** `_reader`: the open file. */
    const reader: ByteStream
    /** The item tables `_read_items` passes on. */
    const itemsData: ItemsData
    const names: Names
    var version: Option<nat>
    var pageCount: Option<nat>
    /** `shared_gold`: set by a version 2 shared stash only. */
    var sharedGold: Option<nat>

    /** `__init__`, with the file already open. */
    constructor (kind: Kind, reader: ByteStream, itemsData: ItemsData, names: Names)
      ensures this.kind == kind && this.reader == reader && this.itemsData == itemsData && this.names == names
      ensures version.None? && pageCount.None? && sharedGold.None?
    {
      this.kind := kind;
      this.reader := reader;
      this.itemsData := itemsData;
      this.names := names;
      version := None;
      pageCount := None;
      sharedGold := None;
    }

    /**
     * `_read_header` of the subclass: the version is kept even when it is
     * then refused, and the shared gold is set only by version 2.
     */
    method ReadHeader() returns (o: Outcome)
      modifies this, reader
      ensures HeadRead(o, StashHeadAt(reader.data, old(reader.pos), kind), version, pageCount, sharedGold, reader.pos)
      ensures o.Fail? ==> pageCount == old(pageCount)
      ensures o.Fail? && HeaderIdAt(reader.data, old(reader.pos)) != HeaderId(kind) ==> version == old(version)
      ensures o.Fail? && HeaderIdAt(reader.data, old(reader.pos)) == HeaderId(kind) ==>
        version == Some(VersionAt(reader.data, old(reader.pos)))
      ensures o.Fail? || version != Some(VERSION_2) ==> sharedGold == old(sharedGold)
    {
      o := ReadIdAndVersion();
      if o.Fail? {
        return;
      }
      var v := version.value;
      match kind {
        case D2X =>
          if v != VERSION_1 {
            return Fail(StashFileParseError(InvalidVersion(v)));
          }
          reader.Skip(4);
          var countBytes := reader.Read(4);
          pageCount := Some(LittleEndian(countBytes));
        case SSS =>
          if v == VERSION_1 {
            var countBytes := reader.Read(4);
            pageCount := Some(LittleEndian(countBytes));
          } else if v == VERSION_2 {
            var goldBytes := reader.Read(4);
            sharedGold := Some(LittleEndian(goldBytes));
            var countBytes := reader.Read(4);
            pageCount := Some(LittleEndian(countBytes));
          } else {
            return Fail(StashFileParseError(InvalidVersion(v)));
          }
      }
    }

    /**
     * `_PlugyStashFile._read_header`, which the header reader of each
     * subclass calls first: the header id, then the version.
     */
    method ReadIdAndVersion() returns (o: Outcome)
      modifies `version, reader
      ensures HeaderIdAt(reader.data, old(reader.pos)) != HeaderId(kind) ==>
        o == Fail(StashFileParseError(InvalidStashFileHeader(HeaderIdAt(reader.data, old(reader.pos))))) && version == old(version)
      ensures HeaderIdAt(reader.data, old(reader.pos)) == HeaderId(kind) ==>
        o == Pass && version == Some(VersionAt(reader.data, old(reader.pos))) && reader.pos == VersionEnd(reader.data, old(reader.pos))
    {
      var idBytes := reader.Read(4);
      var header := LittleEndian(idBytes);
      if header != HeaderId(kind) {
        return Fail(StashFileParseError(InvalidStashFileHeader(header)));
      }
      var versionBytes := reader.Read(2);
      version := Some(LittleEndian(versionBytes));
      o := Pass;
    }

    /** The page header of one pass of the `_read_stash` loop. */
    method ReadPageHead() returns (r: Result<PageHead>)
      modifies reader
      ensures r == PageHeadAt(reader.data, old(reader.pos))
      ensures r.Ok? ==> reader.pos == r.value.end
    {
      ghost var p := reader.pos;
      var stashHeader := reader.Read(2);
      if LittleEndian(stashHeader) != STASH_HEADER {
        return Err(StashFileParseError(InvalidStashHeader(LittleEndian(stashHeader))));
      }
      StashHeaderBytes(reader.data, p);
      var head := reader.Read(2);
      if BigEndian(head) == ITEMS_HEADER {
        ItemsHeaderBytes(head);
        return Ok(PageHead(None, None, reader.pos));
      }
      var low := reader.Read(2);
      var flags := PageFlagsOf(BigEndian(head) * 0x10000 + BigEndian(low));
      var name := ReadNullTermBstr(reader);
      r := Ok(PageHead(Some(flags), Some(name), reader.pos));
    }

    /** One pass of the `_read_stash` loop: the page numbered `number`. */
    method ReadPage(number: nat) returns (r: Result<Page>)
      modifies reader
      ensures r.Ok? ==> forall j :: 0 <= j < |r.value.items| ==> fresh(r.value.items[j])
      ensures PageReadAs(r, PageAt(reader.data, old(reader.pos), number, itemsData, names), reader.pos)
    {
      var head := ReadPageHead();
      if head.Err? {
        return Err(head.error);
      }
      var items := ReadItems(reader, itemsData, names, false);
      if items.Err? {
        return Err(items.error);
      }
      r := Ok(Page(number, head.value.flags, head.value.name, items.value));
    }

    /**
     * `_read_stash`: `page_count` pages; before a header has set the count,
     * `range(None)` raises `TypeError`.
     */
    method ReadStash() returns (r: Result<seq<Page>>)
      modifies reader
      ensures pageCount.None? ==> r == Err(TypeError) && reader.pos == old(reader.pos)
      ensures pageCount.Some? ==>
        PagesReadAs(r, PagesFrom(reader.data, old(reader.pos), pageCount.value, [], itemsData, names), reader.pos)
    {
      if pageCount.None? {
        return Err(TypeError);
      }
      r := ReadPages(pageCount.value);
    }

    /** The loop of `_read_stash` over `range(count)`. */
    method ReadPages(count: nat) returns (r: Result<seq<Page>>)
      modifies reader
      ensures PagesReadAs(r, PagesFrom(reader.data, old(reader.pos), count, [], itemsData, names), reader.pos)
    {
      ghost var whole := PagesFrom(reader.data, reader.pos, count, [], itemsData, names);
      var pages: seq<Page> := [];
      ghost var values: seq<PageValue> := [];
      while |pages| < count
        invariant |pages| == |values| <= count
        invariant PagesAs(pages, values)
        invariant PagesFrom(reader.data, reader.pos, count, values, itemsData, names) == whole
        decreases count - |pages|
      {
        var more;
        more, values := ReadNextPage(count, pages, values);
        if more.Err? {
          return Err(more.error);
        }
        pages := more.value;
      }
      r := Ok(pages);
    }

    /**
     * One pass of the loop: the page after the `pages` read so far (which
     * hold `values`), numbered on from them.
     */
    method ReadNextPage(count: nat, pages: seq<Page>, ghost values: seq<PageValue>)
      returns (r: Result<seq<Page>>, ghost grown: seq<PageValue>)
      requires |pages| == |values| < count && PagesAs(pages, values)
      modifies reader
      ensures r.Ok? ==> |r.value| == |grown| == |pages| + 1 && r.value[..|pages|] == pages && PagesAs(r.value, grown)
      ensures r.Ok? ==>
        PagesFrom(reader.data, old(reader.pos), count, values, itemsData, names) == PagesFrom(reader.data, reader.pos, count, grown, itemsData, names)
      ensures r.Err? ==> PagesFrom(reader.data, old(reader.pos), count, values, itemsData, names) == Err(r.error)
    {
      ghost var at := reader.pos;
      ghost var spec := PageAt(reader.data, at, |pages| + 1, itemsData, names);
      var next := ReadPage(|pages| + 1);
      if next.Err? {
        PagesFail(reader.data, at, count, values, itemsData, names);
        return Err(next.error), values;
      }
      PagesStep(reader.data, at, count, values, itemsData, names, spec.value);
      PagesAsAppend(pages, values, next.value, spec.value.page);
      r, grown := Ok(pages + [next.value]), values + [spec.value.page];
    }
  }
}

/**
 * `_D2File._read_items` (`d2lib/files.py`): an items header and count, then
 * one item record after another. An item whose location is "socketed" is
 * not listed: it goes into the item listed before it (its host), which
 * gains the item and, from the socket-effect tables, one attribute text per
 * effect; a jewel without a socket effect gives the host its own attribute
 * texts instead. A listed item that is not simple adds its inserted-item
 * count to the number of records still to read.
 *
 * `ItemsFrom` is the specification on values; `ReadItems` reads the stream
 * and builds `Item` objects, changing a host in place as the source does.
 */
module ItemLists {
  import opened Bits
  import opened Streams
  import opened Outcomes
  import opened BitReader
  import opened Text
  import opened Storage
  import opened Items

  /** `_ITEMS_HEADER`: "JM" read big-endian. */
  const ITEMS_HEADER: nat := 0x4A4D

  /** The code of a jewel. */
  const JEWEL_CODE: string := "jew"

  /** The stream byte after an item read from byte pos that ended at stream bit `end`. */
  function AfterItem(data: seq<byte>, pos: nat, end: nat): nat
  {
    FetchedPos(pos, if end >= 8 * pos then (end - 8 * pos) / 8 else 0, |data|)
  }

  /** An item read inside the data moves the stream on, and not past the end. */
  lemma AfterItemAdvances(data: seq<byte>, pos: nat, end: nat)
    requires pos < |data| && end > 8 * pos + 76
    ensures pos < AfterItem(data, pos, end) <= |data|
  {
    var k := end - 8 * pos;
    assert k / 8 >= 9;
  }

  /** An item is read only from inside the data. */
  lemma ItemAtInside(data: seq<byte>, pos: nat, t: ItemsData, names: Names)
    ensures ItemAt(data, pos, t, names).Ok? ==> pos < |data|
  {
    if pos >= |data| {
      ItemAtPastEnd(data, pos, t, names);
    }
  }

  /**
   * The socket effects of an inserted item with this code, from the table
   * of its host's type; none for a host of another type or without a code.
   */
  function SockAttrsFor(host: ItemValue, code: Option<string>, t: ItemsData): (r: Option<seq<SockAttr>>)
    ensures host.base.itype == Some(T_MISC) || host.base.itype.None? || code.None? ==> r.None?
  {
    if code.None? then None
    else if host.base.itype == Some(T_WEAPON) then t.GetWeaponSockAttrs(code.value)
    else if host.base.itype == Some(T_ARMOR) then t.GetArmorSockAttrs(code.value)
    else if host.base.itype == Some(T_SHIELD) then t.GetShieldSockAttrs(code.value)
    else None
  }

  /** The arguments `format(*values)` receives. */
  function NumArgs(values: seq<int>): (r: seq<FmtArg>)
    ensures |r| == |values| && forall k :: 0 <= k < |r| ==> r[k] == Num(values[k])
  {
    seq(|values|, k requires 0 <= k < |values| => Num(values[k]))
  }

  /** How a code appears in the "Unknown item" message. */
  function CodeName(code: Option<string>): string
  {
    if code.Some? then code.value else "None"
  }

  /**
   * The host's attribute texts after one text per socket effect: the name of
   * the effect's attribute filled with the effect's values.
   */
  function SocketTexts(texts: Option<seq<Rendered>>, effects: seq<SockAttr>, t: ItemsData): (r: Result<Option<seq<Rendered>>>)
    ensures r.Ok? && effects != [] ==> texts.Some?
    ensures r.Ok? ==> texts.Some? ==> r.value.Some? && |r.value.value| == |texts.value| + |effects|
                                      && r.value.value[..|texts.value|] == texts.value
    ensures r.Ok? && texts.None? ==> r.value.None?
    decreases |effects|
  {
    if effects == [] then Ok(texts)
    else match t.GetMagicAttr(effects[0].id)
      case None => Err(TypeError)
      case Some(a) =>
        if texts.None? then Err(AttributeError)
        else SocketTexts(Some(texts.value + [Rendered(a.name, NumArgs(effects[0].values))]), effects[1..], t)
  }

  /** Every text of the host's list comes from the effects in order. */
  lemma {:induction false} SocketTextsFrom(texts: seq<Rendered>, effects: seq<SockAttr>, t: ItemsData, k: nat)
    requires SocketTexts(Some(texts), effects, t).Ok? && k < |effects|
    ensures t.GetMagicAttr(effects[k].id).Some?
    ensures var r := SocketTexts(Some(texts), effects, t).value.value;
      |texts| + k < |r| && r[|texts| + k] == Rendered(t.GetMagicAttr(effects[k].id).value.name, NumArgs(effects[k].values))
    decreases |effects|
  {
    var a := t.GetMagicAttr(effects[0].id).value;
    var next := texts + [Rendered(a.name, NumArgs(effects[0].values))];
    assert SocketTexts(Some(texts), effects, t) == SocketTexts(Some(next), effects[1..], t);
    var r := SocketTexts(Some(next), effects[1..], t).value.value;
    if k == 0 {
      assert r[..|next|] == next;
      assert r[|texts|] == r[..|next|][|texts|];
    } else {
      SocketTextsFrom(next, effects[1..], t, k - 1);
      assert effects[1..][k - 1] == effects[k];
    }
  }

  /**
   * What putting a socketed item into its host makes of the host: its
   * socket effects' texts, or for a jewel without one its attribute texts,
   * and the item added to the host's socketed items.
   */
  function Attach(host: ItemValue, item: ItemValue, t: ItemsData): (r: Result<ItemValue>)
    ensures r.Ok? ==> host.socketedItems.Some? && r.value.socketedItems == Some(host.socketedItems.value + [item])
    ensures r.Ok? ==> r.value == host.(attrs := host.attrs.(magicAttrs := r.value.attrs.magicAttrs), socketedItems := r.value.socketedItems)
    ensures r.Ok? && SockAttrsFor(host, item.base.code, t).None? ==>
      item.base.code == Some(JEWEL_CODE) && host.attrs.magicAttrs.Some? && item.attrs.magicAttrs.Some? &&
      r.value.attrs.magicAttrs == Some(host.attrs.magicAttrs.value + item.attrs.magicAttrs.value)
    ensures SockAttrsFor(host, item.base.code, t).None? && item.base.code != Some(JEWEL_CODE) ==>
      r == Err(ItemParseError(UnknownItem(CodeName(item.base.code))))
    ensures r.Ok? && SockAttrsFor(host, item.base.code, t).Some? ==>
      host.attrs.magicAttrs.Some? || SockAttrsFor(host, item.base.code, t).value == []
  {
    match SockAttrsFor(host, item.base.code, t)
    case None =>
      if item.base.code != Some(JEWEL_CODE) then Err(ItemParseError(UnknownItem(CodeName(item.base.code))))
      else if host.attrs.magicAttrs.None? then Err(AttributeError)
      else if item.attrs.magicAttrs.None? then Err(TypeError)
      else if host.socketedItems.None? then Err(AttributeError)
      else Ok(host.(attrs := host.attrs.(magicAttrs := Some(host.attrs.magicAttrs.value + item.attrs.magicAttrs.value)),
                    socketedItems := Some(host.socketedItems.value + [item])))
    case Some(effects) =>
      match SocketTexts(host.attrs.magicAttrs, effects, t)
      case Err(e) => Err(e)
      case Ok(texts) =>
        if host.socketedItems.None? then Err(AttributeError)
        else Ok(host.(attrs := host.attrs.(magicAttrs := texts), socketedItems := Some(host.socketedItems.value + [item])))
  }

  /** A host with socket effects gains exactly one attribute text per effect. */
  lemma AttachEffects(host: ItemValue, item: ItemValue, t: ItemsData)
    requires SockAttrsFor(host, item.base.code, t).Some? && host.attrs.magicAttrs.Some?
    ensures var r := Attach(host, item, t); var effects := SockAttrsFor(host, item.base.code, t).value;
      r.Ok? ==> (r.value.attrs.magicAttrs.Some? &&
        |r.value.attrs.magicAttrs.value| == |host.attrs.magicAttrs.value| + |effects| &&
        r.value.attrs.magicAttrs.value[..|host.attrs.magicAttrs.value|] == host.attrs.magicAttrs.value)
  {
  }

  /** Nothing but a jewel goes into a misc-type host. */
  lemma MiscHostTakesOnlyJewels(host: ItemValue, item: ItemValue, t: ItemsData)
    requires host.base.itype == Some(T_MISC) && item.base.code != Some(JEWEL_CODE)
    ensures Attach(host, item, t) == Err(ItemParseError(UnknownItem(CodeName(item.base.code))))
  {
  }

  /** The listed items and the number of records still to read, after one record. */
  datatype Placed = Placed(items: seq<ItemValue>, count: nat)

  /** Whether a record lies in a socket. */
  predicate InSocket(v: ItemValue)
  {
    v.place.locationId == Some(LOC_SOCKETED)
  }

  /** No listed item lies in a socket. */
  predicate NoneInSocket(items: seq<ItemValue>)
  {
    forall k :: 0 <= k < |items| ==> !InSocket(items[k])
  }

  /** b grew from a: at least as long, and all but the last item of a unchanged. */
  predicate Keeps(a: seq<ItemValue>, b: seq<ItemValue>)
  {
    |b| >= |a| && (|a| > 0 ==> b[..|a| - 1] == a[..|a| - 1])
  }

  lemma KeepsTransitive(a: seq<ItemValue>, b: seq<ItemValue>, c: seq<ItemValue>)
    requires Keeps(a, b) && Keeps(b, c)
    ensures Keeps(a, c)
  {
    if |a| > 0 {
      assert c[..|a| - 1] == c[..|b| - 1][..|a| - 1];
      assert b[..|a| - 1] == b[..|b| - 1][..|a| - 1];
    }
  }

  /**
   * One turn of the loop with `count` records left: a socketed item goes
   * into the last listed item (the count drops unless it is a jewel without
   * socket effect); any other item is listed, and if it is not simple its
   * inserted items are added to the count.
   */
  function Place(items: seq<ItemValue>, item: ItemValue, count: nat, t: ItemsData): (r: Result<Placed>)
    requires count > 0
    ensures r.Ok? ==> (if InSocket(item) then |r.value.items| == |items| else r.value.items == items + [item])
    ensures r.Ok? ==> Keeps(items, r.value.items)
    ensures r.Ok? && NoneInSocket(items) ==> NoneInSocket(r.value.items)
    ensures InSocket(item) && items == [] ==> r == Err(IndexError)
  {
    if InSocket(item) then
      if |items| == 0 then Err(IndexError)
      else
        var last := |items| - 1;
        match Attach(items[last], item, t)
        case Err(e) => Err(e)
        case Ok(host) =>
          var jewel := SockAttrsFor(items[last], item.base.code, t).None?;
          var next := items[..last] + [host];
          assert next[..last] == items[..last];
          assert forall k :: 0 <= k < last ==> next[k] == items[k];
          Ok(Placed(next, if jewel then count else count - 1))
    else
      var inserted := item.base.insertedItemsCount;
      var grown := if item.flags.isSimple != Some(true) && inserted.Some? && inserted.value != 0 then count + inserted.value else count;
      var next := items + [item];
      assert next[..|items|] == items;
      Ok(Placed(next, grown - 1))
  }

  /** Where the loop of `_read_items` stands between two turns. */
  datatype Stage = Stage(items: seq<ItemValue>, count: nat, pos: nat)

  /**
   * One turn of the loop of `_read_items` at stream byte pos: read an item
   * and place it; the stream then stands on the byte after the item.
   */
  function Turn(data: seq<byte>, pos: nat, count: nat, items: seq<ItemValue>, t: ItemsData, names: Names): (r: Result<Stage>)
    requires count > 0
    ensures r.Ok? ==> pos < r.value.pos <= |data|
    ensures r.Ok? ==> Keeps(items, r.value.items) && (NoneInSocket(items) ==> NoneInSocket(r.value.items))
  {
    match ItemAt(data, pos, t, names)
    case Err(e) => Err(e)
    case Ok(s) =>
      match Place(items, s.item, count, t)
      case Err(e) => Err(e)
      case Ok(placed) =>
        ItemAtInside(data, pos, t, names);
        AfterItemAdvances(data, pos, s.end);
        Ok(Stage(placed.items, placed.count, AfterItem(data, pos, s.end)))
  }

  /**
   * The loop of `_read_items` from stream byte pos with `count` records to
   * read and `items` listed so far: the listed items and the byte after the
   * last record.
   */
  function ItemsFrom(data: seq<byte>, pos: nat, count: nat, items: seq<ItemValue>, t: ItemsData, names: Names): (r: Result<Listed<ItemValue>>)
    decreases if pos < |data| then |data| - pos else 0
  {
    if count == 0 then Ok(Listed(items, pos))
    else
      match Turn(data, pos, count, items, t, names)
      case Err(e) => Err(e)
      case Ok(stage) => ItemsFrom(data, stage.pos, stage.count, stage.items, t, names)
  }

  /** Where the records of a list start and how many are announced. */
  datatype Listing = Listing(pos: nat, count: nat)

  /**
   * The head of `_read_items(skip_items_header)` at stream byte pos: with
   * the header, "JM" and a little-endian 16-bit count; without it, one
   * record right at pos.
   */
  function ListingAt(data: seq<byte>, pos: nat, skipHeader: bool): (r: Result<Listing>)
    ensures r.Ok? <==> skipHeader || BigEndian(Slice(data, pos, 2)) == ITEMS_HEADER
    ensures r.Ok? && skipHeader ==> r.value == Listing(pos, 1)
    ensures r.Ok? && !skipHeader ==> pos + 2 <= r.value.pos <= pos + 4 && r.value.count < 0x10000
  {
    if skipHeader then Ok(Listing(pos, 1))
    else
      var head := Slice(data, pos, 2);
      if BigEndian(head) != ITEMS_HEADER then Err(ItemParseError(InvalidItemsHeader(BigEndian(head))))
      else
        var p := pos + |head|;
        var countBytes := Slice(data, p, 2);
        HeaderTwoBytes(head);
        CountSixteenBits(countBytes);
        Ok(Listing(p + |countBytes|, LittleEndian(countBytes)))
  }

  /** Fewer than two bytes cannot spell "JM". */
  lemma HeaderTwoBytes(head: seq<byte>)
    requires |head| <= 2 && BigEndian(head) == ITEMS_HEADER
    ensures |head| == 2
  {
    if |head| < 2 {
      Pow2Monotone(8 * |head|, 8);
      Pow2Byte(8);
    }
  }

  /** A count read from at most two bytes is below 2^16. */
  lemma CountSixteenBits(bytes: seq<byte>)
    requires |bytes| <= 2
    ensures LittleEndian(bytes) < 0x10000
  {
    Pow2Monotone(8 * |bytes|, 16);
    Pow2Add(8, 8);
    Pow2Byte(8);
  }

  /** `_read_items(skip_items_header)` from stream byte pos: the items listed and the byte after them. */
  function ItemListFrom(data: seq<byte>, pos: nat, skipHeader: bool, t: ItemsData, names: Names): (r: Result<Listed<ItemValue>>)
  {
    match ListingAt(data, pos, skipHeader)
    case Err(e) => Err(e)
    case Ok(start) => ItemsFrom(data, start.pos, start.count, [], t, names)
  }

  /**
   * The listed items only grow: every item listed before the loop, except
   * the last (a possible host), stays as it was, and no socketed record is
   * ever listed.
   */
  lemma {:induction false} ItemsFromKeeps(data: seq<byte>, pos: nat, count: nat, items: seq<ItemValue>, t: ItemsData, names: Names)
    ensures var r := ItemsFrom(data, pos, count, items, t, names);
      r.Ok? ==> Keeps(items, r.value.list) && (NoneInSocket(items) ==> NoneInSocket(r.value.list))
    decreases if pos < |data| then |data| - pos else 0
  {
    var r := ItemsFrom(data, pos, count, items, t, names);
    if count > 0 && r.Ok? {
      var stage := Turn(data, pos, count, items, t, names).value;
      ItemsFromKeeps(data, stage.pos, stage.count, stage.items, t, names);
      KeepsTransitive(items, stage.items, r.value.list);
    } else if r.Ok? {
      assert r.value.list == items;
    }
  }

  /**
   * A list read with at least one record to go and nothing listed yet holds
   * at least one item on success: `_read_golem_item` may take item 0.
   */
  lemma FirstRecordListed(data: seq<byte>, pos: nat, count: nat, t: ItemsData, names: Names)
    requires count > 0
    ensures var r := ItemsFrom(data, pos, count, [], t, names);
      r.Ok? ==> |r.value.list| >= 1
  {
    var r := ItemsFrom(data, pos, count, [], t, names);
    if r.Ok? {
      var stage := Turn(data, pos, count, [], t, names).value;
      ItemsFromKeeps(data, stage.pos, stage.count, stage.items, t, names);
    }
  }

  /** No listed item, at the top of any list, is one read from a socket. */
  lemma ListedAreTopLevel(data: seq<byte>, pos: nat, skipHeader: bool, t: ItemsData, names: Names)
    ensures var r := ItemListFrom(data, pos, skipHeader, t, names);
      r.Ok? ==> NoneInSocket(r.value.list)
  {
    var start := ListingAt(data, pos, skipHeader);
    if start.Ok? {
      ItemsFromKeeps(data, start.value.pos, start.value.count, [], t, names);
    }
  }

  /** Without the skip, a header other than "JM" is refused and named. */
  lemma BadItemsHeader(data: seq<byte>, pos: nat, t: ItemsData, names: Names)
    requires BigEndian(Slice(data, pos, 2)) != ITEMS_HEADER
    ensures ItemListFrom(data, pos, false, t, names) == Err(ItemParseError(InvalidItemsHeader(BigEndian(Slice(data, pos, 2)))))
  {
  }

  /** With the skip, exactly one listed record is read and no header. */
  lemma SkippedHeaderReadsOne(data: seq<byte>, pos: nat, t: ItemsData, names: Names)
    ensures var r := ItemListFrom(data, pos, true, t, names);
      r == ItemsFrom(data, pos, 1, [], t, names) && (r.Ok? ==> |r.value.list| >= 1)
  {
    FirstRecordListed(data, pos, 1, t, names);
  }

  // ---------------------------------------------------------------------
  // Reading in place

  /** A step that changed a host in place ended as `Attach` says. */
  ghost predicate Became(o: Outcome, r: Result<ItemValue>, v: ItemValue)
  {
    match r
    case Ok(x) => o == Pass && v == x
    case Err(e) => o == Fail(e)
  }

  /** The items read in place hold the values the specification lists. */
  ghost predicate ReadAs(r: Result<seq<Item>>, s: Result<Listed<ItemValue>>, pos: nat)
    reads if r.Ok? then set k | 0 <= k < |r.value| :: r.value[k] else {}
  {
    match s
    case Ok(x) => r.Ok? && |r.value| == |x.list| && (forall k :: 0 <= k < |x.list| ==> r.value[k].value == x.list[k]) && pos == x.end
    case Err(e) => r == Err(e)
  }

  /** `Item.from_stream(stream)`: a new item read from the stream's position. */
  method ReadItem(stream: ByteStream, t: ItemsData, names: Names) returns (item: Item, o: Outcome)
    modifies stream
    ensures fresh(item) && item.itemsData == t && item.names == names
    ensures Reached(o, ItemAt(stream.data, old(stream.pos), t, names), item.value, item.reader.Cursor())
    ensures o.Pass? ==> stream.pos == AfterItem(stream.data, old(stream.pos), item.reader.Cursor())
  {
    item := new Item.Start(stream, t, names);
    ghost var pos := stream.pos;
    o := item.Parse();
    if o.Pass? {
      AfterParse(stream.data, pos, item.reader.bitsTotal, item.reader.Cursor());
    }
  }

  lemma AfterParse(data: seq<byte>, pos: nat, bits: nat, cursor: nat)
    requires cursor == 8 * pos + bits
    ensures FetchedPos(pos, bits / 8, |data|) == AfterItem(data, pos, cursor)
  {
  }

  /** The socketed branch of `_read_items` on a host in place. */
  method InsertInto(host: Item, item: ItemValue, t: ItemsData) returns (o: Outcome, jewel: bool)
    modifies host
    ensures jewel == SockAttrsFor(old(host.value), item.base.code, t).None?
    ensures Became(o, Attach(old(host.value), item, t), host.value)
  {
    ghost var h := host.value;
    var effects := SockAttrsFor(host.value, item.base.code, t);
    jewel := effects.None?;
    if effects.None? {
      if item.base.code != Some(JEWEL_CODE) {
        return Fail(ItemParseError(UnknownItem(CodeName(item.base.code)))), jewel;
      }
      if host.value.attrs.magicAttrs.None? {
        return Fail(AttributeError), jewel;
      }
      if item.attrs.magicAttrs.None? {
        return Fail(TypeError), jewel;
      }
      host.value := host.value.(attrs := host.value.attrs.(magicAttrs := Some(host.value.attrs.magicAttrs.value + item.attrs.magicAttrs.value)));
    } else {
      var all := effects.value;
      var k := 0;
      while k < |all|
        invariant 0 <= k <= |all|
        invariant host.value == h.(attrs := h.attrs.(magicAttrs := host.value.attrs.magicAttrs))
        invariant SocketTexts(host.value.attrs.magicAttrs, all[k..], t) == SocketTexts(h.attrs.magicAttrs, all, t)
      {
        assert all[k..][1..] == all[k + 1..];
        var a := t.GetMagicAttr(all[k].id);
        if a.None? {
          return Fail(TypeError), jewel;
        }
        if host.value.attrs.magicAttrs.None? {
          return Fail(AttributeError), jewel;
        }
        host.value := host.value.(attrs := host.value.attrs.(magicAttrs :=
          Some(host.value.attrs.magicAttrs.value + [Rendered(a.value.name, NumArgs(all[k].values))])));
        k := k + 1;
      }
      assert all[k..] == [];
    }
    if host.value.socketedItems.None? {
      return Fail(AttributeError), jewel;
    }
    host.value := host.value.(socketedItems := Some(host.value.socketedItems.value + [item]));
    o := Pass;
  }

  /** The items read in place so far hold the listed values, each its own object. */
  ghost predicate Holds(items: seq<Item>, values: seq<ItemValue>)
    reads items
  {
    && |items| == |values|
    && (forall k :: 0 <= k < |items| ==> items[k].value == values[k])
    && (forall j, k :: 0 <= j < k < |items| ==> items[j] != items[k])
  }

  /** A turn whose item does not parse fails as the item does. */
  lemma TurnFails(data: seq<byte>, pos: nat, count: nat, items: seq<ItemValue>, t: ItemsData, names: Names, e: Error)
    requires count > 0 && ItemAt(data, pos, t, names) == Err(e)
    ensures Turn(data, pos, count, items, t, names) == Err(e)
  {
  }

  /** A turn whose item parses ends as placing it says. */
  lemma TurnPlaces(data: seq<byte>, pos: nat, count: nat, items: seq<ItemValue>, t: ItemsData, names: Names, step: Step, placed: Result<Placed>)
    requires count > 0 && ItemAt(data, pos, t, names) == Ok(step)
    requires placed == Place(items, step.item, count, t)
    ensures placed.Err? ==> Turn(data, pos, count, items, t, names) == Err(placed.error)
    ensures placed.Ok? ==> Turn(data, pos, count, items, t, names) == Ok(Stage(placed.value.items, placed.value.count, AfterItem(data, pos, step.end)))
  {
  }

  /** Placing a socketed item into the last listed item. */
  lemma PlacedInSocket(items: seq<ItemValue>, item: ItemValue, count: nat, t: ItemsData, host: Result<ItemValue>)
    requires count > 0 && InSocket(item) && |items| > 0
    requires host == Attach(items[|items| - 1], item, t)
    ensures host.Err? ==> Place(items, item, count, t) == Err(host.error)
    ensures host.Ok? ==>
      (Place(items, item, count, t) ==
       Ok(Placed(items[..|items| - 1] + [host.value],
                 if SockAttrsFor(items[|items| - 1], item.base.code, t).None? then count else count - 1)))
  {
  }

  /** Listing an item that is not socketed, and counting what it holds. */
  lemma PlacedListed(items: seq<ItemValue>, item: ItemValue, count: nat, t: ItemsData, grown: nat)
    requires count > 0 && !InSocket(item)
    requires var inserted := item.base.insertedItemsCount;
      grown == if item.flags.isSimple != Some(true) && inserted.Some? && inserted.value != 0 then count + inserted.value else count
    ensures Place(items, item, count, t) == Ok(Placed(items + [item], grown - 1))
  {
  }

  /** A placing step in place ended as `Place` says. */
  ghost predicate PlacedAs(o: Outcome, p: Result<Placed>, left: nat, next: seq<Item>)
    reads next
  {
    match p
    case Ok(placed) => o == Pass && left == placed.count && Holds(next, placed.items)
    case Err(e) => o == Fail(e)
  }

  /** A turn in place ended as `Turn` says, the stream standing on pos. */
  ghost predicate Turned(o: Outcome, r: Result<Stage>, pos: nat, left: nat, next: seq<Item>)
    reads next
  {
    match r
    case Ok(stage) => o == Pass && pos == stage.pos && left == stage.count && Holds(next, stage.items)
    case Err(e) => o == Fail(e)
  }

  lemma TurnedAsPlaced(o: Outcome, r: Result<Stage>, p: Result<Placed>, pos: nat, left: nat, next: seq<Item>)
    requires PlacedAs(o, p, left, next)
    requires p.Err? ==> r == Err(p.error)
    requires p.Ok? ==> r == Ok(Stage(p.value.items, p.value.count, pos))
    ensures Turned(o, r, pos, left, next)
  {
  }

  /**
   * The placing half of a turn of `_read_items` in place: a socketed item
   * goes into the last item read so far, any other item is appended.
   */
  method PlaceItem(items: seq<Item>, ghost values: seq<ItemValue>, item: Item, count: nat, t: ItemsData)
      returns (o: Outcome, next: seq<Item>, left: nat)
    requires count > 0 && Holds(items, values) && item !in items
    modifies items
    ensures PlacedAs(o, Place(values, old(item.value), count, t), left, next)
    ensures o.Pass? ==> |next| >= |items| && forall k :: 0 <= k < |next| ==> next[k] == if k < |items| then items[k] else item
  {
    if InSocket(item.value) {
      if |items| == 0 {
        return Fail(IndexError), items, count;
      }
      var host := items[|items| - 1];
      ghost var attached := Attach(host.value, item.value, t);
      PlacedInSocket(values, item.value, count, t, attached);
      var inserted, jewel := InsertInto(host, item.value, t);
      if inserted.Fail? {
        return inserted, items, count;
      }
      next := items;
      left := if jewel then count else count - 1;
      ghost var placed := values[..|values| - 1] + [host.value];
      forall k | 0 <= k < |next|
        ensures next[k].value == placed[k]
      {
        if k < |next| - 1 {
          assert next[k] != host;
        }
      }
    } else {
      var inserted := item.value.base.insertedItemsCount;
      left := count;
      if item.value.flags.isSimple != Some(true) && inserted.Some? && inserted.value != 0 {
        left := count + inserted.value;
      }
      PlacedListed(values, item.value, count, t, left);
      next := items + [item];
      left := left - 1;
    }
    o := Pass;
  }

  /**
   * One turn of the loop of `_read_items` in place: the item read is either
   * inserted into the last item read so far or appended to the items.
   */
  method ReadTurn(stream: ByteStream, items: seq<Item>, ghost values: seq<ItemValue>, count: nat, t: ItemsData, names: Names)
      returns (o: Outcome, next: seq<Item>, left: nat)
    requires count > 0 && Holds(items, values)
    modifies stream, items
    ensures Turned(o, Turn(stream.data, old(stream.pos), count, values, t, names), stream.pos, left, next)
    ensures o.Pass? ==> |next| >= |items| && forall k :: 0 <= k < |next| ==> if k < |items| then next[k] == items[k] else fresh(next[k])
  {
    ghost var pos := stream.pos;
    ghost var read := ItemAt(stream.data, pos, t, names);
    var item, parsed := ReadItem(stream, t, names);
    if parsed.Fail? {
      TurnFails(stream.data, pos, count, values, t, names, read.error);
      return parsed, items, count;
    }
    ghost var step := Step(item.value, item.reader.Cursor());
    assert read == Ok(step);
    o, next, left := PlaceItem(items, values, item, count, t);
    TurnPlaces(stream.data, pos, count, values, t, names, step, Place(values, step.item, count, t));
    TurnedAsPlaced(o, Turn(stream.data, pos, count, values, t, names), Place(values, step.item, count, t), stream.pos, left, next);
  }

  /** The head of `_read_items`: the header and the count, or one record when skipped. */
  method ReadListing(stream: ByteStream, skipHeader: bool) returns (r: Result<nat>)
    modifies stream
    ensures var l := ListingAt(stream.data, old(stream.pos), skipHeader);
      match l
      case Ok(start) => r == Ok(start.count) && stream.pos == start.pos
      case Err(e) => r == Err(e)
  {
    if skipHeader {
      return Ok(1);
    }
    var head := stream.Read(2);
    if BigEndian(head) != ITEMS_HEADER {
      return Err(ItemParseError(InvalidItemsHeader(BigEndian(head))));
    }
    var countBytes := stream.Read(2);
    return Ok(LittleEndian(countBytes));
  }

  /**
   * `_read_items(skip_items_header)`: the items listed from the stream's
   * position, each host holding its socketed items.
   */
  method ReadItems(stream: ByteStream, t: ItemsData, names: Names, skipHeader: bool) returns (r: Result<seq<Item>>)
    modifies stream
    ensures r.Ok? ==> forall k :: 0 <= k < |r.value| ==> fresh(r.value[k])
    ensures ReadAs(r, ItemListFrom(stream.data, old(stream.pos), skipHeader, t, names), stream.pos)
  {
    ghost var whole := ItemListFrom(stream.data, stream.pos, skipHeader, t, names);
    var start := ReadListing(stream, skipHeader);
    if start.Err? {
      return Err(start.error);
    }
    var count := start.value;
    var items: seq<Item> := [];
    ghost var values: seq<ItemValue> := [];
    while count != 0
      invariant Holds(items, values)
      invariant forall k :: 0 <= k < |items| ==> fresh(items[k])
      invariant ItemsFrom(stream.data, stream.pos, count, values, t, names) == whole
      decreases if stream.pos < |stream.data| then |stream.data| - stream.pos else 0
    {
      ghost var turn := Turn(stream.data, stream.pos, count, values, t, names);
      var o, next, left := ReadTurn(stream, items, values, count, t, names);
      if o.Fail? {
        return Err(o.error);
      }
      assert turn.Ok? && Holds(next, turn.value.items) && stream.pos == turn.value.pos && left == turn.value.count;
      forall k | 0 <= k < |next|
        ensures fresh(next[k])
      {
        if k < |items| {
          assert next[k] == items[k];
        }
      }
      items, count, values := next, left, turn.value.items;
    }
    return Ok(items);
  }
}

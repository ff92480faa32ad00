/**
 * `d2lib/item.py`: one item record of a save or stash file, decoded field by
 * field from a `ReverseBitReader`.
 *
 * `ItemValue` is the state of an `Item` object (every attribute `__init__`
 * creates), and the `...Of` functions say what each parsing step makes of
 * that state and of the stream bits from a given bit on; they are the
 * specification the `Item` methods are proved against. Bit positions are
 * absolute stream bits (`BitReader.ReverseBitReader.Cursor`).
 */
module Items {
  import opened Bits
  import opened Streams
  import opened Outcomes
  import opened BitReader
  import opened Text
  import opened Storage

  const HEADER: nat := 0x4D4A

  const LOC_SOCKETED: nat := 6

  const Q_LOW: nat := 1
  const Q_NORMAL: nat := 2
  const Q_HIGH: nat := 3
  const Q_MAGIC: nat := 4
  const Q_SET: nat := 5
  const Q_RARE: nat := 6
  const Q_UNIQUE: nat := 7
  const Q_CRAFTED: nat := 8

  const T_ARMOR: nat := 0
  const T_SHIELD: nat := 1
  const T_WEAPON: nat := 2
  const T_MISC: nat := 3

  /** Bits of the simple section of an item that is not an ear. */
  const SIMPLE_BITS: nat := 111

  /** `_SET_EXTRA_COUNTS`: how many extra set attributes a 5-bit selector announces. */
  const SET_EXTRA_COUNTS: map<nat, nat> :=
    map[0 := 0, 1 := 1, 2 := 1, 3 := 2, 4 := 1, 6 := 2, 7 := 3, 10 := 2, 12 := 2, 15 := 4, 31 := 5]


  /** The flags `_parse_simple` reads; None before they are read. */
  datatype Flags = Flags(
    isIdentified: Option<bool>,
    isSocketed: Option<bool>,
    isNew: Option<bool>,
    isEar: Option<bool>,
    isStartItem: Option<bool>,
    isSimple: Option<bool>,
    isEthereal: Option<bool>,
    isPersonalized: Option<bool>,
    isRuneword: Option<bool>)

  /** The format version and where the item lies. */
  datatype Placement = Placement(
    version: Option<nat>,
    locationId: Option<nat>,
    equippedId: Option<nat>,
    posX: Option<nat>,
    posY: Option<nat>,
    panelId: Option<nat>)

  /** What the item is: its code, base type and base name. */
  datatype Base = Base(
    code: Option<string>,
    itype: Option<nat>,
    baseName: Option<string>,
    isQuantitative: Option<bool>,
    insertedItemsCount: Option<nat>)

  /** The character an ear was taken from. */
  datatype Ear = Ear(
    earCharClass: Option<string>,
    earCharLevel: Option<nat>,
    earCharName: Option<string>)

  /** The fields that open the advanced section, and the rarity flags. */
  datatype Head = Head(
    iid: Option<nat>,
    level: Option<nat>,
    rarity: Option<nat>,
    hasMultiplePic: Option<bool>,
    picId: Option<nat>,
    isClassSpecific: Option<bool>,
    isMagical: bool,
    isRare: bool,
    isSet: bool,
    isUnique: bool,
    isCrafted: bool)

  /** The ids the item's name is looked up by. */
  datatype Ids = Ids(
    magicPrefixId: Option<nat>,
    magicSuffixId: Option<nat>,
    setId: Option<nat>,
    rareFnameId: Option<nat>,
    rareSnameId: Option<nat>,
    rareAffixes: Option<seq<nat>>,
    uniqueId: Option<nat>,
    runewordId: Option<nat>)

  /** The remaining advanced fields, in stream order. */
  datatype Extras = Extras(
    personalizedName: Option<seq<byte>>,
    timestamp: Option<nat>,
    defenseRating: Option<int>,
    maxDurability: Option<nat>,
    curDurability: Option<nat>,
    quantity: Option<nat>,
    socketCount: Option<nat>)

  /** The texts of the item's magic attributes. */
  datatype Attrs = Attrs(
    magicAttrs: Option<seq<Rendered>>,
    setExtraAttrs: Option<seq<Rendered>>,
    setReqItemsCount: Option<seq<nat>>)

  /**
   * Every public attribute of an `Item`, grouped by the step that sets it;
   * `socketedItems` holds the items inserted into this one.
   */
  datatype ItemValue = ItemValue(
    flags: Flags,
    place: Placement,
    base: Base,
    ear: Ear,
    head: Head,
    ids: Ids,
    extras: Extras,
    attrs: Attrs,
    socketedItems: Option<seq<ItemValue>>)

  /** The attributes as `__init__` sets them before any bit is read. */
  function Fresh(): ItemValue
  {
    ItemValue(
      Flags(None, None, None, None, None, None, None, None, None),
      Placement(None, None, None, None, None, None),
      Base(None, None, None, None, None),
      Ear(None, None, None),
      Head(None, None, None, None, None, None, false, false, false, false, false),
      Ids(None, None, None, None, None, None, None, None),
      Extras(None, None, None, None, None, None, None),
      Attrs(None, None, None),
      None)
  }

  /** An item as parsed so far and the stream bit after what was read. */
  datatype Step = Step(item: ItemValue, end: nat)

  /** A list read from the stream and the stream bit after it. */
  datatype Listed<T> = Listed(list: seq<T>, end: nat)

  // ---------------------------------------------------------------------
  // Fields of the stream

  /** `bool(read(1))` at bit p. */
  function Flag(data: seq<byte>, p: nat): bool
  {
    LsbBits(data, p, 1) != 0
  }

  /** After the 16-bit header, the flags `_parse_simple` reads and the bits between them. */
  const FLAG_RUN: seq<nat> := [4, 1, 6, 1, 1, 1, 2, 1, 1, 3, 1, 1, 1, 1, 1, 1]
  /** Then the version and the placement, up to the panel. */
  const PLACE_RUN: seq<nat> := [5, 8, 2, 3, 4, 4, 3, 1, 3]
  /** An ear's owner class and level. */
  const EAR_RUN: seq<nat> := [3, 7]
  /** The four code characters, then the inserted-items count. */
  const CODE_RUN: seq<nat> := [8, 8, 8, 8, 3]
  /** The item id, level and rarity that open `_parse_advanced`. */
  const HEAD_RUN: seq<nat> := [32, 7, 4]

  /** The widths of the runs add up as the layout says. */
  lemma FlagRunTotal()
    ensures Total(FLAG_RUN) == 27
  {
    TotalUpToFour(FLAG_RUN, 0);
    TotalUpToFour(FLAG_RUN, 4);
    TotalUpToFour(FLAG_RUN, 8);
    TotalUpToFour(FLAG_RUN, 12);
  }

  lemma PlaceRunTotal()
    ensures Total(PLACE_RUN) == 33
  {
    TotalUpToFour(PLACE_RUN, 0);
    TotalUpToFour(PLACE_RUN, 4);
  }

  lemma CodeRunTotal()
    ensures Total(CODE_RUN) == 35
  {
    TotalUpToFour(CODE_RUN, 0);
  }

  lemma ShortRunTotals()
    ensures Total(EAR_RUN) == 10 && Total(HEAD_RUN) == 43
  {
    TotalUpToTwo(EAR_RUN, 0);
    TotalUpToTwo(HEAD_RUN, 0);
  }

  /** `chr` of a byte value. */
  function Chr(x: nat): char
    requires x < 256
  {
    x as char
  }

  /** `bytes.decode()` of 7-bit codes, which are ASCII: one character per byte. */
  function Chars(bytes: seq<byte>): (r: string)
    ensures |r| == |bytes|
    ensures forall k :: 0 <= k < |bytes| ==> r[k] as int == bytes[k]
  {
    if |bytes| == 0 then [] else [bytes[0] as char] + Chars(bytes[1..])
  }

  /** The four 8-bit code fields are bytes. */
  lemma CodeFieldsBound(data: seq<byte>, p: nat)
    ensures forall k :: 0 <= k < 4 ==> Fields(data, p, CODE_RUN)[k] < 256
  {
    forall k | 0 <= k < 4
      ensures Fields(data, p, CODE_RUN)[k] < 256
    {
      FieldBound(data, p, CODE_RUN, k);
      Pow2Byte(CODE_RUN[k]);
    }
  }

  // ---------------------------------------------------------------------
  // `_parse_simple`

  /** The flags read after the header. */
  function FlagsOf(f: seq<nat>): Flags
    requires |f| == |FLAG_RUN|
  {
    Flags(
      isIdentified := Some(f[1] != 0),
      isSocketed := Some(f[3] != 0),
      isNew := Some(f[5] != 0),
      isEar := Some(f[7] != 0),
      isStartItem := Some(f[8] != 0),
      isSimple := Some(f[10] != 0),
      isEthereal := Some(f[11] != 0),
      isPersonalized := Some(f[13] != 0),
      isRuneword := Some(f[15] != 0))
  }

  /** The version and placement read after the flags. */
  function PlacementOf(g: seq<nat>): Placement
    requires |g| == |PLACE_RUN|
  {
    Placement(
      version := Some(g[1]),
      locationId := Some(g[3]),
      equippedId := Some(g[4]),
      posX := Some(g[5]),
      posY := Some(g[6]),
      panelId := Some(g[8]))
  }

  /** The rest of an ear from bit p: the owner's class, level and 7-bit name. */
  function EarOf(v: ItemValue, data: seq<byte>, p: nat, t: ItemsData, names: Names): (r: Result<Step>)
    ensures r.Ok? ==> r.value.end > p + 10 && r.value.item.base.code == Some("ear")
  {
    var f := Fields(data, p, EAR_RUN);
    var w := v.(
      base := v.base.(code := Some("ear"), baseName := t.GetMiscName("ear")),
      ear := v.ear.(earCharClass := Lookup(names.classNames, f[0]), earCharLevel := Some(f[1])));
    var name := NullTermCodes(data, p + 10, 7);
    match name.codes
    case Err(e) => Err(e)
    case Ok(bytes) =>
      NullTermCodesEnd(data, p + 10, 7);
      Ok(Step(w.(ear := w.ear.(earCharName := Some(Chars(bytes)))), name.end))
  }

  /** The type and base name of a code: armor, then shield, then weapon, else misc. */
  function TypeOf(t: ItemsData, code: string): (r: (nat, Option<string>))
    ensures r.0 <= T_MISC
    ensures r.0 == T_ARMOR <==> t.IsArmor(code)
    ensures r.0 == T_SHIELD <==> !t.IsArmor(code) && t.IsShield(code)
    ensures r.0 == T_WEAPON <==> !t.IsArmor(code) && !t.IsShield(code) && t.IsWeapon(code)
    ensures r.0 < T_MISC ==> r.1.Some?
  {
    if t.IsArmor(code) then (T_ARMOR, t.GetArmorName(code))
    else if t.IsShield(code) then (T_SHIELD, t.GetShieldName(code))
    else if t.IsWeapon(code) then (T_WEAPON, t.GetWeaponName(code))
    else (T_MISC, t.GetMiscName(code))
  }

  /** The code, stripped of trailing whitespace, of four code fields. */
  function CodeText(f: seq<nat>): (r: string)
    requires |f| >= 4 && forall k :: 0 <= k < 4 ==> f[k] < 256
    ensures |r| <= 4 && r == [Chr(f[0]), Chr(f[1]), Chr(f[2]), Chr(f[3])][..|r|]
  {
    RStrip([Chr(f[0]), Chr(f[1]), Chr(f[2]), Chr(f[3])])
  }

  /** The rest of any other item from bit p: the four-letter code and the inserted count. */
  function CodeOf(v: ItemValue, data: seq<byte>, p: nat, t: ItemsData): (r: Step)
    ensures r.end == p + 35
    ensures r.item.base.insertedItemsCount.Some?
    ensures r.item.base.insertedItemsCount.value > 0 ==> r.item.socketedItems == Some([])
  {
    var f := Fields(data, p, CODE_RUN);
    CodeFieldsBound(data, p);
    var code := CodeText(f);
    var kind := TypeOf(t, code);
    Step(v.(
      base := Base(Some(code), Some(kind.0), kind.1, Some(t.IsQuantitative(code)), Some(f[4])),
      socketedItems := if f[4] > 0 then Some([]) else v.socketedItems),
      p + 35)
  }

  /** The header, flags, version and placement that open `_parse_simple`, from bit c. */
  function HeaderOf(v: ItemValue, data: seq<byte>, c: nat): (r: Result<Step>)
    ensures LsbBits(data, c, 16) != HEADER ==> r == Err(ItemParseError(InvalidItemHeaderId(LsbBits(data, c, 16))))
    ensures r.Ok? ==> LsbBits(data, c, 16) == HEADER && r.value.end == c + 76
    ensures r.Ok? ==> r.value.item.flags.isEar.Some? && r.value.item.flags.isSimple.Some?
  {
    var header := LsbBits(data, c, 16);
    if header != HEADER then Err(ItemParseError(InvalidItemHeaderId(header)))
    else Ok(Step(v.(flags := FlagsOf(Fields(data, c + 16, FLAG_RUN)), place := PlacementOf(Fields(data, c + 43, PLACE_RUN))), c + 76))
  }

  /** `_parse_simple` from bit c: the item and the bit after its simple section. */
  function SimpleOf(v: ItemValue, data: seq<byte>, c: nat, t: ItemsData, names: Names): (r: Result<Step>)
    ensures LsbBits(data, c, 16) != HEADER ==> r == Err(ItemParseError(InvalidItemHeaderId(LsbBits(data, c, 16))))
    ensures r.Ok? ==> LsbBits(data, c, 16) == HEADER && r.value.end > c + 76
    ensures r.Ok? && r.value.item.flags.isEar == Some(false) ==> r.value.end == c + SIMPLE_BITS
  {
    var h :- HeaderOf(v, data, c);
    if h.item.flags.isEar == Some(true) then EarOf(h.item, data, h.end, t, names)
    else Ok(CodeOf(h.item, data, h.end, t))
  }

  // ---------------------------------------------------------------------
  // `_parse_advanced`, up to the magic attributes

  /** `is_magical` ... `is_crafted`: the one flag the rarity names, if any, is raised. */
  function RarityFlags(h: Head, rarity: nat): (r: Head)
    ensures r.isMagical == (h.isMagical || rarity == Q_MAGIC)
    ensures r.isRare == (h.isRare || rarity == Q_RARE)
    ensures r.isSet == (h.isSet || rarity == Q_SET)
    ensures r.isUnique == (h.isUnique || rarity == Q_UNIQUE)
    ensures r.isCrafted == (h.isCrafted || rarity == Q_CRAFTED)
  {
    if rarity == Q_MAGIC then h.(isMagical := true)
    else if rarity == Q_RARE then h.(isRare := true)
    else if rarity == Q_SET then h.(isSet := true)
    else if rarity == Q_UNIQUE then h.(isUnique := true)
    else if rarity == Q_CRAFTED then h.(isCrafted := true)
    else h
  }

  /** No rarity flag is raised, as in a new item. */
  predicate NoRarity(h: Head)
  {
    !h.isMagical && !h.isRare && !h.isSet && !h.isUnique && !h.isCrafted
  }

  /** Each rarity flag is raised exactly when the rarity read names it. */
  predicate RarityAgrees(h: Head)
  {
    && h.isMagical == (h.rarity == Some(Q_MAGIC))
    && h.isRare == (h.rarity == Some(Q_RARE))
    && h.isSet == (h.rarity == Some(Q_SET))
    && h.isUnique == (h.rarity == Some(Q_UNIQUE))
    && h.isCrafted == (h.rarity == Some(Q_CRAFTED))
  }

  /** How many rarity flags are raised. */
  function RarityCount(h: Head): nat
  {
    (if h.isMagical then 1 else 0) + (if h.isRare then 1 else 0) + (if h.isSet then 1 else 0) +
    (if h.isUnique then 1 else 0) + (if h.isCrafted then 1 else 0)
  }

  /** Item id, level and rarity, and the rarity flag, from bit p. */
  function RarityOf(v: ItemValue, data: seq<byte>, p: nat): (r: Step)
    ensures NoRarity(v.head) ==> RarityAgrees(r.item.head)
  {
    var f := Fields(data, p, HEAD_RUN);
    Step(v.(head := RarityFlags(v.head.(iid := Some(f[0]), level := Some(f[1]), rarity := Some(f[2])), f[2])), p + 43)
  }

  /** The multiple-picture flag and, when it is set, the picture id, from bit p. */
  function PictureOf(v: ItemValue, data: seq<byte>, p: nat): (r: Step)
    ensures RarityAgrees(v.head) ==> RarityAgrees(r.item.head)
  {
    if Flag(data, p) then Step(v.(head := v.head.(hasMultiplePic := Some(true), picId := Some(LsbBits(data, p + 1, 3)))), p + 4)
    else Step(v.(head := v.head.(hasMultiplePic := Some(false))), p + 1)
  }

  lemma PictureRead(v: ItemValue, data: seq<byte>, p: nat, multiple: nat, pic: Option<nat>)
    requires multiple == LsbBits(data, p, 1)
    requires multiple != 0 ==> pic == Some(LsbBits(data, p + 1, 3))
    ensures PictureOf(v, data, p) == if multiple != 0
      then Step(v.(head := v.head.(hasMultiplePic := Some(true), picId := pic)), p + 4)
      else Step(v.(head := v.head.(hasMultiplePic := Some(false))), p + 1)
  {
  }

  /** The class-specific flag and, when it is set, 11 unused bits, from bit p. */
  function ClassSpecificOf(v: ItemValue, data: seq<byte>, p: nat): (r: Step)
    ensures RarityAgrees(v.head) ==> RarityAgrees(r.item.head)
  {
    if Flag(data, p) then Step(v.(head := v.head.(isClassSpecific := Some(true))), p + 12)
    else Step(v.(head := v.head.(isClassSpecific := Some(false))), p + 1)
  }

  /** Item id, level, rarity, picture id and the class-specific flag, from bit p. */
  function HeadOf(v: ItemValue, data: seq<byte>, p: nat): (r: Step)
    ensures p + 45 <= r.end <= p + 59
    ensures r.item.head.isClassSpecific.Some? && r.item.head.hasMultiplePic.Some?
    ensures r.item.head.picId != v.head.picId ==> r.item.head.hasMultiplePic == Some(true)
    ensures r.item.flags == v.flags && r.item.base == v.base && r.item.ids == v.ids
    ensures NoRarity(v.head) ==> RarityAgrees(r.item.head)
  {
    var rarity := RarityOf(v, data, p);
    var picture := PictureOf(rarity.item, data, rarity.end);
    ClassSpecificOf(picture.item, data, picture.end)
  }

  /**
   * The six optional affixes of a rare or crafted item from bit p, each a
   * presence bit followed, when set, by an 11-bit id; `acc` holds those
   * found so far and n how many slots are left.
   */
  function AffixesFrom(data: seq<byte>, p: nat, n: nat, acc: seq<nat>): (r: Listed<nat>)
    ensures |acc| <= |r.list| <= |acc| + n && r.list[..|acc|] == acc
    ensures p + n <= r.end <= p + 12 * n
    ensures r.end == p + n + 11 * (|r.list| - |acc|)
    decreases n
  {
    if n == 0 then Listed(acc, p)
    else if Flag(data, p) then AffixesFrom(data, p + 12, n - 1, acc + [LsbBits(data, p + 1, 11)])
    else AffixesFrom(data, p + 1, n - 1, acc)
  }

  /** The two name ids and the affixes of a rare or crafted item, from bit p. */
  function RareOf(v: ItemValue, data: seq<byte>, p: nat): (r: Step)
    ensures p + 22 <= r.end <= p + 88
    ensures r.item.ids.rareAffixes.Some? && |r.item.ids.rareAffixes.value| <= 6
  {
    var affixes := AffixesFrom(data, p + 16, 6, []);
    Step(v.(ids := v.ids.(rareFnameId := Some(LsbBits(data, p, 8)), rareSnameId := Some(LsbBits(data, p + 8, 8)), rareAffixes := Some(affixes.list))), affixes.end)
  }

  /** The ids of the rarity group, from bit p. */
  function QualityOf(v: ItemValue, data: seq<byte>, p: nat): (r: Step)
    ensures p <= r.end <= p + 88
    ensures r.item.head == v.head && r.item.flags == v.flags && r.item.base == v.base
    ensures v.head.isMagical && v.head.rarity != Some(Q_LOW) && v.head.rarity != Some(Q_HIGH) ==>
      r.item.ids.magicPrefixId.Some? && r.item.ids.magicSuffixId.Some?
    ensures r.item.ids.rareAffixes != v.ids.rareAffixes ==> r.item.ids.rareAffixes.Some? && |r.item.ids.rareAffixes.value| <= 6
  {
    if v.head.rarity == Some(Q_LOW) || v.head.rarity == Some(Q_HIGH) then Step(v, p + 3)
    else if v.head.isMagical then
      Step(v.(ids := v.ids.(magicPrefixId := Some(LsbBits(data, p, 11)), magicSuffixId := Some(LsbBits(data, p + 11, 11)))), p + 22)
    else if v.head.isSet then Step(v.(ids := v.ids.(setId := Some(LsbBits(data, p, 12)))), p + 12)
    else if v.head.isRare || v.head.isCrafted then RareOf(v, data, p)
    else if v.head.isUnique then Step(v.(ids := v.ids.(uniqueId := Some(LsbBits(data, p, 12)))), p + 12)
    else Step(v, p)
  }

  /** A tome of town portal or of identify. */
  predicate IsTome(code: Option<string>)
  {
    code == Some("tbk") || code == Some("ibk")
  }

  /** A runeword's id and four unused bits, from bit p. */
  function RunewordOf(v: ItemValue, data: seq<byte>, p: nat): Step
  {
    if v.flags.isRuneword == Some(true) then Step(v.(ids := v.ids.(runewordId := Some(LsbBits(data, p, 12)))), p + 16)
    else Step(v, p)
  }

  /** A personalized item's name, 7-bit codes up to a zero, from bit p. */
  function PersonalizedOf(v: ItemValue, data: seq<byte>, p: nat): Result<Step>
  {
    if v.flags.isPersonalized == Some(true) then
      var name := NullTermCodes(data, p, 7);
      match name.codes
      case Err(e) => Err(e)
      case Ok(bytes) => Ok(Step(v.(extras := v.extras.(personalizedName := Some(bytes))), name.end))
    else Ok(Step(v, p))
  }

  /** The five bits of a tome, then the timestamp bit, from bit p. */
  function StampOf(v: ItemValue, data: seq<byte>, p: nat): Step
  {
    var q := if IsTome(v.base.code) then p + 5 else p;
    Step(v.(extras := v.extras.(timestamp := Some(LsbBits(data, q, 1)))), q + 1)
  }

  lemma StampRead(v: ItemValue, data: seq<byte>, p: nat, q: nat, stamp: Option<nat>)
    requires q == (if IsTome(v.base.code) then p + 5 else p)
    requires stamp == Some(LsbBits(data, q, 1))
    ensures StampOf(v, data, p) == Step(v.(extras := v.extras.(timestamp := stamp)), q + 1)
  {
  }

  /** Runeword id, personalized name, the tome bits and the timestamp, from bit p. */
  function ExtrasOf(v: ItemValue, data: seq<byte>, p: nat): (r: Result<Step>)
    ensures r.Ok? ==> r.value.end > p && r.value.item.extras.timestamp.Some?
    ensures v.flags.isPersonalized != Some(true) ==> r.Ok?
    ensures r.Ok? && v.flags.isPersonalized == Some(true) ==> r.value.item.extras.personalizedName.Some?
    ensures r.Ok? ==> r.value.item.flags == v.flags && r.value.item.head == v.head
  {
    var rw := RunewordOf(v, data, p);
    var named :- PersonalizedOf(rw.item, data, rw.end);
    Ok(StampOf(named.item, data, named.end))
  }

  /** Current durability and its unused bit, read only when the maximum is not zero. */
  function DurabilityOf(v: ItemValue, data: seq<byte>, p: nat): (r: Step)
    ensures r.end == p + 8 || r.end == p + 17
    ensures r.item.extras.maxDurability.Some?
    ensures r.item.extras.curDurability != v.extras.curDurability ==> r.item.extras.maxDurability.value > 0
  {
    var maxDurability := LsbBits(data, p, 8);
    var w := v.(extras := v.extras.(maxDurability := Some(maxDurability)));
    if maxDurability > 0 then Step(w.(extras := w.extras.(curDurability := Some(LsbBits(data, p + 8, 8)))), p + 17)
    else Step(w, p + 8)
  }

  /** The durability fields are as they were. */
  predicate Worn(v: ItemValue, w: ItemValue)
  {
    w.extras.maxDurability == v.extras.maxDurability && w.extras.curDurability == v.extras.curDurability
  }

  /** The flags, the base, the head and the ids are as they were. */
  predicate Kept(v: ItemValue, w: ItemValue)
  {
    w.flags == v.flags && w.base == v.base && w.head == v.head && w.ids == v.ids
  }

  /** An armor's or a shield's defense, stored with a bias of 10, from bit p. */
  function DefenseOf(v: ItemValue, data: seq<byte>, p: nat): (r: Step)
    ensures p <= r.end <= p + 11 && Kept(v, r.item) && Worn(v, r.item)
    ensures r.item.extras.defenseRating != v.extras.defenseRating ==>
      (v.base.itype == Some(T_ARMOR) || v.base.itype == Some(T_SHIELD)) &&
      r.item.extras.defenseRating.Some? && r.item.extras.defenseRating.value >= -10
  {
    if v.base.itype == Some(T_ARMOR) || v.base.itype == Some(T_SHIELD) then
      Step(v.(extras := v.extras.(defenseRating := Some(LsbBits(data, p, 11) - 10))), p + 11)
    else Step(v, p)
  }

  /** The durability of an armor, a shield or a weapon, from bit p. */
  function WearOf(v: ItemValue, data: seq<byte>, p: nat): (r: Step)
    ensures p <= r.end <= p + 17 && Kept(v, r.item) && r.item.extras.defenseRating == v.extras.defenseRating
    ensures !Worn(v, r.item) ==> v.base.itype == Some(T_ARMOR) || v.base.itype == Some(T_SHIELD) || v.base.itype == Some(T_WEAPON)
    ensures r.item.extras.curDurability != v.extras.curDurability ==> r.item.extras.maxDurability.Some? && r.item.extras.maxDurability.value > 0
  {
    if v.base.itype == Some(T_ARMOR) || v.base.itype == Some(T_SHIELD) || v.base.itype == Some(T_WEAPON) then
      DurabilityOf(v, data, p)
    else Step(v, p)
  }

  /** The quantity of a quantitative item, from bit p. */
  function QuantityOf(v: ItemValue, data: seq<byte>, p: nat): (r: Step)
    ensures p <= r.end <= p + 9 && Kept(v, r.item) && r.item.extras.defenseRating == v.extras.defenseRating && Worn(v, r.item)
  {
    if v.base.isQuantitative == Some(true) then
      Step(v.(extras := v.extras.(quantity := Some(LsbBits(data, p, 9)))), p + 9)
    else Step(v, p)
  }

  /** The socket count of a socketed item, from bit p. */
  function SocketsOf(v: ItemValue, data: seq<byte>, p: nat): (r: Step)
    ensures p <= r.end <= p + 4 && Kept(v, r.item) && r.item.extras.defenseRating == v.extras.defenseRating && Worn(v, r.item)
  {
    if v.flags.isSocketed == Some(true) then
      Step(v.(extras := v.extras.(socketCount := Some(LsbBits(data, p, 4)))), p + 4)
    else Step(v, p)
  }

  /** Defense, durability, quantity and socket count, each read when the item has it. */
  function ArmorOf(v: ItemValue, data: seq<byte>, p: nat): (r: Step)
    ensures p <= r.end <= p + 41
    ensures r.item.extras.defenseRating != v.extras.defenseRating ==>
      (v.base.itype == Some(T_ARMOR) || v.base.itype == Some(T_SHIELD)) &&
      r.item.extras.defenseRating.Some? && r.item.extras.defenseRating.value >= -10
    ensures !Worn(v, r.item) ==> v.base.itype == Some(T_ARMOR) || v.base.itype == Some(T_SHIELD) || v.base.itype == Some(T_WEAPON)
    ensures r.item.extras.curDurability != v.extras.curDurability ==> r.item.extras.maxDurability.Some? && r.item.extras.maxDurability.value > 0
    ensures Kept(v, r.item)
  {
    var defended := DefenseOf(v, data, p);
    var worn := WearOf(defended.item, data, defended.end);
    var counted := QuantityOf(worn.item, data, worn.end);
    SocketsOf(counted.item, data, counted.end)
  }

  // ---------------------------------------------------------------------
  // `_parse_magic_attrs`

  /** `dict.get(k)` on a name table, as a `str.format` argument. */
  function NameOf(m: map<int, string>, k: int): (r: FmtArg)
    ensures r.Absent? <==> k !in m
    ensures r.Name? ==> r.s == m[k]
  {
    if k in m then Name(m[k]) else Absent
  }

  /** Every raw value minus the bias. */
  function Biased(raw: seq<nat>, bias: int): (r: seq<int>)
    ensures |r| == |raw|
    ensures forall k :: 0 <= k < |raw| ==> r[k] + bias == raw[k]
  {
    seq(|raw|, k requires 0 <= k < |raw| => raw[k] - bias)
  }

  /** Attributes whose first value is a class id. */
  predicate ClassFirst(id: nat)
  {
    id == 83 || id == 84
  }

  /** Attributes whose first value is a skill id. */
  predicate SkillFirst(id: nat)
  {
    id == 97 || id == 107 || id == 109 || 181 <= id < 188
  }

  /** The attribute whose values are a skill-tree offset and a class id. */
  const SKILL_TREE_ATTR: nat := 188

  /** Attributes whose second value is a skill id. */
  predicate SkillSecond(id: nat)
  {
    195 <= id < 214
  }

  /**
   * The values of attribute `id` as `str.format` arguments: class, skill and
   * skill-tree ids replaced by their names. A value the attribute does not
   * have is an IndexError, a class with no skill-tree offset a TypeError.
   */
  function Substitute(id: nat, values: seq<int>, names: Names): (r: Result<seq<FmtArg>>)
    ensures r.Ok? ==> |r.value| == |values|
    ensures r.Ok? ==> forall k :: 2 <= k < |values| ==> r.value[k] == Num(values[k])
    ensures r.Err? ==> r.error == IndexError || r.error == TypeError
    ensures r.Err? <==>
      || ((ClassFirst(id) || SkillFirst(id)) && |values| == 0)
      || ((id == SKILL_TREE_ATTR || SkillSecond(id)) && |values| < 2)
      || (id == SKILL_TREE_ATTR && |values| >= 2 && values[1] !in names.skillTreeOffsets)
  {
    var args := seq(|values|, k requires 0 <= k < |values| => Num(values[k]));
    if ClassFirst(id) then
      if |values| == 0 then Err(IndexError) else Ok(args[0 := NameOf(names.classNames, values[0])])
    else if SkillFirst(id) then
      if |values| == 0 then Err(IndexError) else Ok(args[0 := NameOf(names.skillNames, values[0])])
    else if id == SKILL_TREE_ATTR then
      if |values| < 2 then Err(IndexError)
      else if values[1] !in names.skillTreeOffsets then Err(TypeError)
      else
        Ok(args[0 := NameOf(names.skillTreeNames, names.skillTreeOffsets[values[1]] + values[0])]
               [1 := NameOf(names.classNames, values[1])])
    else if SkillSecond(id) then
      if |values| < 2 then Err(IndexError) else Ok(args[1 := NameOf(names.skillNames, values[1])])
    else Ok(args)
  }

  /**
   * How the attribute loop ends once only zero bits are left: every id read
   * is 0, so it fails on attribute 0 or never meets the terminator.
   */
  function ZeroTail(t: ItemsData): Error
  {
    match t.GetMagicAttr(0)
    case None => ItemParseError(UnknownMagicAttr(0))
    case Some(a) => if 0 in a.bits then TypeError else NonTerminating
  }

  /** The terminator of an attribute list. */
  const END_OF_ATTRS: nat := 0x1FF

  /** What one turn of the attribute loop makes of the bits at its start. */
  datatype AttrStep =
    | Ended(end: nat)
    | Failed(error: Error)
    | Hidden(next: nat)
    | Shown(text: Rendered, next: nat)

  /**
   * One turn of `_parse_magic_attrs` from bit p: the terminator, an error,
   * an invisible attribute read and dropped, or an attribute's text.
   */
  function AttrAt(data: seq<byte>, p: nat, t: ItemsData, names: Names): (r: AttrStep)
    ensures r.Ended? <==> LsbBits(data, p, 9) == END_OF_ATTRS
    ensures r.Ended? ==> r.end == p + 9
    ensures r.Hidden? || r.Shown? ==> r.next >= p + 9
  {
    var id := LsbBits(data, p, 9);
    if id == END_OF_ATTRS then Ended(p + 9)
    else match t.GetMagicAttr(id)
      case None => Failed(ItemParseError(UnknownMagicAttr(id)))
      case Some(a) =>
        if 0 in a.bits then Failed(TypeError)
        else
          var q := p + 9 + Total(a.bits);
          if a.invisible then Hidden(q)
          else match Substitute(id, Biased(Fields(data, p + 9, a.bits), a.bias), names)
            case Err(e) => Failed(e)
            case Ok(args) => Shown(Rendered(a.name, args), q)
  }

  /**
   * `_parse_magic_attrs` from bit p, with `acc` shown so far: the attributes
   * and the bit after the terminator.
   */
  function MagicAttrsFrom(data: seq<byte>, p: nat, acc: seq<Rendered>, t: ItemsData, names: Names): (r: Result<Listed<Rendered>>)
    ensures r.Ok? ==> r.value.end >= p + 9
    ensures r.Ok? ==> |r.value.list| >= |acc| && r.value.list[..|acc|] == acc
    decreases if p < 8 * |data| then 8 * |data| - p else 0
  {
    if p >= 8 * |data| then Err(ZeroTail(t))
    else match AttrAt(data, p, t, names)
      case Ended(end) => Ok(Listed(acc, end))
      case Failed(e) => Err(e)
      case Hidden(q) => MagicAttrsFrom(data, q, acc, t, names)
      case Shown(text, q) => MagicAttrsFrom(data, q, acc + [text], t, names)
  }

  /**
   * A list of attributes ends with the terminator: `last` is the bit where the
   * terminator starts, inside the data, and the list ends right after it.
   */
  lemma {:induction false} MagicAttrsEnd(data: seq<byte>, p: nat, acc: seq<Rendered>, t: ItemsData, names: Names) returns (last: nat)
    ensures var r := MagicAttrsFrom(data, p, acc, t, names);
      r.Ok? ==> p <= last < 8 * |data| && AttrAt(data, last, t, names) == Ended(r.value.end)
    decreases if p < 8 * |data| then 8 * |data| - p else 0
  {
    last := p;
    if p < 8 * |data| {
      var step := AttrAt(data, p, t, names);
      if step.Hidden? {
        last := MagicAttrsEnd(data, step.next, acc, t, names);
      } else if step.Shown? {
        last := MagicAttrsEnd(data, step.next, acc + [step.text], t, names);
      }
    }
  }

  /** Once only zero bits are left, the attribute loop ends as `ZeroTail` says. */
  lemma {:induction false} ZeroTailFrom(data: seq<byte>, p: nat, acc: seq<Rendered>, t: ItemsData, names: Names)
    requires ZeroFrom(data, p)
    ensures MagicAttrsFrom(data, p, acc, t, names) == Err(ZeroTail(t))
    decreases if p < 8 * |data| then 8 * |data| - p else 0
  {
    if p < 8 * |data| {
      LsbBitsZeroFrom(data, p, 9);
      match AttrAt(data, p, t, names)
      case Ended(_) =>
      case Failed(_) =>
      case Hidden(q) =>
        ZeroFromLater(data, p, q);
        ZeroTailFrom(data, q, acc, t, names);
      case Shown(text, q) =>
        ZeroFromLater(data, p, q);
        ZeroTailFrom(data, q, acc + [text], t, names);
    }
  }

  /** The terminator ends the attribute loop. */
  lemma AttrsEnded(data: seq<byte>, p: nat, t: ItemsData, names: Names, p1: nat)
    requires LsbBits(data, p, 9) == END_OF_ATTRS && p1 == p + 9
    ensures AttrAt(data, p, t, names) == Ended(p1)
  {
  }

  /** An id the table does not know ends the attribute loop with an error. */
  lemma AttrUnknown(data: seq<byte>, p: nat, t: ItemsData, names: Names, id: nat)
    requires id == LsbBits(data, p, 9) && id != END_OF_ATTRS && t.GetMagicAttr(id).None?
    ensures AttrAt(data, p, t, names) == Failed(ItemParseError(UnknownMagicAttr(id)))
  {
  }

  /** An attribute with a zero-width value ends the attribute loop with a TypeError. */
  lemma AttrZeroWidth(data: seq<byte>, p: nat, t: ItemsData, names: Names, id: nat, a: AttrDesc)
    requires id == LsbBits(data, p, 9) && id != END_OF_ATTRS && t.GetMagicAttr(id) == Some(a) && 0 in a.bits
    ensures AttrAt(data, p, t, names) == Failed(TypeError)
  {
  }

  /** An invisible attribute is read and dropped. */
  lemma AttrHidden(data: seq<byte>, p: nat, t: ItemsData, names: Names, id: nat, a: AttrDesc, p1: nat, p2: nat)
    requires id == LsbBits(data, p, 9) && id != END_OF_ATTRS && t.GetMagicAttr(id) == Some(a) && 0 !in a.bits
    requires p1 == p + 9 && p2 == p1 + Total(a.bits) && a.invisible
    ensures AttrAt(data, p, t, names) == Hidden(p2)
  {
  }

  /** A visible attribute is shown, or its substitution error ends the loop. */
  lemma AttrShown(data: seq<byte>, p: nat, t: ItemsData, names: Names, id: nat, a: AttrDesc, p1: nat, raw: seq<nat>, p2: nat, args: Result<seq<FmtArg>>)
    requires id == LsbBits(data, p, 9) && id != END_OF_ATTRS && t.GetMagicAttr(id) == Some(a) && 0 !in a.bits
    requires p1 == p + 9 && raw == Fields(data, p1, a.bits) && p2 == p1 + Total(a.bits) && !a.invisible
    requires args == Substitute(id, Biased(raw, a.bias), names)
    ensures args.Err? ==> AttrAt(data, p, t, names) == Failed(args.error)
    ensures args.Ok? ==> AttrAt(data, p, t, names) == Shown(Rendered(a.name, args.value), p2)
  {
  }

  // ---------------------------------------------------------------------
  // The rest of `_parse_advanced`

  /**
   * n more lists of set attributes from bit p, each contributing its first
   * attribute; an empty list is an IndexError.
   */
  function SetExtrasFrom(data: seq<byte>, p: nat, n: nat, acc: seq<Rendered>, t: ItemsData, names: Names): (r: Result<Listed<Rendered>>)
    ensures r.Ok? ==> |r.value.list| == |acc| + n && r.value.end >= p + 9 * n
    decreases n
  {
    if n == 0 then Ok(Listed(acc, p))
    else match MagicAttrsFrom(data, p, [], t, names)
      case Err(e) => Err(e)
      case Ok(list) =>
        if |list.list| == 0 then Err(IndexError)
        else SetExtrasFrom(data, list.end, n - 1, acc + [list.list[0]], t, names)
  }

  /** The set extras found before stay in front of the list. */
  lemma {:induction false} SetExtrasKeepAcc(data: seq<byte>, p: nat, n: nat, acc: seq<Rendered>, t: ItemsData, names: Names)
    ensures var r := SetExtrasFrom(data, p, n, acc, t, names);
      r.Ok? ==> r.value.list[..|acc|] == acc
    decreases n
  {
    if n > 0 {
      var attrs := MagicAttrsFrom(data, p, [], t, names);
      if attrs.Ok? && |attrs.value.list| > 0 {
        var next := acc + [attrs.value.list[0]];
        SetExtrasKeepAcc(data, attrs.value.end, n - 1, next, t, names);
        assert next[..|acc|] == acc;
      }
    }
  }

  /** One bit of the selector, taken into a prefix of the list. */
  lemma ReqItemsNext(selector: nat, k: nat, prefix: seq<nat>, isSet: bool)
    requires k < 5 && isSet == IsSetBit(selector, k)
    ensures prefix + ReqItemsFrom(selector, k) == (if isSet then prefix + [k + 2] else prefix) + ReqItemsFrom(selector, k + 1)
  {
    var rest := ReqItemsFrom(selector, k + 1);
    if isSet {
      assert ReqItemsFrom(selector, k) == [k + 2] + rest;
      assert prefix + ([k + 2] + rest) == (prefix + [k + 2]) + rest;
    } else {
      assert ReqItemsFrom(selector, k) == rest;
    }
  }

  /** One turn of the set-extras loop, given how its attribute list was read. */
  lemma SetExtrasStep(data: seq<byte>, p: nat, n: nat, acc: seq<Rendered>, t: ItemsData, names: Names, attrs: Result<seq<Rendered>>, q: nat)
    requires n > 0 && ListedAs(attrs, MagicAttrsFrom(data, p, [], t, names), q)
    ensures attrs.Err? ==> SetExtrasFrom(data, p, n, acc, t, names) == Err(attrs.error)
    ensures attrs.Ok? && |attrs.value| == 0 ==> SetExtrasFrom(data, p, n, acc, t, names) == Err(IndexError)
    ensures attrs.Ok? && |attrs.value| > 0 ==>
      SetExtrasFrom(data, p, n, acc, t, names) == SetExtrasFrom(data, q, n - 1, acc + [attrs.value[0]], t, names)
  {
  }

  /** `offset + 2` for every bit `offset` from k to 4 set in the selector, in order. */
  function ReqItemsFrom(selector: nat, k: nat): (r: seq<nat>)
    requires k <= 5
    ensures |r| <= 5 - k
    decreases 5 - k
  {
    if k == 5 then []
    else if IsSetBit(selector, k) then [k + 2] + ReqItemsFrom(selector, k + 1)
    else ReqItemsFrom(selector, k + 1)
  }

  /** The bits 0 to 4 of a selector that are set. */
  function SelectorBits(selector: nat): nat
  {
    (if IsSetBit(selector, 0) then 1 else 0) + (if IsSetBit(selector, 1) then 1 else 0) +
    (if IsSetBit(selector, 2) then 1 else 0) + (if IsSetBit(selector, 3) then 1 else 0) +
    (if IsSetBit(selector, 4) then 1 else 0)
  }

  /** The list of required items has one entry per set bit of the selector. */
  lemma ReqItemsLength(selector: nat)
    ensures |ReqItemsFrom(selector, 0)| == SelectorBits(selector)
  {
    assert ReqItemsFrom(selector, 5) == [];
    assert |ReqItemsFrom(selector, 4)| == (if IsSetBit(selector, 4) then 1 else 0);
    assert |ReqItemsFrom(selector, 3)| == (if IsSetBit(selector, 3) then 1 else 0) + |ReqItemsFrom(selector, 4)|;
    assert |ReqItemsFrom(selector, 2)| == (if IsSetBit(selector, 2) then 1 else 0) + |ReqItemsFrom(selector, 3)|;
    assert |ReqItemsFrom(selector, 1)| == (if IsSetBit(selector, 1) then 1 else 0) + |ReqItemsFrom(selector, 2)|;
    assert |ReqItemsFrom(selector, 0)| == (if IsSetBit(selector, 0) then 1 else 0) + |ReqItemsFrom(selector, 1)|;
  }

  lemma SelectorBitsTable()
    ensures SelectorBits(0) == 0 && SelectorBits(1) == 1 && SelectorBits(2) == 1 && SelectorBits(3) == 2
    ensures SelectorBits(4) == 1 && SelectorBits(6) == 2 && SelectorBits(7) == 3 && SelectorBits(10) == 2
    ensures SelectorBits(12) == 2 && SelectorBits(15) == 4 && SelectorBits(31) == 5
  {
    assert Pow2(0) == 1 && Pow2(1) == 2 && Pow2(2) == 4 && Pow2(3) == 8 && Pow2(4) == 16;
  }

  /** Every count of `_SET_EXTRA_COUNTS` is the number of set bits of its selector. */
  lemma SetExtraCountsArePopcounts()
    ensures forall k :: k in SET_EXTRA_COUNTS ==> SET_EXTRA_COUNTS[k] == SelectorBits(k) == |ReqItemsFrom(k, 0)|
  {
    SelectorBitsTable();
    forall k | k in SET_EXTRA_COUNTS
      ensures SET_EXTRA_COUNTS[k] == SelectorBits(k) == |ReqItemsFrom(k, 0)|
    {
      ReqItemsLength(k);
    }
  }

  /**
   * When a set item's list of required items is filled, it is as long as its
   * list of set extras.
   */
  lemma SetListsAgree(v: ItemValue, data: seq<byte>, p: nat, selector: Option<nat>, t: ItemsData, names: Names)
    ensures var r := SetOf(v, data, p, selector, t, names);
      r.Ok? && r.value.item.attrs.setReqItemsCount != v.attrs.setReqItemsCount ==>
        var a := r.value.item.attrs;
        v.ids.setId != Some(0) && a.setExtraAttrs.Some? && a.setReqItemsCount.Some? &&
        |a.setReqItemsCount.value| == |a.setExtraAttrs.value|
  {
    SetExtraCountsArePopcounts();
  }

  /** The selector-driven extras of a set item, after its magic attributes. */
  function SetOf(v: ItemValue, data: seq<byte>, p: nat, selector: Option<nat>, t: ItemsData, names: Names): (r: Result<Step>)
    ensures r.Ok? ==> r.value.end >= p && r.value.item.attrs.magicAttrs == v.attrs.magicAttrs
    ensures r.Ok? ==> r.value.item.flags == v.flags && r.value.item.head == v.head
    ensures r.Ok? && r.value.item.attrs.setExtraAttrs != v.attrs.setExtraAttrs ==>
      selector.Some? && selector.value in SET_EXTRA_COUNTS && r.value.item.attrs.setExtraAttrs.Some? && |r.value.item.attrs.setExtraAttrs.value| == SET_EXTRA_COUNTS[selector.value] > 0
  {
    var count := if selector.Some? then Lookup(SET_EXTRA_COUNTS, selector.value) else None;
    if count.Some? && count.value > 0 then
      var extras :- SetExtrasFrom(data, p, count.value, [], t, names);
      var w := v.(attrs := v.attrs.(setExtraAttrs := Some(extras.list)));
      if v.ids.setId != Some(0) then Ok(Step(w.(attrs := w.attrs.(setReqItemsCount := Some(ReqItemsFrom(selector.value, 0)))), extras.end))
      else Ok(Step(w, extras.end))
    else Ok(Step(v, p))
  }

  /** The magic attributes, then the set extras the selector announces, from bit p. */
  function ListsOf(v: ItemValue, data: seq<byte>, p: nat, selector: Option<nat>, t: ItemsData, names: Names): (r: Result<Step>)
    ensures r.Ok? ==> r.value.end >= p + 9 && r.value.item.attrs.magicAttrs.Some?
    ensures r.Ok? ==> r.value.item.flags == v.flags && r.value.item.head == v.head
  {
    var attrs :- MagicAttrsFrom(data, p, [], t, names);
    SetOf(v.(attrs := v.attrs.(magicAttrs := Some(attrs.list))), data, attrs.end, selector, t, names)
  }

  /**
   * A runeword's own attributes, appended to the magic attributes, from bit p
   * (`extend` on a missing list is an AttributeError).
   */
  function RunewordAttrsOf(v: ItemValue, data: seq<byte>, p: nat, t: ItemsData, names: Names): (r: Result<Step>)
    ensures r.Ok? ==> r.value.end >= p && r.value.item.attrs.magicAttrs.Some? == v.attrs.magicAttrs.Some?
    ensures v.flags.isRuneword != Some(true) ==> r == Ok(Step(v, p))
    ensures r.Ok? ==> r.value.item.flags == v.flags && r.value.item.head == v.head
  {
    if v.flags.isRuneword == Some(true) then
      match v.attrs.magicAttrs
      case None => Err(AttributeError)
      case Some(shown) =>
        var more :- MagicAttrsFrom(data, p, [], t, names);
        Ok(Step(v.(attrs := v.attrs.(magicAttrs := Some(shown + more.list))), more.end))
    else Ok(Step(v, p))
  }

  /** The set selector, the magic attributes, the set extras and a runeword's attributes, from bit p. */
  function AttrsOf(v: ItemValue, data: seq<byte>, p: nat, t: ItemsData, names: Names): (r: Result<Step>)
    ensures r.Ok? ==> r.value.end >= p + 9 && r.value.item.attrs.magicAttrs.Some?
    ensures r.Ok? ==> r.value.item.flags == v.flags && r.value.item.head == v.head
  {
    var selector := if v.head.isSet then Some(LsbBits(data, p, 5)) else None;
    var lists :- ListsOf(v, data, if v.head.isSet then p + 5 else p, selector, t, names);
    RunewordAttrsOf(lists.item, data, lists.end, t, names)
  }

  lemma AttrsComposed(v: ItemValue, data: seq<byte>, c: nat, c1: nat, selector: Option<nat>, t: ItemsData, names: Names, lists: Result<Step>)
    requires selector == (if v.head.isSet then Some(LsbBits(data, c, 5)) else None)
    requires c1 == (if v.head.isSet then c + 5 else c)
    requires lists == ListsOf(v, data, c1, selector, t, names)
    ensures lists.Err? ==> AttrsOf(v, data, c, t, names) == Err(lists.error)
    ensures lists.Ok? ==> AttrsOf(v, data, c, t, names) == RunewordAttrsOf(lists.value.item, data, lists.value.end, t, names)
  {
  }

  /** `_parse_advanced` from bit p. */
  function AdvancedOf(v: ItemValue, data: seq<byte>, p: nat, t: ItemsData, names: Names): (r: Result<Step>)
    ensures r.Ok? ==> r.value.end > p && r.value.item.flags == v.flags
    ensures r.Ok? && NoRarity(v.head) ==> RarityAgrees(r.value.item.head)
  {
    var head := HeadOf(v, data, p);
    var quality := QualityOf(head.item, data, head.end);
    var extras :- ExtrasOf(quality.item, data, quality.end);
    var armor := ArmorOf(extras.item, data, extras.end);
    AttrsOf(armor.item, data, armor.end, t, names)
  }

  /**
   * The parsing steps of `__init__` from bit c, starting from the attributes
   * v: the parsed item and the bit where the next record starts, past the
   * alignment padding.
   */
  function ParsedFrom(v: ItemValue, data: seq<byte>, c: nat, t: ItemsData, names: Names): (r: Result<Step>)
    ensures r.Ok? ==> r.value.end > c + 76
  {
    var sections := SectionsFrom(v, data, c, t, names);
    if sections.Err? then Err(sections.error)
    else AlignedEnd(sections.value, c); Ok(Aligned(sections.value, c))
  }

  lemma AlignedEnd(s: Step, c: nat)
    requires s.end > c + 76
    ensures Aligned(s, c).end > c + 76 && (Aligned(s, c).end - c) % 8 == 0
  {
  }

  lemma ParsedAt(v: ItemValue, data: seq<byte>, c: nat, t: ItemsData, names: Names, s: Step, cursor: nat)
    requires SectionsFrom(v, data, c, t, names) == Ok(s)
    requires cursor == s.end + CalcBitsToAlign(s.end - c)
    ensures ParsedFrom(v, data, c, t, names) == Ok(Step(s.item, cursor))
  {
    assert Aligned(s, c) == Step(s.item, cursor);
  }

  /** `_parse_simple`, then `_parse_advanced` unless the item is simple. */
  function SectionsFrom(v: ItemValue, data: seq<byte>, c: nat, t: ItemsData, names: Names): (r: Result<Step>)
    ensures r.Ok? ==> r.value.end > c + 76
  {
    var simple :- SimpleOf(v, data, c, t, names);
    if simple.item.flags.isSimple == Some(true) then Ok(simple) else AdvancedOf(simple.item, data, simple.end, t, names)
  }

  /**
   * `Item(reader)` with the reader at byte `pos`: the item, and the stream
   * bit after it, at least 77 bits on (the alignment padding of `Aligned`
   * then puts it on a byte boundary, see `AlignedEnd`).
   */
  function ItemAt(data: seq<byte>, pos: nat, t: ItemsData, names: Names): (r: Result<Step>)
    ensures r.Ok? ==> r.value.end > 8 * pos + 76
  {
    ParsedFrom(Fresh(), data, 8 * pos, t, names)
  }

  /** No item starts at or past the end of the data: its header reads as zero. */
  lemma ItemAtPastEnd(data: seq<byte>, pos: nat, t: ItemsData, names: Names)
    requires pos >= |data|
    ensures ItemAt(data, pos, t, names) == Err(ItemParseError(InvalidItemHeaderId(0)))
  {
    LsbBitsPastEnd(data, 8 * pos, 16);
  }

  /** A simple item that is not an ear fills exactly 14 bytes: 111 bits and one bit of padding. */
  lemma SimpleItemBytes(v: ItemValue, data: seq<byte>, c: nat, t: ItemsData, names: Names, s: Step)
    requires SimpleOf(v, data, c, t, names) == Ok(s)
    requires s.item.flags.isEar == Some(false) && s.item.flags.isSimple == Some(true)
    ensures ParsedFrom(v, data, c, t, names) == Ok(Step(s.item, c + 8 * 14))
  {
    SimpleSkipsAdvanced(v, data, c, t, names, s);
    assert s.end - c == SIMPLE_BITS;
    assert CalcBitsToAlign(SIMPLE_BITS) == 1;
    assert Aligned(s, c) == Step(s.item, c + 8 * 14);
  }

  /** A simple item is finished after its simple section: no advanced field is read. */
  lemma SimpleSkipsAdvanced(v: ItemValue, data: seq<byte>, c: nat, t: ItemsData, names: Names, s: Step)
    requires SimpleOf(v, data, c, t, names) == Ok(s) && s.item.flags.isSimple == Some(true)
    ensures SectionsFrom(v, data, c, t, names) == Ok(s)
  {
  }

  /**
   * The simple section of a new item: an ear is coded "ear" and has no
   * inserted count; any other item has one, and a list of socketed items
   * exactly when it is above zero; no advanced field is set.
   */
  lemma FreshSimple(data: seq<byte>, c: nat, t: ItemsData, names: Names)
    ensures var r := SimpleOf(Fresh(), data, c, t, names);
      r.Ok? ==>
        var w := r.value.item;
        && (w.flags.isEar == Some(true) ==>
              w.base.code == Some("ear") && w.base.insertedItemsCount == None && w.socketedItems == None)
        && (w.flags.isEar != Some(true) ==>
              w.base.insertedItemsCount.Some? &&
              (w.socketedItems.Some? <==> w.base.insertedItemsCount.value > 0) &&
              (w.socketedItems.Some? ==> w.socketedItems == Some([])))
        && w.head == Fresh().head && w.ids == Fresh().ids && w.extras == Fresh().extras && w.attrs == Fresh().attrs
  {
    var h := HeaderOf(Fresh(), data, c);
    if h.Ok? {
      var w := h.value.item;
      if w.flags.isEar == Some(true) {
        var e := EarOf(w, data, h.value.end, t, names);
      } else {
        var d := CodeOf(w, data, h.value.end, t);
      }
    }
  }

  /**
   * A parsed item has its rarity flags raised exactly as its rarity says,
   * so at most one of them.
   */
  lemma ParsedRarity(data: seq<byte>, pos: nat, t: ItemsData, names: Names)
    ensures var r := ItemAt(data, pos, t, names);
      r.Ok? ==> RarityAgrees(r.value.item.head) && RarityCount(r.value.item.head) <= 1
  {
    var c := 8 * pos;
    FreshSimple(data, c, t, names);
    var simple := SimpleOf(Fresh(), data, c, t, names);
    if simple.Ok? && simple.value.item.flags.isSimple != Some(true) {
      assert NoRarity(simple.value.item.head);
      var advanced := AdvancedOf(simple.value.item, data, simple.value.end, t, names);
    }
  }

  /** A parsed simple item keeps every advanced field as a new item has it. */
  lemma ParsedSimple(data: seq<byte>, pos: nat, t: ItemsData, names: Names)
    ensures var r := ItemAt(data, pos, t, names);
      r.Ok? && r.value.item.flags.isSimple == Some(true) ==>
        var w := r.value.item;
        w.head == Fresh().head && w.ids == Fresh().ids && w.extras == Fresh().extras && w.attrs == Fresh().attrs
  {
    var c := 8 * pos;
    FreshSimple(data, c, t, names);
    var simple := SimpleOf(Fresh(), data, c, t, names);
    if simple.Ok? && simple.value.item.flags.isSimple != Some(true) {
      var advanced := AdvancedOf(simple.value.item, data, simple.value.end, t, names);
    }
  }

  // ---------------------------------------------------------------------
  // The `name` property

  /**
   * `name`: the magic, rare, set, unique or runeword name by the item's ids,
   * else the base name; None where a table has no entry.
   */
  function ItemName(v: ItemValue, t: ItemsData): (r: Option<string>)
    ensures v.head.isMagical || v.head.isRare ==> r.Some?
    ensures NoRarity(v.head) && v.flags.isRuneword != Some(true) ==> r == v.base.baseName
  {
    if v.head.isMagical then Some(t.GetMagicName(v.ids.magicPrefixId, v.ids.magicSuffixId))
    else if v.head.isRare then Some(t.GetRareName(v.ids.rareFnameId, v.ids.rareSnameId))
    else if v.head.isSet then t.GetSetName(v.ids.setId)
    else if v.head.isUnique then t.GetUniqueName(v.ids.uniqueId)
    else if v.flags.isRuneword == Some(true) then t.GetRunewordName(v.ids.runewordId)
    else v.base.baseName
  }

  /**
   * The name of an item whose flags agree with its rarity, by rarity: a
   * crafted item, whose rare name ids are read, is still named by its base
   * name (or its runeword).
   */
  lemma NameByRarity(v: ItemValue, t: ItemsData)
    requires RarityAgrees(v.head)
    ensures v.head.rarity == Some(Q_MAGIC) ==> ItemName(v, t) == Some(t.GetMagicName(v.ids.magicPrefixId, v.ids.magicSuffixId))
    ensures v.head.rarity == Some(Q_RARE) ==> ItemName(v, t) == Some(t.GetRareName(v.ids.rareFnameId, v.ids.rareSnameId))
    ensures v.head.rarity == Some(Q_SET) ==> ItemName(v, t) == t.GetSetName(v.ids.setId)
    ensures v.head.rarity == Some(Q_UNIQUE) ==> ItemName(v, t) == t.GetUniqueName(v.ids.uniqueId)
    ensures v.head.rarity !in {Some(Q_MAGIC), Some(Q_RARE), Some(Q_SET), Some(Q_UNIQUE)} ==>
      ItemName(v, t) == if v.flags.isRuneword == Some(true) then t.GetRunewordName(v.ids.runewordId) else v.base.baseName
  {
  }

  /** A set item's name is found exactly when the set table holds its id. */
  lemma SetNameFound(v: ItemValue, t: ItemsData)
    requires v.head.isSet && !v.head.isMagical && !v.head.isRare
    ensures ItemName(v, t).Some? <==> Has(t.sets, v.ids.setId)
    ensures ItemName(v, t).Some? ==> ItemName(v, t).value == t.sets[v.ids.setId.value]
  {
  }

  /** `_align_byte` for a reader created at bit c: the padding up to the next byte boundary. */
  function Aligned(s: Step, c: nat): (r: Step)
    ensures r.item == s.item && s.end <= r.end < s.end + 8
    ensures s.end >= c ==> (r.end - c) % 8 == 0
  {
    if s.end >= c then Step(s.item, s.end + CalcBitsToAlign(s.end - c)) else s
  }

  /** A step that sets fields in place ended as its specification says. */
  ghost predicate Reached(o: Outcome, s: Result<Step>, v: ItemValue, cursor: nat)
  {
    match s
    case Ok(x) => o == Pass && v == x.item && cursor == x.end
    case Err(e) => o == Fail(e)
  }

  /** A list read in place ended as its specification says. */
  ghost predicate ListedAs<T>(r: Result<seq<T>>, s: Result<Listed<T>>, cursor: nat)
  {
    match s
    case Ok(x) => r == Ok(x.list) && cursor == x.end
    case Err(e) => r == Err(e)
  }


  lemma EarDone(v: ItemValue, data: seq<byte>, c: nat, c1: nat, t: ItemsData, names: Names, f: seq<nat>, bytes: seq<byte>, end: nat)
    requires f == Fields(data, c, EAR_RUN) && c1 == c + 10
    requires NullTermCodes(data, c1, 7).codes == Ok(bytes) && NullTermCodes(data, c1, 7).end == end
    ensures Reached(Pass, EarOf(v, data, c, t, names), v.(
        base := v.base.(code := Some("ear"), baseName := t.GetMiscName("ear")),
        ear := Ear(Lookup(names.classNames, f[0]), Some(f[1]), Some(Chars(bytes)))), end)
  {
  }

  lemma HeaderFailed(v: ItemValue, data: seq<byte>, c: nat, h: nat)
    requires h == LsbBits(data, c, 16) && h != HEADER
    ensures Reached(Fail(ItemParseError(InvalidItemHeaderId(h))), HeaderOf(v, data, c), v, 0)
  {
  }

  lemma HeaderDone(v: ItemValue, data: seq<byte>, c: nat, c1: nat, c2: nat, f: seq<nat>, g: seq<nat>, w: ItemValue, end: nat)
    requires LsbBits(data, c, 16) == HEADER
    requires c1 == c + 16 && c2 == c1 + Total(FLAG_RUN) && end == c2 + Total(PLACE_RUN)
    requires f == Fields(data, c1, FLAG_RUN) && g == Fields(data, c2, PLACE_RUN)
    requires w == v.(flags := FlagsOf(f), place := PlacementOf(g))
    ensures Reached(Pass, HeaderOf(v, data, c), w, end)
  {
    FlagRunTotal();
    PlaceRunTotal();
  }

  lemma RarityDone(v: ItemValue, data: seq<byte>, c: nat, f: seq<nat>, h: Head, w: ItemValue, end: nat)
    requires f == Fields(data, c, HEAD_RUN) && end == c + Total(HEAD_RUN)
    requires h == RarityFlags(v.head.(iid := Some(f[0]), level := Some(f[1]), rarity := Some(f[2])), f[2])
    requires w == v.(head := h)
    ensures Step(w, end) == RarityOf(v, data, c)
  {
    ShortRunTotals();
  }

  lemma RareDone(v: ItemValue, data: seq<byte>, c: nat, c1: nat, c2: nat, a: nat, b: nat, affixes: seq<nat>, w: ItemValue, end: nat)
    requires a == LsbBits(data, c, 8) && c1 == c + 8 && b == LsbBits(data, c1, 8) && c2 == c1 + 8
    requires Listed(affixes, end) == AffixesFrom(data, c2, 6, [])
    requires w == v.(ids := v.ids.(rareFnameId := Some(a), rareSnameId := Some(b), rareAffixes := Some(affixes)))
    ensures Step(w, end) == RareOf(v, data, c)
  {
  }

  lemma MagicIdsDone(v: ItemValue, data: seq<byte>, c: nat, c1: nat, a: nat, b: nat, w: ItemValue, end: nat)
    requires v.head.rarity != Some(Q_LOW) && v.head.rarity != Some(Q_HIGH) && v.head.isMagical
    requires a == LsbBits(data, c, 11) && c1 == c + 11 && b == LsbBits(data, c1, 11) && end == c1 + 11
    requires w == v.(ids := v.ids.(magicPrefixId := Some(a), magicSuffixId := Some(b)))
    ensures Step(w, end) == QualityOf(v, data, c)
  {
  }

  /** One slot of the affix loop whose presence bit is set: the id follows it. */
  lemma AffixTaken(data: seq<byte>, p: nat, n: nat, acc: seq<nat>, p1: nat, x: nat, p2: nat)
    requires n > 0 && LsbBits(data, p, 1) != 0 && p1 == p + 1 && x == LsbBits(data, p1, 11) && p2 == p1 + 11
    ensures AffixesFrom(data, p, n, acc) == AffixesFrom(data, p2, n - 1, acc + [x])
  {
  }

  /** One slot of the affix loop whose presence bit is clear. */
  lemma AffixSkipped(data: seq<byte>, p: nat, n: nat, acc: seq<nat>, p1: nat)
    requires n > 0 && LsbBits(data, p, 1) == 0 && p1 == p + 1
    ensures AffixesFrom(data, p, n, acc) == AffixesFrom(data, p1, n - 1, acc)
  {
  }

  lemma EarFailed(v: ItemValue, data: seq<byte>, c: nat, c1: nat, t: ItemsData, names: Names, e: Error)
    requires c1 == c + 10 && NullTermCodes(data, c1, 7).codes == Err(e)
    ensures Reached(Fail(e), EarOf(v, data, c, t, names), v, 0)
  {
  }

  // ---------------------------------------------------------------------
  // The `Item` object

  /**
   * `Item`: an item decoded from a byte stream. Its public attributes are
   * kept in one record, updated in place step by step as the parse proceeds.
   */
  class Item {
    /** `_reader`: the bit reader over the stream the item is read from. */
    const reader: ReverseBitReader
    /** `_items_data`: the item tables. */
    const itemsData: ItemsData
    /** The class and skill name tables the attribute texts use. */
    const names: Names
    /** The public attributes. */
    var value: ItemValue

    /** The attribute defaults of `__init__`, and a new reader at the stream's position. */
    constructor Start(stream: ByteStream, t: ItemsData, tables: Names)
      ensures value == Fresh() && itemsData == t && names == tables
      ensures fresh(reader) && reader.stream == stream && reader.origin == stream.pos
      ensures reader.Valid() && reader.bitsTotal == 0 && reader.Cursor() == 8 * stream.pos
    {
      value := Fresh();
      itemsData := t;
      names := tables;
      reader := new ReverseBitReader(stream);
    }

    /** The bytes of the stream under the reader. */
    function Data(): seq<byte>
    {
      reader.stream.data
    }

    /** `_parse_simple`. */
    method ParseSimple() returns (o: Outcome)
      requires reader.Valid()
      modifies this, reader, reader.stream
      ensures reader.Valid()
      ensures Reached(o, SimpleOf(old(value), Data(), old(reader.Cursor()), itemsData, names), value, reader.Cursor())
    {
      o := ParseHeader();
      if o.Fail? {
        return;
      }
      if value.flags.isEar == Some(true) {
        o := ParseEar();
      } else {
        ParseCode();
      }
    }

    /** The header check, the flags, the version and the placement. */
    method ParseHeader() returns (o: Outcome)
      requires reader.Valid()
      modifies this, reader, reader.stream
      ensures reader.Valid()
      ensures Reached(o, HeaderOf(old(value), Data(), old(reader.Cursor())), value, reader.Cursor())
    {
      ghost var v, c := value, reader.Cursor();
      var header := reader.Read(16);
      if header.value != HEADER {
        HeaderFailed(v, Data(), c, header.value);
        return Fail(ItemParseError(InvalidItemHeaderId(header.value)));
      }
      ghost var c1 := reader.Cursor();
      var f := reader.ReadEach(FLAG_RUN);
      ghost var c2 := reader.Cursor();
      var g := reader.ReadEach(PLACE_RUN);
      value := value.(flags := FlagsOf(f), place := PlacementOf(g));
      HeaderDone(v, Data(), c, c1, c2, f, g, value, reader.Cursor());
      o := Pass;
    }

    /** The ear branch of `_parse_simple`. */
    method ParseEar() returns (o: Outcome)
      requires reader.Valid()
      modifies this, reader, reader.stream
      ensures reader.Valid()
      ensures Reached(o, EarOf(old(value), Data(), old(reader.Cursor()), itemsData, names), value, reader.Cursor())
    {
      ShortRunTotals();
      ghost var v := value;
      ghost var c := reader.Cursor();
      var f := reader.ReadEach(EAR_RUN);
      ghost var c1 := reader.Cursor();
      value := value.(
        base := value.base.(code := Some("ear"), baseName := itemsData.GetMiscName("ear")),
        ear := value.ear.(earCharClass := Lookup(names.classNames, f[0]), earCharLevel := Some(f[1])));
      var name := reader.ReadNullTermBstr(7);
      if name.Err? {
        EarFailed(v, Data(), c, c1, itemsData, names, name.error);
        return Fail(name.error);
      }
      value := value.(ear := Ear(Lookup(names.classNames, f[0]), Some(f[1]), Some(Chars(name.value))));
      EarDone(v, Data(), c, c1, itemsData, names, f, name.value, reader.Cursor());
      o := Pass;
    }

    /** The code branch of `_parse_simple`: code, base type and name, inserted count. */
    method ParseCode()
      requires reader.Valid()
      modifies this, reader, reader.stream
      ensures reader.Valid()
      ensures Step(value, reader.Cursor()) == CodeOf(old(value), Data(), old(reader.Cursor()), itemsData)
    {
      CodeRunTotal();
      ghost var c := reader.Cursor();
      var f := reader.ReadEach(CODE_RUN);
      CodeFieldsBound(Data(), c);
      var code := CodeText(f);
      var kind := TypeOf(itemsData, code);
      value := value.(base := Base(Some(code), Some(kind.0), kind.1, Some(itemsData.IsQuantitative(code)), Some(f[4])));
      if f[4] > 0 {
        value := value.(socketedItems := Some([]));
      }
    }

    /** Item id, level, rarity, picture id and the class-specific bits. */
    method ParseHead()
      requires reader.Valid()
      modifies this, reader, reader.stream
      ensures reader.Valid()
      ensures Step(value, reader.Cursor()) == HeadOf(old(value), Data(), old(reader.Cursor()))
    {
      ParseRarity();
      ParsePicture();
      ParseClassSpecific();
    }

    /** Item id, level and rarity, and the flag the rarity raises. */
    method ParseRarity()
      requires reader.Valid()
      modifies this, reader, reader.stream
      ensures reader.Valid()
      ensures Step(value, reader.Cursor()) == RarityOf(old(value), Data(), old(reader.Cursor()))
    {
      ghost var v, c := value, reader.Cursor();
      var f := reader.ReadEach(HEAD_RUN);
      var head := value.head.(iid := Some(f[0]), level := Some(f[1]), rarity := Some(f[2]));
      if f[2] == Q_MAGIC {
        head := head.(isMagical := true);
      } else if f[2] == Q_RARE {
        head := head.(isRare := true);
      } else if f[2] == Q_SET {
        head := head.(isSet := true);
      } else if f[2] == Q_UNIQUE {
        head := head.(isUnique := true);
      } else if f[2] == Q_CRAFTED {
        head := head.(isCrafted := true);
      }
      value := value.(head := head);
      RarityDone(v, Data(), c, f, head, value, reader.Cursor());
    }

    /** The multiple-picture flag and the picture id. */
    method ParsePicture()
      requires reader.Valid()
      modifies this, reader, reader.stream
      ensures reader.Valid()
      ensures Step(value, reader.Cursor()) == PictureOf(old(value), Data(), old(reader.Cursor()))
    {
      ghost var v := value;
      ghost var c := reader.Cursor();
      var multiple := reader.Read(1);
      value := value.(head := value.head.(hasMultiplePic := Some(multiple.value != 0)));
      if multiple.value != 0 {
        var pic := reader.Read(3);
        PictureRead(v, Data(), c, multiple.value, pic);
        value := value.(head := value.head.(picId := pic));
      } else {
        PictureRead(v, Data(), c, multiple.value, None);
      }
    }

    /** The class-specific flag and the bits that follow it. */
    method ParseClassSpecific()
      requires reader.Valid()
      modifies this, reader, reader.stream
      ensures reader.Valid()
      ensures Step(value, reader.Cursor()) == ClassSpecificOf(old(value), Data(), old(reader.Cursor()))
    {
      var classSpecific := reader.Read(1);
      value := value.(head := value.head.(isClassSpecific := Some(classSpecific.value != 0)));
      if classSpecific.value != 0 {
        var _ := reader.Read(11);
      }
    }

    /** The six optional affixes of a rare or crafted item. */
    method ReadAffixes() returns (ids: seq<nat>)
      requires reader.Valid()
      modifies reader, reader.stream
      ensures reader.Valid()
      ensures Listed(ids, reader.Cursor()) == AffixesFrom(Data(), old(reader.Cursor()), 6, [])
    {
      ghost var whole := AffixesFrom(Data(), reader.Cursor(), 6, []);
      ids := [];
      for i := 0 to 6
        invariant reader.Valid()
        invariant AffixesFrom(Data(), reader.Cursor(), 6 - i, ids) == whole
      {
        ghost var p := reader.Cursor();
        var present := reader.Read(1);
        ghost var p1 := reader.Cursor();
        if present.value != 0 {
          var id := reader.Read(11);
          AffixTaken(Data(), p, 6 - i, ids, p1, id.value, reader.Cursor());
          ids := ids + [id.value];
        } else {
          AffixSkipped(Data(), p, 6 - i, ids, p1);
        }
      }
    }

    /** The name ids and the affixes of a rare or crafted item. */
    method ParseRare()
      requires reader.Valid()
      modifies this, reader, reader.stream
      ensures reader.Valid()
      ensures Step(value, reader.Cursor()) == RareOf(old(value), Data(), old(reader.Cursor()))
    {
      ghost var v, c := value, reader.Cursor();
      var fname := reader.Read(8);
      ghost var c1 := reader.Cursor();
      var sname := reader.Read(8);
      ghost var c2 := reader.Cursor();
      var affixes := ReadAffixes();
      value := value.(ids := value.ids.(rareFnameId := fname, rareSnameId := sname, rareAffixes := Some(affixes)));
      RareDone(v, Data(), c, c1, c2, fname.value, sname.value, affixes, value, reader.Cursor());
    }

    /** The ids of the rarity group. */
    method ParseQuality()
      requires reader.Valid()
      modifies this, reader, reader.stream
      ensures reader.Valid()
      ensures Step(value, reader.Cursor()) == QualityOf(old(value), Data(), old(reader.Cursor()))
    {
      if value.head.rarity == Some(Q_LOW) || value.head.rarity == Some(Q_HIGH) {
        var _ := reader.Read(3);
      } else if value.head.isMagical {
        ghost var v, c := value, reader.Cursor();
        var prefix := reader.Read(11);
        ghost var c1 := reader.Cursor();
        var suffix := reader.Read(11);
        value := value.(ids := value.ids.(magicPrefixId := prefix, magicSuffixId := suffix));
        MagicIdsDone(v, Data(), c, c1, prefix.value, suffix.value, value, reader.Cursor());
      } else if value.head.isSet {
        var id := reader.Read(12);
        value := value.(ids := value.ids.(setId := id));
      } else if value.head.isRare || value.head.isCrafted {
        ParseRare();
      } else if value.head.isUnique {
        var id := reader.Read(12);
        value := value.(ids := value.ids.(uniqueId := id));
      }
    }

    /** Runeword id, personalized name, the tome bits and the timestamp. */
    method ParseExtras() returns (o: Outcome)
      requires reader.Valid()
      modifies this, reader, reader.stream
      ensures reader.Valid()
      ensures Reached(o, ExtrasOf(old(value), Data(), old(reader.Cursor())), value, reader.Cursor())
    {
      ParseRuneword();
      o := ParsePersonalized();
      if o.Fail? {
        return;
      }
      ParseStamp();
    }

    /** A runeword's id and the four bits after it. */
    method ParseRuneword()
      requires reader.Valid()
      modifies this, reader, reader.stream
      ensures reader.Valid()
      ensures Step(value, reader.Cursor()) == RunewordOf(old(value), Data(), old(reader.Cursor()))
    {
      if value.flags.isRuneword == Some(true) {
        var id := reader.Read(12);
        value := value.(ids := value.ids.(runewordId := id));
        var _ := reader.Read(4);
      }
    }

    /** A personalized item's name. */
    method ParsePersonalized() returns (o: Outcome)
      requires reader.Valid()
      modifies this, reader, reader.stream
      ensures reader.Valid()
      ensures Reached(o, PersonalizedOf(old(value), Data(), old(reader.Cursor())), value, reader.Cursor())
    {
      if value.flags.isPersonalized == Some(true) {
        var name := reader.ReadNullTermBstr(7);
        if name.Err? {
          return Fail(name.error);
        }
        value := value.(extras := value.extras.(personalizedName := Some(name.value)));
      }
      o := Pass;
    }

    /** The bits of a tome and the timestamp. */
    method ParseStamp()
      requires reader.Valid()
      modifies this, reader, reader.stream
      ensures reader.Valid()
      ensures Step(value, reader.Cursor()) == StampOf(old(value), Data(), old(reader.Cursor()))
    {
      ghost var c := reader.Cursor();
      ghost var q := c;
      if IsTome(value.base.code) {
        var _ := reader.Read(5);
        q := c + 5;
      }
      var stamp := reader.Read(1);
      StampRead(value, Data(), c, q, stamp);
      value := value.(extras := value.extras.(timestamp := stamp));
    }

    /** Defense, durability, quantity and socket count. */
    method ParseArmor()
      requires reader.Valid()
      modifies this, reader, reader.stream
      ensures reader.Valid()
      ensures Step(value, reader.Cursor()) == ArmorOf(old(value), Data(), old(reader.Cursor()))
    {
      ParseDefense();
      ParseWear();
      ParseQuantity();
      ParseSockets();
    }

    /** The defense of an armor or a shield. */
    method ParseDefense()
      requires reader.Valid()
      modifies this, reader, reader.stream
      ensures reader.Valid()
      ensures Step(value, reader.Cursor()) == DefenseOf(old(value), Data(), old(reader.Cursor()))
    {
      if value.base.itype == Some(T_ARMOR) || value.base.itype == Some(T_SHIELD) {
        var defense := reader.Read(11);
        value := value.(extras := value.extras.(defenseRating := Some(defense.value - 10)));
      }
    }

    /** Maximum durability and, when it is not zero, the current durability. */
    method ParseWear()
      requires reader.Valid()
      modifies this, reader, reader.stream
      ensures reader.Valid()
      ensures Step(value, reader.Cursor()) == WearOf(old(value), Data(), old(reader.Cursor()))
    {
      if value.base.itype == Some(T_ARMOR) || value.base.itype == Some(T_SHIELD) || value.base.itype == Some(T_WEAPON) {
        ParseDurability();
      }
    }

    /** Maximum durability and, when it is not zero, the current durability and an unused bit. */
    method ParseDurability()
      requires reader.Valid()
      modifies this, reader, reader.stream
      ensures reader.Valid()
      ensures Step(value, reader.Cursor()) == DurabilityOf(old(value), Data(), old(reader.Cursor()))
    {
      var most := reader.Read(8);
      value := value.(extras := value.extras.(maxDurability := most));
      if most.value > 0 {
        var current := reader.Read(8);
        value := value.(extras := value.extras.(curDurability := current));
        var _ := reader.Read(1);
      }
    }

    /** The quantity of a quantitative item. */
    method ParseQuantity()
      requires reader.Valid()
      modifies this, reader, reader.stream
      ensures reader.Valid()
      ensures Step(value, reader.Cursor()) == QuantityOf(old(value), Data(), old(reader.Cursor()))
    {
      if value.base.isQuantitative == Some(true) {
        var quantity := reader.Read(9);
        value := value.(extras := value.extras.(quantity := quantity));
      }
    }

    /** The socket count of a socketed item. */
    method ParseSockets()
      requires reader.Valid()
      modifies this, reader, reader.stream
      ensures reader.Valid()
      ensures Step(value, reader.Cursor()) == SocketsOf(old(value), Data(), old(reader.Cursor()))
    {
      if value.flags.isSocketed == Some(true) {
        var sockets := reader.Read(4);
        value := value.(extras := value.extras.(socketCount := sockets));
      }
    }

    /**
     * `_parse_magic_attrs`: attributes up to the terminator, invisible ones
     * read and dropped. When only zero bits are left the source never stops
     * or fails on attribute 0; the loop reports that instead of running on.
     */
    method ParseMagicAttrs() returns (r: Result<seq<Rendered>>)
      requires reader.Valid()
      modifies reader, reader.stream
      ensures reader.Valid()
      ensures ListedAs(r, MagicAttrsFrom(Data(), old(reader.Cursor()), [], itemsData, names), reader.Cursor())
    {
      ghost var whole := MagicAttrsFrom(Data(), reader.Cursor(), [], itemsData, names);
      var list := [];
      while true
        invariant reader.Valid()
        invariant MagicAttrsFrom(Data(), reader.Cursor(), list, itemsData, names) == whole
        decreases if reader.Cursor() < 8 * |Data()| then 8 * |Data()| - reader.Cursor() else 0
      {
        if reader.Drained() {
          reader.DrainedZero();
          ZeroTailFrom(Data(), reader.Cursor(), list, itemsData, names);
          return Err(ZeroTail(itemsData));
        }
        reader.NotDrainedInside();
        ghost var p := reader.Cursor();
        var id := reader.Read(9);
        ghost var p1 := reader.Cursor();
        if id.value == END_OF_ATTRS {
          AttrsEnded(Data(), p, itemsData, names, p1);
          return Ok(list);
        }
        var attr := itemsData.GetMagicAttr(id.value);
        if attr.None? {
          AttrUnknown(Data(), p, itemsData, names, id.value);
          return Err(ItemParseError(UnknownMagicAttr(id.value)));
        }
        var a := attr.value;
        if 0 in a.bits {
          AttrZeroWidth(Data(), p, itemsData, names, id.value, a);
          return Err(TypeError);
        }
        var raw := reader.ReadEach(a.bits);
        var values := Biased(raw, a.bias);
        if a.invisible {
          AttrHidden(Data(), p, itemsData, names, id.value, a, p1, reader.Cursor());
          continue;
        }
        var args := Substitute(id.value, values, names);
        AttrShown(Data(), p, itemsData, names, id.value, a, p1, raw, reader.Cursor(), args);
        if args.Err? {
          return Err(args.error);
        }
        list := list + [Rendered(a.name, args.value)];
      }
    }

    /** The first attribute of each of `count` attribute lists. */
    method ReadSetExtras(count: nat) returns (r: Result<seq<Rendered>>)
      requires reader.Valid()
      modifies reader, reader.stream
      ensures reader.Valid()
      ensures ListedAs(r, SetExtrasFrom(Data(), old(reader.Cursor()), count, [], itemsData, names), reader.Cursor())
    {
      ghost var data, at := Data(), reader.Cursor();
      ghost var whole := SetExtrasFrom(data, at, count, [], itemsData, names);
      var extras := [];
      for i := 0 to count
        invariant reader.Valid() && Data() == data && reader.Cursor() == at
        invariant SetExtrasFrom(data, at, count - i, extras, itemsData, names) == whole
      {
        var next;
        next, at := ReadSetExtra(data, at, count - i, extras, whole);
        if next.Err? {
          return Err(next.error);
        }
        extras := next.value;
      }
      r := Ok(extras);
    }

    /** One turn of the set-extras loop: an attribute list, of which the first attribute is kept. */
    method ReadSetExtra(ghost data: seq<byte>, ghost p: nat, n: nat, extras: seq<Rendered>, ghost whole: Result<Listed<Rendered>>)
      returns (next: Result<seq<Rendered>>, ghost q: nat)
      requires reader.Valid() && n > 0 && data == Data() && p == reader.Cursor()
      requires SetExtrasFrom(data, p, n, extras, itemsData, names) == whole
      modifies reader, reader.stream
      ensures reader.Valid() && Data() == data && q == reader.Cursor()
      ensures next.Err? ==> whole == Err(next.error)
      ensures next.Ok? ==> SetExtrasFrom(data, q, n - 1, next.value, itemsData, names) == whole
    {
      var attrs := ParseMagicAttrs();
      q := reader.Cursor();
      SetExtrasStep(Data(), p, n, extras, itemsData, names, attrs, q);
      if attrs.Err? {
        return Err(attrs.error), q;
      }
      if |attrs.value| == 0 {
        return Err(IndexError), q;
      }
      next := Ok(extras + [attrs.value[0]]);
    }

    /** The set extras a set item's selector announces, and the set items it needs. */
    method ParseSet(selector: Option<nat>) returns (o: Outcome)
      requires reader.Valid()
      modifies this, reader, reader.stream
      ensures reader.Valid()
      ensures Reached(o, SetOf(old(value), Data(), old(reader.Cursor()), selector, itemsData, names), value, reader.Cursor())
    {
      var count := if selector.Some? then Lookup(SET_EXTRA_COUNTS, selector.value) else None;
      if count.Some? && count.value > 0 {
        var extras := ReadSetExtras(count.value);
        if extras.Err? {
          return Fail(extras.error);
        }
        value := value.(attrs := value.attrs.(setExtraAttrs := Some(extras.value)));
        if value.ids.setId != Some(0) {
          var counts := ReqItemsCount(selector.value);
          value := value.(attrs := value.attrs.(setReqItemsCount := Some(counts)));
        }
      }
      o := Pass;
    }

    /** The set selector, the magic attributes, the set extras and a runeword's attributes. */
    method ParseAttrs() returns (o: Outcome)
      requires reader.Valid()
      modifies this, reader, reader.stream
      ensures reader.Valid()
      ensures Reached(o, AttrsOf(old(value), Data(), old(reader.Cursor()), itemsData, names), value, reader.Cursor())
    {
      ghost var v, c := value, reader.Cursor();
      var selector: Option<nat> := None;
      if value.head.isSet {
        selector := reader.Read(5);
      }
      ghost var c1 := reader.Cursor();
      AttrsComposed(v, Data(), c, c1, selector, itemsData, names, ListsOf(v, Data(), c1, selector, itemsData, names));
      o := ParseLists(selector);
      if o.Fail? {
        return;
      }
      o := ParseRunewordAttrs();
    }

    /** The magic attributes, then the set extras. */
    method ParseLists(selector: Option<nat>) returns (o: Outcome)
      requires reader.Valid()
      modifies this, reader, reader.stream
      ensures reader.Valid()
      ensures Reached(o, ListsOf(old(value), Data(), old(reader.Cursor()), selector, itemsData, names), value, reader.Cursor())
    {
      var attrs := ParseMagicAttrs();
      if attrs.Err? {
        return Fail(attrs.error);
      }
      value := value.(attrs := value.attrs.(magicAttrs := Some(attrs.value)));
      o := ParseSet(selector);
    }

    /** A runeword's own attributes, appended to the magic attributes. */
    method ParseRunewordAttrs() returns (o: Outcome)
      requires reader.Valid()
      modifies this, reader, reader.stream
      ensures reader.Valid()
      ensures Reached(o, RunewordAttrsOf(old(value), Data(), old(reader.Cursor()), itemsData, names), value, reader.Cursor())
    {
      if value.flags.isRuneword == Some(true) {
        if value.attrs.magicAttrs.None? {
          return Fail(AttributeError);
        }
        var more := ParseMagicAttrs();
        if more.Err? {
          return Fail(more.error);
        }
        value := value.(attrs := value.attrs.(magicAttrs := Some(value.attrs.magicAttrs.value + more.value)));
      }
      o := Pass;
    }

    /** `_parse_advanced`. */
    method ParseAdvanced() returns (o: Outcome)
      requires reader.Valid()
      modifies this, reader, reader.stream
      ensures reader.Valid()
      ensures Reached(o, AdvancedOf(old(value), Data(), old(reader.Cursor()), itemsData, names), value, reader.Cursor())
    {
      ParseHead();
      ParseQuality();
      o := ParseExtras();
      if o.Fail? {
        return;
      }
      ParseArmor();
      o := ParseAttrs();
    }

    /** `_align_byte`: skip to the next byte boundary of the bits read by this reader. */
    method AlignByte()
      requires reader.Valid()
      modifies reader, reader.stream
      ensures reader.Valid()
      ensures reader.Cursor() == old(reader.Cursor()) + CalcBitsToAlign(old(reader.bitsTotal))
      ensures ByteAligned(reader.bitsTotal)
    {
      var _ := reader.Read(CalcBitsToAlign(reader.bitsTotal));
    }

    /** The parsing steps of `__init__` on a new reader: simple, advanced unless simple, alignment. */
    method Parse() returns (o: Outcome)
      requires reader.Valid() && reader.bitsTotal == 0
      modifies this, reader, reader.stream
      ensures reader.Valid()
      ensures Reached(o, ParsedFrom(old(value), Data(), old(reader.Cursor()), itemsData, names), value, reader.Cursor())
      ensures o.Pass? ==> reader.stream.pos == FetchedPos(reader.origin, reader.bitsTotal / 8, |Data()|)
    {
      ghost var v := value;
      ghost var c := reader.Cursor();
      o := ParseSections();
      if o.Fail? {
        return;
      }
      ghost var s := Step(value, reader.Cursor());
      AlignByte();
      reader.AlignedPos();
      ParsedAt(v, Data(), c, itemsData, names, s, reader.Cursor());
    }

    /** `_parse_simple`, then `_parse_advanced` unless the item is simple. */
    method ParseSections() returns (o: Outcome)
      requires reader.Valid()
      modifies this, reader, reader.stream
      ensures reader.Valid()
      ensures Reached(o, SectionsFrom(old(value), Data(), old(reader.Cursor()), itemsData, names), value, reader.Cursor())
    {
      o := ParseSimple();
      if o.Fail? {
        return;
      }
      if value.flags.isSimple != Some(true) {
        o := ParseAdvanced();
      }
    }
  }

  /** The items of the set a set item needs, from the bits of its selector. */
  method ReqItemsCount(selector: nat) returns (counts: seq<nat>)
    ensures counts == ReqItemsFrom(selector, 0)
  {
    counts := [];
    for offset := 0 to 5
      invariant counts + ReqItemsFrom(selector, offset) == ReqItemsFrom(selector, 0)
    {
      ReqItemsNext(selector, offset, counts, IsSetBit(selector, offset));
      if !IsSetBit(selector, offset) {
        continue;
      }
      counts := counts + [offset + 2];
    }
  }
}

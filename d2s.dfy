/**
 * The character save (`D2SFile` in `d2lib/files.py`): the 765-byte header
 * with its checksum, the bit-packed character attributes, and the item
 * lists of the corpse, the mercenary and the golem.
 *
 * The header is laid out at fixed offsets from where it starts; a read
 * past the end of the data returns fewer bytes, so every field is the
 * `Slice` at its offset (see `Streams.Synced`).
 */
module D2S {
  import opened Bits
  import opened Streams
  import opened Outcomes
  import opened BitReader
  import opened Storage
  import opened Items
  import opened ItemLists
  import opened Checksum

  const HEADER_ID: nat := 0xAA55AA55
  const MERC_ITEMS_HEADER: nat := 0x6A66
  const GOLEM_ITEM_HEADER: nat := 0x6B66
  const HEADER_SIZE: nat := 765

  /** `CharacterClass`: Amazon 0 .. Assassin 6. */
  const LAST_CHARACTER_CLASS: nat := 6

  /** The `Difficulty` values: normal, nightmare, hell. */
  const DIFFICULTIES: set<nat> := {0x800000, 0x8000, 0x80}

  /** The highest `Town` value (Harrogath). */
  const LAST_TOWN: nat := 4

  // ---------------------------------------------------------------------
  // Header values

  /** Header bytes 0..15: the id, the version, the file size and the stored checksum. */
  datatype Preamble = Preamble(version: nat, fileSize: nat, checksum: seq<byte>)

  /** Header bytes 16..119: who the character is. */
  datatype Profile = Profile(
    activeWeapon: nat,
    charName: string,
    charStatus: nat,
    progression: nat,
    charClass: nat,
    charLevel: nat,
    lastPlayed: nat,
    hotKeys: seq<byte>)

  /** Header bytes 120..170: the mouse skills, the look, the difficulty and the town. */
  datatype Look = Look(
    lmSkill: nat,
    rmSkill: nat,
    slmSkill: nat,
    srmSkill: nat,
    charAppearance: seq<byte>,
    difficulty: nat,
    town: nat)

  /** Header bytes 177..190: `is_dead_merc`, `merc_id`, `merc_name_id`, `merc_type`, `merc_experience`. */
  datatype Mercenary = Mercenary(isDead: bool, id: nat, nameId: nat, mercType: nat, experience: nat)

  /** Header bytes 171..764: the map, the mercenary and the progress tables. */
  datatype Progress = Progress(
    mapId: nat,
    merc: Mercenary,
    quests: seq<byte>,
    waypoints: seq<byte>,
    npcIntro: seq<byte>)

  /** Everything `_read_header` sets. */
  datatype Header = Header(preamble: Preamble, profile: Profile, look: Look, progress: Progress)

  // ---------------------------------------------------------------------
  // Bit operations and text

  /** Python's `x & y` on non-negative integers. */
  function And(x: nat, y: nat): (r: nat)
    ensures r <= x && r <= y
  {
    if x == 0 || y == 0 then 0
    else 2 * And(x / 2, y / 2) + (if x % 2 == 1 && y % 2 == 1 then 1 else 0)
  }

  /** Bit k of x & y is set exactly when bit k is set in both. */
  lemma {:induction false} AndBit(x: nat, y: nat, k: nat)
    ensures BitOf(And(x, y), k) == BitOf(x, k) * BitOf(y, k)
  {
    if x == 0 || y == 0 {
      ShrZero(k);
      if x == 0 {
        assert BitOf(x, k) == 0;
      } else {
        assert BitOf(y, k) == 0;
      }
    } else if k == 0 {
    } else {
      AndBit(x / 2, y / 2, k - 1);
      ShrHalf(And(x, y), k - 1);
      ShrHalf(x, k - 1);
      ShrHalf(y, k - 1);
      assert And(x, y) / 2 == And(x / 2, y / 2);
    }
  }

  /** `bytes.rstrip(b'\x00')`: the bytes without their trailing zeros. */
  function TrimZeros(b: seq<byte>): (r: seq<byte>)
    ensures |r| <= |b| && r == b[..|r|]
    ensures r == [] || r[|r| - 1] != 0
    ensures forall k :: |r| <= k < |b| ==> b[k] == 0
  {
    if b != [] && b[|b| - 1] == 0 then
      var r := TrimZeros(b[..|b| - 1]);
      assert b[..|b| - 1][..|r|] == b[..|r|];
      r
    else b
  }

  /** `bytes.decode('ASCII')`: refused at the first byte above 127. */
  function AsciiText(b: seq<byte>): (r: Result<string>)
    ensures r.Ok? <==> forall k :: 0 <= k < |b| ==> b[k] < 128
    ensures r.Ok? ==> |r.value| == |b| && forall k :: 0 <= k < |b| ==> r.value[k] as int == b[k]
    ensures r.Err? ==> exists k :: 0 <= k < |b| && b[k] >= 128 && r.error == ValueError(NotAscii(b[k]))
  {
    if b == [] then Ok([])
    else if b[0] >= 128 then Err(ValueError(NotAscii(b[0])))
    else
      match AsciiText(b[1..])
      case Err(e) => Err(e)
      case Ok(t) => Ok([b[0] as char] + t)
  }

  // ---------------------------------------------------------------------
  // `_read_header` as a function of the data, p being where it starts

  /** Bytes 0..15: a wrong id and a size below 765 are refused, in that order. */
  function PreambleAt(data: seq<byte>, p: nat): (r: Result<Preamble>)
    ensures r.Ok? <==> LeAt(data, p, 4) == HEADER_ID && LeAt(data, p + 8, 4) >= HEADER_SIZE
    ensures LeAt(data, p, 4) != HEADER_ID ==> r == Err(D2SFileParseError(InvalidHeaderId(LeAt(data, p, 4))))
    ensures r.Ok? ==> r.value.fileSize >= HEADER_SIZE && r.value.checksum == Slice(data, p + 12, 4)
  {
    var headerId := LeAt(data, p, 4);
    if headerId != HEADER_ID then Err(D2SFileParseError(InvalidHeaderId(headerId)))
    else
      var fileSize := LeAt(data, p + 8, 4);
      if fileSize < HEADER_SIZE then Err(D2SFileParseError(InvalidFileSize(fileSize)))
      else Ok(Preamble(LeAt(data, p + 4, 4), fileSize, Slice(data, p + 12, 4)))
  }

  /** Bytes 16..119: the name must be ASCII and the class one of the seven. */
  function ProfileAt(data: seq<byte>, p: nat): (r: Result<Profile>)
    ensures r.Ok? ==> r.value.charClass <= LAST_CHARACTER_CLASS
    ensures r.Ok? ==> |r.value.charName| <= 16 && (r.value.charName == [] || r.value.charName[|r.value.charName| - 1] != 0 as char)
    ensures r.Ok? ==> forall k :: 0 <= k < |r.value.charName| ==> r.value.charName[k] as int < 128
  {
    match AsciiText(TrimZeros(Slice(data, p + 20, 16)))
    case Err(e) => Err(e)
    case Ok(name) =>
      var classId := LeAt(data, p + 40, 1);
      if classId > LAST_CHARACTER_CLASS then Err(ValueError(NotCharacterClass(classId)))
      else
        Ok(Profile(
          LeAt(data, p + 16, 4), name, LeAt(data, p + 36, 1), LeAt(data, p + 37, 1),
          classId, LeAt(data, p + 43, 1), LeAt(data, p + 48, 4), Slice(data, p + 56, 64)))
  }

  /**
   * The four mouse skills from offset q, the k-th on: each must be a skill
   * (`Skill(id)`), and the first that is not is named.
   */
  function SkillsFrom(data: seq<byte>, q: nat, k: nat, acc: seq<nat>, names: Names): (r: Result<seq<nat>>)
    requires k <= 4
    ensures r.Ok? ==> |r.value| == |acc| + 4 - k && r.value[..|acc|] == acc
    ensures r.Ok? ==> forall j :: |acc| <= j < |r.value| ==> r.value[j] in names.skills
    decreases 4 - k
  {
    if k == 4 then Ok(acc)
    else
      var id := LeAt(data, q + 4 * k, 4);
      if id !in names.skills then Err(ValueError(NotSkill(id)))
      else
        var r := SkillsFrom(data, q, k + 1, acc + [id], names);
        assert r.Ok? ==> r.value[..|acc|] == (acc + [id])[..|acc|];
        r
  }

  /** One mouse skill: a skill id moves on to the next, any other id is refused. */
  lemma SkillsStep(data: seq<byte>, q: nat, k: nat, acc: seq<nat>, names: Names, at: nat, id: nat)
    requires k < 4 && at == q + 4 * k && id == LeAt(data, at, 4)
    ensures id !in names.skills ==> SkillsFrom(data, q, k, acc, names) == Err(ValueError(NotSkill(id)))
    ensures id in names.skills ==> SkillsFrom(data, q, k, acc, names) == SkillsFrom(data, q, k + 1, acc + [id], names)
  {
  }

  /** `Difficulty(d & 0x808080)` and `Town(d & 0x070707)` of the three difficulty bytes. */
  function DifficultyTown(d: nat): (r: Result<(nat, nat)>)
    ensures r.Ok? <==> And(d, 0x808080) in DIFFICULTIES && And(d, 0x070707) <= LAST_TOWN
    ensures r.Ok? ==> r.value.0 in DIFFICULTIES && r.value.1 <= LAST_TOWN
  {
    var difficulty := And(d, 0x808080);
    var town := And(d, 0x070707);
    if difficulty !in DIFFICULTIES then Err(ValueError(NotDifficulty(difficulty)))
    else if town > LAST_TOWN then Err(ValueError(NotTown(town)))
    else Ok((difficulty, town))
  }

  /** Bytes 120..170: four skills, the appearance, difficulty and town. */
  function LookAt(data: seq<byte>, p: nat, names: Names): (r: Result<Look>)
    ensures r.Ok? ==> r.value.difficulty in DIFFICULTIES && r.value.town <= LAST_TOWN
    ensures r.Ok? ==> r.value.lmSkill in names.skills && r.value.rmSkill in names.skills
    ensures r.Ok? ==> r.value.slmSkill in names.skills && r.value.srmSkill in names.skills
  {
    match SkillsFrom(data, p + 120, 0, [], names)
    case Err(e) => Err(e)
    case Ok(skills) =>
      match DifficultyTown(BigEndian(Slice(data, p + 168, 3)))
      case Err(e) => Err(e)
      case Ok(dt) => Ok(Look(skills[0], skills[1], skills[2], skills[3], Slice(data, p + 136, 32), dt.0, dt.1))
  }

  /** Bytes 171..764: read as they are, nothing checked. */
  function ProgressAt(data: seq<byte>, p: nat): Progress
  {
    Progress(
      LeAt(data, p + 171, 4), MercenaryAt(data, p),
      Slice(data, p + 335, 298), Slice(data, p + 633, 81), Slice(data, p + 714, 51))
  }

  /** Bytes 177..190: the mercenary, dead when its 16-bit flag is not zero. */
  function MercenaryAt(data: seq<byte>, p: nat): Mercenary
  {
    Mercenary(
      LeAt(data, p + 177, 2) != 0, LeAt(data, p + 179, 4),
      LeAt(data, p + 183, 2), LeAt(data, p + 185, 2), LeAt(data, p + 187, 4))
  }

  /**
   * `_read_header` from byte p: the id, the size and then the checksum of
   * the first `file_size` bytes are checked first; the name, the class, the
   * skills, the difficulty and the town after.
   */
  function HeaderAt(data: seq<byte>, p: nat, names: Names): (r: Result<Header>)
    ensures PreambleAt(data, p).Err? ==> r == Err(PreambleAt(data, p).error)
    ensures r.Ok? ==> r.value.preamble.fileSize >= HEADER_SIZE
    ensures r.Ok? ==> r.value.preamble.checksum == ChecksumBytes(data, r.value.preamble.fileSize)
    ensures r.Ok? ==> r.value.profile.charClass <= LAST_CHARACTER_CLASS
    ensures r.Ok? ==> r.value.look.difficulty in DIFFICULTIES && r.value.look.town <= LAST_TOWN
  {
    match PreambleAt(data, p)
    case Err(e) => Err(e)
    case Ok(pre) =>
      var expected := ChecksumBytes(data, pre.fileSize);
      if pre.checksum != expected then Err(D2SFileParseError(ChecksumMismatch(pre.checksum, expected)))
      else
        match ProfileAt(data, p)
        case Err(e) => Err(e)
        case Ok(profile) =>
          match LookAt(data, p, names)
          case Err(e) => Err(e)
          case Ok(look) => Ok(Header(pre, profile, look, ProgressAt(data, p)))
  }

  /** A header whose stored checksum differs from the computed one is refused and both are named. */
  lemma ChecksumChecked(data: seq<byte>, p: nat, names: Names)
    requires PreambleAt(data, p).Ok?
    requires Slice(data, p + 12, 4) != ChecksumBytes(data, LeAt(data, p + 8, 4))
    ensures HeaderAt(data, p, names) ==
      Err(D2SFileParseError(ChecksumMismatch(Slice(data, p + 12, 4), ChecksumBytes(data, LeAt(data, p + 8, 4)))))
  {
  }

  /**
   * Writing the computed checksum into bytes 12..15 of a save starting at 0
   * makes its stored checksum match: the check can always be met.
   */
  lemma StoredChecksumMatches(data: seq<byte>, fileSize: nat, sealed: seq<byte>)
    requires |data| >= 16
    requires sealed == data[..12] + ChecksumBytes(data, fileSize) + data[16..]
    ensures Slice(sealed, 12, 4) == ChecksumBytes(sealed, fileSize)
  {
    assert |sealed| == |data|;
    forall k | 0 <= k < |data| && !(CHECKSUM_OFFSET <= k < CHECKSUM_OFFSET + CHECKSUM_SIZE)
      ensures data[k] == sealed[k]
    {
      if k >= 16 {
        assert sealed[k] == data[16..][k - 16];
      }
    }
    ChecksumIgnoresStored(data, sealed, fileSize);
    assert Slice(sealed, 12, 4) == sealed[12..16];
  }

  // ---------------------------------------------------------------------
  // `_read_attributes` as a function of the data

  const END_OF_ATTRIBUTES: nat := 0x1FF

  /** `_ATTRIBUTE_VALUE_SIZES`, indexed by `CharacterAttribute`. */
  const ATTRIBUTE_VALUE_SIZES: seq<nat> := [10, 10, 10, 10, 10, 8, 21, 21, 21, 21, 21, 21, 7, 32, 25, 25]

  /**
   * A value of the attributes dictionary: an `int`, or the `float`
   * `in256ths / 256` kept as its exact numerator (at most 21 bits, so the
   * double is exact).
   */
  datatype AttrValue = Int(n: nat) | Float(in256ths: nat)

  /** CURRENT_HP .. MAX_STAMINA, the attributes stored in 256ths. */
  predicate InFractions(id: nat)
  {
    6 <= id <= 11
  }

  /** A `CharacterAttribute` value. */
  predicate IsAttribute(id: nat)
  {
    id < |ATTRIBUTE_VALUE_SIZES|
  }

  /** `dict.fromkeys(CharacterAttribute, 0)`. */
  function DefaultAttributes(): (r: map<nat, AttrValue>)
    ensures forall id :: id in r <==> IsAttribute(id)
  {
    map id: nat | id < |ATTRIBUTE_VALUE_SIZES| && IsAttribute(id) :: Int(0)
  }

  /** What a value of attribute id can be: its width's range, in 256ths where it is stored so. */
  predicate Fits(id: nat, v: AttrValue)
    requires id < |ATTRIBUTE_VALUE_SIZES|
  {
    if InFractions(id) then v == Int(0) || (v.Float? && v.in256ths < Pow2(ATTRIBUTE_VALUE_SIZES[id]))
    else v.Int? && v.n < Pow2(ATTRIBUTE_VALUE_SIZES[id])
  }

  /** Every key is an attribute and every value fits it. */
  predicate AllFit(attrs: map<nat, AttrValue>)
  {
    forall id :: id in attrs ==> id < |ATTRIBUTE_VALUE_SIZES| && Fits(id, attrs[id])
  }

  /** What one turn of the attribute loop makes of the bits at p. */
  datatype CharAttrStep =
    | Done(end: nat)
    | Refused(error: Error)
    | Assigned(id: nat, value: AttrValue, next: nat)

  /** One turn: a 9-bit id, then a value of the id's width. */
  function CharAttrAt(data: seq<byte>, p: nat): (r: CharAttrStep)
    ensures r.Done? <==> LsbBits(data, p, 9) == END_OF_ATTRIBUTES
    ensures r.Done? ==> r.end == p + 9
    ensures r.Assigned? ==> r.next > p + 9 && r.id < |ATTRIBUTE_VALUE_SIZES| && Fits(r.id, r.value)
  {
    var id := LsbBits(data, p, 9);
    if id == END_OF_ATTRIBUTES then Done(p + 9)
    else if id >= |ATTRIBUTE_VALUE_SIZES| then Refused(ValueError(NotCharacterAttribute(id)))
    else
      var width := ATTRIBUTE_VALUE_SIZES[id];
      var raw := LsbBits(data, p + 9, width);
      LsbBitsBound(data, p + 9, width);
      var value := if InFractions(id) then Float(raw) else Int(raw);
      Assigned(id, value, p + 9 + width)
  }

  /** The attributes read and the bit after the terminator. */
  datatype Attributes = Attributes(values: map<nat, AttrValue>, end: nat)

  /**
   * The loop of `_read_attributes` from bit p with `attrs` so far. Past the
   * data every bit reads as zero, and the loop would assign strength 0 for
   * ever: `NonTerminating`.
   */
  function CharAttrsFrom(data: seq<byte>, p: nat, attrs: map<nat, AttrValue>): (r: Result<Attributes>)
    ensures r.Ok? ==> r.value.end >= p + 9
    decreases if p < 8 * |data| then 8 * |data| - p else 0
  {
    if p >= 8 * |data| then Err(NonTerminating)
    else match CharAttrAt(data, p)
      case Done(end) => Ok(Attributes(attrs, end))
      case Refused(e) => Err(e)
      case Assigned(id, value, next) => CharAttrsFrom(data, next, attrs[id := value])
  }

  /**
   * The attributes keep the keys they start with, gain only attribute keys,
   * and every value fits its attribute.
   */
  lemma {:induction false} CharAttrsFit(data: seq<byte>, p: nat, attrs: map<nat, AttrValue>)
    requires AllFit(attrs)
    ensures var r := CharAttrsFrom(data, p, attrs);
      r.Ok? ==> AllFit(r.value.values) && attrs.Keys <= r.value.values.Keys
    decreases if p < 8 * |data| then 8 * |data| - p else 0
  {
    if p < 8 * |data| {
      var step := CharAttrAt(data, p);
      if step.Assigned? {
        CharAttrsFit(data, step.next, attrs[step.id := step.value]);
      }
    }
  }

  /** Starting from the defaults, the result holds exactly the 16 attributes, each fitting. */
  lemma AttributesFromDefaults(data: seq<byte>, p: nat)
    ensures var r := CharAttrsFrom(data, p, DefaultAttributes());
      r.Ok? ==> AllFit(r.value.values) && forall id :: id in r.value.values <==> IsAttribute(id)
  {
    var d := DefaultAttributes();
    forall id | id in d
      ensures id < |ATTRIBUTE_VALUE_SIZES| && Fits(id, d[id])
    {
      Pow2Positive(ATTRIBUTE_VALUE_SIZES[id]);
    }
    CharAttrsFit(data, p, d);
  }

  lemma Pow2Positive(n: nat)
    ensures Pow2(n) > 0
  {
  }

  /** Once only zero bits are left, the loop never ends. */
  lemma {:induction false} ZeroBitsNeverEnd(data: seq<byte>, p: nat, attrs: map<nat, AttrValue>)
    requires ZeroFrom(data, p)
    ensures CharAttrsFrom(data, p, attrs) == Err(NonTerminating)
    decreases if p < 8 * |data| then 8 * |data| - p else 0
  {
    if p < 8 * |data| {
      LsbBitsZeroFrom(data, p, 9);
      LsbBitsZeroFrom(data, p + 9, ATTRIBUTE_VALUE_SIZES[0]);
      var step := CharAttrAt(data, p);
      assert step == Assigned(0, Int(0), p + 9 + ATTRIBUTE_VALUE_SIZES[0]);
      ZeroFromLater(data, p, step.next);
      ZeroBitsNeverEnd(data, step.next, attrs[0 := Int(0)]);
    }
  }

  // ---------------------------------------------------------------------
  // The item lists after the skills

  /**
   * `_read_corpse_items` from byte p: a big-endian header and a 16-bit
   * "is dead" word; a dead character with the "JM" header has twelve bytes
   * skipped and an item list, any other none.
   */
  function CorpseItemsAt(data: seq<byte>, p: nat, t: ItemsData, names: Names): (r: Result<Listed<ItemValue>>)
    ensures r.Ok? && r.value.list != [] ==> BigEndian(Slice(data, p, 2)) == ITEMS_HEADER && LeAt(data, p + 2, 2) != 0
  {
    var head := Slice(data, p, 2);
    var q := p + |head|;
    var dead := Slice(data, q, 2);
    var q2 := q + |dead|;
    if LittleEndian(dead) != 0 && BigEndian(head) == ITEMS_HEADER then
      HeaderTwoBytes(head);
      ItemListFrom(data, q2 + 12, false, t, names)
    else Ok(Listed([], q2))
  }

  /**
   * `_read_merc_items` from byte p: an item list after the "jf" header, but
   * only for a character with a mercenary (`merc_id` not zero).
   */
  function MercItemsAt(data: seq<byte>, p: nat, mercId: nat, t: ItemsData, names: Names): (r: Result<Listed<ItemValue>>)
    ensures r.Ok? && r.value.list != [] ==> BigEndian(Slice(data, p, 2)) == MERC_ITEMS_HEADER && mercId != 0
  {
    var head := Slice(data, p, 2);
    var q := p + |head|;
    if BigEndian(head) == MERC_ITEMS_HEADER && mercId != 0 then ItemListFrom(data, q, false, t, names)
    else Ok(Listed([], q))
  }

  /** The golem's item, if any, and the byte after what was read. */
  datatype Golem = Golem(item: Option<ItemValue>, end: nat)

  /**
   * `_read_golem_item` from byte p: after the "kf" header and a "has golem"
   * byte, the first item of a one-record list.
   */
  function GolemItemAt(data: seq<byte>, p: nat, t: ItemsData, names: Names): (r: Result<Golem>)
    ensures r.Ok? && r.value.item.Some? ==> BigEndian(Slice(data, p, 2)) == GOLEM_ITEM_HEADER
    ensures r.Ok? && r.value.item.Some? ==> !InSocket(r.value.item.value)
  {
    var head := Slice(data, p, 2);
    var has := Slice(data, p + |head|, 1);
    var q := p + |head| + |has|;
    ListedAreTopLevel(data, q, true, t, names);
    GolemAfter(data, head, has, q, t, names)
  }

  /** What `_read_golem_item` makes of the header and the "has golem" byte read, the stream standing on byte q. */
  function GolemAfter(data: seq<byte>, head: seq<byte>, has: seq<byte>, q: nat, t: ItemsData, names: Names): Result<Golem>
  {
    if LittleEndian(has) != 0 && BigEndian(head) == GOLEM_ITEM_HEADER then
      FirstListed(ItemListFrom(data, q, true, t, names))
    else Ok(Golem(None, q))
  }

  /** The header and the byte read decide `_read_golem_item` as `GolemAfter` says. */
  lemma GolemIsAfter(data: seq<byte>, p: nat, head: seq<byte>, has: seq<byte>, t: ItemsData, names: Names)
    requires head == Slice(data, p, 2) && has == Slice(data, p + |head|, 1)
    ensures GolemItemAt(data, p, t, names) == GolemAfter(data, head, has, p + |head| + |has|, t, names)
  {
  }

  /** Item 0 of a list (`_read_items(skip=True)[0]`); an empty list would be an IndexError. */
  function FirstListed(listed: Result<Listed<ItemValue>>): (r: Result<Golem>)
    ensures r.Ok? <==> listed.Ok? && listed.value.list != []
    ensures r.Ok? ==> r.value.item == Some(listed.value.list[0]) && r.value.end == listed.value.end
  {
    match listed
    case Err(e) => Err(e)
    case Ok(x) => if x.list == [] then Err(IndexError) else Ok(Golem(Some(x.list[0]), x.end))
  }

  /**
   * A list read with the header skipped holds at least its one record, so
   * taking item 0 of it never raises the IndexError.
   */
  lemma GolemListNeverEmpty(data: seq<byte>, q: nat, t: ItemsData, names: Names)
    ensures var listed := ItemListFrom(data, q, true, t, names);
      FirstListed(listed).Ok? <==> listed.Ok?
  {
    SkippedHeaderReadsOne(data, q, t, names);
  }

  /** The golem item read in place holds the value the specification gives. */
  ghost predicate GolemReadAs(r: Result<Option<Item>>, s: Result<Golem>, pos: nat)
    reads if r.Ok? && r.value.Some? then {r.value.value} else {}
  {
    match s
    case Ok(g) =>
      && r.Ok? && pos == g.end
      && (g.item.None? <==> r.value.None?)
      && (g.item.Some? ==> r.value.value.value == g.item.value)
    case Err(e) => r == Err(e)
  }

  /** `_read_attributes` ended as the specification says, the stream after its last byte. */
  ghost predicate AttributesRead(r: Result<map<nat, AttrValue>>, s: Result<Attributes>, pos: nat, q: nat, len: nat)
  {
    match s
    case Ok(a) => r == Ok(a.values) && a.end >= 8 * q && pos == FetchedPos(q, (a.end - 8 * q + 7) / 8, len)
    case Err(e) => r == Err(e)
  }

  /** `_read_header` ended as the specification says. */
  ghost predicate HeaderRead(o: Outcome, s: Result<Header>, header: Option<Header>)
  {
    match s
    case Ok(h) => o == Pass && header == Some(h)
    case Err(e) => o == Fail(e)
  }

  /** What one turn of the attribute loop read: nothing after the terminator, or an id and its value. */
  ghost predicate TurnRead(o: Result<Option<(nat, AttrValue)>>, s: CharAttrStep, cursor: nat)
  {
    match s
    case Done(end) => o == Ok(None) && cursor == end
    case Refused(e) => o == Err(e)
    case Assigned(id, value, next) => o == Ok(Some((id, value))) && cursor == next
  }

  /** Every attribute value is at least one bit wide. */
  lemma WidthsPositive(id: nat)
    requires id < |ATTRIBUTE_VALUE_SIZES|
    ensures ATTRIBUTE_VALUE_SIZES[id] > 0
  {
  }

  /** The terminator id ends the turn at the bit after it. */
  lemma CharAttrEnds(data: seq<byte>, c: nat)
    requires LsbBits(data, c, 9) == END_OF_ATTRIBUTES
    ensures CharAttrAt(data, c) == Done(c + 9)
  {
  }

  /** An id above the last attribute is the ValueError of `CharacterAttribute(id)`. */
  lemma CharAttrRefused(data: seq<byte>, c: nat, id: nat)
    requires id == LsbBits(data, c, 9) && id != END_OF_ATTRIBUTES && id >= |ATTRIBUTE_VALUE_SIZES|
    ensures CharAttrAt(data, c) == Refused(ValueError(NotCharacterAttribute(id)))
  {
  }

  /** An attribute id and the value after it, stored in 256ths for the fraction attributes. */
  lemma CharAttrAssigned(data: seq<byte>, c: nat, id: nat, raw: nat, next: nat)
    requires id == LsbBits(data, c, 9) && id != END_OF_ATTRIBUTES && id < |ATTRIBUTE_VALUE_SIZES|
    requires raw == LsbBits(data, c + 9, ATTRIBUTE_VALUE_SIZES[id]) && next == c + 9 + ATTRIBUTE_VALUE_SIZES[id]
    ensures CharAttrAt(data, c) == Assigned(id, if InFractions(id) then Float(raw) else Int(raw), next)
  {
  }

  /** One turn of the `_read_attributes` loop on the bit reader. */
  method ReadCharAttr(bits: ReverseBitReader, ghost data: seq<byte>, ghost c: nat) returns (o: Result<Option<(nat, AttrValue)>>)
    requires bits.Valid() && data == bits.stream.data && c == bits.Cursor()
    modifies bits, bits.stream
    ensures bits.Valid() && bits.Cursor() >= c
    ensures TurnRead(o, CharAttrAt(data, c), bits.Cursor())
  {
    var id := bits.Read(9);
    if id.value == END_OF_ATTRIBUTES {
      CharAttrEnds(data, c);
      return Ok(None);
    }
    if id.value >= |ATTRIBUTE_VALUE_SIZES| {
      CharAttrRefused(data, c, id.value);
      return Err(ValueError(NotCharacterAttribute(id.value)));
    }
    var width := ATTRIBUTE_VALUE_SIZES[id.value];
    WidthsPositive(id.value);
    var value := bits.Read(width);
    var v := if InFractions(id.value) then Float(value.value) else Int(value.value);
    CharAttrAssigned(data, c, id.value, value.value, bits.Cursor());
    return Ok(Some((id.value, v)));
  }

  /**
   * The loop of `_read_attributes` on the bit reader, from `attrs`. When
   * only zero bits are left the source would assign strength 0 for ever;
   * the loop reports `NonTerminating` instead.
   */
  method ReadCharAttrs(bits: ReverseBitReader, attrs: map<nat, AttrValue>, ghost start: nat, ghost origin: nat)
    returns (r: Result<map<nat, AttrValue>>)
    requires bits.Valid() && start == bits.Cursor() && origin == bits.origin
    modifies bits, bits.stream
    ensures bits.Valid()
    ensures AttributesRead(r, CharAttrsFrom(bits.stream.data, start, attrs), bits.stream.pos, origin, |bits.stream.data|)
  {
    ghost var data := bits.stream.data;
    ghost var whole := CharAttrsFrom(data, bits.Cursor(), attrs);
    var attributes: map<nat, AttrValue> := attrs;
    while true
      invariant bits.Valid()
      invariant CharAttrsFrom(data, bits.Cursor(), attributes) == whole
      decreases if bits.Cursor() < 8 * |data| then 8 * |data| - bits.Cursor() else 0
    {
      if bits.Drained() {
        bits.DrainedZero();
        ZeroBitsNeverEnd(data, bits.Cursor(), attributes);
        return Err(NonTerminating);
      }
      bits.NotDrainedInside();
      var turn := ReadCharAttr(bits, data, bits.Cursor());
      if turn.Err? {
        return Err(turn.error);
      }
      if turn.value.None? {
        FetchedAfter(data, origin, bits.fetched, bits.bitsTotal, bits.bitsRead, bits.stream.pos, whole.value.end);
        return Ok(attributes);
      }
      var (id, value) := turn.value.value;
      attributes := attributes[id := value];
    }
  }

  /** One more byte of the checksum loop. */
  lemma ChecksumStep(data: seq<byte>, n: nat, c: int, b: nat)
    requires c == ChecksumUpTo(data, n) && b == SummedByte(data, n)
    ensures ChecksumUpTo(data, n + 1) == Int32(2 * c + b + (if c < 0 then 1 else 0))
  {
  }

  /** A reader that fetched whole bytes stands after the last byte it needed. */
  lemma FetchedAfter(data: seq<byte>, q: nat, fetched: nat, total: nat, buffered: nat, pos: nat, end: nat)
    requires buffered < 8 && 8 * fetched == total + buffered
    requires pos == FetchedPos(q, fetched, |data|) && end == 8 * q + total
    ensures end >= 8 * q && pos == FetchedPos(q, (end - 8 * q + 7) / 8, |data|)
  {
    assert fetched == (total + 7) / 8;
  }

  /** One byte of the checksum loop: the byte read, or 0 inside the stored checksum or past the end. */
  lemma SummedByteRead(data: seq<byte>, read: nat, bytes: seq<byte>, b: nat)
    requires bytes == Slice(data, Min(read, |data|), 1)
    requires b == if CHECKSUM_OFFSET <= read < CHECKSUM_OFFSET + CHECKSUM_SIZE then 0 else LittleEndian(bytes)
    ensures b == SummedByte(data, read)
  {
    SliceOne(data, Min(read, |data|));
  }

  /** A character save being read (`D2SFile`): its stream, the tables, and the header once read. */
  class D2SFile {
    const reader: ByteStream
    const itemsData: ItemsData
    const names: Names
    var header: Option<Header>

    constructor (reader: ByteStream, itemsData: ItemsData, names: Names)
      ensures this.reader == reader && this.itemsData == itemsData && this.names == names
      ensures header == None
    {
      this.reader := reader;
      this.itemsData := itemsData;
      this.names := names;
      header := None;
    }

    /**
     * `_calc_checksum`: the checksum of the first `fileSize` bytes from the
     * start of the stream; the stream is put back where it was.
     */
    method CalcChecksum(fileSize: nat) returns (checksum: seq<byte>)
      modifies reader
      ensures checksum == ChecksumBytes(reader.data, fileSize)
      ensures reader.pos == old(reader.pos)
    {
      var read := 0;
      var c := 0;
      var currPos := reader.pos;
      reader.Seek(0);
      while read < fileSize
        invariant read <= fileSize
        invariant reader.pos == Min(read, |reader.data|)
        invariant c == ChecksumUpTo(reader.data, read)
      {
        var bytes := reader.Read(1);
        var b := LittleEndian(bytes);
        if CHECKSUM_OFFSET <= read < CHECKSUM_OFFSET + CHECKSUM_SIZE {
          b := 0;
        }
        SummedByteRead(reader.data, read, bytes, b);
        ChecksumStep(reader.data, read, c, b);
        c := Int32(2 * c + b + (if c < 0 then 1 else 0));
        read := read + 1;
      }
      reader.Seek(currPos);
      checksum := SignedLittleEndian4(c);
    }

    /** Header bytes 0..15 from p. */
    method ReadPreamble(ghost p: nat) returns (r: Result<Preamble>)
      requires Synced(reader.pos, p, |reader.data|)
      modifies reader
      ensures r == PreambleAt(reader.data, p)
      ensures r.Ok? ==> Synced(reader.pos, p + 16, |reader.data|)
    {
      var idBytes := reader.ReadAt(4, p);
      var headerId := LittleEndian(idBytes);
      if headerId != HEADER_ID {
        return Err(D2SFileParseError(InvalidHeaderId(headerId)));
      }
      var versionBytes := reader.ReadAt(4, p + 4);
      var sizeBytes := reader.ReadAt(4, p + 8);
      var fileSize := LittleEndian(sizeBytes);
      if fileSize < HEADER_SIZE {
        return Err(D2SFileParseError(InvalidFileSize(fileSize)));
      }
      var stored := reader.ReadAt(4, p + 12);
      return Ok(Preamble(LittleEndian(versionBytes), fileSize, stored));
    }

    /** Header bytes 16..119 from p. */
    method ReadProfile(ghost p: nat) returns (r: Result<Profile>)
      requires Synced(reader.pos, p + 16, |reader.data|)
      modifies reader
      ensures r == ProfileAt(reader.data, p)
      ensures r.Ok? ==> Synced(reader.pos, p + 120, |reader.data|)
    {
      var weapon, name := ReadWeaponAndName(p);
      if name.Err? {
        return Err(name.error);
      }
      var status, progression, classId := ReadStatusAndClass(p);
      if classId > LAST_CHARACTER_CLASS {
        return Err(ValueError(NotCharacterClass(classId)));
      }
      var level, lastPlayed, hotKeys := ReadLevelAndKeys(p);
      return Ok(Profile(weapon, name.value, status, progression, classId, level, lastPlayed, hotKeys));
    }

    /** Header bytes 16..35 from p: the active weapon and the name, zeros trimmed and decoded. */
    method ReadWeaponAndName(ghost p: nat) returns (weapon: nat, name: Result<string>)
      requires Synced(reader.pos, p + 16, |reader.data|)
      modifies reader
      ensures weapon == LeAt(reader.data, p + 16, 4)
      ensures name == AsciiText(TrimZeros(Slice(reader.data, p + 20, 16)))
      ensures Synced(reader.pos, p + 36, |reader.data|)
    {
      var weaponBytes := reader.ReadAt(4, p + 16);
      weapon := LittleEndian(weaponBytes);
      var nameBytes := reader.ReadAt(16, p + 20);
      name := AsciiText(TrimZeros(nameBytes));
    }

    /** Header bytes 36..40 from p: the status, the progression and the class id. */
    method ReadStatusAndClass(ghost p: nat) returns (status: nat, progression: nat, classId: nat)
      requires Synced(reader.pos, p + 36, |reader.data|)
      modifies reader
      ensures status == LeAt(reader.data, p + 36, 1) && progression == LeAt(reader.data, p + 37, 1)
      ensures classId == LeAt(reader.data, p + 40, 1)
      ensures Synced(reader.pos, p + 41, |reader.data|)
    {
      var statusBytes := reader.ReadAt(1, p + 36);
      status := LittleEndian(statusBytes);
      var progressionBytes := reader.ReadAt(1, p + 37);
      progression := LittleEndian(progressionBytes);
      reader.SkipAt(2, p + 38);
      var classBytes := reader.ReadAt(1, p + 40);
      classId := LittleEndian(classBytes);
    }

    /** Header bytes 41..119 from p: the level, the last-played time and the hot keys. */
    method ReadLevelAndKeys(ghost p: nat) returns (level: nat, lastPlayed: nat, hotKeys: seq<byte>)
      requires Synced(reader.pos, p + 41, |reader.data|)
      modifies reader
      ensures level == LeAt(reader.data, p + 43, 1) && lastPlayed == LeAt(reader.data, p + 48, 4)
      ensures hotKeys == Slice(reader.data, p + 56, 64)
      ensures Synced(reader.pos, p + 120, |reader.data|)
    {
      reader.SkipAt(2, p + 41);
      var levelByte := reader.ReadAt(1, p + 43);
      reader.SkipAt(4, p + 44);
      var played := reader.ReadAt(4, p + 48);
      reader.SkipAt(4, p + 52);
      hotKeys := reader.ReadAt(64, p + 56);
      level, lastPlayed := LittleEndian(levelByte), LittleEndian(played);
    }

    /** The four mouse skills, header bytes 120..135 from p. */
    method ReadSkills(ghost p: nat) returns (r: Result<seq<nat>>)
      requires Synced(reader.pos, p + 120, |reader.data|)
      modifies reader
      ensures r == SkillsFrom(reader.data, p + 120, 0, [], names)
      ensures r.Ok? ==> Synced(reader.pos, p + 136, |reader.data|)
    {
      ghost var start, data := p + 120, reader.data;
      ghost var whole := SkillsFrom(data, start, 0, [], names);
      var skills: seq<nat> := [];
      var k := 0;
      while k < 4
        invariant k <= 4 && |skills| == k
        invariant Synced(reader.pos, start + 4 * k, |data|)
        invariant SkillsFrom(data, start, k, skills, names) == whole
      {
        ghost var q := start + 4 * k;
        var bytes := reader.ReadAt(4, q);
        var id := LittleEndian(bytes);
        SkillsStep(data, start, k, skills, names, q, id);
        if id !in names.skills {
          return Err(ValueError(NotSkill(id)));
        }
        skills := skills + [id];
        k := k + 1;
      }
      return Ok(skills);
    }

    /** Header bytes 120..170 from p. */
    method ReadLook(ghost p: nat) returns (r: Result<Look>)
      requires Synced(reader.pos, p + 120, |reader.data|)
      modifies reader
      ensures r == LookAt(reader.data, p, names)
      ensures r.Ok? ==> Synced(reader.pos, p + 171, |reader.data|)
    {
      var skills := ReadSkills(p);
      if skills.Err? {
        return Err(skills.error);
      }
      var appearance := reader.ReadAt(32, p + 136);
      var difficulty := reader.ReadAt(3, p + 168);
      var dt := DifficultyTown(BigEndian(difficulty));
      if dt.Err? {
        return Err(dt.error);
      }
      var s := skills.value;
      return Ok(Look(s[0], s[1], s[2], s[3], appearance, dt.value.0, dt.value.1));
    }

    /** Header bytes 177..190 from p. */
    method ReadMercenary(ghost p: nat) returns (merc: Mercenary)
      requires Synced(reader.pos, p + 177, |reader.data|)
      modifies reader
      ensures merc == MercenaryAt(reader.data, p)
      ensures Synced(reader.pos, p + 191, |reader.data|)
    {
      var dead := reader.ReadAt(2, p + 177);
      var id := reader.ReadAt(4, p + 179);
      var nameId := reader.ReadAt(2, p + 183);
      var mercType := reader.ReadAt(2, p + 185);
      var experience := reader.ReadAt(4, p + 187);
      merc := Mercenary(
        LittleEndian(dead) != 0, LittleEndian(id), LittleEndian(nameId),
        LittleEndian(mercType), LittleEndian(experience));
    }

    /** Header bytes 171..764 from p. */
    method ReadProgress(ghost p: nat) returns (progress: Progress)
      requires Synced(reader.pos, p + 171, |reader.data|)
      modifies reader
      ensures progress == ProgressAt(reader.data, p)
      ensures Synced(reader.pos, p + HEADER_SIZE, |reader.data|)
    {
      var mapId := reader.ReadAt(4, p + 171);
      reader.SkipAt(2, p + 175);
      var merc := ReadMercenary(p);
      reader.SkipAt(144, p + 191);
      var quests := reader.ReadAt(298, p + 335);
      var waypoints := reader.ReadAt(81, p + 633);
      var npcIntro := reader.ReadAt(51, p + 714);
      progress := Progress(LittleEndian(mapId), merc, quests, waypoints, npcIntro);
    }

    /**
     * `_read_header`: the 765-byte header from the stream's position, the
     * checksum computed over the whole stream from its start.
     */
    method ReadHeader() returns (o: Outcome)
      modifies this, reader
      ensures HeaderRead(o, HeaderAt(reader.data, old(reader.pos), names), header)
      ensures o.Pass? ==> Synced(reader.pos, old(reader.pos) + HEADER_SIZE, |reader.data|)
      ensures o.Fail? ==> header == old(header)
    {
      ghost var p := reader.pos;
      var pre := ReadPreamble(p);
      if pre.Err? {
        return Fail(pre.error);
      }
      var expected := CalcChecksum(pre.value.fileSize);
      if pre.value.checksum != expected {
        return Fail(D2SFileParseError(ChecksumMismatch(pre.value.checksum, expected)));
      }
      var profile := ReadProfile(p);
      if profile.Err? {
        return Fail(profile.error);
      }
      var look := ReadLook(p);
      if look.Err? {
        return Fail(look.error);
      }
      var progress := ReadProgress(p);
      header := Some(Header(pre.value, profile.value, look.value, progress));
      return Pass;
    }

    /**
     * `_read_attributes`: two bytes skipped, then 9-bit ids and their values
     * from a bit reader on the stream, until the id 0x1FF.
     */
    method ReadAttributes() returns (r: Result<map<nat, AttrValue>>)
      modifies reader
      ensures var q := old(reader.pos) + 2;
        AttributesRead(r, CharAttrsFrom(reader.data, 8 * q, DefaultAttributes()), reader.pos, q, |reader.data|)
    {
      reader.Skip(2);
      var bits := new ReverseBitReader(reader);
      r := ReadCharAttrs(bits, DefaultAttributes(), 8 * (old(reader.pos) + 2), old(reader.pos) + 2);
    }

    /** `_read_corpse_items`. */
    method ReadCorpseItems() returns (r: Result<seq<Item>>)
      modifies reader
      ensures r.Ok? ==> forall k :: 0 <= k < |r.value| ==> fresh(r.value[k])
      ensures ReadAs(r, CorpseItemsAt(reader.data, old(reader.pos), itemsData, names), reader.pos)
    {
      var head := reader.Read(2);
      var dead := reader.Read(2);
      if LittleEndian(dead) != 0 && BigEndian(head) == ITEMS_HEADER {
        reader.Skip(12);
        r := ReadItems(reader, itemsData, names, false);
      } else {
        r := Ok([]);
      }
    }

    /** `_read_merc_items`: `merc_id` is unset (falsy) before the header is read. */
    method ReadMercItems() returns (r: Result<seq<Item>>)
      modifies reader
      ensures r.Ok? ==> forall k :: 0 <= k < |r.value| ==> fresh(r.value[k])
      ensures var mercId := if header.Some? then header.value.progress.merc.id else 0;
        ReadAs(r, MercItemsAt(reader.data, old(reader.pos), mercId, itemsData, names), reader.pos)
    {
      var head := reader.Read(2);
      var mercId := if header.Some? then header.value.progress.merc.id else 0;
      if BigEndian(head) == MERC_ITEMS_HEADER && mercId != 0 {
        r := ReadItems(reader, itemsData, names, false);
      } else {
        r := Ok([]);
      }
    }

    /** `_read_golem_item`: item 0 of a one-record list, or none. */
    method ReadGolemItem() returns (r: Result<Option<Item>>)
      modifies reader
      ensures r.Ok? && r.value.Some? ==> fresh(r.value.value)
      ensures GolemReadAs(r, GolemItemAt(reader.data, old(reader.pos), itemsData, names), reader.pos)
    {
      ghost var p, data := reader.pos, reader.data;
      ghost var whole := GolemItemAt(data, p, itemsData, names);
      var head := reader.Read(2);
      var has := reader.Read(1);
      GolemIsAfter(data, p, head, has, itemsData, names);
      r := ReadGolemRest(data, head, has, whole);
    }

    /** What follows the golem header: the item list when the header and the flag announce one. */
    method ReadGolemRest(ghost data: seq<byte>, head: seq<byte>, has: seq<byte>, ghost whole: Result<Golem>) returns (r: Result<Option<Item>>)
      requires data == reader.data && whole == GolemAfter(data, head, has, reader.pos, itemsData, names)
      modifies reader
      ensures reader.data == data
      ensures r.Ok? && r.value.Some? ==> fresh(r.value.value)
      ensures GolemReadAs(r, whole, reader.pos)
    {
      if LittleEndian(has) != 0 && BigEndian(head) == GOLEM_ITEM_HEADER {
        r := ReadFirstItem(reader.pos);
      } else {
        r := Ok(None);
      }
    }

    /** `_read_items(skip=True)[0]`. */
    method ReadFirstItem(ghost q: nat) returns (r: Result<Option<Item>>)
      requires q == reader.pos
      modifies reader
      ensures r.Ok? && r.value.Some? ==> fresh(r.value.value)
      ensures GolemReadAs(r, FirstListed(ItemListFrom(reader.data, q, true, itemsData, names)), reader.pos)
    {
      var items := ReadItems(reader, itemsData, names, true);
      if items.Err? {
        return Err(items.error);
      }
      if items.value == [] {
        return Err(IndexError);
      }
      return Ok(Some(items.value[0]));
    }
  }
}

/**
 * `ItemsDataStorage`: the reference tables the item decoder consults, and
 * the conversion of their JSON keys.
 *
 * Every table is loaded once and never changed afterwards, so the storage
 * is an immutable value here; the lookups are pure. The tables of class and
 * skill names that the decoder also consults (`CLASS_NAMES`, `SKILL_NAMES`,
 * `SKILLS_TREE_NAMES`, `SKILLS_TREE_OFFSETS`) are parameters as well.
 */
module Storage {
  import opened Outcomes
  import opened Text

  /** One entry of the magic attribute table. */
  datatype AttrDesc = AttrDesc(
    /** widths of the values that follow the id, in stream order */
    bits: seq<nat>,
    /** subtracted from every value read (`bias`, 0 when absent) */
    bias: int,
    /** `is_invisible`: the values are read and nothing is shown */
    invisible: bool,
    /** the `str.format` template */
    name: string)

  /** One effect an inserted item has on its host: a magic attribute id and its arguments. */
  datatype SockAttr = SockAttr(id: int, values: seq<int>)

  /** `dict.get(key)`: the value, or None for a missing key. */
  function Lookup<K, V>(m: map<K, V>, key: K): (r: Option<V>)
    ensures r.Some? <==> key in m
    ensures r.Some? ==> r.value == m[key]
  {
    if key in m then Some(m[key]) else None
  }

  /** `dict.get(key, default)`. */
  function LookupOr<K, V>(m: map<K, V>, key: K, default: V): (r: V)
    ensures key in m ==> r == m[key]
    ensures key !in m ==> r == default
  {
    if key in m then m[key] else default
  }

  /** A table holds the key: an id that is present (None, an id not read yet, is in no table). */
  predicate Has<V>(m: map<int, V>, key: Option<nat>)
  {
    key.Some? && key.value in m
  }

  /** `dict.get(key)` with an id that may be None. */
  function LookupId<V>(m: map<int, V>, key: Option<nat>): (r: Option<V>)
    ensures r.Some? <==> Has(m, key)
    ensures r.Some? ==> r.value == m[key.value]
  {
    if key.Some? then Lookup(m, key.value) else None
  }

  /** `dict.get(key, default)` with an id that may be None. */
  function LookupIdOr<V>(m: map<int, V>, key: Option<nat>, default: V): (r: V)
    ensures Has(m, key) ==> r == m[key.value]
    ensures !Has(m, key) ==> r == default
  {
    if key.Some? then LookupOr(m, key.value, default) else default
  }

  datatype ItemsData = ItemsData(
    armors: map<string, string>,
    shields: map<string, string>,
    weapons: map<string, string>,
    misc: map<string, string>,
    quantitative: set<string>,
    magicAttrs: map<int, AttrDesc>,
    magicPrefixes: map<int, string>,
    magicSuffixes: map<int, string>,
    rare: map<int, string>,
    sets: map<int, string>,
    unique: map<int, string>,
    runewords: map<int, string>,
    armorSockAttrs: map<string, seq<SockAttr>>,
    shieldSockAttrs: map<string, seq<SockAttr>>,
    weaponSockAttrs: map<string, seq<SockAttr>>)
  {
    predicate IsArmor(code: string) { code in armors }
    predicate IsShield(code: string) { code in shields }
    predicate IsWeapon(code: string) { code in weapons }
    predicate IsMisc(code: string) { code in misc }
    predicate IsQuantitative(code: string) { code in quantitative }

    function GetArmorName(code: string): Option<string> { Lookup(armors, code) }
    function GetShieldName(code: string): Option<string> { Lookup(shields, code) }
    function GetWeaponName(code: string): Option<string> { Lookup(weapons, code) }
    function GetMiscName(code: string): Option<string> { Lookup(misc, code) }
    function GetMagicAttr(id: int): Option<AttrDesc> { Lookup(magicAttrs, id) }
    function GetSetName(id: Option<nat>): Option<string> { LookupId(sets, id) }
    function GetUniqueName(id: Option<nat>): Option<string> { LookupId(unique, id) }
    function GetRunewordName(id: Option<nat>): Option<string> { LookupId(runewords, id) }
    function GetArmorSockAttrs(code: string): Option<seq<SockAttr>> { Lookup(armorSockAttrs, code) }
    function GetShieldSockAttrs(code: string): Option<seq<SockAttr>> { Lookup(shieldSockAttrs, code) }
    function GetWeaponSockAttrs(code: string): Option<seq<SockAttr>> { Lookup(weaponSockAttrs, code) }

    /** `get_magic_name`: prefix and suffix joined, '' standing for an unknown id. */
    function GetMagicName(prefixId: Option<nat>, suffixId: Option<nat>): string
    {
      StrippedStringConcat(LookupIdOr(magicPrefixes, prefixId, ""), LookupIdOr(magicSuffixes, suffixId, ""))
    }

    /** `get_rare_name`: both ids looked up in the one table of rare names. */
    function GetRareName(fnameId: Option<nat>, snameId: Option<nat>): string
    {
      StrippedStringConcat(LookupIdOr(rare, fnameId, ""), LookupIdOr(rare, snameId, ""))
    }

    /** A base name is found exactly for the codes the matching type test accepts. */
    lemma BaseNameIffType(code: string)
      ensures GetArmorName(code).Some? <==> IsArmor(code)
      ensures GetShieldName(code).Some? <==> IsShield(code)
      ensures GetWeaponName(code).Some? <==> IsWeapon(code)
      ensures GetMiscName(code).Some? <==> IsMisc(code)
    {
    }

    /** The magic name in each case of known and unknown ids (names kept trimmed in the tables). */
    lemma MagicNameCases(prefixId: Option<nat>, suffixId: Option<nat>)
      requires forall id :: id in magicPrefixes ==> Trimmed(magicPrefixes[id])
      requires forall id :: id in magicSuffixes ==> Trimmed(magicSuffixes[id])
      ensures !Has(magicPrefixes, prefixId) && !Has(magicSuffixes, suffixId) ==> GetMagicName(prefixId, suffixId) == ""
      ensures Has(magicPrefixes, prefixId) && !Has(magicSuffixes, suffixId) ==>
        GetMagicName(prefixId, suffixId) == magicPrefixes[prefixId.value]
      ensures !Has(magicPrefixes, prefixId) && Has(magicSuffixes, suffixId) ==>
        GetMagicName(prefixId, suffixId) == magicSuffixes[suffixId.value]
      ensures Has(magicPrefixes, prefixId) && Has(magicSuffixes, suffixId) ==>
        GetMagicName(prefixId, suffixId) == magicPrefixes[prefixId.value] + " " + magicSuffixes[suffixId.value]
    {
      if Has(magicPrefixes, prefixId) {
        var k: int := prefixId.value;
        assert Trimmed(magicPrefixes[k]);
      }
      if Has(magicSuffixes, suffixId) {
        var k: int := suffixId.value;
        assert Trimmed(magicSuffixes[k]);
      }
      JoinedNames(LookupIdOr(magicPrefixes, prefixId, ""), LookupIdOr(magicSuffixes, suffixId, ""));
    }

    /** The rare name in each case of known and unknown ids, both taken from the rare table. */
    lemma RareNameCases(fnameId: Option<nat>, snameId: Option<nat>)
      requires forall id :: id in rare ==> Trimmed(rare[id])
      ensures !Has(rare, fnameId) && !Has(rare, snameId) ==> GetRareName(fnameId, snameId) == ""
      ensures Has(rare, fnameId) && !Has(rare, snameId) ==> GetRareName(fnameId, snameId) == rare[fnameId.value]
      ensures !Has(rare, fnameId) && Has(rare, snameId) ==> GetRareName(fnameId, snameId) == rare[snameId.value]
      ensures Has(rare, fnameId) && Has(rare, snameId) ==>
        GetRareName(fnameId, snameId) == rare[fnameId.value] + " " + rare[snameId.value]
    {
      if Has(rare, fnameId) {
        var k: int := fnameId.value;
        assert Trimmed(rare[k]);
      }
      if Has(rare, snameId) {
        var k: int := snameId.value;
        assert Trimmed(rare[k]);
      }
      JoinedNames(LookupIdOr(rare, fnameId, ""), LookupIdOr(rare, snameId, ""));
    }
  }

  /** `stripped_string_concat` of two names, each trimmed or empty. */
  lemma JoinedNames(first: string, second: string)
    requires first == "" || Trimmed(first)
    requires second == "" || Trimmed(second)
    ensures first == "" && second == "" ==> StrippedStringConcat(first, second) == ""
    ensures first != "" && second == "" ==> StrippedStringConcat(first, second) == first
    ensures first == "" && second != "" ==> StrippedStringConcat(first, second) == second
    ensures first != "" && second != "" ==> StrippedStringConcat(first, second) == first + " " + second
  {
    if second == "" {
      ConcatOfBlankSecond(first, second);
      if first == "" {
        StripIsCore(first, 0, 0);
      } else {
        StripIsCore(first, 0, |first|);
        SliceAll(first);
      }
    } else if first == "" {
      ConcatOfBlankFirst(first, second);
      StripIsCore(second, 0, |second|);
      SliceAll(second);
    } else {
      ConcatOfTrimmed(first, second);
    }
  }

  /**
   * The class and skill name tables the magic attributes refer to, and the
   * ids of the members of the `Skill` enumeration, which `Skill(id)` accepts.
   */
  datatype Names = Names(
    skills: set<int>,
    classNames: map<int, string>,
    skillNames: map<int, string>,
    skillTreeNames: map<int, string>,
    skillTreeOffsets: map<int, int>)

  // ---------------------------------------------------------------------
  // Key conversion while loading (`_init_storage`)

  /** A loaded table: keyed by the JSON strings, or by the numbers they spell. */
  datatype Table<V> = ByName(names: map<string, V>) | ById(ids: map<int, V>)

  /** The entries as a dictionary with the keys unchanged; a later entry wins. */
  function NameKeyed<V>(entries: seq<(string, V)>): (r: map<string, V>)
    ensures forall i :: 0 <= i < |entries| ==> entries[i].0 in r
  {
    if entries == [] then map[]
    else
      var init := NameKeyed(entries[..|entries| - 1]);
      var last := entries[|entries| - 1];
      assert forall i :: 0 <= i < |entries| - 1 ==> entries[i] == entries[..|entries| - 1][i];
      init[last.0 := last.1]
  }

  /**
   * `{int(k): v for k, v in entries}`, continuing from the dictionary `acc`
   * built so far: the first key `int()` refuses ends it with a ValueError;
   * a later entry replaces an earlier one that spells the same number.
   */
  function IntKeyed<V>(acc: map<int, V>, entries: seq<(string, V)>): Result<map<int, V>>
    decreases |entries|
  {
    if entries == [] then Ok(acc)
    else
      match PyInt(entries[0].0)
      case None => Err(ValueError(NotDecimalKey(entries[0].0)))
      case Some(n) => IntKeyed(acc[n := entries[0].1], entries[1..])
  }

  /**
   * What loading makes of a JSON object's entries (in file order): the last
   * entry is popped (KeyError on an empty object); if its key is decimal,
   * every key is converted with `int()` and the popped entry goes in last;
   * otherwise the object is kept as it was.
   */
  function LoadedTable<V>(entries: seq<(string, V)>): Result<Table<V>>
  {
    if entries == [] then Err(KeyError)
    else
      var last := entries[|entries| - 1];
      if IsDecimal(last.0) then
        var ids :- IntKeyed(map[], entries[..|entries| - 1]);
        Ok(ById(ids[DigitsValue(last.0) := last.1]))
      else Ok(ByName(NameKeyed(entries)))
  }

  /** The key conversion of `_init_storage`, entry by entry. */
  method ConvertKeys<V>(entries: seq<(string, V)>) returns (r: Result<Table<V>>)
    ensures r == LoadedTable(entries)
  {
    if |entries| == 0 {
      return Err(KeyError);
    }
    var last := entries[|entries| - 1];
    var rest := entries[..|entries| - 1];
    if !IsDecimal(last.0) {
      return Ok(ByName(NameKeyed(entries)));
    }
    var ids: map<int, V> := map[];
    for i := 0 to |rest|
      invariant IntKeyed(map[], rest) == IntKeyed(ids, rest[i..])
    {
      var entry := rest[i];
      assert rest[i..][1..] == rest[i + 1..];
      match PyInt(entry.0)
      case None =>
        return Err(ValueError(NotDecimalKey(entry.0)));
      case Some(n) =>
        ids := ids[n := entry.1];
    }
    r := Ok(ById(ids[DigitsValue(last.0) := last.1]));
  }

  /** A number already in the table keeps its value unless a later key spells it again. */
  lemma {:induction false} IntKeyedKeeps<V>(acc: map<int, V>, entries: seq<(string, V)>, k: int)
    requires IntKeyed(acc, entries).Ok? && k in acc
    decreases |entries|
    ensures k in IntKeyed(acc, entries).value
    ensures (forall j :: 0 <= j < |entries| ==> PyInt(entries[j].0) != Some(k)) ==>
      IntKeyed(acc, entries).value[k] == acc[k]
  {
    if entries != [] {
      var n := PyInt(entries[0].0).value;
      assert forall j :: 0 <= j < |entries| - 1 ==> entries[1..][j] == entries[j + 1];
      IntKeyedKeeps(acc[n := entries[0].1], entries[1..], k);
    }
  }

  /**
   * After a successful conversion every entry's key spells a number that
   * is a key of the table; when no later key spells the same number, the
   * entry's value is found under it.
   */
  lemma IntKeyedFinds<V>(acc: map<int, V>, entries: seq<(string, V)>, i: nat)
    requires IntKeyed(acc, entries).Ok? && i < |entries|
    ensures PyInt(entries[i].0).Some?
    ensures PyInt(entries[i].0).value in IntKeyed(acc, entries).value
    ensures (forall j :: i < j < |entries| ==> PyInt(entries[j].0) != PyInt(entries[i].0)) ==>
      IntKeyed(acc, entries).value[PyInt(entries[i].0).value] == entries[i].1
  {
    assert entries[0..] == entries;
    IntKeyedFindsFrom(acc, entries, 0, i);
  }

  /** `IntKeyedFinds` for the entries from index k on. */
  lemma {:induction false} IntKeyedFindsFrom<V>(acc: map<int, V>, entries: seq<(string, V)>, k: nat, i: nat)
    requires k <= i < |entries| && IntKeyed(acc, entries[k..]).Ok?
    ensures PyInt(entries[i].0).Some?
    ensures PyInt(entries[i].0).value in IntKeyed(acc, entries[k..]).value
    ensures (forall j :: i < j < |entries| ==> PyInt(entries[j].0) != PyInt(entries[i].0)) ==>
      IntKeyed(acc, entries[k..]).value[PyInt(entries[i].0).value] == entries[i].1
    decreases i - k
  {
    var rest := entries[k..];
    var tail := entries[k + 1..];
    assert rest[0] == entries[k] && rest[1..] == tail;
    var n := PyInt(entries[k].0).value;
    var next := acc[n := entries[k].1];
    assert IntKeyed(acc, rest) == IntKeyed(next, tail);
    if i == k {
      IntKeyedKeeps(next, tail, n);
      if forall j :: k < j < |entries| ==> PyInt(entries[j].0) != Some(n) {
        forall j | 0 <= j < |tail|
          ensures PyInt(tail[j].0) != Some(n)
        {
          assert tail[j] == entries[k + 1 + j];
        }
      }
    } else {
      IntKeyedFindsFrom(next, entries, k + 1, i);
    }
  }

  /** A key in another script's digits is decimal too: the fullwidth `'３'` becomes the id 3. */
  lemma LoadedFullwidthKey<V>(entries: seq<(string, V)>, v: V)
    requires entries == [(['\U{FF13}'], v)]
    ensures LoadedTable(entries) == Ok(ById(map[3 := v]))
  {
    DigitInBlock('\U{FF13}', 36, 3);
    assert IsDecimal(entries[0].0);
    assert DigitsValue(entries[0].0) == 3;
    assert entries[..0] == [];
  }

  /** The first key `int()` refuses ends the conversion with a ValueError naming it. */
  lemma IntKeyedRefuses<V>(acc: map<int, V>, entries: seq<(string, V)>, i: nat)
    requires i < |entries| && PyInt(entries[i].0) == None
    requires forall j :: 0 <= j < i ==> PyInt(entries[j].0).Some?
    ensures IntKeyed(acc, entries) == Err(ValueError(NotDecimalKey(entries[i].0)))
  {
    assert entries[0..] == entries;
    IntKeyedRefusesFrom(acc, entries, 0, i);
  }

  /** `IntKeyedRefuses` for the entries from index k on. */
  lemma {:induction false} IntKeyedRefusesFrom<V>(acc: map<int, V>, entries: seq<(string, V)>, k: nat, i: nat)
    requires k <= i < |entries| && PyInt(entries[i].0) == None
    requires forall j :: k <= j < i ==> PyInt(entries[j].0).Some?
    ensures IntKeyed(acc, entries[k..]) == Err(ValueError(NotDecimalKey(entries[i].0)))
    decreases i - k
  {
    var rest := entries[k..];
    assert rest[0] == entries[k];
    if k < i {
      var n := PyInt(entries[k].0).value;
      assert rest[1..] == entries[k + 1..];
      IntKeyedRefusesFrom(acc[n := entries[k].1], entries, k + 1, i);
    }
  }

  /**
   * With a decimal last key, loading fails at the first other key `int()`
   * refuses, such as one padded with U+001C (`PyIntRefusesSeparator`).
   */
  lemma LoadedRefusesKey<V>(entries: seq<(string, V)>, i: nat)
    requires entries != [] && IsDecimal(entries[|entries| - 1].0)
    requires i < |entries| - 1 && PyInt(entries[i].0) == None
    requires forall j :: 0 <= j < i ==> PyInt(entries[j].0).Some?
    ensures LoadedTable(entries) == Err(ValueError(NotDecimalKey(entries[i].0)))
  {
    var rest := entries[..|entries| - 1];
    assert forall j :: 0 <= j < |rest| ==> rest[j] == entries[j];
    IntKeyedRefuses(map[], rest, i);
  }

  /** The object `{"\x1c5": a, "7": b}` is refused: `int` does not skip U+001C. */
  lemma LoadedSeparatorKeyRefused<V>(key: string, last: string, a: V, b: V)
    requires key == ['\U{001C}', '5'] && last == ['7']
    ensures LoadedTable([(key, a), (last, b)]) == Err(ValueError(NotDecimalKey(key)))
  {
    PyIntRefusesSeparator(key);
    assert IsDigit(last[0]);
    LoadedRefusesKey([(key, a), (last, b)], 0);
  }

  /** A table whose last key is not decimal is the object itself, every key kept. */
  lemma NameKeyedKeeps<V>(entries: seq<(string, V)>, i: nat)
    requires entries != [] && !IsDecimal(entries[|entries| - 1].0) && i < |entries|
    ensures LoadedTable(entries) == Ok(ByName(NameKeyed(entries)))
    ensures entries[i].0 in LoadedTable(entries).value.names
  {
  }
}

# d2lib item and save-file decoder in Dafny

A model of the decoding core of d2lib, a reader for Diablo II files. It covers:

- **Character saves** (`.d2s`). The 765-byte header, guarded by a signed 32-bit checksum. Then the character attributes (9-bit ids and their values, read from a bit reader). Then the item lists: the character's, the corpse's, the mercenary's and the golem item.
- **PlugY stash files**. The personal `.d2x` and the shared `.sss`: a header, then `page_count` pages. Each page has a "ST" header, optional flags and a name, and an item list.
- **Items**. Each item is a bit-packed record, read LSB-first through a `ReverseBitReader`:
  - the simple section (header, flags, placement, ear or code);
  - for items that are not simple, the advanced section (ids, rarity, affixes, durability, sockets, magic attributes, set extras, runeword attributes);
  - padding to the next byte.
- **Item lists** (`_read_items`). Items with location 6 ("socketed") go into the last listed item. That item gains the socket effects of the inserted item's code as attribute texts. A jewel instead hands over its own attribute texts.

The model is layered like the source:

- `outcomes.dfy` (module `Outcomes`): `Option`, `Result` and `Outcome`, and the errors the source raises (`ItemParseError`, `D2SFileParseError`, `StashFileParseError`, and the `ValueError`, `TypeError`, `IndexError`, `AttributeError` and `OverflowError` Python raises on its behalf)
- `bits.dfy` (module `Bits`): powers of two, the stream's bits (`LsbBits`, `MsbBits`), `_reverse_bits`, `calc_bits_to_align`, `is_set_bit`
- `streams.dfy` (module `Streams`): the byte stream (`read`, `seek`), `int.from_bytes`, the byte-level `read_null_term_bstr`
- `reader.dfy` (module `BitReader`): the class `ReverseBitReader` and its `read` and `read_null_term_bstr`
- `text.dfy` (module `Text`): `str.strip`, `stripped_string_concat`, `f'{n}'` and `int(s)` for table keys, and the poison helpers
- `checksum.dfy` (module `Checksum`): the `c_int32` checksum of `_calc_checksum`
- `storage.dfy` (module `Storage`): `ItemsDataStorage`: the tables as a value, their lookups and the key conversion of `_init_storage`
- `item.dfy` (module `Items`): the class `Item`: `_parse_simple`, `_parse_advanced`, `_parse_magic_attrs`, `_align_byte`, `name`
- `item_lists.dfy` (module `ItemLists`): `_read_items`
- `d2s.dfy` (module `D2S`): the class `D2SFile`: `_calc_checksum`, `_read_header`, `_read_attributes`, the corpse, mercenary and golem items
- `stash.dfy` (module `Stash`): the class `PlugyStashFile` (the `.d2x` and `.sss` files): `_read_header`, `_read_stash`

**How each kind of code is modelled.**

- **Functions.** Each decoding step the source performs by changing state is also written as a pure function of the stream's bytes and a bit (or byte) position. Examples are `Items.SimpleOf`, `ItemLists.ItemListFrom`, `D2S.HeaderAt` and `Stash.PagesFrom`. The properties of the format are proved about these functions.
- **Methods.** The classes `ByteStream`, `ReverseBitReader`, `Item`, `D2SFile` and `PlugyStashFile` keep the source's fields and update them in place. Their methods follow the source's statements and loops. Each method's postcondition ties the new state and the result to the matching function.
- **Loops that might never end.** Two loops of the source never end on a tail of zero bits: the magic-attribute loop and the character-attribute loop. Past the data, every bit reads as zero. The functions stop there with an explicit outcome (`ZeroTail`, `NonTerminating`), and a lemma proves that the source would loop for ever at that point (`Items.ZeroTailFrom`, `D2S.ZeroBitsNeverEnd`).

## Model

| member | source | states |
|---|---|---|
| Bits.ReverseBits | d2lib/_utils.py:75-92 | the shift-and-or loop computes `ReverseBitsOf(data, bits)`; a width of 0 returns `data` unchanged, any other result is below 2^bits |
| Bits.ReversedTwice | d2lib/_utils.py:75-92 | reversing twice with the same width gives back the low `bits` bits of the input |
| Bits.ReverseBitsVectors | tests/test_utils.py:132-136 | `_reverse_bits(192, 8) == 3` and `_reverse_bits(192, 7) == 1` |
| Bits.ReversedMsb | d2lib/_utils.py:179-200 | reversing the MSB-first value of n buffered bits gives their LSB-first value, which is what `@_reverse read` returns |
| Bits.ByteMsb | d2lib/_utils.py:190-196 | one byte reversed by the fill loop is that byte's 8 stream bits in MSB-first order |
| Bits.LsbConcat | d2lib/_utils.py:179-200 | reading a + b bits is reading a bits, then b bits above them (consecutive reads compose) |
| Bits.MsbConcat | d2lib/_utils.py:194-196 | shifting a byte under the buffered bits extends the MSB-first buffer by that byte |
| Bits.LsbBitsPastEnd | d2lib/_utils.py:190-192 | past the data every bit reads as 0 (`read(1)` returns `b''`, whose integer is 0) |
| Bits.MsbBitsPastEnd | d2lib/_utils.py:190-196 | past the data the buffered bits are zero |
| Bits.ByteLsb | d2lib/_utils.py:179-200 | eight bits read from a byte boundary are exactly that byte |
| Bits.LsbBitsBound | d2lib/_utils.py:197 | a read of n bits is below 2^n |
| Bits.FieldsUpTo | d2lib/item.py:209-235 | the first i reads of a run of fixed widths, one value per width |
| Bits.Fields | d2lib/item.py:209-235 | a run of reads gives one value per width |
| Bits.FieldAt | d2lib/item.py:209-235 | field k of a run is read at the sum of the widths before it |
| Bits.FieldBound | d2lib/item.py:209-235 | each field of a run fits its width |
| Bits.CalcBitsToAlign | d2lib/_utils.py:32-43 | below 8; `bits + r` is on a byte boundary and no smaller padding is |
| Bits.CalcBitsToAlignVectors | tests/test_utils.py:107-111 | the four cases of the source's tests: 0→0, 7→1, 11→5, 8→0 |
| Bits.IsSetBit | d2lib/utils.py:33-43 | true exactly when the quotient of x by 2^position is odd; never true at position 8 or above for a byte |
| Bits.IsSetBitVectors | tests/test_utils.py:99-104 | the four cases of the source's tests |
| Streams.Slice | d2lib/files.py:78 | `read(n)` at position p: at most n bytes, each the data's byte at its offset, fewer only at the end of the data |
| Streams.SliceOne | d2lib/_utils.py:56 | `read(1)` is the byte at p, or empty at the end |
| Streams.ByteStream.constructor | d2lib/files.py:43-44 | the file opened for reading: a stream over its bytes at position 0 |
| Streams.ByteStream.Read | d2lib/files.py:78 | returns the available bytes from the position and moves past them |
| Streams.ByteStream.Skip | d2lib/files.py:452 | `seek(n, SEEK_CUR)` moves the position by n |
| Streams.ByteStream.Seek | d2lib/files.py:309 | `seek(p)` sets the position to p |
| Streams.ByteStream.ReadAt | d2lib/files.py:333-389 | a read at a position standing for offset q returns the bytes at q, and the position then stands for q + n |
| Streams.ByteStream.SkipAt | d2lib/files.py:357 | a relative seek at a position standing for offset q moves it to stand for q + n |
| Streams.LittleEndian | d2lib/files.py:83 | `int.from_bytes(s, 'little')` is below 2^(8 |s|) |
| Streams.BigEndian | d2lib/files.py:78 | `int.from_bytes(s, 'big')` is below 2^(8 |s|) |
| Streams.BigEndianInjective | d2lib/files.py:78-79 | two byte strings of the same length with the same big-endian value are equal |
| Streams.ItemsHeaderBytes | d2lib/files.py:78-79 | a read of at most two bytes equals the items header 0x4A4D exactly when it returned "J","M" |
| Streams.StreamBitIsLittleEndianBit | d2lib/_utils.py:179-200 | stream bit i is bit i of `int.from_bytes(data, 'little')` |
| Streams.LsbBitsIsLittleEndian | d2lib/_utils.py:179-200 | n bits read from bit p are the little-endian integer of the data shifted right by p, modulo 2^n |
| Streams.CStringAt | d2lib/_utils.py:46-59 | the bytes from p up to the first zero byte or the end: zero-free, each equal to the data's byte, and followed by a zero byte when inside the data |
| Streams.ReadNullTermBstr | d2lib/_utils.py:46-59 | the byte loop returns `CStringAt` and leaves the stream just past the terminator (or at the end) |
| Streams.CStringStep | d2lib/_utils.py:55-59 | one step of the loop: a zero or missing byte stops it, any other byte is kept |
| Streams.CStringAtStart | tests/test_utils.py:22-37 | an empty stream and a leading zero both give the empty string |
| Streams.CStringOfTerminated | tests/test_utils.py:22-37 | a zero-free string followed by any number of zero bytes reads back as that string |
| BitReader.ReverseBitReader.constructor | d2lib/_utils.py:168-177 | an empty buffer, no bits read, at the stream's position |
| BitReader.ReverseBitReader.Read | d2lib/_utils.py:179-200 | a width of 0 gives None and changes nothing; any other width gives the next `bits` stream bits LSB-first and adds them to `bits_total` |
| BitReader.ReverseBitReader.ReadEach | d2lib/item.py:209-235 | a run of `read(w)` calls gives `Fields` and moves the cursor by the total width |
| BitReader.ReverseBitReader.Take | d2lib/_utils.py:197-200 | the top `bits` buffered bits, reversed, are the next stream bits; they leave the buffer and count in `bits_total` |
| BitReader.ReverseBitReader.Fill | d2lib/_utils.py:190-196 | the fill loop buffers at least `bits` bits and fewer than `bits + 8`, keeping the buffer equal to the next stream bits |
| BitReader.ReverseBitReader.FetchByte | d2lib/_utils.py:191-196 | one pass shifts the next byte, reversed, under the buffer: 8 more buffered bits |
| BitReader.ReverseBitReader.AlignedPos | d2lib/item.py:193-198 | on a byte boundary the stream stands just past the bytes handed out |
| BitReader.ReverseBitReader.DrainedZero | d2lib/_utils.py:190-196 | once the stream is exhausted, only zero bits remain |
| BitReader.ReverseBitReader.NotDrainedInside | d2lib/_utils.py:190-192 | a reader whose stream still has bytes has its cursor inside the data |
| BitReader.ReverseBitReader.ReadNullTermBstr | d2lib/_utils.py:202-217 | the codes up to the first zero code, each `to_bytes(1)`; the cursor stops just past the zero code |
| BitReader.FetchKeepsBuffer | d2lib/_utils.py:191-196 | shifting a reversed byte into the accumulator extends the buffered bits by that byte |
| BitReader.ExtractField | d2lib/_utils.py:197 | `(data >> (bits_read - bits)) & mask`, reversed, is the next w stream bits; the rest of the buffer is the bits after them |
| BitReader.NullTermCodes | d2lib/_utils.py:202-217 | a string read holds no zero code and needs a nonzero width; the reader never moves back |
| BitReader.NullTermCodesEnd | d2lib/_utils.py:212-215 | a string of n codes ends n + 1 codes after its start, and the last code read is zero |
| BitReader.NullTermCodesStep | d2lib/_utils.py:212-216 | one turn: the zero code stops, a code of 256 or more fails, any other code is written |
| BitReader.NullTermCodesNext | d2lib/_utils.py:212-216 | what the next code decides: no width is an AttributeError, the zero code stops, a code of 256 or more is an OverflowError, any other code is kept |
| BitReader.NullTermCodesBytes | d2lib/_utils.py:202-217 | read 8 bits at a time from a byte boundary, the bit-level string equals the byte-level `read_null_term_bstr` |
| BitReader.NullTermCodesZero | d2lib/_utils.py:212-215 | on a zero tail the string is empty |
| BitReader.ReadVectorsNineSeven | tests/test_utils.py:139-145 | `b'\x01\xc0'` read as 9 then 7 bits gives 1 and 96 |
| BitReader.ReadVectorValues | tests/test_utils.py:139-145 | the bit values of `b'\x01\xc0'` read as 9 and 7 bits, and as 8 and 8 bits |
| BitReader.ReadVectorsBytes | tests/test_utils.py:139-145 | the same stream read as 8 and 8 bits gives 1 and 192 |
| Text.RStrip | d2lib/item.py:244-246 | `rstrip()` is a prefix of s with only whitespace after it and none at its end |
| Text.Strip | d2lib/_utils.py:72 | `strip()` is empty or has no whitespace at either end |
| Text.StripIsCore | d2lib/_utils.py:72 | `strip()` is the unique slice with no whitespace at either end and only whitespace around it |
| Text.StripTwice | d2lib/_utils.py:72 | stripping is idempotent |
| Text.StripEmpty | d2lib/_utils.py:72 | a string strips to nothing exactly when it is all whitespace |
| Text.StripOfPadded | d2lib/_utils.py:72 | whitespace around a string does not change what it strips to |
| Text.ConcatOfTrimmed | d2lib/_utils.py:62-72 | two trimmed names are joined by exactly one space |
| Text.ConcatOfBlankSecond | d2lib/_utils.py:62-72 | an all-blank second part leaves the first one stripped |
| Text.ConcatOfBlankFirst | d2lib/_utils.py:62-72 | an all-blank first part leaves the second one stripped |
| Text.ConcatVectorsBlank | tests/test_utils.py:119-129 | the blank cases of the source's tests: `('', '')`, `(' String1 ', '')` and `('', ' String2  ')` |
| Text.ConcatVectorNames | tests/test_utils.py:119-129 | `('String1', 'String2')` gives `'String1 String2'` |
| Text.NatString | d2lib/_utils.py:161 | `f'{n}'` is a decimal string without leading zeros |
| Text.NatStringValue | d2lib/_utils.py:161 | the digits of `f'{n}'` read back as n |
| Text.IntString | d2lib/_utils.py:161-162 | `f'{n}'` starts with '-' exactly for a negative n |
| Text.IntStringInjective | d2lib/_utils.py:161-162 | different integers are spelled differently |
| Text.DigitZero | d2lib/items_storage.py:58 | the table of `str.isdecimal` (Unicode 15.0 category Nd, 68 blocks of ten): a code it places in a block lies zero to nine past that block's zero (never below '0'), so every digit has a value below ten; -1 for any other code |
| Text.BlocksAscend | d2lib/items_storage.py:58 | the 68 blocks lie in code order and do not overlap |
| Text.DigitInBlock | d2lib/items_storage.py:58 | the d-th character of every block is a decimal digit of value d |
| Text.AsciiNotDigit | d2lib/items_storage.py:58 | no character outside '0'..'9' below the Arabic-Indic digits is decimal |
| Text.IntText | d2lib/items_storage.py:59-60 | the text `int` parses is empty or has none of the whitespace `int` skips at either end |
| Text.IntTextIsCore | d2lib/items_storage.py:59-60 | that text is the unique slice with no `int` whitespace at its ends and only such whitespace around it; U+001C..U+001F, whitespace to `strip`, are not skipped |
| Text.PyInt | d2lib/items_storage.py:58-60 | `int(k)` succeeds exactly when the text it parses (k without the whitespace `int` skips) is an optional sign and digits that single underscores may group; a decimal key reads as the value of its digits, the digits of every Unicode decimal block counted as `int` counts them |
| Text.PyIntSign | d2lib/items_storage.py:59-60 | only a text with a leading minus gives a negative number |
| Text.PyIntOfDecimalText | d2lib/items_storage.py:59-60 | when the text `int` parses is decimal, the result is its digits' value |
| Text.PyIntOfPadded | d2lib/items_storage.py:59-60 | a decimal string padded with the whitespace `int` skips reads as the string alone |
| Text.PyIntOfNegative | d2lib/items_storage.py:59-60 | `int('-' + d)` is minus the value of the decimal string d |
| Text.PyIntRefusesSeparator | d2lib/items_storage.py:59-60 | `'\x1c5'` strips to `'5'`, yet `int` refuses it |
| Text.PyIntArabicIndic | d2lib/items_storage.py:58-60 | the Arabic-Indic key `'١٢'` is decimal, and `int` reads it as 12 |
| Text.PyIntOfNatString | d2lib/items_storage.py:58-60 | `int(f'{n}')` is n |
| Text.PoisonSeconds | d2lib/_utils.py:138 | `round(duration / 25)` is the nearest integer to duration/25 (never a tie for an integer duration) |
| Text.PoisonSecondsNearest | d2lib/_utils.py:138 | that nearest integer is unique |
| Text.CalcPoisonDamageParams | d2lib/_utils.py:126-143 | the seconds are `round(duration / 25)`; equal damages give equal totals |
| Text.PoisonParamsUniform | d2lib/_utils.py:140-143 | the early return for equal damages gives what the general branch would |
| Text.GetPoisonDamageStr | d2lib/_utils.py:146-162 | the template is formatted with a non-empty damage text and the duration |
| Text.PoisonDamageForms | d2lib/_utils.py:160-162 | "+N" exactly when the damages agree, "Adds a-b" otherwise, each number readable back |
| Checksum.Int32 | d2lib/files.py:315-317 | `c_int32(x).value` is a signed 32-bit value congruent to x modulo 2^32 |
| Checksum.ChecksumUpTo | d2lib/files.py:311-318 | the accumulator after n bytes is a signed 32-bit value |
| Checksum.SignedLittleEndian4 | d2lib/files.py:321-323 | `to_bytes(4, 'little', signed=True)` is 4 bytes whose unsigned value is the checksum modulo 2^32 |
| Checksum.ChecksumBytes | d2lib/files.py:297-323 | the checksum of `file_size` bytes is 4 bytes long |
| Checksum.RotlSum | d2lib/files.py:311-318 | the unsigned rotate-left-by-one-and-add sum is a 32-bit word |
| Checksum.ChecksumIsRotlSum | d2lib/files.py:311-318 | the signed accumulator holds the bits of the unsigned rotate-left-by-one-and-add sum |
| Checksum.MixIsRotl | d2lib/files.py:315-317 | `(c << 1) + byte + (c < 0)` is a 32-bit rotate left plus the byte |
| Checksum.ChecksumIgnoresStored | d2lib/files.py:305-314 | bytes 12..15 do not take part: files that differ only there have the same checksum |
| Checksum.ChecksumBytesValue | d2lib/files.py:321-323 | the stored bytes read back as the unsigned rotate-and-add sum |
| Storage.Lookup | d2lib/items_storage.py:115-123 | definition of `dict.get(key)`: found exactly for a key of the table, with its value (the getters of `Storage.ItemsData` are defined with it) |
| Storage.LookupOr | d2lib/items_storage.py:176-178 | definition of `dict.get(key, default)`: the value of a key of the table, the default otherwise |
| Storage.LookupId | d2lib/items_storage.py:196-204 | definition of `dict.get(id)` with an id that is None before it is read: found exactly for a read id in the table |
| Storage.LookupIdOr | d2lib/items_storage.py:176-178 | definition of `dict.get(id, '')` with an id that may be None: the value of a read id in the table, `''` otherwise |
| Storage.ItemsData.BaseNameIffType | d2lib/items_storage.py:65-153 | each `get_*_name` finds a name exactly for the codes the matching `is_*` test accepts |
| Storage.ItemsData.MagicNameCases | d2lib/items_storage.py:165-179 | the magic name for each case of known and unknown prefix and suffix ids: empty, one name, or both joined by a space |
| Storage.ItemsData.RareNameCases | d2lib/items_storage.py:181-194 | the rare name for each case of known and unknown ids, both taken from the rare table |
| Storage.JoinedNames | d2lib/_utils.py:62-72 | `stripped_string_concat` of two trimmed-or-empty names: empty, either one, or both joined by a space |
| Storage.NameKeyed | d2lib/items_storage.py:56-63 | the loaded dictionary keeps every key of the file |
| Storage.ConvertKeys | d2lib/items_storage.py:56-63 | the conversion loop computes `LoadedTable`: an empty object is a KeyError; when the popped last key is decimal (in any script's digits) every key is converted with `int()` (a ValueError for one it refuses) and the popped entry goes in last; otherwise the object is kept |
| Storage.IntKeyedKeeps | d2lib/items_storage.py:59-60 | a number already converted keeps its value unless a later key spells it again |
| Storage.IntKeyedFinds | d2lib/items_storage.py:59-60 | after a conversion every key spells a number of the table, holding that entry's value when no later key spells the same number |
| Storage.IntKeyedRefuses | d2lib/items_storage.py:59-60 | the first key `int()` refuses ends the conversion with a ValueError naming that key |
| Storage.LoadedRefusesKey | d2lib/items_storage.py:56-63 | with a decimal last key, loading fails at the first other key `int()` refuses |
| Storage.LoadedSeparatorKeyRefused | d2lib/items_storage.py:56-63 | the object `{"\x1c5": a, "7": b}` is refused with a ValueError, not loaded as {5: a, 7: b} |
| Storage.LoadedFullwidthKey | d2lib/items_storage.py:58-63 | an object whose only key is the fullwidth digit `'３'` is loaded as the table mapping the id 3 to its value |
| Storage.NameKeyedKeeps | d2lib/items_storage.py:58-63 | a table whose last key is not decimal (empty, or holding a character outside every Unicode decimal block) keeps every key as it is |
| Items.FlagRunTotal | d2lib/item.py:209-226 | the flag reads after the header take 27 bits |
| Items.PlaceRunTotal | d2lib/item.py:227-235 | the version and placement reads take 33 bits |
| Items.CodeRunTotal | d2lib/item.py:244-262 | four 8-bit code characters and the 3-bit inserted count take 35 bits |
| Items.ShortRunTotals | d2lib/item.py:240-241 | the ear class and level take 10 bits; id, level and rarity take 43 |
| Items.Chars | d2lib/item.py:242 | `.decode()` of 7-bit codes gives one character per byte, with the same code |
| Items.CodeFieldsBound | d2lib/item.py:244-246 | each code field read is a byte |
| Items.CodeText | d2lib/item.py:244-246 | `''.join(chr(...)).rstrip()` is a prefix of the four characters |
| Items.EarOf | d2lib/item.py:237-242 | an ear is coded "ear" and reads more than its 10 bits of class and level |
| Items.TypeOf | d2lib/item.py:248-259 | armor, then shield, then weapon, else misc, in that order of tests; a type other than misc always finds a base name |
| Items.CodeOf | d2lib/item.py:243-265 | the code branch reads 35 bits and sets the inserted count; a count above zero starts an empty list of socketed items |
| Items.HeaderOf | d2lib/item.py:206-235 | a wrong 16-bit header is an ItemParseError naming it; an accepted header section is 76 bits and sets the ear and simple flags |
| Items.SimpleOf | d2lib/item.py:200-265 | the header error as above; an item that is not an ear ends its simple section after exactly 111 bits |
| Items.RarityFlags | d2lib/item.py:322-331 | only the flag the rarity names is raised, keeping the flags raised before |
| Items.RarityOf | d2lib/item.py:318-331 | reading id, level and rarity on an item with no rarity flag raised yet makes the flags agree with the rarity |
| Items.PictureOf | d2lib/item.py:333-335 | the picture step keeps the rarity flags agreeing with the rarity (what it reads: `PictureRead`) |
| Items.ClassSpecificOf | d2lib/item.py:337-339 | the class-specific step keeps the rarity flags agreeing with the rarity |
| Items.HeadOf | d2lib/item.py:318-339 | 45 to 59 bits; both bits are read; the picture id changes only when `has_multiple_pic` is set; flags, base and ids are untouched; on an item with no rarity flag yet the flags then agree with the rarity |
| Items.AffixesFrom | d2lib/item.py:352-354 | each of the six slots is a presence bit plus, when set, an 11-bit id; the ids found are kept in order |
| Items.RareOf | d2lib/item.py:348-354 | two 8-bit name ids and at most six affixes, 22 to 88 bits |
| Items.QualityOf | d2lib/item.py:341-356 | at most 88 bits, head, flags and base untouched; a magic item that is neither low nor high quality gets prefix and suffix ids; rare affixes, when read, are at most 6 |
| Items.ExtrasOf | d2lib/item.py:358-369 | the timestamp is always read; only a personalized item can fail, and it then has a name |
| Items.DurabilityOf | d2lib/item.py:373-377 | 8 or 17 bits; the maximum is always read, the current durability only when the maximum is not zero |
| Items.DefenseOf | d2lib/item.py:371-372 | at most 11 bits; only an armor or a shield gets a defense, at least -10 after the bias; nothing else changes |
| Items.WearOf | d2lib/item.py:373-377 | only armor, shields and weapons read durability; a current durability is read only under a nonzero maximum |
| Items.QuantityOf | d2lib/item.py:379-380 | at most 9 bits, and nothing but the quantity changes |
| Items.SocketsOf | d2lib/item.py:382-383 | at most 4 bits, and nothing but the socket count changes |
| Items.ArmorOf | d2lib/item.py:371-383 | at most 41 bits; the defense only for armor and shields, durability only for armor, shields and weapons, a current durability only under a nonzero maximum |
| Items.NameOf | d2lib/item.py:296-305 | definition of `dict.get(k)` on a name table as a format argument: absent exactly for a missing key (the substitution of class and skill names is written with it) |
| Items.Biased | d2lib/item.py:287-290 | definition of the biased values: each value is its raw read minus the attribute's bias (one attribute step, `AttrAt`, is written with it) |
| Items.Substitute | d2lib/item.py:295-305 | one argument per value; class, skill and skill-tree ids become names, values from the third on stay numbers; it fails exactly when a value the attribute needs is missing (IndexError) or the class has no skill-tree offset (TypeError) |
| Items.AttrAt | d2lib/item.py:279-307 | id 0x1FF ends the list after 9 bits; any other attribute reads on past its id |
| Items.MagicAttrsFrom | d2lib/item.py:267-309 | a list read ends at least 9 bits on and keeps the attributes shown before in front |
| Items.MagicAttrsEnd | d2lib/item.py:279-281 | a list read ends just past a terminator that lies inside the data |
| Items.ZeroTailFrom | d2lib/item.py:278-290 | on a tail of zero bits the loop never meets the terminator: id 0 repeats for ever or fails |
| Items.AttrsEnded | d2lib/item.py:279-281 | the terminator ends the loop |
| Items.AttrUnknown | d2lib/item.py:282-286 | an unknown id is an ItemParseError naming it |
| Items.AttrZeroWidth | d2lib/item.py:288-290 | a zero-width value reads None and `None - bias` is a TypeError |
| Items.AttrHidden | d2lib/item.py:292-293 | an invisible attribute is read and dropped |
| Items.AttrShown | d2lib/item.py:295-307 | a visible attribute is shown with its substituted values, or its substitution error ends the loop |
| Items.SetExtrasFrom | d2lib/item.py:394-397 | n more set extras, one per attribute list read: n entries added, at least 9 bits each |
| Items.SetExtrasKeepAcc | d2lib/item.py:395-397 | extras already appended stay in front |
| Items.SetExtrasStep | d2lib/item.py:396-397 | one turn: the list's error, an IndexError for an empty list, or its first attribute appended |
| Items.ReqItemsFrom | d2lib/item.py:402-405 | at most one entry per remaining bit position |
| Items.ReqItemsNext | d2lib/item.py:402-405 | a set bit at `offset` appends `offset + 2`, a clear bit nothing |
| Items.ReqItemsLength | d2lib/item.py:402-405 | one required item per set bit of the selector's low five bits |
| Items.SetExtraCountsArePopcounts | d2lib/item.py:61-73 | every count of `_SET_EXTRA_COUNTS` is the number of set bits of its selector |
| Items.SelectorBitsTable | d2lib/item.py:61-73 | the number of set bits of each selector that `_SET_EXTRA_COUNTS` lists |
| Items.SetListsAgree | d2lib/item.py:394-405 | when the list of required items is filled, it is as long as the list of set extras |
| Items.SetOf | d2lib/item.py:385-405 | the set extras leave the magic attributes, flags and head alone; they are filled only for a selector with a nonzero count, and then with exactly that many entries |
| Items.ListsOf | d2lib/item.py:392-405 | the magic attributes are always read, at least 9 bits; flags and head are untouched |
| Items.RunewordAttrsOf | d2lib/item.py:407-408 | only a runeword reads more attributes; any other item is unchanged |
| Items.AttrsOf | d2lib/item.py:385-408 | the attribute section reads at least a terminator and always sets the magic attributes; flags and head are untouched |
| Items.AttrsComposed | d2lib/item.py:385-408 | a runeword's attributes are read after the lists, from where they end |
| Items.AdvancedOf | d2lib/item.py:311-408 | the advanced section keeps the flags, and on a new item the rarity flags agree with the rarity |
| Items.ParsedFrom | d2lib/item.py:142-147 | a record read from bit c, alignment included, ends more than 76 bits on |
| Items.AlignedEnd | d2lib/item.py:193-198 | after `_align_byte` the record is a whole number of bytes |
| Items.ParsedAt | d2lib/item.py:142-147 | the record ends at the sections' end padded to a byte boundary |
| Items.SectionsFrom | d2lib/item.py:143-146 | the sections of a record end more than 76 bits on |
| Items.ItemAt | d2lib/item.py:77-147 | an item read from byte `pos` ends more than 76 bits later |
| Items.ItemAtPastEnd | d2lib/item.py:206-208 | no item starts past the data: its header reads as 0 |
| Items.SimpleItemBytes | d2lib/item.py:200-265 | a simple item that is not an ear fills exactly 14 bytes |
| Items.SimpleSkipsAdvanced | d2lib/item.py:145-146 | a simple item reads no advanced field |
| Items.FreshSimple | d2lib/item.py:237-265 | an ear is coded "ear" and has no inserted count; any other item has a count, and an empty list of socketed items exactly when the count is above zero |
| Items.ParsedRarity | d2lib/item.py:322-331 | a parsed item's rarity flags agree with its rarity, and at most one is raised |
| Items.ParsedSimple | d2lib/item.py:83-141 | a parsed simple item keeps every advanced field at its default |
| Items.ItemName | d2lib/item.py:155-179 | a magic or rare item always has a name; an item with no rarity flag that is not a runeword has its base name |
| Items.NameByRarity | d2lib/item.py:155-179 | by rarity: the magic, rare, set or unique name; any other item is named by its runeword name when it is a runeword, else by its base name |
| Items.SetNameFound | d2lib/item.py:173-174 | a set item's name is found exactly when the set table holds its id |
| Items.Aligned | d2lib/item.py:193-198 | `_align_byte` pads fewer than 8 bits up to a byte boundary |
| Items.EarDone | d2lib/item.py:237-242 | an ear's class, level and name as read |
| Items.HeaderFailed | d2lib/item.py:206-208 | a wrong header is refused with its value |
| Items.HeaderDone | d2lib/item.py:209-235 | an accepted header sets the flags and placement as read |
| Items.RarityDone | d2lib/item.py:318-331 | id, level and rarity as read, with the rarity flag |
| Items.PictureRead | d2lib/item.py:333-335 | the picture id as read, when the bit announces it |
| Items.StampRead | d2lib/item.py:365-369 | a tome's 5 bits are skipped before the timestamp as read |
| Items.RareDone | d2lib/item.py:348-354 | the rare name ids and affixes as read |
| Items.MagicIdsDone | d2lib/item.py:343-345 | a magic item's prefix and suffix ids as read |
| Items.AffixTaken | d2lib/item.py:353-354 | a set presence bit takes the 11-bit id that follows |
| Items.AffixSkipped | d2lib/item.py:353 | a clear presence bit reads nothing more |
| Items.EarFailed | d2lib/item.py:242 | a failing name read fails the ear |
| Items.ReqItemsCount | d2lib/item.py:401-405 | the loop over the five offsets computes `ReqItemsFrom(selector, 0)` |
| Items.Item.Start | d2lib/item.py:77-142 | every attribute at its default and a new bit reader at the stream's position |
| Items.Item.ParseSimple | d2lib/item.py:200-265 | the reads and the new state are those of `SimpleOf` |
| Items.Item.ParseHeader | d2lib/item.py:206-235 | as `HeaderOf` |
| Items.Item.ParseEar | d2lib/item.py:237-242 | as `EarOf` |
| Items.Item.ParseCode | d2lib/item.py:243-265 | as `CodeOf` |
| Items.Item.ParseHead | d2lib/item.py:318-339 | as `HeadOf` |
| Items.Item.ParseRarity | d2lib/item.py:318-331 | as `RarityOf` |
| Items.Item.ParsePicture | d2lib/item.py:333-335 | as `PictureOf`, with what `PictureRead` says it reads |
| Items.Item.ParseClassSpecific | d2lib/item.py:337-339 | as `ClassSpecificOf` |
| Items.Item.ReadAffixes | d2lib/item.py:351-354 | the six-slot loop computes `AffixesFrom` |
| Items.Item.ParseRare | d2lib/item.py:348-354 | as `RareOf` |
| Items.Item.ParseQuality | d2lib/item.py:341-356 | as `QualityOf` |
| Items.Item.ParseExtras | d2lib/item.py:358-369 | as `ExtrasOf` |
| Items.Item.ParseRuneword | d2lib/item.py:358-360 | a runeword's 12-bit id and 4 skipped bits |
| Items.Item.ParsePersonalized | d2lib/item.py:362-363 | a personalized item's 7-bit name |
| Items.Item.ParseStamp | d2lib/item.py:365-369 | a tome's 5 bits, then the timestamp |
| Items.Item.ParseArmor | d2lib/item.py:371-383 | as `ArmorOf` |
| Items.Item.ParseDefense | d2lib/item.py:371-372 | as `DefenseOf` |
| Items.Item.ParseWear | d2lib/item.py:373-377 | as `WearOf` |
| Items.Item.ParseDurability | d2lib/item.py:374-377 | as `DurabilityOf` |
| Items.Item.ParseQuantity | d2lib/item.py:379-380 | as `QuantityOf` |
| Items.Item.ParseSockets | d2lib/item.py:382-383 | as `SocketsOf` |
| Items.Item.ParseMagicAttrs | d2lib/item.py:267-309 | the `while True` loop computes `MagicAttrsFrom` and stops just past the terminator |
| Items.Item.ReadSetExtras | d2lib/item.py:395-397 | the loop over `set_extra_count` computes `SetExtrasFrom` |
| Items.Item.ReadSetExtra | d2lib/item.py:397 | one turn of that loop takes `SetExtrasFrom` one step on |
| Items.Item.ParseSet | d2lib/item.py:394-405 | as `SetOf` |
| Items.Item.ParseAttrs | d2lib/item.py:385-408 | as `AttrsOf` |
| Items.Item.ParseLists | d2lib/item.py:392-405 | as `ListsOf` |
| Items.Item.ParseRunewordAttrs | d2lib/item.py:407-408 | as `RunewordAttrsOf` |
| Items.Item.ParseAdvanced | d2lib/item.py:311-408 | as `AdvancedOf` |
| Items.Item.AlignByte | d2lib/item.py:193-198 | the cursor moves by `calc_bits_to_align(bits_total)` to a byte boundary |
| Items.Item.Parse | d2lib/item.py:142-147 | as `ParsedFrom`; the stream then stands on the byte after the record |
| Items.Item.ParseSections | d2lib/item.py:143-146 | as `SectionsFrom` |
| ItemLists.AfterItemAdvances | d2lib/files.py:88 | an item read inside the data moves the stream on, not past the end |
| ItemLists.ItemAtInside | d2lib/files.py:88 | an item is read only from inside the data |
| ItemLists.SockAttrsFor | d2lib/files.py:91-104 | the socket effects come from the table of the host's type; a misc host, or an item without a code, has none |
| ItemLists.NumArgs | d2lib/files.py:119 | definition of the argument list: `format(*values)` receives the effect's values as numbers, one per value |
| ItemLists.SocketTexts | d2lib/files.py:114-120 | one text per socket effect, appended after the host's texts |
| ItemLists.SocketTextsFrom | d2lib/files.py:114-120 | every appended text is its effect's attribute name filled with the effect's values |
| ItemLists.Attach | d2lib/files.py:89-121 | the host gains the inserted item in its socketed list; a jewel without socket effects hands over its texts; any other item without them is "Unknown item" |
| ItemLists.AttachEffects | d2lib/files.py:114-120 | a host with socket effects gains exactly one text per effect, keeping its own |
| ItemLists.MiscHostTakesOnlyJewels | d2lib/files.py:106-112 | nothing but a jewel goes into a misc-type host |
| ItemLists.Place | d2lib/files.py:89-127 | a socketed item changes only the last listed item (an IndexError on an empty list); any other item is appended; listed items are never ones from a socket |
| ItemLists.Turn | d2lib/files.py:87-127 | one turn moves the stream on and keeps the items listed before |
| ItemLists.ListingAt | d2lib/files.py:75-83 | with the skip: one record and no header; without it: "JM" and a 16-bit count, anything else refused |
| ItemLists.HeaderTwoBytes | d2lib/files.py:78-79 | a read shorter than two bytes never spells "JM" |
| ItemLists.CountSixteenBits | d2lib/files.py:83 | the record count is below 2^16 |
| ItemLists.ItemsFromKeeps | d2lib/files.py:87-127 | the loop never changes an item listed before except the last (a possible host), and never lists a socketed record |
| ItemLists.FirstRecordListed | d2lib/files.py:87-127 | with a record to read and nothing listed, a successful list holds an item |
| ItemLists.ListedAreTopLevel | d2lib/files.py:63-129 | no listed item is one read from a socket |
| ItemLists.BadItemsHeader | d2lib/files.py:78-82 | a header other than "JM" is an ItemParseError naming it |
| ItemLists.SkippedHeaderReadsOne | d2lib/files.py:75-76 | with the skip, exactly one record is counted and no header is read |
| ItemLists.ReadItem | d2lib/item.py:77-147 | a new item parsed from the stream's position, as `ItemAt`; the stream then stands on the byte after it |
| ItemLists.InsertInto | d2lib/files.py:89-121 | the host object is changed in place as `Attach` says; reports whether the jewel branch was taken |
| ItemLists.TurnFails | d2lib/files.py:88 | a turn whose item fails to parse fails with its error |
| ItemLists.TurnPlaces | d2lib/files.py:88-127 | a turn whose item parses ends as placing it says |
| ItemLists.PlacedInSocket | d2lib/files.py:89-121 | a socketed item goes into the last item; the count drops unless the jewel branch `continue`s |
| ItemLists.PlacedListed | d2lib/files.py:123-127 | any other item is appended; its inserted count is added to the count of records still to read |
| ItemLists.TurnedAsPlaced | d2lib/files.py:88-127 | a turn ends as its placement does |
| ItemLists.PlaceItem | d2lib/files.py:89-127 | in place: the last listed object receives a socketed item, any other item is appended |
| ItemLists.ReadTurn | d2lib/files.py:87-127 | one turn of the loop in place, as `Turn`; the objects listed before stay the same objects |
| ItemLists.ReadListing | d2lib/files.py:75-83 | as `ListingAt` |
| ItemLists.ReadItems | d2lib/files.py:63-129 | as `ItemListFrom`, each listed item a new object |
| D2S.And | d2lib/files.py:376-377 | `x & y` is at most each operand |
| D2S.AndBit | d2lib/files.py:376-377 | bit k of `x & y` is set exactly when it is set in both |
| D2S.TrimZeros | d2lib/files.py:350 | `rstrip(b'\x00')` is a prefix with only zeros after it and none at its end |
| D2S.AsciiText | d2lib/files.py:350 | `decode('ASCII')` succeeds exactly when every byte is below 128, and then keeps each code; otherwise it names a byte above 127 |
| D2S.PreambleAt | d2lib/files.py:333-342 | a wrong id is refused first, then a size below 765; the stored checksum is bytes 12..15 |
| D2S.ProfileAt | d2lib/files.py:349-367 | the name is at most 16 ASCII characters with no trailing zero, and the class is one of the seven |
| D2S.SkillsFrom | d2lib/files.py:369-371 | four 32-bit ids, each a member of the `Skill` enumeration (`Names.skills`); the first that is not is named |
| D2S.SkillsStep | d2lib/files.py:369-371 | one mouse skill: an id of the `Skill` enumeration moves on to the next, any other id is refused |
| D2S.DifficultyTown | d2lib/files.py:375-377 | the masked difficulty and town are accepted exactly when they name a `Difficulty` and a `Town` |
| D2S.LookAt | d2lib/files.py:369-377 | the four mouse skills are members of the `Skill` enumeration, and the difficulty and town are valid |
| D2S.HeaderAt | d2lib/files.py:325-389 | a preamble error comes first; an accepted header has a size of at least 765, a stored checksum equal to the computed one, a valid class, difficulty and town |
| D2S.ChecksumChecked | d2lib/files.py:342-347 | a stored checksum other than the computed one is refused, naming both |
| D2S.StoredChecksumMatches | d2lib/files.py:297-323 | writing the computed checksum into bytes 12..15 makes it match: the check can be met |
| D2S.DefaultAttributes | d2lib/files.py:399 | `dict.fromkeys(CharacterAttribute, 0)` has exactly the 16 attributes as keys |
| D2S.CharAttrAt | d2lib/files.py:401-416 | 0x1FF ends the turn after 9 bits; an assigned value fits its attribute's width |
| D2S.CharAttrsFrom | d2lib/files.py:400-418 | the loop ends at least 9 bits on |
| D2S.CharAttrsFit | d2lib/files.py:400-418 | the keys only grow, and every value fits its attribute |
| D2S.AttributesFromDefaults | d2lib/files.py:398-418 | the result holds exactly the 16 attributes, each fitting its width |
| D2S.ZeroBitsNeverEnd | d2lib/files.py:400-403 | on a tail of zero bits the loop never ends |
| D2S.CharAttrEnds | d2lib/files.py:402-403 | the terminator ends the loop |
| D2S.CharAttrRefused | d2lib/files.py:404 | an id past the last attribute is the ValueError of `CharacterAttribute(id)` |
| D2S.CharAttrAssigned | d2lib/files.py:405-416 | the value of the id's width, in 256ths for the six hit-point, mana and stamina attributes |
| D2S.ReadCharAttr | d2lib/files.py:401-416 | one turn on the bit reader computes `CharAttrAt` |
| D2S.ReadCharAttrs | d2lib/files.py:400-418 | the loop on the bit reader computes `CharAttrsFrom` |
| D2S.ChecksumStep | d2lib/files.py:315-317 | one more byte of the checksum loop |
| D2S.SummedByteRead | d2lib/files.py:312-314 | the byte summed is the byte read, or 0 inside the stored checksum or past the end |
| D2S.CorpseItemsAt | d2lib/files.py:441-454 | corpse items are listed only after the "JM" header and a nonzero "is dead" word |
| D2S.MercItemsAt | d2lib/files.py:456-467 | mercenary items are read only after the "jf" header and with a mercenary |
| D2S.GolemItemAt | d2lib/files.py:469-481 | a golem item needs the "kf" header, and is never one read from a socket |
| D2S.GolemIsAfter | d2lib/files.py:477-480 | after the header and the flag, the list is read only when both announce it |
| D2S.FirstListed | d2lib/files.py:480 | `[0]` of a list: its first item, an IndexError for an empty list |
| D2S.GolemListNeverEmpty | d2lib/files.py:480 | taking item 0 of a list read with the header skipped never raises the IndexError |
| D2S.D2SFile.constructor | d2lib/files.py:207-245 | the stream, the tables, and no header read yet |
| D2S.D2SFile.CalcChecksum | d2lib/files.py:297-323 | the checksum of the first `file_size` bytes from the start; the stream is put back where it was |
| D2S.D2SFile.ReadPreamble | d2lib/files.py:333-342 | as `PreambleAt` |
| D2S.D2SFile.ReadProfile | d2lib/files.py:349-367 | as `ProfileAt` |
| D2S.D2SFile.ReadWeaponAndName | d2lib/files.py:349-350 | the active weapon, and the 16 name bytes with trailing zeros stripped and decoded as ASCII, at their offsets |
| D2S.D2SFile.ReadStatusAndClass | d2lib/files.py:352-359 | the status, the progression and the class id at their offsets, two bytes skipped between them |
| D2S.D2SFile.ReadLevelAndKeys | d2lib/files.py:362-367 | the level, the last-played time and the 64 hot-key bytes at their offsets |
| D2S.D2SFile.ReadSkills | d2lib/files.py:369-371 | the four-turn loop computes `SkillsFrom` |
| D2S.D2SFile.ReadLook | d2lib/files.py:369-377 | as `LookAt` |
| D2S.D2SFile.ReadMercenary | d2lib/files.py:381-385 | the mercenary fields at their offsets |
| D2S.D2SFile.ReadProgress | d2lib/files.py:379-389 | the map id, mercenary, quests, waypoints and NPC bytes at their offsets |
| D2S.D2SFile.ReadHeader | d2lib/files.py:325-389 | as `HeaderAt`, stored only on success; the stream then stands 765 bytes on |
| D2S.D2SFile.ReadAttributes | d2lib/files.py:391-418 | two bytes skipped, then the attribute loop from the defaults |
| D2S.D2SFile.ReadCorpseItems | d2lib/files.py:441-454 | as `CorpseItemsAt`, each item a new object |
| D2S.D2SFile.ReadMercItems | d2lib/files.py:456-467 | as `MercItemsAt`; without a header there is no mercenary |
| D2S.D2SFile.ReadGolemItem | d2lib/files.py:469-481 | as `GolemItemAt`, the item a new object |
| D2S.D2SFile.ReadGolemRest | d2lib/files.py:479-481 | the branch on the header and the flag, as `GolemAfter` |
| D2S.D2SFile.ReadFirstItem | d2lib/files.py:480 | item 0 of a one-record list |
| Stash.StashHeadAt | d2lib/files.py:523-616 | accepted exactly for the kind's id and an accepted version; otherwise the wrong id or version is named; shared gold only in version 2 |
| Stash.StashHeadLayout | d2lib/files.py:579-616 | an accepted header reads the version at byte 4, the gold at 6 and the page count after them |
| Stash.FlagsOfBytes | d2lib/files.py:552-560 | each flag of `data << 16 \| next` is the low bit of one of its four bytes |
| Stash.PageHeadAt | d2lib/files.py:545-561 | "ST" or a StashFileParseError; "JM" means no flags and no name, else a zero-free name |
| Stash.PageFlagsBits | d2lib/files.py:552-560 | the four flags are the low bits of the four bytes after "ST" |
| Stash.PageAt | d2lib/files.py:544-569 | a page numbered as given, with its header's flags, listing no item read from a socket |
| Stash.PagesInOrder | d2lib/files.py:543-570 | exactly `page_count` pages numbered 1 to `page_count` |
| Stash.InOrderAppend | d2lib/files.py:562-568 | appending the next page, numbered one past the pages before and holding no socketed item, keeps the pages in order |
| Stash.PagesFail | d2lib/files.py:545-549 | a failing page ends the stash with its error |
| Stash.PagesStep | d2lib/files.py:544-569 | a page read moves the loop past it |
| Stash.PlugyStashFile.constructor | d2lib/files.py:490-493 | the stream, the tables, no version, count or gold |
| Stash.PlugyStashFile.ReadHeader | d2lib/files.py:579-616 | as `StashHeadAt`; a refused version is still stored; the gold is set only in version 2 |
| Stash.PlugyStashFile.ReadIdAndVersion | d2lib/files.py:523-532 | a wrong id is refused; the version is read after the right one |
| Stash.PlugyStashFile.ReadPageHead | d2lib/files.py:545-561 | as `PageHeadAt` |
| Stash.PlugyStashFile.ReadPage | d2lib/files.py:545-569 | as `PageAt`, each item a new object |
| Stash.PlugyStashFile.ReadStash | d2lib/files.py:534-570 | a TypeError when no header has set the count; otherwise the pages as `PagesFrom` |
| Stash.PlugyStashFile.ReadPages | d2lib/files.py:543-570 | the `range(page_count)` loop computes `PagesFrom` |
| Stash.PlugyStashFile.ReadNextPage | d2lib/files.py:545-569 | one pass appends one page and takes `PagesFrom` one step on |

## Left out

- `from_file` and the file handling around it are not modelled. That covers opening and closing the file, `_close_file`, `__del__`, and the wrapping of errors in `D2SFileParseError`. The model starts from a stream over the file's bytes.
- `_read_skills` (the skill-points section) is not modelled. The table of skill offsets it needs is not part of this model. The mouse skills of the header are modelled.
- `ItemsDataStorage` loads JSON files and is a singleton; neither part is modelled. The tables are a parameter (`Storage.ItemsData`), and only the key conversion of `_init_storage` is modelled.
- The name tables `CLASS_NAMES`, `SKILL_NAMES`, `SKILLS_TREE_NAMES` and `SKILLS_TREE_OFFSETS` are parameters (`Storage.Names`), because d2lib/skills.py is not part of this model. So is the set of ids the `Skill` enumeration defines (`Names.skills`), which `Skill(id)` accepts. The model does not assume that this set equals the keys of `SKILL_NAMES`.
- The magic-attribute table is assumed well formed: every entry has `bits` and `name` (`Storage.AttrDesc`), and no entry is an empty object. The `ItemParseError` an empty entry raises (d2lib/item.py:283) and the `KeyError` of a missing field (d2lib/item.py:289, 307) are not modelled; an unknown id is.
- `str.format` is not evaluated. An attribute text is kept as its template and its arguments (`Rendered`).
- `chr` and the `.decode()` of an item's 7-bit codes map each byte to the character with that code. The `.decode('ASCII')` of the character name is modelled by `D2S.AsciiText`, which refuses a byte above 127 as files.py:350 does.
- Stash.PageHeadAt: the `.decode()` of a stash page name (d2lib/files.py:561) is not modelled. The page keeps the name's bytes, so a name that is not valid UTF-8, where the source raises UnicodeDecodeError, is read without an error.
- `_calc_total_poison_damage` is a parameter of `Text.CalcPoisonDamageParams`, because it is floating-point arithmetic.
- `to_dict`, `__str__` and `__repr__` are not modelled (serialisation).
- D2S.D2SFile.ReadAttributes: the six hit-point, mana and stamina values are kept as their numerator over 256 (`Float(in256ths)`), not as Python floats.
- D2S.D2SFile.ReadAttributes and Items.Item.ParseMagicAttrs: past the end of the data every bit reads as zero. There the source loops for ever (or fails); the model stops with `NonTerminating` or `ZeroTail`, and the lemmas named above prove that the source would never stop.
- Items are modelled in the `item.py` form: the location 6 ("socketed") and the type numbers `T_ARMOR` … `T_MISC` as integers. `_read_items` compares them with `ItemLocation` and `ItemType` members, which are not part of this model.
- ItemLists.ReadItems: a socketed item stays an object of the host's list of objects. The host's `socketed_items` holds a value snapshot of it, because the item is not changed afterwards.
- The jewel branch of `_read_items` (`continue` before `items_count -= 1`) is modelled as written. A jewel without socket effects does not lower the count of records still to read.
- A page header of a stash whose first two bytes after "ST" are "JM" is modelled as written: those two bytes are consumed, so the item list of that page starts after them.
- D2S.D2SFile.ReadHeader: on an error, the fields the source had already set before raising are not kept in the model; the header is stored only as a whole.
- D2S.D2SFile.CalcChecksum: takes `file_size` as a parameter instead of reading the field.
- The personal and shared stash classes (`D2XFile`, `SSSFile`) are one class, `Stash.PlugyStashFile`, with a `kind` field. A stash page's name is kept as its bytes, and "no flags" (`flags = 0`) is kept as `None`.
- Stash.PlugyStashFile.ReadStash: does not state that the items of each page are new objects; `Stash.PlugyStashFile.ReadPage` states it for one page.
- Stash.FlagsOfBytes: `data << 16 | next` is modelled as `data * 0x10000 + next`, which is the same number for a `next` below 2^16.
- Items.SetExtrasFrom: does not state that the extras found before stay in front; `Items.SetExtrasKeepAcc` proves it.
- The mercenary fields of the header are grouped in a `Mercenary` value; in the source they are flat fields of `D2SFile`.

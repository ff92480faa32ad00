/**
 * The string helpers of the utils modules: Python's whitespace stripping,
 * `stripped_string_concat`, the decimal spelling of integers (`f'{n}'`,
 * `str.isdecimal`, `int()`), the poison-damage helpers, and the values that
 * a `str.format` call is given.
 *
 * `str.format` itself is not interpreted: a formatted attribute is kept as
 * its template together with the arguments it was given (`Rendered`).
 */
module Text {
  import opened Outcomes

  // ---------------------------------------------------------------------
  // Whitespace

  /** `str.isspace` of a single character. */
  predicate IsSpace(c: char)
  {
    var n := c as int;
    || 9 <= n <= 13
    || 28 <= n <= 32
    || n == 0x85 || n == 0xA0 || n == 0x1680
    || 0x2000 <= n <= 0x200A
    || n == 0x2028 || n == 0x2029 || n == 0x202F || n == 0x205F || n == 0x3000
  }

  /** Every character of s from index lo up to hi is whitespace. */
  predicate AllSpaceIn(s: string, lo: nat, hi: nat)
    requires lo <= hi <= |s|
  {
    forall k :: lo <= k < hi ==> IsSpace(s[k])
  }

  predicate AllSpace(s: string)
  {
    AllSpaceIn(s, 0, |s|)
  }

  /** The index of the first character at or after i that is not whitespace (|s| if none). */
  function LeadFrom(s: string, i: nat): (r: nat)
    requires i <= |s|
    ensures i <= r <= |s| && AllSpaceIn(s, i, r)
    ensures r < |s| ==> !IsSpace(s[r])
    decreases |s| - i
  {
    if i < |s| && IsSpace(s[i]) then LeadFrom(s, i + 1) else i
  }

  /** One past the last character before j that is not whitespace (0 if none). */
  function TrailTo(s: string, j: nat): (r: nat)
    requires j <= |s|
    ensures r <= j && AllSpaceIn(s, r, j)
    ensures 0 < r ==> !IsSpace(s[r - 1])
  {
    if 0 < j && IsSpace(s[j - 1]) then TrailTo(s, j - 1) else j
  }

  /** A string with something in it and no whitespace at either end. */
  predicate Trimmed(s: string)
  {
    s != [] && !IsSpace(s[0]) && !IsSpace(s[|s| - 1])
  }

  /** `s.rstrip()`: s without its trailing whitespace. */
  function RStrip(s: string): (r: string)
    ensures |r| <= |s| && r == s[..|r|] && AllSpaceIn(s, |r|, |s|)
    ensures r == [] || !IsSpace(r[|r| - 1])
  {
    s[..TrailTo(s, |s|)]
  }

  /** `s.strip()`: s without its leading and trailing whitespace. */
  function Strip(s: string): (r: string)
    ensures r == [] || Trimmed(r)
  {
    var i := LeadFrom(s, 0);
    var j := TrailTo(s, |s|);
    if i < j then s[i..j] else []
  }

  /** `LeadFrom` stops at the first character that is not whitespace. */
  lemma {:induction false} LeadAt(s: string, k: nat, i: nat)
    requires k <= i <= |s| && AllSpaceIn(s, k, i)
    requires i < |s| ==> !IsSpace(s[i])
    ensures LeadFrom(s, k) == i
    decreases i - k
  {
    if k < i {
      LeadAt(s, k + 1, i);
    }
  }

  /** `TrailTo` stops after the last character that is not whitespace. */
  lemma {:induction false} TrailAt(s: string, j: nat, k: nat)
    requires j <= k <= |s| && AllSpaceIn(s, j, k)
    requires 0 < j ==> !IsSpace(s[j - 1])
    ensures TrailTo(s, k) == j
    decreases k - j
  {
    if j < k {
      TrailAt(s, j, k - 1);
    }
  }

  /**
   * `Strip` is the one slice of s that has no whitespace at either end and
   * only whitespace around it: any such slice `s[i..j]` is the result.
   */
  lemma StripIsCore(s: string, i: nat, j: nat)
    requires i <= j <= |s|
    requires AllSpaceIn(s, 0, i) && AllSpaceIn(s, j, |s|)
    requires i < j ==> !IsSpace(s[i]) && !IsSpace(s[j - 1])
    ensures Strip(s) == s[i..j]
  {
    if i < j {
      LeadAt(s, 0, i);
      TrailAt(s, j, |s|);
    } else {
      assert AllSpaceIn(s, 0, |s|) by {
        forall k | 0 <= k < |s|
          ensures IsSpace(s[k])
        {
          if k < i {
          } else {
            assert j <= k;
          }
        }
      }
      LeadAt(s, 0, |s|);
      TrailAt(s, 0, |s|);
    }
  }

  /** Stripping is idempotent. */
  lemma StripTwice(s: string)
    ensures Strip(Strip(s)) == Strip(s)
  {
    var r := Strip(s);
    if r == [] {
      StripIsCore(r, 0, 0);
    } else {
      StripIsCore(r, 0, |r|);
      SliceAll(r);
    }
  }

  /** A string strips to nothing exactly when it is all whitespace. */
  lemma StripEmpty(s: string)
    ensures Strip(s) == [] <==> AllSpace(s)
  {
    var i := LeadFrom(s, 0);
    var j := TrailTo(s, |s|);
    if AllSpace(s) {
      StripIsCore(s, 0, 0);
    }
  }

  lemma Chain(a: string, b: string, c: string, d: string)
    requires a == b && b == c && c == d
    ensures a == d
  {
  }

  lemma SliceAll(s: string)
    ensures s[0..|s|] == s
  {
  }

  lemma SliceOfTriple(s: string, pre: string, core: string, post: string, i: nat, j: nat)
    requires s == pre + core + post && i <= j <= |core|
    ensures s[|pre| + i..|pre| + j] == core[i..j]
  {
  }

  lemma IndexOfTriple(s: string, pre: string, core: string, post: string, k: nat)
    requires s == pre + core + post && k < |core|
    ensures s[|pre| + k] == core[k]
  {
  }

  /** Whitespace around a string does not change what it strips to. */
  lemma StripOfPadded(pre: string, core: string, post: string)
    requires AllSpace(pre) && AllSpace(post)
    ensures Strip(pre + core + post) == Strip(core)
  {
    var s := pre + core + post;
    var i := LeadFrom(core, 0);
    var j := TrailTo(core, |core|);
    if i < j {
      PaddedHead(s, pre, core, post, i);
      PaddedTail(s, pre, core, post, j);
      IndexOfTriple(s, pre, core, post, i);
      IndexOfTriple(s, pre, core, post, j - 1);
      StripIsCore(s, |pre| + i, |pre| + j);
      SliceOfTriple(s, pre, core, post, i, j);
      Chain(Strip(s), s[|pre| + i..|pre| + j], core[i..j], Strip(core));
    } else {
      assert i == |core|;
      PaddedHead(s, pre, core, post, |core|);
      PaddedTail(s, pre, core, post, |core|);
      StripIsCore(s, |pre| + |core|, |pre| + |core|);
    }
  }

  lemma PaddedHead(s: string, pre: string, core: string, post: string, i: nat)
    requires s == pre + core + post && AllSpace(pre) && i <= |core| && AllSpaceIn(core, 0, i)
    ensures AllSpaceIn(s, 0, |pre| + i)
  {
    forall k | 0 <= k < |pre| + i
      ensures IsSpace(s[k])
    {
      if k < |pre| {
        assert s[k] == pre[k];
      } else {
        assert s[k] == core[k - |pre|];
      }
    }
  }

  lemma PaddedTail(s: string, pre: string, core: string, post: string, j: nat)
    requires s == pre + core + post && AllSpace(post) && j <= |core| && AllSpaceIn(core, j, |core|)
    ensures AllSpaceIn(s, |pre| + j, |s|)
  {
    forall k | |pre| + j <= k < |s|
      ensures IsSpace(s[k])
    {
      if k < |pre| + |core| {
        assert s[k] == core[k - |pre|];
      } else {
        assert s[k] == post[k - |pre| - |core|];
      }
    }
  }

  // ---------------------------------------------------------------------
  // `stripped_string_concat`

  /** `f'{str1} {str2}'.strip()`. */
  function StrippedStringConcat(str1: string, str2: string): (r: string)
  {
    Strip(str1 + " " + str2)
  }

  /** Two trimmed names are joined by exactly one space. */
  lemma ConcatOfTrimmed(str1: string, str2: string)
    requires Trimmed(str1) && Trimmed(str2)
    ensures StrippedStringConcat(str1, str2) == str1 + " " + str2
  {
    var s := str1 + " " + str2;
    assert s[0] == str1[0] && s[|s| - 1] == str2[|str2| - 1];
    StripIsCore(s, 0, |s|);
    SliceAll(s);
  }

  /** An empty or all-blank second part leaves the first one stripped. */
  lemma ConcatOfBlankSecond(str1: string, str2: string)
    requires AllSpace(str2)
    ensures StrippedStringConcat(str1, str2) == Strip(str1)
  {
    var blank := " " + str2;
    assert AllSpace(blank) by {
      forall k | 0 <= k < |blank|
        ensures IsSpace(blank[k])
      {
        if k > 0 {
          assert blank[k] == str2[k - 1];
        }
      }
    }
    var none: string := [];
    StripOfPadded(none, str1, blank);
    JoinAround(none, str1, " ", str2);
  }

  /** An empty or all-blank first part leaves the second one stripped. */
  lemma ConcatOfBlankFirst(str1: string, str2: string)
    requires AllSpace(str1)
    ensures StrippedStringConcat(str1, str2) == Strip(str2)
  {
    var blank := str1 + " ";
    assert AllSpace(blank) by {
      forall k | 0 <= k < |blank|
        ensures IsSpace(blank[k])
      {
        if k < |str1| {
          assert blank[k] == str1[k];
        }
      }
    }
    var none: string := [];
    StripOfPadded(blank, str2, none);
    JoinBefore(str1, " ", str2, none);
  }

  lemma JoinAround(none: string, a: string, sep: string, b: string)
    requires none == []
    ensures none + a + (sep + b) == a + sep + b
  {
  }

  lemma JoinBefore(a: string, sep: string, b: string, none: string)
    requires none == []
    ensures (a + sep) + b + none == a + sep + b
  {
  }

  /**
   * The shapes of the source's tests: two empty parts give the empty string,
   * and a name padded with blanks next to an empty part comes out bare.
   */
  lemma ConcatVectorsBlank(name: string)
    requires Trimmed(name)
    ensures StrippedStringConcat("", "") == ""
    ensures StrippedStringConcat(" " + name + " ", "") == name
    ensures StrippedStringConcat("", " " + name + "  ") == name
  {
    var blank: string := [];
    ConcatOfBlankFirst(blank, blank);
    StripIsCore(blank, 0, 0);
    var one := " " + name + " ";
    ConcatOfBlankSecond(one, blank);
    PaddedName(one, " ", name, " ");
    var two := " " + name + "  ";
    ConcatOfBlankFirst(blank, two);
    PaddedName(two, " ", name, "  ");
  }

  lemma PaddedName(s: string, pre: string, name: string, post: string)
    requires s == pre + name + post && AllSpace(pre) && AllSpace(post) && Trimmed(name)
    ensures Strip(s) == name
  {
    StripOfPadded(pre, name, post);
    StripIsCore(name, 0, |name|);
    SliceAll(name);
    Chain(Strip(s), Strip(name), name[0..|name|], name);
  }

  /** The case of the source's tests with two names. */
  lemma ConcatVectorNames(one: string, two: string)
    requires one == "String1" && two == "String2"
    ensures StrippedStringConcat(one, two) == "String1 String2"
  {
    ConcatOfTrimmed(one, two);
  }

  // ---------------------------------------------------------------------
  // Decimal numbers

  /** How many blocks of ten decimal digits Unicode 15.0 has. */
  const DigitBlocks: nat := 68

  /**
   * The code point of the digit zero of block b of the ten decimal digits
   * (Unicode general category Nd, the table of `str.isdecimal` and `int` in
   * Python 3.12, Unicode 15.0), in code order. Every block runs from its
   * zero up to its nine: ASCII, Arabic-Indic, Devanagari, ..., fullwidth,
   * the mathematical digits and the other scripts' digits.
   */
  function BlockZero(b: nat): (r: int)
    requires b < DigitBlocks
    ensures r >= 0x30
  {
    // A balanced choice on b, so that a proof about an unknown block looks
    // at a few branches rather than the whole table.
    if b < 34 then
      if b < 17 then
        if b < 8 then
          if b < 4 then
            if b < 2 then
              if b < 1 then
                0x30  // 0: Ascii
              else
                0x660  // 1: Arabic-Indic
            else
              if b < 3 then
                0x6F0  // 2: Extended Arabic-Indic
              else
                0x7C0  // 3: Nko
          else
            if b < 6 then
              if b < 5 then
                0x966  // 4: Devanagari
              else
                0x9E6  // 5: Bengali
            else
              if b < 7 then
                0xA66  // 6: Gurmukhi
              else
                0xAE6  // 7: Gujarati
        else
          if b < 12 then
            if b < 10 then
              if b < 9 then
                0xB66  // 8: Oriya
              else
                0xBE6  // 9: Tamil
            else
              if b < 11 then
                0xC66  // 10: Telugu
              else
                0xCE6  // 11: Kannada
          else
            if b < 14 then
              if b < 13 then
                0xD66  // 12: Malayalam
              else
                0xDE6  // 13: Sinhala Lith
            else
              if b < 15 then
                0xE50  // 14: Thai
              else
                if b < 16 then
                  0xED0  // 15: Lao
                else
                  0xF20  // 16: Tibetan
      else
        if b < 25 then
          if b < 21 then
            if b < 19 then
              if b < 18 then
                0x1040  // 17: Myanmar
              else
                0x1090  // 18: Myanmar Shan
            else
              if b < 20 then
                0x17E0  // 19: Khmer
              else
                0x1810  // 20: Mongolian
          else
            if b < 23 then
              if b < 22 then
                0x1946  // 21: Limbu
              else
                0x19D0  // 22: New Tai Lue
            else
              if b < 24 then
                0x1A80  // 23: Tai Tham Hora
              else
                0x1A90  // 24: Tai Tham Tham
        else
          if b < 29 then
            if b < 27 then
              if b < 26 then
                0x1B50  // 25: Balinese
              else
                0x1BB0  // 26: Sundanese
            else
              if b < 28 then
                0x1C40  // 27: Lepcha
              else
                0x1C50  // 28: Ol Chiki
          else
            if b < 31 then
              if b < 30 then
                0xA620  // 29: Vai
              else
                0xA8D0  // 30: Saurashtra
            else
              if b < 32 then
                0xA900  // 31: Kayah Li
              else
                if b < 33 then
                  0xA9D0  // 32: Javanese
                else
                  0xA9F0  // 33: Myanmar Tai Laing
    else
      if b < 51 then
        if b < 42 then
          if b < 38 then
            if b < 36 then
              if b < 35 then
                0xAA50  // 34: Cham
              else
                0xABF0  // 35: Meetei Mayek
            else
              if b < 37 then
                0xFF10  // 36: Fullwidth
              else
                0x104A0  // 37: Osmanya
          else
            if b < 40 then
              if b < 39 then
                0x10D30  // 38: Hanifi Rohingya
              else
                0x11066  // 39: Brahmi
            else
              if b < 41 then
                0x110F0  // 40: Sora Sompeng
              else
                0x11136  // 41: Chakma
        else
          if b < 46 then
            if b < 44 then
              if b < 43 then
                0x111D0  // 42: Sharada
              else
                0x112F0  // 43: Khudawadi
            else
              if b < 45 then
                0x11450  // 44: Newa
              else
                0x114D0  // 45: Tirhuta
          else
            if b < 48 then
              if b < 47 then
                0x11650  // 46: Modi
              else
                0x116C0  // 47: Takri
            else
              if b < 49 then
                0x11730  // 48: Ahom
              else
                if b < 50 then
                  0x118E0  // 49: Warang Citi
                else
                  0x11950  // 50: Dives Akuru
      else
        if b < 59 then
          if b < 55 then
            if b < 53 then
              if b < 52 then
                0x11C50  // 51: Bhaiksuki
              else
                0x11D50  // 52: Masaram Gondi
            else
              if b < 54 then
                0x11DA0  // 53: Gunjala Gondi
              else
                0x11F50  // 54: Kawi
          else
            if b < 57 then
              if b < 56 then
                0x16A60  // 55: Mro
              else
                0x16AC0  // 56: Tangsa
            else
              if b < 58 then
                0x16B50  // 57: Pahawh Hmong
              else
                0x1D7CE  // 58: Mathematical Bold
        else
          if b < 63 then
            if b < 61 then
              if b < 60 then
                0x1D7D8  // 59: Mathematical Double-Struck
              else
                0x1D7E2  // 60: Mathematical Sans-Serif
            else
              if b < 62 then
                0x1D7EC  // 61: Mathematical Sans-Serif Bold
              else
                0x1D7F6  // 62: Mathematical Monospace
          else
            if b < 65 then
              if b < 64 then
                0x1E140  // 63: Nyiakeng Puachue Hmong
              else
                0x1E2F0  // 64: Wancho
            else
              if b < 66 then
                0x1E4F0  // 65: Nag Mundari
              else
                if b < 67 then
                  0x1E950  // 66: Adlam
                else
                  0x1FBF0  // 67: Segmented
  }

  /** The zero of the first block from b on that holds code n, or -1 if none does. */
  function BlockZeroFrom(n: int, b: nat): (r: int)
    requires b <= DigitBlocks
    ensures r == -1 || 0x30 <= r <= n < r + 10
    decreases DigitBlocks - b
  {
    if b == DigitBlocks then -1
    else if BlockZero(b) <= n < BlockZero(b) + 10 then BlockZero(b)
    else BlockZeroFrom(n, b + 1)
  }

  /**
   * The zero of the decimal block that holds code n, or -1 if n is no
   * decimal digit.
   */
  function DigitZero(n: int): (r: int)
    ensures r == -1 || 0x30 <= r <= n < r + 10
  {
    BlockZeroFrom(n, 0)
  }

  /** Each block ends before the next one starts. */
  lemma BlockBeforeNext(b: nat)
    requires b + 1 < DigitBlocks
    ensures BlockZero(b) + 10 <= BlockZero(b + 1)
  {
  }

  /** The blocks are in code order and do not overlap. */
  lemma {:induction false} BlocksAscend(k: nat, b: nat)
    requires k < b < DigitBlocks
    ensures BlockZero(k) + 10 <= BlockZero(b)
    decreases b - k
  {
    BlockBeforeNext(k);
    if k + 1 < b {
      BlocksAscend(k + 1, b);
    }
  }

  /** No block from b on holds a code below the zero of block b. */
  lemma {:induction false} BelowBlock(n: int, b: nat)
    requires b < DigitBlocks && n < BlockZero(b)
    ensures BlockZeroFrom(n, b) == -1
    decreases DigitBlocks - b
  {
    if b + 1 < DigitBlocks {
      BlockBeforeNext(b);
      BelowBlock(n, b + 1);
    }
  }

  /** A character outside '0'..'9' and below the Arabic-Indic digits is no decimal digit. */
  lemma AsciiNotDigit(c: char)
    requires c as int < 0x660 && !('0' <= c <= '9')
    ensures !IsDigit(c)
  {
    BelowBlock(c as int, 1);
  }

  /** The search from block k finds a code of a later block b in b. */
  lemma {:induction false} FoundInBlock(n: int, k: nat, b: nat)
    requires k <= b < DigitBlocks && BlockZero(b) <= n < BlockZero(b) + 10
    ensures BlockZeroFrom(n, k) == BlockZero(b)
    decreases b - k
  {
    if k < b {
      BlocksAscend(k, b);
      FoundInBlock(n, k + 1, b);
    }
  }

  /** The d-th character of any decimal block is a digit of value d. */
  lemma DigitInBlock(c: char, b: nat, d: nat)
    requires b < DigitBlocks && d < 10 && c as int == BlockZero(b) + d
    ensures IsDigit(c) && DigitOf(c) == d
  {
    FoundInBlock(c as int, 0, b);
  }

  /** No block from b on holds a whitespace character. */
  lemma {:induction false} BlocksHaveNoSpace(c: char, b: nat)
    requires b <= DigitBlocks
    ensures BlockZeroFrom(c as int, b) != -1 ==> !IsSpace(c)
    decreases DigitBlocks - b
  {
    if b < DigitBlocks && !(BlockZero(b) <= c as int < BlockZero(b) + 10) {
      BlocksHaveNoSpace(c, b + 1);
    }
  }

  /** `c.isdecimal()`: c is one of the ten digits of a Unicode decimal block. */
  predicate IsDigit(c: char)
  {
    DigitZero(c as int) != -1
  }

  /** The value of a decimal digit: its distance from the zero of its block. */
  function DigitOf(c: char): (r: nat)
    requires IsDigit(c)
    ensures r < 10
  {
    c as int - DigitZero(c as int)
  }

  /** An ASCII digit is a decimal digit, of the value it spells. */
  lemma AsciiDigit(d: nat)
    requires d < 10
    ensures IsDigit(('0' as int + d) as char) && DigitOf(('0' as int + d) as char) == d
  {
  }

  /** `s.isdecimal()`: non-empty and only decimal digits. */
  predicate IsDecimal(s: string)
  {
    s != [] && forall k :: 0 <= k < |s| ==> IsDigit(s[k])
  }

  /** The number a string of digits spells, most significant digit first. */
  function DigitsValue(s: string): (r: nat)
    requires forall k :: 0 <= k < |s| ==> IsDigit(s[k])
  {
    if s == [] then 0
    else
      assert IsDigit(s[|s| - 1]);
      10 * DigitsValue(s[..|s| - 1]) + DigitOf(s[|s| - 1])
  }

  /** `f'{n}'` for a natural number: its digits, without leading zeros. */
  function NatString(n: nat): (r: string)
    ensures IsDecimal(r)
    ensures |r| > 1 ==> r[0] != '0'
  {
    AsciiDigit(n % 10);
    var last := [('0' as int + n % 10) as char];
    if n < 10 then last else NatString(n / 10) + last
  }

  /** The digits of `f'{n}'` read back as n. */
  lemma {:induction false} NatStringValue(n: nat)
    ensures DigitsValue(NatString(n)) == n
  {
    var s := NatString(n);
    AsciiDigit(n % 10);
    if n >= 10 {
      NatStringValue(n / 10);
      assert s[..|s| - 1] == NatString(n / 10);
    }
  }

  /** `f'{n}'` for any integer: a minus sign in front of a negative one. */
  function IntString(n: int): (r: string)
    ensures r != [] && (r[0] == '-' <==> n < 0)
  {
    if n < 0 then "-" + NatString(-n) else NatString(n)
  }

  /** Different numbers are spelled differently. */
  lemma IntStringInjective(m: int, n: int)
    requires IntString(m) == IntString(n)
    ensures m == n
  {
    if m < 0 {
      SplitAt("-", NatString(-m));
      SplitAt("-", NatString(-n));
      NatStringValue(-m);
      NatStringValue(-n);
    } else {
      NatStringValue(m);
      NatStringValue(n);
    }
  }


  /** A run of digits in which single underscores may separate two digits. */
  predicate UnderscoredDigits(s: string)
  {
    && s != [] && IsDigit(s[0]) && IsDigit(s[|s| - 1])
    && (forall k :: 0 <= k < |s| ==> IsDigit(s[k]) || s[k] == '_')
    && (forall k :: 0 <= k < |s| - 1 ==> !(s[k] == '_' && s[k + 1] == '_'))
  }

  /** The digits of s, underscores dropped. */
  function DropUnderscores(s: string): (r: string)
    requires forall k :: 0 <= k < |s| ==> IsDigit(s[k]) || s[k] == '_'
    ensures forall k :: 0 <= k < |r| ==> IsDigit(r[k])
    ensures |r| <= |s|
  {
    if s == [] then []
    else
      var rest := DropUnderscores(s[1..]);
      if s[0] == '_' then rest else [s[0]] + rest
  }

  /**
   * The whitespace `int` skips around a number: `str.isspace` without the
   * four separators U+001C..U+001F, which `int` refuses.
   */
  predicate IsIntSpace(c: char)
  {
    IsSpace(c) && !(28 <= c as int <= 31)
  }

  /** Every character of s from index lo up to hi is whitespace to `int`. */
  predicate AllIntSpaceIn(s: string, lo: nat, hi: nat)
    requires lo <= hi <= |s|
  {
    forall k :: lo <= k < hi ==> IsIntSpace(s[k])
  }

  /** The index of the first character at or after i that `int` does not skip (|s| if none). */
  function IntLeadFrom(s: string, i: nat): (r: nat)
    requires i <= |s|
    ensures i <= r <= |s| && AllIntSpaceIn(s, i, r)
    ensures r < |s| ==> !IsIntSpace(s[r])
    decreases |s| - i
  {
    if i < |s| && IsIntSpace(s[i]) then IntLeadFrom(s, i + 1) else i
  }

  /** One past the last character before j that `int` does not skip (0 if none). */
  function IntTrailTo(s: string, j: nat): (r: nat)
    requires j <= |s|
    ensures r <= j && AllIntSpaceIn(s, r, j)
    ensures 0 < r ==> !IsIntSpace(s[r - 1])
  {
    if 0 < j && IsIntSpace(s[j - 1]) then IntTrailTo(s, j - 1) else j
  }

  /** The text `int` parses: s without the whitespace it skips at either end. */
  function IntText(s: string): (r: string)
    ensures r == [] || (!IsIntSpace(r[0]) && !IsIntSpace(r[|r| - 1]))
  {
    var i := IntLeadFrom(s, 0);
    var j := IntTrailTo(s, |s|);
    if i < j then s[i..j] else []
  }

  /** `IntLeadFrom` stops at the first character `int` does not skip. */
  lemma {:induction false} IntLeadAt(s: string, k: nat, i: nat)
    requires k <= i <= |s| && AllIntSpaceIn(s, k, i)
    requires i < |s| ==> !IsIntSpace(s[i])
    ensures IntLeadFrom(s, k) == i
    decreases i - k
  {
    if k < i {
      IntLeadAt(s, k + 1, i);
    }
  }

  /** `IntTrailTo` stops after the last character `int` does not skip. */
  lemma {:induction false} IntTrailAt(s: string, j: nat, k: nat)
    requires j <= k <= |s| && AllIntSpaceIn(s, j, k)
    requires 0 < j ==> !IsIntSpace(s[j - 1])
    ensures IntTrailTo(s, k) == j
    decreases k - j
  {
    if j < k {
      IntTrailAt(s, j, k - 1);
    }
  }

  /** Any non-empty slice with no `int` whitespace at its ends and only such whitespace around it is the `int` text. */
  lemma IntTextIsCore(s: string, i: nat, j: nat)
    requires i < j <= |s|
    requires AllIntSpaceIn(s, 0, i) && AllIntSpaceIn(s, j, |s|)
    requires !IsIntSpace(s[i]) && !IsIntSpace(s[j - 1])
    ensures IntText(s) == s[i..j]
  {
    IntLeadAt(s, 0, i);
    IntTrailAt(s, j, |s|);
  }

  /** The text after an optional sign. */
  function Unsigned(t: string): (r: string)
    ensures r == t || (t != [] && (t[0] == '-' || t[0] == '+') && r == t[1..])
  {
    if t != [] && (t[0] == '-' || t[0] == '+') then t[1..] else t
  }

  /** An optional sign, then digits that single underscores may group. */
  predicate SignedDigits(t: string)
  {
    UnderscoredDigits(Unsigned(t))
  }

  /**
   * `int(s)` of a base-10 string: surrounding whitespace, an optional sign,
   * digits that single underscores may group. None is the ValueError case.
   */
  function PyInt(s: string): (r: Option<int>)
    ensures r.Some? <==> SignedDigits(IntText(s))
    ensures IsDecimal(s) ==> r == Some(DigitsValue(s))
  {
    var t := IntText(s);
    if IsDecimal(s) then
      DecimalIntText(s);
      OnlyDigits(s);
      Some(DigitsValue(s))
    else if !SignedDigits(t) then None
    else
      var sign := if t[0] == '-' then -1 else 1;
      Some(sign * DigitsValue(DropUnderscores(Unsigned(t))))
  }

  /** Only a text `int` reads with a leading minus gives a negative number. */
  lemma PyIntSign(s: string)
    requires PyInt(s).Some? && PyInt(s).value < 0
    ensures IntText(s)[0] == '-'
  {
  }

  /** A decimal digit is no whitespace. */
  lemma DigitNotSpace(c: char)
    requires IsDigit(c)
    ensures !IsSpace(c)
  {
    BlocksHaveNoSpace(c, 0);
  }

  /** A decimal string is its own `int` text and has no sign. */
  lemma DecimalIntText(s: string)
    requires IsDecimal(s)
    ensures IntText(s) == s && Unsigned(s) == s
  {
    DigitNotSpace(s[0]);
    DigitNotSpace(s[|s| - 1]);
    IntTextIsCore(s, 0, |s|);
    assert s[0..|s|] == s;
  }

  /** When the text `int` parses is decimal, the result is its value. */
  lemma PyIntOfDecimalText(s: string)
    requires IsDecimal(IntText(s))
    ensures PyInt(s) == Some(DigitsValue(IntText(s)))
  {
    var t := IntText(s);
    if IsDecimal(s) {
      DecimalIntText(s);
    } else {
      DecimalIntText(t);
      OnlyDigits(t);
      DigitNotSpace(t[0]);
      assert t[0] != '-';
    }
  }

  /** The `int` text of a decimal string padded with the whitespace `int` skips is the string. */
  lemma IntTextOfPadded(pre: string, d: string, post: string)
    requires IsDecimal(d) && AllIntSpaceIn(pre, 0, |pre|) && AllIntSpaceIn(post, 0, |post|)
    ensures IntText(pre + d + post) == d
  {
    var s := pre + d + post;
    var i, j := |pre|, |pre| + |d|;
    DigitNotSpace(d[0]);
    DigitNotSpace(d[|d| - 1]);
    assert s[i] == d[0] && s[j - 1] == d[|d| - 1];
    assert forall k :: 0 <= k < i ==> s[k] == pre[k];
    assert forall k :: j <= k < |s| ==> s[k] == post[k - j];
    IntTextIsCore(s, i, j);
    assert s[i..j] == d;
  }

  /** `int` reads a decimal string padded with the whitespace it skips as the string alone. */
  lemma PyIntOfPadded(pre: string, d: string, post: string)
    requires IsDecimal(d) && AllIntSpaceIn(pre, 0, |pre|) && AllIntSpaceIn(post, 0, |post|)
    ensures PyInt(pre + d + post) == Some(DigitsValue(d))
  {
    IntTextOfPadded(pre, d, post);
    PyIntOfDecimalText(pre + d + post);
  }

  /** `'-' + d` is its own `int` text, not decimal, with d after the sign. */
  lemma NegativeIntText(d: string)
    requires IsDecimal(d)
    ensures var s := "-" + d; IntText(s) == s && Unsigned(s) == d && !IsDecimal(s) && s[0] == '-'
  {
    var s := "-" + d;
    DigitNotSpace(d[|d| - 1]);
    assert s[|s| - 1] == d[|d| - 1];
    IntTextIsCore(s, 0, |s|);
    assert s[0..|s|] == s;
    assert !IsDigit(s[0]);
  }

  /** `int('-' + d)` is minus the value of the decimal string d. */
  lemma PyIntOfNegative(d: string)
    requires IsDecimal(d)
    ensures PyInt("-" + d) == Some(-(DigitsValue(d) as int))
  {
    NegativeIntText(d);
    OnlyDigits(d);
  }

  /** `int('\x1c5')` is a ValueError: U+001C is whitespace to `strip` but not to `int`. */
  lemma PyIntRefusesSeparator(s: string)
    requires s == ['\U{001C}', '5']
    ensures Strip(s) == "5" && PyInt(s) == None
  {
    StripIsCore(s, 1, 2);
    assert !IsIntSpace(s[0]) && !IsIntSpace(s[1]);
    IntTextIsCore(s, 0, 2);
    assert s[0..2] == s;
    assert Unsigned(s) == s;
    assert !IsDigit(s[0]);
  }

  /** A decimal string has no underscore to drop. */
  lemma OnlyDigits(s: string)
    requires IsDecimal(s)
    ensures UnderscoredDigits(s) && DropUnderscores(s) == s
  {
    AsciiNotDigit('_');
    if |s| > 1 {
      OnlyDigits(s[1..]);
    } else {
      assert DropUnderscores(s[1..]) == [];
    }
  }

  /** `int('١٢')` is 12: the digits of other scripts count, as they do for `str.isdecimal` and `int`. */
  lemma PyIntArabicIndic(s: string)
    requires s == ['\U{0661}', '\U{0662}']
    ensures IsDecimal(s) && PyInt(s) == Some(12)
  {
    assert DigitsValue(s[..1]) == 1;
  }

  /** `int(f'{n}')` is n: the key spelling of the item tables reads back. */
  lemma PyIntOfNatString(n: nat)
    ensures PyInt(NatString(n)) == Some(n)
  {
    NatStringValue(n);
  }

  // ---------------------------------------------------------------------
  // Formatted attributes

  /** One argument given to `str.format`: a number, a string, or None. */
  datatype FmtArg = Num(n: int) | Name(s: string) | Absent

  /** `template.format(*args)`, kept as the template and its arguments. */
  datatype Rendered = Rendered(template: string, args: seq<FmtArg>)

  // ---------------------------------------------------------------------
  // Poison damage

  /**
   * `round(duration / 25)`. An integer never lies exactly half-way between
   * two multiples of 25, so Python's round-half-to-even never applies.
   */
  function PoisonSeconds(duration: int): (r: int)
    ensures -25 < 2 * duration - 50 * r < 25
  {
    var x := 2 * duration + 25;
    NearestStep(duration, x / 50, x % 50);
    x / 50
  }

  lemma NearestStep(d: int, q: int, m: int)
    requires 2 * d + 25 == 50 * q + m && 0 <= m < 50
    ensures -25 < 2 * d - 50 * q < 25
  {
    var y := d - 25 * q + 12;
    assert m == 2 * y + 1;
    assert m % 2 == 1;
  }

  /** The nearest integer to `duration / 25` is unique. */
  lemma PoisonSecondsNearest(duration: int, s: int)
    requires -25 < 2 * duration - 50 * s < 25
    ensures s == PoisonSeconds(duration)
  {
    var r := PoisonSeconds(duration);
    assert -50 < 50 * (s - r) < 50;
  }

  /**
   * `calc_poison_damage_params`. `total(damage, seconds)` stands for
   * `_calc_total_poison_damage`, a float computation.
   */
  function CalcPoisonDamageParams(minDamage: int, maxDamage: int, duration: int, total: (int, int) -> int): (r: (int, int, int))
    ensures r.2 == PoisonSeconds(duration)
    ensures minDamage == maxDamage ==> r.0 == r.1
  {
    var seconds := PoisonSeconds(duration);
    var totalMin := total(minDamage, seconds);
    if minDamage == maxDamage then (totalMin, totalMin, seconds)
    else (totalMin, total(maxDamage, seconds), seconds)
  }

  /** The early return for equal damages gives what the general branch would. */
  lemma PoisonParamsUniform(minDamage: int, maxDamage: int, duration: int, total: (int, int) -> int)
    ensures var seconds := PoisonSeconds(duration);
      CalcPoisonDamageParams(minDamage, maxDamage, duration, total)
        == (total(minDamage, seconds), total(maxDamage, seconds), seconds)
  {
  }

  /** The damage part of the poison text: "+N" or "Adds MIN-MAX". */
  function PoisonDamageLead(minDamage: int, maxDamage: int): string
  {
    if minDamage == maxDamage then "+" + IntString(minDamage)
    else "Adds " + IntString(minDamage) + "-" + IntString(maxDamage)
  }

  /** `get_poison_damage_str`: the template formatted with the damage text and the duration. */
  function GetPoisonDamageStr(minDamage: int, maxDamage: int, duration: int, template: string): (r: Rendered)
    ensures r.template == template && |r.args| == 2 && r.args[1] == Num(duration)
    ensures r.args[0].Name? && r.args[0].s != []
  {
    Rendered(template, [Name(PoisonDamageLead(minDamage, maxDamage)), Num(duration)])
  }

  /**
   * The "+N" form is used exactly when the two damages agree, and the
   * numbers can be read back from either form.
   */
  lemma PoisonDamageForms(minDamage: int, maxDamage: int, duration: int, template: string)
    ensures var lead := GetPoisonDamageStr(minDamage, maxDamage, duration, template).args[0].s;
      && (lead[0] == '+' <==> minDamage == maxDamage)
      && (minDamage == maxDamage ==> lead[1..] == IntString(minDamage))
      && (minDamage != maxDamage ==> lead[..5] == "Adds " && lead[5..] == IntString(minDamage) + "-" + IntString(maxDamage))
  {
    if minDamage == maxDamage {
      SplitAt("+", IntString(minDamage));
    } else {
      var rest := IntString(minDamage) + "-" + IntString(maxDamage);
      SplitAt("Adds ", rest);
      assert "Adds " + IntString(minDamage) + "-" + IntString(maxDamage) == "Adds " + rest;
    }
  }

  lemma SplitAt(a: string, b: string)
    ensures (a + b)[..|a|] == a && (a + b)[|a|..] == b
    ensures a != [] ==> (a + b)[0] == a[0]
  {
  }

}

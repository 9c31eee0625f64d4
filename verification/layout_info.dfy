/** Keyboard layout naming (KeyboardLayoutInfo.cs): how a layout handle
    (an `HKL`, read through `IntPtr.ToInt64()`) is split into a language id
    (bits 0-15) and a keyboard id (bits 16-31), how the keyboard id is
    written as an eight-digit layout identifier ("KLID") and looked up in a
    table of friendly names, and how the foreground window's layout is
    read. The culture lookup and the window queries are foreign calls and
    appear as parameters. */
module KeyboardLayoutInfo {
  import opened Basics
  import Numerals

  /** The friendly names of common layouts. The source keys this dictionary
      by the KLID string of each keyboard id ("00000409" for 0x0409); since
      `Klid` is injective (`KlidInjective`), a KLID matches a key exactly
      when the keyboard ids are equal, so the table is keyed by id here. */
  const LayoutNamesById: map<UInt16, string> := map[
    0x0409 := "US",
    0x0407 := "German",
    0x0809 := "UK",
    0x040C := "French",
    0x0410 := "Italian",
    0x0C0C := "Canadian French",
    0x0416 := "Portuguese (Brazil)",
    0x0816 := "Portuguese (Portugal)",
    0x040A := "Spanish",
    0x0413 := "Dutch",
    0x041D := "Swedish",
    0x0414 := "Norwegian",
    0x040B := "Finnish",
    0x0406 := "Danish",
    0x0415 := "Polish",
    0x0405 := "Czech",
    0x041B := "Slovak",
    0x040E := "Hungarian",
    0x0418 := "Romanian",
    0x0402 := "Bulgarian",
    0x0419 := "Russian",
    0x0422 := "Ukrainian",
    0x0408 := "Greek",
    0x041F := "Turkish",
    0x040D := "Hebrew",
    0x0401 := "Arabic",
    0x0411 := "Japanese",
    0x0412 := "Korean",
    0x0404 := "Chinese (Traditional)",
    0x0804 := "Chinese (Simplified)"
  ]

  /** `(ushort)(h >> 16)`: bits 16-31 of the handle. On a `long`, `>>` is an
      arithmetic shift, i.e. division rounding down, which is Dafny's `/`
      for a positive divisor. */
  function KeyboardId(h: Int64): (id: UInt16)
    ensures id < TwoTo16
    ensures 0 <= h < TwoTo32 ==> h == id * TwoTo16 + LangId(h)
    ensures (h - id * TwoTo16 - LangId(h)) % TwoTo32 == 0
  {
    (h / TwoTo16) % TwoTo16
  }

  /** A sign-extended handle, as 64-bit Windows reports US-Dvorak:
      0xFFFFFFFFF0020409 is the `long` -0x0FFDFBF7, and `(ushort)(h >> 16)`
      still yields bits 16-31 of its 64-bit pattern, 0xF002. */
  lemma KeyboardIdOfSignExtended()
    ensures KeyboardId(-0x0FFD_FBF7) == 0xF002
    ensures LangId(-0x0FFD_FBF7) == 0x0409
  {
  }

  /** `(ushort)h`: bits 0-15 of the handle, the language id. */
  function LangId(h: Int64): (id: UInt16)
    ensures id < TwoTo16
    ensures (h - id) % TwoTo16 == 0
  {
    h % TwoTo16
  }

  /** The KLID: four zeros and the four upper-case hexadecimal digits of the
      keyboard id. `KlidIsPaddedX4` shows this is the source's
      `keyboardId.ToString("X4").PadLeft(8, '0')`. */
  function Klid(keyboardId: UInt16): (k: string)
    ensures |k| == 8
    ensures k[..4] == "0000"
    ensures Numerals.AllDigits(k) && Numerals.Parse(k, 16) == keyboardId
  {
    KlidIsPaddedX4(keyboardId);
    "0000" + HexDigits4(keyboardId)
  }

  /** `ToString("X4").PadLeft(8, '0')` of a 16-bit number is four zeros and
      its four hexadecimal digits, and reads back as the number. */
  lemma KlidIsPaddedX4(id: UInt16)
    ensures Numerals.PadLeft(Numerals.HexPadded(id, 4), 8, '0') == "0000" + HexDigits4(id)
    ensures Numerals.AllDigits("0000" + HexDigits4(id))
    ensures Numerals.Parse("0000" + HexDigits4(id), 16) == id
  {
    X4Digits(id);
    var x4 := Numerals.HexPadded(id, 4);
    assert x4 == HexDigits4(id) && |x4| == 4;
    Numerals.ParseZeroPadded(x4, 16, 8);
    assert Repeat('0', 4) == "0000";
    assert Numerals.PadLeft(x4, 8, '0') == Repeat('0', 4) + x4;
  }

  /** The hexadecimal numerals of one to four digits, spelled out. */
  lemma HexOneDigit(n: nat)
    requires n < 16
    ensures Numerals.Format(n, 16) == [Numerals.DigitChar(n)]
  {
  }

  lemma HexTwoDigits(n: nat)
    requires 16 <= n < 0x100
    ensures Numerals.Format(n, 16) == [Numerals.DigitChar(n / 16), Numerals.DigitChar(n % 16)]
  {
    HexOneDigit(n / 16);
  }

  lemma HexThreeDigits(n: nat)
    requires 0x100 <= n < 0x1000
    ensures Numerals.Format(n, 16) ==
      [Numerals.DigitChar(n / 16 / 16), Numerals.DigitChar(n / 16 % 16), Numerals.DigitChar(n % 16)]
  {
    HexTwoDigits(n / 16);
  }

  lemma HexFourDigits(n: nat)
    requires 0x1000 <= n < TwoTo16
    ensures Numerals.Format(n, 16) ==
      [Numerals.DigitChar(n / 16 / 16 / 16), Numerals.DigitChar(n / 16 / 16 % 16),
       Numerals.DigitChar(n / 16 % 16), Numerals.DigitChar(n % 16)]
  {
    HexThreeDigits(n / 16);
  }

  /** The four hexadecimal digits of a 16-bit number, most significant first. */
  function HexDigits4(id: UInt16): (s: string)
    ensures |s| == 4
  {
    [Numerals.DigitChar(id / 16 / 16 / 16), Numerals.DigitChar(id / 16 / 16 % 16),
     Numerals.DigitChar(id / 16 % 16), Numerals.DigitChar(id % 16)]
  }

  /** `ToString("X4")` of a 16-bit number is its four hexadecimal digits. */
  lemma X4Digits(id: UInt16)
    ensures Numerals.HexPadded(id, 4) == HexDigits4(id)
  {
    if id < 16 {
      X4OneDigit(id);
    } else if id < 0x100 {
      X4TwoDigits(id);
    } else if id < 0x1000 {
      X4ThreeDigits(id);
    } else {
      HexFourDigits(id);
    }
  }

  lemma X4OneDigit(id: nat)
    requires id < 16
    ensures Numerals.HexPadded(id, 4) == HexDigits4(id)
  {
    HexOneDigit(id);
    assert Repeat('0', 3) == ['0', '0', '0'];
    assert Numerals.DigitChar(0) == '0';
  }

  lemma X4TwoDigits(id: nat)
    requires 16 <= id < 0x100
    ensures Numerals.HexPadded(id, 4) == HexDigits4(id)
  {
    HexTwoDigits(id);
    assert Repeat('0', 2) == ['0', '0'];
    assert Numerals.DigitChar(0) == '0';
  }

  lemma X4ThreeDigits(id: nat)
    requires 0x100 <= id < 0x1000
    ensures Numerals.HexPadded(id, 4) == HexDigits4(id)
  {
    HexThreeDigits(id);
    assert Repeat('0', 1) == ['0'];
    assert Numerals.DigitChar(0) == '0';
  }

  /** Distinct keyboard ids give distinct KLIDs. */
  lemma KlidInjective(a: UInt16, b: UInt16)
    requires Klid(a) == Klid(b)
    ensures a == b
  {
    assert Numerals.Parse(Klid(a), 16) == Numerals.Parse(Klid(b), 16);
  }

  /** `GetLayoutName`: the friendly name of the handle's KLID, or the KLID
      itself when the table does not list it. */
  function GetLayoutName(h: Int64): (name: string)
    ensures KeyboardId(h) in LayoutNamesById ==> name == LayoutNamesById[KeyboardId(h)]
    ensures KeyboardId(h) !in LayoutNamesById ==> name == Klid(KeyboardId(h))
  {
    var id := KeyboardId(h);
    if id in LayoutNamesById then LayoutNamesById[id] else Klid(id)
  }

  /** The name depends on bits 16-31 only. */
  lemma NameIgnoresLanguage(h1: Int64, h2: Int64)
    requires KeyboardId(h1) == KeyboardId(h2)
    ensures GetLayoutName(h1) == GetLayoutName(h2)
  {
  }

  /** Every unknown layout is shown by an eight-digit KLID that reads back as
      its keyboard id, so different unknown layouts are told apart. */
  lemma UnknownNameReadsBack(h: Int64)
    requires KeyboardId(h) !in LayoutNamesById
    ensures |GetLayoutName(h)| == 8
    ensures Numerals.AllDigits(GetLayoutName(h))
    ensures Numerals.Parse(GetLayoutName(h), 16) == KeyboardId(h)
  {
  }

  lemma NameOfUs()
    ensures GetLayoutName(0x04090409) == "US"
  {
  }

  lemma NameOfGerman()
    ensures GetLayoutName(0x04070407) == "German"
  {
  }

  lemma NameOfChineseSimplified()
    ensures GetLayoutName(0x08040804) == "Chinese (Simplified)"
  {
  }

  /** A handle whose bits 16-31 are zero is named "00000000", whatever its
      low half: the language id never enters the name. */
  lemma NameOfLowHalfOnly(h: Int64)
    requires 0 <= h < TwoTo16
    ensures GetLayoutName(h) == "00000000"
  {
    assert KeyboardId(h) == 0;
    assert 0 !in LayoutNamesById;
    assert Numerals.DigitChar(0) == '0';
  }

  /** A keyboard id the table does not list, such as 0xABCD, is shown as its
      KLID, whatever the language half. */
  lemma NameOfUnknown(h: Int64)
    requires KeyboardId(h) == 0xABCD
    ensures GetLayoutName(h) == "0000ABCD"
  {
    assert KeyboardId(h) !in LayoutNamesById;
    KlidOfAbcd(KeyboardId(h));
  }

  lemma KlidOfAbcd(id: UInt16)
    requires id == 0xABCD
    ensures Klid(id) == "0000ABCD"
  {
    DigitsOfAbcd();
  }

  lemma DigitsOfAbcd()
    ensures HexDigits4(0xABCD) == "ABCD"
  {
    assert 0xABCD / 16 / 16 / 16 == 10 && 0xABCD / 16 / 16 % 16 == 11;
    assert 0xABCD / 16 % 16 == 12 && 0xABCD % 16 == 13;
    assert Numerals.DigitChar(10) == 'A' && Numerals.DigitChar(11) == 'B';
    assert Numerals.DigitChar(12) == 'C' && Numerals.DigitChar(13) == 'D';
  }

  /** The source's dictionary key for Canadian French, "00000C0C", is the
      KLID of keyboard id 0x0C0C. */
  lemma KlidOfCanadianFrench()
    ensures Klid(0x0C0C) == "00000C0C"
  {
    assert 0x0C0C / 16 / 16 / 16 == 0 && 0x0C0C / 16 / 16 % 16 == 12;
    assert 0x0C0C / 16 % 16 == 0 && 0x0C0C % 16 == 12;
    assert Numerals.DigitChar(0) == '0' && Numerals.DigitChar(12) == 'C';
  }

  /** `GetCultureInfo`: the culture for the language id, or `null` when
      constructing it throws. `cultureOf` stands for `new CultureInfo(id)`,
      `None` for the exception. */
  function GetCultureInfo(h: Int64, cultureOf: UInt16 -> Option<string>): (r: Option<string>)
    ensures forall h' :: LangId(h') == LangId(h) ==> r == cultureOf(LangId(h'))
  {
    cultureOf(LangId(h))
  }

  /** `GetCurrentLayout`: the zero handle when there is no foreground window,
      otherwise the layout of that window's thread. The three user32 queries
      are parameters: `foreground` is `GetForegroundWindow()`. */
  function GetCurrentLayout(foreground: int, threadOf: int -> int, layoutOf: int -> Int64): (h: Int64)
    ensures foreground == 0 ==> h == 0
    ensures foreground != 0 ==> h == layoutOf(threadOf(foreground))
  {
    if foreground == 0 then 0 else layoutOf(threadOf(foreground))
  }
}

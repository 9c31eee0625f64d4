/** Positional numerals as .NET prints them for non-negative integers:
    `ToString()` (decimal), `ToString("X")` (upper-case hexadecimal, no
    leading zeros), `ToString("X4")` (at least four hex digits) and
    `String.PadLeft`. `Parse` is the reference reading of a digit string,
    used to state that formatting loses nothing. */
module Numerals {
  import opened Basics

  predicate IsUpperHexDigit(c: char)
  {
    '0' <= c <= '9' || 'A' <= c <= 'F'
  }

  predicate AllDigits(s: string)
  {
    forall i :: 0 <= i < |s| ==> IsUpperHexDigit(s[i])
  }

  /** The value of one upper-case hexadecimal digit. */
  function DigitValue(c: char): (d: nat)
    requires IsUpperHexDigit(c)
    ensures d < 16
    ensures '0' <= c <= '9' <==> d < 10
  {
    if c <= '9' then c as int - '0' as int else c as int - 'A' as int + 10
  }

  /** The digit character for `d`, using upper-case letters above 9. */
  function DigitChar(d: nat): (c: char)
    requires d < 16
    ensures IsUpperHexDigit(c)
    ensures DigitValue(c) == d
  {
    if d < 10 then ('0' as int + d) as char else ('A' as int + (d - 10)) as char
  }

  /** The number a digit string denotes in `base`, most significant digit first. */
  function Parse(s: string, base: nat): nat
    requires AllDigits(s)
  {
    if s == [] then 0 else Parse(s[..|s| - 1], base) * base + DigitValue(s[|s| - 1])
  }

  /** The shortest numeral of `n` in `base` (a single "0" for zero). */
  function Format(n: nat, base: nat): (s: string)
    requires 2 <= base <= 16
    ensures 1 <= |s|
    ensures AllDigits(s)
    ensures forall i :: 0 <= i < |s| ==> DigitValue(s[i]) < base
    ensures Parse(s, base) == n
    ensures n == 0 ==> s == "0"
    ensures n != 0 ==> s[0] != '0'
    decreases n
  {
    if n < base then [DigitChar(n)]
    else
      DivMod(n, base);
      var prefix := Format(n / base, base);
      var s := prefix + [DigitChar(n % base)];
      assert s[..|s| - 1] == prefix;
      assert s[0] == prefix[0];
      s
  }

  /** Euclidean division facts the digit recursion relies on. */
  lemma DivMod(n: nat, base: nat)
    requires 2 <= base <= n
    ensures n == (n / base) * base + n % base
    ensures 0 <= n % base < base
    ensures 1 <= n / base < n
  {
  }

  function Pow(b: nat, e: nat): nat
  {
    if e == 0 then 1 else b * Pow(b, e - 1)
  }

  /** A number below `base^w` needs at most `w` digits. */
  lemma {:induction false} FormatWidth(n: nat, base: nat, w: nat)
    requires 2 <= base <= 16
    requires 1 <= w
    requires n < Pow(base, w)
    ensures |Format(n, base)| <= w
  {
    if n >= base {
      if w == 1 {
        assert false;
      }
      var q := n / base;
      DivMod(n, base);
      var p := Pow(base, w - 1);
      assert Pow(base, w) == base * p;
      if q >= p {
        MulMono(base, p, q);
        assert false;
      }
      FormatWidth(q, base, w - 1);
    }
  }

  lemma MulMono(b: nat, p: nat, q: nat)
    requires p <= q
    ensures b * p <= b * q
  {
  }

  /** `String.PadLeft(width, c)`: right-aligns `s` in a field of `width`
      characters; a string already that wide is returned unchanged. */
  function PadLeft(s: string, width: nat, c: char): (r: string)
    ensures |r| == if |s| >= width then |s| else width
    ensures r[|r| - |s|..] == s
    ensures forall i :: 0 <= i < |r| - |s| ==> r[i] == c
  {
    if |s| >= width then s else Repeat(c, width - |s|) + s
  }

  /** Leading zeros do not change the value of a numeral. */
  lemma {:induction false} ParseLeadingZero(s: string, base: nat)
    requires AllDigits(s)
    ensures AllDigits(['0'] + s)
    ensures Parse(['0'] + s, base) == Parse(s, base)
    decreases |s|
  {
    var z := ['0'] + s;
    if s != [] {
      var init := s[..|s| - 1];
      assert z[..|z| - 1] == ['0'] + init;
      assert z[|z| - 1] == s[|s| - 1];
      ParseLeadingZero(init, base);
    } else {
      assert z[..|z| - 1] == [];
    }
  }

  lemma {:induction false} ParseZeroPadded(s: string, base: nat, width: nat)
    requires AllDigits(s)
    ensures AllDigits(PadLeft(s, width, '0'))
    ensures Parse(PadLeft(s, width, '0'), base) == Parse(s, base)
    decreases width
  {
    if |s| < width {
      var shorter := PadLeft(s, width - 1, '0');
      ParseZeroPadded(s, base, width - 1);
      assert PadLeft(s, width, '0') == ['0'] + shorter by {
        assert Repeat('0', width - |s|) == ['0'] + Repeat('0', width - 1 - |s|);
      }
      ParseLeadingZero(shorter, base);
    }
  }

  /** `n.ToString("X")`: upper-case hexadecimal without leading zeros. */
  function Hex(n: nat): (s: string)
    ensures AllDigits(s) && Parse(s, 16) == n
    ensures 1 <= |s|
    ensures n == 0 ==> s == "0"
    ensures n != 0 ==> s[0] != '0'
  {
    Format(n, 16)
  }

  /** `n.ToString("X<width>")`: hexadecimal with at least `width` digits. */
  function HexPadded(n: nat, width: nat): (s: string)
    ensures AllDigits(s) && Parse(s, 16) == n
    ensures width <= |s|
    ensures |s| == if |Hex(n)| >= width then |Hex(n)| else width
  {
    ParseZeroPadded(Hex(n), 16, width);
    PadLeft(Hex(n), width, '0')
  }

  /** `n.ToString()` for a non-negative `int`. */
  function Decimal(n: nat): (s: string)
    ensures AllDigits(s) && Parse(s, 10) == n
    ensures forall i :: 0 <= i < |s| ==> '0' <= s[i] <= '9'
    ensures 1 <= |s|
    ensures n == 0 ==> s == "0"
    ensures n != 0 ==> s[0] != '0'
  {
    Format(n, 10)
  }

  /** Distinct numbers have distinct numerals, in every padding. */
  lemma HexPaddedInjective(a: nat, b: nat, width: nat)
    requires HexPadded(a, width) == HexPadded(b, width)
    ensures a == b
  {
    assert Parse(HexPadded(a, width), 16) == Parse(HexPadded(b, width), 16);
  }
}

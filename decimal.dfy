/** Decimal text for non-negative integers: the `str.isdigit()` / `int()` pair
    that reads the `recipes_limit` query parameter, and Python's `str(n)` used
    when a summed amount is written into the shopping list.

    Python's digit classes are Unicode-wide. The model covers these blocks:
    the decimal digits (`str.isdecimal()`, which `int()` reads) of ASCII,
    Arabic-Indic, Extended Arabic-Indic, Devanagari and the fullwidth forms;
    and the digits that are not decimal (`str.isdigit()` only, which `int()`
    rejects): superscripts, subscripts and circled digits one to nine. */
module Decimal {

  predicate IsAsciiDigit(c: char)
  {
    '0' <= c <= '9'
  }

  /** `c.isdecimal()`: a decimal digit of one of the modelled scripts. */
  predicate IsDecimalChar(c: char)
  {
    || IsAsciiDigit(c)
    || ('\U{0660}' <= c <= '\U{0669}')
    || ('\U{06F0}' <= c <= '\U{06F9}')
    || ('\U{0966}' <= c <= '\U{096F}')
    || ('\U{FF10}' <= c <= '\U{FF19}')
  }

  /** `c.isdigit()`: a decimal digit, or a digit that is not decimal. */
  predicate IsDigitChar(c: char)
  {
    || IsDecimalChar(c)
    || c == '\U{00B2}' || c == '\U{00B3}' || c == '\U{00B9}'
    || c == '\U{2070}' || ('\U{2074}' <= c <= '\U{2079}')
    || ('\U{2080}' <= c <= '\U{2089}')
    || ('\U{2460}' <= c <= '\U{2468}')
  }

  /** `s.isdecimal()`: non-empty and made of decimal digits only. */
  predicate IsDecimalString(s: string)
  {
    |s| > 0 && forall i | 0 <= i < |s| :: IsDecimalChar(s[i])
  }

  /** `s.isdigit()`: non-empty and made of digits only. */
  predicate IsDigitString(s: string)
  {
    |s| > 0 && forall i | 0 <= i < |s| :: IsDigitChar(s[i])
  }

  /** The value of a decimal digit: its distance from the zero of its script. */
  function DigitValue(c: char): (d: nat)
    requires IsDecimalChar(c)
    ensures d < 10
  {
    if IsAsciiDigit(c) then c as int - '0' as int
    else if c <= '\U{0669}' then c as int - 0x0660
    else if c <= '\U{06F9}' then c as int - 0x06F0
    else if c <= '\U{096F}' then c as int - 0x0966
    else c as int - 0xFF10
  }

  function DigitChar(d: nat): (c: char)
    requires d < 10
    ensures IsAsciiDigit(c) && DigitValue(c) == d
  {
    ('0' as int + d) as char
  }

  /** `int(s)` for a string of decimal digits (leading zeros allowed, as in Python). */
  function Value(s: string): nat
    requires forall i | 0 <= i < |s| :: IsDecimalChar(s[i])
  {
    if s == [] then 0 else Value(s[..|s| - 1]) * 10 + DigitValue(s[|s| - 1])
  }

  /** `str(n)`: the shortest decimal spelling in ASCII digits, with no leading
      zero except for 0 itself. */
  function Show(n: nat): (s: string)
    ensures |s| > 0 && forall i | 0 <= i < |s| :: IsAsciiDigit(s[i])
    ensures IsDecimalString(s)
    ensures s[0] == '0' <==> n == 0
    ensures n == 0 ==> |s| == 1
  {
    if n < 10 then [DigitChar(n)] else Show(n / 10) + [DigitChar(n % 10)]
  }

  /** Reading back what `Show` writes gives the number again. */
  lemma {:induction false} ValueOfShow(n: nat)
    ensures Value(Show(n)) == n
  {
    var s := Show(n);
    if n < 10 {
      assert s[..0] == [];
    } else {
      assert s[..|s| - 1] == Show(n / 10);
      ValueOfShow(n / 10);
    }
  }
}

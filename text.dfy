/** The optional value used throughout the model. */
module Options {
  datatype Option<+T> = None | Some(value: T)
}

/**
 * The string handling the controllers rely on: decimal numerals, the
 * JavaScript `parseInt` that reads paging parameters, and the substring
 * test behind `String.prototype.includes`.
 */
module Text {
  import opened Options

  predicate IsDigit(c: char) { '0' <= c <= '9' }

  predicate AllDigits(s: string) { forall i :: 0 <= i < |s| ==> IsDigit(s[i]) }

  function DigitValue(c: char): (d: nat)
    requires IsDigit(c)
    ensures d < 10
  {
    c as int - '0' as int
  }

  function DigitChar(d: nat): (c: char)
    requires d < 10
    ensures IsDigit(c) && DigitValue(c) == d
  {
    ('0' as int + d) as char
  }

  /** Every character is a decimal digit below `base` (the digits of a "0b" or "0o" literal). */
  predicate AllBelow(s: string, base: nat) { forall i :: 0 <= i < |s| ==> IsDigit(s[i]) && DigitValue(s[i]) < base }

  /** The number a digit string denotes in base `base`, most significant digit first. */
  function BaseValue(s: string, base: nat): nat
    requires AllBelow(s, base)
  {
    if s == [] then 0 else BaseValue(s[..|s| - 1], base) * base + DigitValue(s[|s| - 1])
  }

  /** The decimal numeral of `n`, most significant digit first, without leading zeros. */
  function Decimal(n: nat): (s: string)
    ensures |s| > 0 && AllDigits(s)
    ensures s[0] == '0' <==> n == 0
    ensures n == 0 ==> s == "0"
    decreases n
  {
    if n < 10 then [DigitChar(n)] else Decimal(n / 10) + [DigitChar(n % 10)]
  }

  /** The number a string of decimal digits denotes (leading zeros allowed). */
  function DigitsValue(s: string): nat
    requires AllDigits(s)
  {
    if s == [] then 0 else DigitsValue(s[..|s| - 1]) * 10 + DigitValue(s[|s| - 1])
  }

  /** A numeral as `Decimal` writes it: digits only, no leading zero except "0" itself. */
  predicate Canonical(s: string) {
    |s| > 0 && AllDigits(s) && (s[0] == '0' ==> |s| == 1)
  }

  /** Reading back a numeral gives the number it was written from. */
  lemma {:induction false} DecimalValue(n: nat)
    ensures DigitsValue(Decimal(n)) == n
    decreases n
  {
    if n >= 10 {
      var s := Decimal(n);
      assert s[..|s| - 1] == Decimal(n / 10);
      DecimalValue(n / 10);
    }
  }

  /** Writing out the value of a canonical numeral gives the numeral back. */
  lemma {:induction false} CanonicalDecimal(s: string)
    requires Canonical(s)
    ensures Decimal(DigitsValue(s)) == s
    decreases |s|
  {
    var last := s[|s| - 1];
    if |s| == 1 {
      assert s[..0] == [];
      assert DigitChar(DigitValue(last)) == last;
      assert s == [last];
    } else {
      var t := s[..|s| - 1];
      assert t[0] == s[0];
      assert Canonical(t);
      CanonicalDecimal(t);
      var v := DigitsValue(s);
      assert v == DigitsValue(t) * 10 + DigitValue(last);
      // t starts with a non-zero digit, so it is not the numeral of 0
      assert DigitsValue(t) != 0;
      assert v / 10 == DigitsValue(t) && v % 10 == DigitValue(last);
      assert DigitChar(DigitValue(last)) == last;
      assert s == t + [last];
    }
  }

  /**
   * The characters JavaScript skips before a number: the WhiteSpace and
   * LineTerminator productions of the ECMAScript grammar.
   */
  predicate IsSpace(c: char) {
    ('\t' <= c <= '\r') || c == ' ' || c as int == 0xA0 || c as int == 0x1680
    || (0x2000 <= c as int <= 0x200A) || c as int == 0x2028 || c as int == 0x2029
    || c as int == 0x202F || c as int == 0x205F || c as int == 0x3000 || c as int == 0xFEFF
  }

  function TrimStart(s: string): (r: string)
    ensures r == [] || !IsSpace(r[0])
  {
    if s != [] && IsSpace(s[0]) then TrimStart(s[1..]) else s
  }

  /** The longest prefix of `s` made of decimal digits. */
  function DigitPrefix(s: string): (r: string)
    ensures AllDigits(r) && r <= s
    ensures |r| < |s| ==> !IsDigit(s[|r|])
  {
    if s != [] && IsDigit(s[0]) then [s[0]] + DigitPrefix(s[1..]) else []
  }

  predicate IsHexDigit(c: char) { IsDigit(c) || 'a' <= c <= 'f' || 'A' <= c <= 'F' }

  function HexDigitValue(c: char): (d: nat)
    requires IsHexDigit(c)
    ensures d < 16
  {
    if IsDigit(c) then DigitValue(c)
    else if 'a' <= c <= 'f' then c as int - 'a' as int + 10
    else c as int - 'A' as int + 10
  }

  /** The longest prefix of `s` made of hexadecimal digits. */
  function HexPrefix(s: string): (r: string)
    ensures AllHex(r) && r <= s
    ensures |r| < |s| ==> !IsHexDigit(s[|r|])
  {
    if s != [] && IsHexDigit(s[0]) then [s[0]] + HexPrefix(s[1..]) else []
  }

  predicate AllHex(s: string) { forall i :: 0 <= i < |s| ==> IsHexDigit(s[i]) }

  function HexValue(s: string): nat
    requires AllHex(s)
  {
    if s == [] then 0 else HexValue(s[..|s| - 1]) * 16 + HexDigitValue(s[|s| - 1])
  }

  /**
   * The unsigned part of `parseInt`: a "0x"/"0X" prefix selects base 16,
   * otherwise base 10, and the longest run of digits that follows is read.
   * `None` is NaN (no digit at all).
   */
  function ParseMagnitude(u: string): Option<nat>
  {
    if |u| >= 2 && u[0] == '0' && (u[1] == 'x' || u[1] == 'X') then
      var h := HexPrefix(u[2..]);
      if h == [] then None else Some(HexValue(h))
    else
      var d := DigitPrefix(u);
      if d == [] then None else Some(DigitsValue(d))
  }

  /**
   * JavaScript's `parseInt(s)` with no radix, on integers: leading white
   * space is skipped, one sign is read, then the magnitude. `None` is NaN.
   */
  function ParseInt(s: string): Option<int>
  {
    var t := TrimStart(s);
    if |t| > 0 && t[0] == '-' then
      match ParseMagnitude(t[1..])
      case None => None
      case Some(m) => Some(0 - m)
    else
      var u := if |t| > 0 && t[0] == '+' then t[1..] else t;
      match ParseMagnitude(u)
      case None => None
      case Some(m) => Some(m)
  }

  lemma {:induction false} DigitPrefixOfDigits(a: string, b: string)
    requires AllDigits(a)
    requires b == [] || !IsDigit(b[0])
    ensures DigitPrefix(a + b) == a
    decreases |a|
  {
    if a == [] {
      assert a + b == b;
    } else {
      assert (a + b)[1..] == a[1..] + b;
      DigitPrefixOfDigits(a[1..], b);
    }
  }

  /** Text that starts with a digit or a sign has no leading white space to skip. */
  lemma NoSpaceBefore(u: string)
    requires u != [] && (IsDigit(u[0]) || u[0] == '-')
    ensures TrimStart(u) == u
  {
    assert !IsSpace(u[0]);
  }

  /** A numeral that does not start "0x" is read in base 10, up to its first non-digit. */
  lemma MagnitudeOfDigits(a: string, b: string)
    requires a != [] && AllDigits(a)
    requires b == [] || (!IsDigit(b[0]) && b[0] != 'x' && b[0] != 'X')
    ensures ParseMagnitude(a + b) == Some(DigitsValue(a))
  {
    DigitPrefixOfDigits(a, b);
    var u := a + b;
    assert u[0] == a[0];
    assert |u| >= 2 ==> u[1] == (if |a| >= 2 then a[1] else b[0]);
  }

  /** `parseInt` reads a digit string up to the first character that is not a digit. */
  lemma ParseIntNumeral(d: string, rest: string)
    requires d != [] && AllDigits(d)
    requires rest == [] || (!IsDigit(rest[0]) && rest[0] != 'x' && rest[0] != 'X')
    ensures ParseInt(d + rest) == Some(DigitsValue(d) as int)
  {
    MagnitudeOfDigits(d, rest);
    var u := d + rest;
    assert u[0] == d[0];
    NoSpaceBefore(u);
    assert u[0] != '-' && u[0] != '+';
  }

  /** A leading minus sign negates what `parseInt` reads. */
  lemma ParseIntMinus(u: string)
    ensures ParseInt("-" + u) == match ParseMagnitude(u) { case None => None case Some(m) => Some(0 - m) }
  {
    var m := "-" + u;
    NoSpaceBefore(m);
    assert m[1..] == u;
  }

  /**
   * `parseInt` reads a written-out number back, with or without a minus
   * sign, whatever non-digit text follows it (a following "x" is excluded
   * because "0x" starts a hexadecimal numeral).
   */
  lemma ParseIntDecimal(n: nat, rest: string)
    requires rest == [] || (!IsDigit(rest[0]) && rest[0] != 'x' && rest[0] != 'X')
    ensures ParseInt(Decimal(n) + rest) == Some(n as int)
    ensures ParseInt("-" + Decimal(n) + rest) == Some(0 - n)
  {
    DecimalValue(n);
    ParseIntNumeral(Decimal(n), rest);
    MagnitudeOfDigits(Decimal(n), rest);
    ParseIntMinus(Decimal(n) + rest);
    assert "-" + Decimal(n) + rest == "-" + (Decimal(n) + rest);
  }
}

/** Document identifiers. */
module Ids {
  import opened Options
  import opened Text

  /** A document's ObjectId, abstracted as a natural number. */
  type Id = nat

  /** `id.toString()`: the text form of an identifier. */
  function IdString(id: Id): string { Decimal(id) }

  /**
   * The cast the document store applies to a request string before any
   * query on an identifier; `None` stands for the CastError it throws.
   */
  function ParseId(s: string): (r: Option<Id>)
    ensures r.Some? <==> Canonical(s)
    ensures r.Some? ==> IdString(r.value) == s
  {
    if Canonical(s) then CanonicalDecimal(s); Some(DigitsValue(s)) else None
  }

  /** The text form of every identifier casts back to that identifier. */
  lemma ParseIdString(id: Id)
    ensures ParseId(IdString(id)) == Some(id)
  {
    DecimalValue(id);
  }

  /** Distinct identifiers have distinct text forms. */
  lemma IdStringInjective(a: Id, b: Id)
    requires IdString(a) == IdString(b)
    ensures a == b
  {
    ParseIdString(a);
    ParseIdString(b);
  }
}

/** The substring test of JavaScript's `String.prototype.includes`. */
module Substrings {
  /** `haystack.includes(needle)`: the needle occurs in the haystack as a contiguous run. */
  predicate Includes(haystack: string, needle: string)
    decreases |haystack|
  {
    needle <= haystack || (|haystack| > 0 && Includes(haystack[1..], needle))
  }

  /** The needle occurs in the haystack starting at position `i`. */
  predicate OccursAt(haystack: string, needle: string, i: int) {
    0 <= i <= |haystack| - |needle| && haystack[i..i + |needle|] == needle
  }

  /** A run of the tail is the run one position further along the whole string. */
  lemma SliceOfTail(h: string, i: int, n: int)
    requires 1 <= i && 0 <= n && i + n <= |h|
    ensures h[1..][i - 1..i - 1 + n] == h[i..i + n]
  {
    var a, b := h[1..][i - 1..i - 1 + n], h[i..i + n];
    forall j | 0 <= j < n ensures a[j] == b[j] { }
  }

  /** The recursive test agrees with the positional definition of a substring. */
  lemma {:induction false} IncludesAt(haystack: string, needle: string)
    ensures Includes(haystack, needle) <==>
      exists i :: OccursAt(haystack, needle, i)
    decreases |haystack|
  {
    if needle <= haystack {
      assert OccursAt(haystack, needle, 0);
    } else if |haystack| > 0 {
      var tail := haystack[1..];
      IncludesAt(tail, needle);
      if Includes(tail, needle) {
        var i :| OccursAt(tail, needle, i);
        SliceOfTail(haystack, i + 1, |needle|);
        assert OccursAt(haystack, needle, i + 1);
      } else {
        forall i | 0 <= i <= |haystack| - |needle|
          ensures !OccursAt(haystack, needle, i)
        {
          if i == 0 {
            assert !(needle <= haystack);
          } else {
            assert !OccursAt(tail, needle, i - 1);
            SliceOfTail(haystack, i, |needle|);
          }
        }
      }
    } else {
      assert |needle| > 0;
    }
  }
}

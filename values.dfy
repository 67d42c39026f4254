/**
 * The Python values a tracker is given, and the text an f-string makes of them.
 * Only the distinctions the tracker draws are kept: the scalar kinds its
 * `isinstance` filter accepts, and everything else as one opaque kind.
 */
module Values {
  import opened Wrappers

  datatype Value =
    | IntV(i: int)
    | BoolV(b: bool)                          // a Python bool, which is a subclass of int
    | FloatV(shown: string)                   // a float, with the text Python's repr gives it
    | StrV(s: string)
    | Other(shown: string)                    // an array, table, dict, ... with the text str() gives it

  /**
   * The filter of `add_result`: `isinstance(value, int)`, `str` or `float`.
   * A bool passes, because `bool` subclasses `int`.
   */
  predicate IsScalar(v: Value)
  {
    !v.Other?
  }

  /** The text `f"{v}"` produces. */
  function Text(v: Value): string
  {
    match v
    case IntV(i) => IntText(i)
    case BoolV(b) => if b then "True" else "False"
    case FloatV(shown) => shown
    case StrV(s) => s
    case Other(shown) => shown
  }

  function DigitChar(d: nat): char
    requires d < 10
  {
    "0123456789"[d]
  }

  predicate IsDigit(c: char)
  {
    '0' <= c <= '9'
  }

  /** The decimal digits of n, most significant first, with no leading zero. */
  function NatText(n: nat): (s: string)
    ensures |s| > 0
    ensures forall k :: 0 <= k < |s| ==> IsDigit(s[k])
    ensures |s| > 1 ==> s[0] != '0'
  {
    if n < 10 then [DigitChar(n)] else NatText(n / 10) + [DigitChar(n % 10)]
  }

  /** Python's `str(i)` for an int: a minus sign for negative numbers, then the digits. */
  function IntText(i: int): string
  {
    if i < 0 then "-" + NatText(-i) else NatText(i)
  }

  /** The number a non-empty string of decimal digits denotes. */
  function DigitsValue(s: string): nat
    requires forall k :: 0 <= k < |s| ==> IsDigit(s[k])
  {
    if s == [] then 0
    else
      assert IsDigit(s[|s| - 1]);
      DigitsValue(s[..|s| - 1]) * 10 + (s[|s| - 1] as int - '0' as int)
  }

  /** Reads back the text of an int: an optional minus sign and at least one digit. */
  function ParseInt(s: string): Option<int>
  {
    if |s| > 0 && s[0] == '-' then
      var t := s[1..];
      if |t| > 0 && forall k :: 0 <= k < |t| ==> IsDigit(t[k]) then var n: int := DigitsValue(t); Some(-n) else None
    else if |s| > 0 && forall k :: 0 <= k < |s| ==> IsDigit(s[k]) then Some(DigitsValue(s))
    else None
  }

  lemma {:induction false} NatTextValue(n: nat)
    ensures DigitsValue(NatText(n)) == n
  {
    if n >= 10 {
      var s := NatText(n);
      assert s[..|s| - 1] == NatText(n / 10);
      NatTextValue(n / 10);
    }
  }

  /** The text of every int reads back as that int. */
  lemma IntTextRoundTrip(i: int)
    ensures ParseInt(IntText(i)) == Some(i)
  {
    if i < 0 {
      NatTextValue(-i);
      assert IntText(i)[1..] == NatText(-i);
    } else {
      NatTextValue(i);
    }
  }

  /** The text of an int or a bool is one line with no `=` in it. */
  lemma NumberTextIsPlain(v: Value)
    requires v.IntV? || v.BoolV?
    ensures '\n' !in Text(v) && '=' !in Text(v)
  {
  }
}

/** Small shared vocabulary: an option type standing for C#'s nullable
    references, and the decimal rendering used by string interpolation. */
module Common {

  /** `None` stands for a C# `null` (or `default`) value. */
  datatype Option<+T> = None | Some(value: T)

  /** The character of a decimal digit. */
  function DigitChar(d: nat): (c: char)
    requires d < 10
    ensures '0' <= c <= '9' && c as int - '0' as int == d
  {
    ('0' as int + d) as char
  }

  /** The number a string of decimal digits denotes, most significant first. */
  ghost function DecValue(s: string): int
    decreases |s|
  {
    if s == [] then 0 else 10 * DecValue(s[..|s| - 1]) + (s[|s| - 1] as int - '0' as int)
  }

  /** Decimal digits of a natural number, most significant first, as `{n}`
      renders an integer inside an interpolated string: they denote `n` and
      have no leading zero. */
  function NatToString(n: nat): (s: string)
    ensures |s| >= 1
    ensures forall k :: 0 <= k < |s| ==> '0' <= s[k] <= '9'
    ensures s[0] == '0' ==> s == "0"
    ensures DecValue(s) == n
    decreases n
  {
    if n < 10 then
      var s := [DigitChar(n)];
      assert s[..0] == [];
      s
    else
      var prefix := NatToString(n / 10);
      var s := prefix + [DigitChar(n % 10)];
      assert s[..|s| - 1] == prefix;
      s
  }

  /** Decimal rendering of a (possibly negative) integer: a minus sign exactly
      for negative numbers, followed by the digits of the magnitude. */
  function IntToString(i: int): (s: string)
    ensures |s| >= 1
    ensures (s[0] == '-') <==> i < 0
    ensures |s| > (if i < 0 then 1 else 0)
    ensures forall k :: (if i < 0 then 1 else 0) <= k < |s| ==> '0' <= s[k] <= '9'
    ensures s[if i < 0 then 1 else 0] == '0' ==> i == 0 && s == "0"
    ensures i < 0 ==> DecValue(s[1..]) == -i
    ensures i >= 0 ==> DecValue(s) == i
  {
    if i < 0 then
      var s := "-" + NatToString(-i);
      assert s[1..] == NatToString(-i);
      s
    else NatToString(i)
  }

  /** Different numbers are rendered differently. */
  lemma IntToStringInjective(a: int, b: int)
    requires IntToString(a) == IntToString(b)
    ensures a == b
  {
    var s := IntToString(a);
    if a < 0 {
      assert -a == DecValue(s[1..]) == -b;
    }
  }
}

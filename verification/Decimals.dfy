/** Unsigned decimal numbers as text: how they are printed, and how `str::parse` reads them back. */
module Decimals {
  import opened Wrappers

  const U16_MAX: nat := 0xFFFF
  const U32_MAX: nat := 0xFFFF_FFFF
  const U64_MAX: nat := 0xFFFF_FFFF_FFFF_FFFF

  type u16 = n: nat | n <= U16_MAX
  type u32 = n: nat | n <= U32_MAX
  type u64 = n: nat | n <= U64_MAX

  predicate IsDigit(c: char) {
    '0' <= c <= '9'
  }

  function DigitValue(c: char): (d: nat)
    requires IsDigit(c)
    ensures d < 10
  {
    c as int - '0' as int
  }

  function DigitChar(d: nat): (c: char)
    requires d < 10
    ensures IsDigit(c) && DigitValue(c) == d
  {
    "0123456789"[d]
  }

  /** The canonical numeral, without leading zeros. */
  function Print(n: nat): (s: string)
    ensures s != []
    ensures forall c | c in s :: IsDigit(c)
  {
    if n < 10 then [DigitChar(n)] else Print(n / 10) + [DigitChar(n % 10)]
  }

  /** The value of a run of digits, or nothing when another character occurs. */
  function Value(s: string): Option<nat> {
    if s == [] then Some(0)
    else if !IsDigit(s[|s| - 1]) then None
    else match Value(s[..|s| - 1])
      case None => None
      case Some(v) => Some(10 * v + DigitValue(s[|s| - 1]))
  }

  /** Parsing an unsigned integer no larger than `max`: one leading `+` is allowed, a
      missing digit, any other character and an overflow are errors. */
  function Parse(s: string, max: nat): (r: Option<nat>)
    ensures r.Some? ==> r.value <= max
  {
    var digits := if s != [] && s[0] == '+' then s[1..] else s;
    if digits == [] then None
    else match Value(digits)
      case None => None
      case Some(v) => if v <= max then Some(v) else None
  }

  lemma {:induction false} ValueOfPrint(n: nat)
    ensures Value(Print(n)) == Some(n)
  {
    if n >= 10 {
      ValueOfPrint(n / 10);
      assert Print(n)[..|Print(n)| - 1] == Print(n / 10);
    } else {
      assert Print(n)[..0] == [];
    }
  }

  /** Reading back a printed number that fits gives the number. */
  lemma ParseOfPrint(n: nat, max: nat)
    requires n <= max
    ensures Parse(Print(n), max) == Some(n)
  {
    ValueOfPrint(n);
    assert IsDigit(Print(n)[0]);
  }

  /** Each digit counts ten times less than the one in front of it. */
  lemma DigitsAreDecimal(s: string, c: char)
    ensures Value([c]) == if '0' <= c <= '9' then Some(c as int - '0' as int) else None
    ensures s != "" ==>
              Value(s + [c]) == if Value(s).Some? && '0' <= c <= '9'
              then Some(10 * Value(s).value + (c as int - '0' as int))
                                else None
  {
    assert (s + [c])[..|s|] == s && [c][..0] == "";
  }

  /** One plus sign may stand in front of the digits; there must be a digit, and nothing but digits, and
      the number must not be larger than allowed. */
  lemma ParseIff(s: string, max: nat)
    ensures Parse("", max) == None && Parse("+", max) == None
    ensures s != "" && s[0] != '+' ==> Parse("+" + s, max) == Parse(s, max)
    ensures s != "" && s[0] != '+' ==>
              Parse(s, max) == if Value(s).Some? && Value(s).value <= max then Value(s) else None
    ensures s != "" && s[0] == '+' ==> Parse("+" + s, max) == None
  {
    assert ("+" + s)[1..] == s && "+"[1..] == "";
    if s != "" && s[0] == '+' {
      PlusIsNoDigit(s);
    }
  }

  lemma {:induction false} PlusIsNoDigit(s: string)
    requires s != "" && s[0] == '+'
    ensures Value(s) == None
  {
    if |s| > 1 {
      PlusIsNoDigit(s[..|s| - 1]);
    }
  }
}

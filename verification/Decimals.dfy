/** Decimal numerals as JavaScript prints and parses them. */
module Decimals {
  import opened Wrappers
  import opened Text

  function Digit(d: nat): char
    requires d < 10
  {
    ('0' as int + d) as char
  }

  predicate IsDigit(c: char) {
    '0' <= c <= '9'
  }

  predicate AllDigits(s: string) {
    forall i :: 0 <= i < |s| ==> IsDigit(s[i])
  }

  function Decimal(n: nat): (s: string)
    ensures s != "" && AllDigits(s)
  {
    (if n < 10 then "" else Decimal(n / 10)) + [Digit(n % 10)]
  }

  function IntText(n: int): string {
    if n < 0 then "-" + Decimal(-n) else Decimal(n)
  }

  /** The digits a text begins with. */
  function LeadingDigits(s: string): (r: string)
    ensures AllDigits(r) && r <= s
  {
    if s == "" || !IsDigit(s[0]) then "" else [s[0]] + LeadingDigits(s[1..])
  }

  function Value(s: string): nat
    requires AllDigits(s)
  {
    if s == "" then 0 else 10 * Value(s[..|s| - 1]) + (s[|s| - 1] as int - '0' as int)
  }

  function Unsigned(s: string): Option<nat> {
    var digits := LeadingDigits(s);
    if digits == "" then None else Some(Value(digits))
  }

  /** parseInt(s, 10) for a text without a minus sign; None is NaN. */
  function ParseNat(s: string): Option<nat> {
    var t := TrimStart(s);
    Unsigned(if t != "" && t[0] == '+' then t[1..] else t)
  }

  /** parseInt(s, 10): free space, a sign, then as many digits as there are. */
  function ParseInt(s: string): Option<int> {
    var t := TrimStart(s);
    if t != "" && t[0] == '-' then
      match Unsigned(t[1..])
      case None => None
      case Some(n) => Some(-(n as int))
    else
      match ParseNat(s)
      case None => None
      case Some(n) => Some(n)
  }

  lemma {:induction false} ValueOfDecimal(n: nat)
    ensures Value(Decimal(n)) == n
  {
    var s := Decimal(n);
    if n < 10 {
      assert s[..|s| - 1] == "" && s[|s| - 1] == Digit(n % 10);
    } else {
      ValueOfDecimal(n / 10);
      assert s[..|s| - 1] == Decimal(n / 10) && s[|s| - 1] == Digit(n % 10);
    }
  }

  lemma {:induction false} LeadingDigitsOfAll(s: string)
    requires AllDigits(s)
    ensures LeadingDigits(s) == s
  {
    if s != "" {
      LeadingDigitsOfAll(s[1..]);
    }
  }

  lemma ParseOfDecimal(n: nat)
    ensures ParseNat(Decimal(n)) == Some(n)
  {
    var s := Decimal(n);
    assert IsDigit(s[0]) && TrimStart(s) == s;
    LeadingDigitsOfAll(s);
    ValueOfDecimal(n);
  }

  /** A number whose numeral begins with that of another is not smaller. */
  lemma {:induction false} PrefixIsSmaller(a: nat, b: nat)
    requires Decimal(a) <= Decimal(b)
    ensures a <= b
  {
    var s, t := Decimal(a), Decimal(b);
    if |s| == |t| {
      assert s == t;
      ValueOfDecimal(a);
      ValueOfDecimal(b);
    } else if b >= 10 {
      assert t[..|t| - 1] == Decimal(b / 10);
      assert s <= t[..|t| - 1];
      PrefixIsSmaller(a, b / 10);
    }
  }
}

/** Decimal text: Rust's `Display` for unsigned integers, `str::parse` for
    unsigned integer types, and fixed-point formatting of a byte count in MiB. */
module Text {
  import opened Base

  predicate IsDigit(c: char) { '0' <= c <= '9' }

  predicate AllDigits(s: string) { forall i :: 0 <= i < |s| ==> IsDigit(s[i]) }

  function DigitChar(d: nat): (c: char)
    requires d < 10
    ensures IsDigit(c) && (c as int) - ('0' as int) == d
  {
    (('0' as int) + d) as char
  }

  /** `format!("{}", n)` for an unsigned integer: shortest decimal form. */
  function NatToString(n: nat): (s: string)
    ensures |s| >= 1 && AllDigits(s)
    ensures |s| > 1 ==> s[0] != '0'
    decreases n
  {
    if n < 10 then [DigitChar(n)] else NatToString(n / 10) + [DigitChar(n % 10)]
  }

  /** The number a non-empty string of decimal digits denotes. */
  function DigitsValue(s: string): nat
    requires AllDigits(s)
  {
    if s == [] then 0
    else DigitsValue(s[..|s| - 1]) * 10 + ((s[|s| - 1] as int) - ('0' as int))
  }

  /** `s.parse::<uN>()` where `max` is the largest value of the type:
      an optional leading `+`, then at least one decimal digit and nothing
      else, and a value no larger than `max`. */
  function ParseUnsigned(s: string, max: nat): (r: Option<nat>)
    ensures r.Some? ==> r.value <= max
    ensures r.Some? ==> |s| > 0
  {
    var digits := if |s| > 0 && s[0] == '+' then s[1..] else s;
    if |digits| == 0 || !AllDigits(digits) then None
    else if DigitsValue(digits) > max then None
    else Some(DigitsValue(digits))
  }

  lemma {:induction false} DigitsValueOfNatToString(n: nat)
    ensures DigitsValue(NatToString(n)) == n
    decreases n
  {
    if n >= 10 {
      var s := NatToString(n);
      DigitsValueOfNatToString(n / 10);
      assert s[..|s| - 1] == NatToString(n / 10);
    }
  }

  /** Printing a number and parsing it back gives the number, for every value
      that fits the parsed type. */
  lemma {:induction false} ParseNatToString(n: nat, max: nat)
    requires n <= max
    ensures ParseUnsigned(NatToString(n), max) == Some(n)
  {
    DigitsValueOfNatToString(n);
  }

  function Pow10(k: nat): (p: nat)
    ensures p >= 1
  {
    if k == 0 then 1 else 10 * Pow10(k - 1)
  }

  /** `s` left-padded with zeros to at least `width` characters. */
  function PadZeros(s: string, width: nat): (r: string)
    ensures |r| == if |s| >= width then |s| else width
    decreases width - |s|
  {
    if |s| >= width then s else PadZeros("0" + s, width)
  }

  // Multiplication, quotient and remainder on naturals, written by recursion
  // so that unfolding a formatted message never hands the solver a
  // non-linear term.

  function Times(a: nat, b: nat): nat
  {
    if b == 0 then 0 else Times(a, b - 1) + a
  }

  function Quot(a: nat, b: nat): nat
    requires b > 0
    decreases a
  {
    if a < b then 0 else 1 + Quot(a - b, b)
  }

  function Rem(a: nat, b: nat): nat
    requires b > 0
    decreases a
  {
    if a < b then a else Rem(a - b, b)
  }

  /** `num / den` rounded half up. */
  function RoundedQuotient(num: nat, den: nat): nat
    requires den > 0
  {
    Quot(2 * num + den, 2 * den)
  }

  /** `num / den` written with `places` decimals, rounded half up. */
  function FormatFixed(num: nat, den: nat, places: nat): (s: string)
    requires den > 0
    ensures |s| >= 1
  {
    var p: nat := Pow10(places);
    var scaled: nat := RoundedQuotient(Times(num, p), den);
    if places == 0 then NatToString(scaled)
    else NatToString(Quot(scaled, p)) + "." + PadZeros(NatToString(Rem(scaled, p)), places)
  }

  const MiB: nat := 1024 * 1024

  /** `format!("{:.N} MB", bytes as f32 / 1024.0 / 1024.0)` without the unit. */
  function Megabytes(bytes: nat, places: nat): string
  {
    FormatFixed(bytes, MiB, places)
  }
}

/** Fixed-width unsigned integers, decimal `Display` of integers and Rust's
    `str::parse::<u16>`. */
module Decimal {
  import opened Wrappers

  type U16 = x: int | 0 <= x < 0x1_0000
  type U32 = x: int | 0 <= x < 0x1_0000_0000
  type U64 = x: int | 0 <= x < 0x1_0000_0000_0000_0000

  predicate IsDigit(c: char) { '0' <= c <= '9' }

  predicate AllDigits(s: string) { forall k :: 0 <= k < |s| ==> IsDigit(s[k]) }

  function DigitChar(d: nat): (c: char)
    requires d < 10
    ensures IsDigit(c) && c as int - '0' as int == d
  {
    (d + '0' as int) as char
  }

  /** The value of a run of decimal digits, most significant first. */
  function DigitsValue(s: string): nat
    requires AllDigits(s)
    decreases |s|
  {
    if s == [] then 0
    else DigitsValue(s[..|s| - 1]) * 10 + (s[|s| - 1] as int - '0' as int)
  }

  /** `n.to_string()` for an unsigned integer: decimal digits, no sign, no
      leading zero. */
  function NatToDecimal(n: nat): (s: string)
    ensures |s| >= 1 && AllDigits(s)
    ensures |s| > 1 ==> s[0] != '0'
    decreases n
  {
    if n < 10 then [DigitChar(n)] else NatToDecimal(n / 10) + [DigitChar(n % 10)]
  }

  /** Reading back the decimal text of `n` gives `n`. */
  lemma {:induction false} DecimalValue(n: nat)
    ensures DigitsValue(NatToDecimal(n)) == n
    decreases n
  {
    if n >= 10 {
      DecimalValue(n / 10);
      var s := NatToDecimal(n);
      assert s[..|s| - 1] == NatToDecimal(n / 10);
    }
  }

  /** Distinct numbers print differently. */
  lemma DecimalInjective(m: nat, n: nat)
    requires NatToDecimal(m) == NatToDecimal(n)
    ensures m == n
  {
    DecimalValue(m);
    DecimalValue(n);
  }

  /** The text after an optional leading `+`. */
  function Unsigned(s: string): (d: string)
    ensures s != [] && s[0] == '+' ==> d == s[1..]
    ensures (s == [] || s[0] != '+') ==> d == s
  {
    if s != [] && s[0] == '+' then s[1..] else s
  }

  /** `s.parse::<u16>()`: an optional leading `+` (not on its own), then one or
      more ASCII digits whose value fits in 16 bits; leading zeros are allowed.
      Every such text is accepted, with the value of its digits, and no other. */
  function ParseU16(s: string): (r: Option<U16>)
    ensures r.Some? <==>
      s != [] && s != "+" && AllDigits(Unsigned(s)) && DigitsValue(Unsigned(s)) < 0x1_0000
    ensures r.Some? ==> r.value == DigitsValue(Unsigned(s))
  {
    if s == [] || s == "+" then None
    else
      var digits := if s[0] == '+' then s[1..] else s;
      if AllDigits(digits) && DigitsValue(digits) < 0x1_0000 then Some(DigitsValue(digits)) else None
  }

  /** A zero in front of a run of digits does not change its value. */
  lemma {:induction false} LeadingZeroValue(s: string)
    requires AllDigits(s)
    ensures AllDigits("0" + s) && DigitsValue("0" + s) == DigitsValue(s)
    decreases |s|
  {
    var t := "0" + s;
    assert AllDigits(t) by {
      forall k | 0 <= k < |t| ensures IsDigit(t[k]) {
        if k > 0 { assert t[k] == s[k - 1]; }
      }
    }
    if s != [] {
      LeadingZeroValue(s[..|s| - 1]);
      assert t[..|t| - 1] == "0" + s[..|s| - 1];
      assert t[|t| - 1] == s[|s| - 1];
    }
  }

  /** Leading zeros and a leading `+` are accepted: `0` followed by the
      decimal text of a port, and `+` followed by it, both read as the port. */
  lemma ParseU16Lenient(p: U16)
    ensures ParseU16("0" + NatToDecimal(p)) == Some(p)
    ensures ParseU16("+" + NatToDecimal(p)) == Some(p)
  {
    var d := NatToDecimal(p);
    DecimalValue(p);
    LeadingZeroValue(d);
    assert Unsigned("+" + d) == d;
    assert Unsigned("0" + d) == "0" + d;
  }

  /** Every port prints to text that parses back to it. */
  lemma PortRoundTrip(p: U16)
    ensures ParseU16(NatToDecimal(p)) == Some(p)
  {
    DecimalValue(p);
  }
}

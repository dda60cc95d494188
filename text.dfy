/** The two string operations the modelled code applies: `str.lower()` on the configured
    quality and `str(n)` on a numeric title or chapter id. */
module Text {
  import opened Errors

  /** `c.lower()` for an ASCII letter; every other character is kept. */
  function LowerChar(c: char): char {
    if 'A' <= c <= 'Z' then (c as int - 'A' as int + 'a' as int) as char else c
  }

  /** `s.lower()`, restricted to ASCII case mapping. */
  function Lower(s: string): (r: string)
    ensures |r| == |s|
    ensures forall i :: 0 <= i < |s| ==> r[i] == LowerChar(s[i])
  {
    if s == [] then "" else [LowerChar(s[0])] + Lower(s[1..])
  }

  /** Two strings whose lower-case forms agree letter for letter lower to the same string;
      in particular any capitalisation of a lower-case word lowers to that word. */
  lemma LowerIgnoresCase(s: string, t: string)
    requires |s| == |t| && forall i :: 0 <= i < |s| ==> LowerChar(s[i]) == LowerChar(t[i])
    ensures Lower(s) == Lower(t)
  {}

  /** A string without upper-case ASCII letters is its own lower-case form. */
  lemma LowerKeepsLowerCase(s: string)
    requires forall i :: 0 <= i < |s| ==> !('A' <= s[i] <= 'Z')
    ensures Lower(s) == s
  {}

  predicate IsDigit(c: char) { '0' <= c <= '9' }

  function DigitChar(d: nat): char
    requires d < 10
  {
    ('0' as int + d) as char
  }

  /** The decimal digits of `n`, most significant first, without leading zeros. */
  function NatToDecimal(n: nat): (r: string)
    ensures r != [] && IsDigit(r[0])
    decreases n
  {
    if n < 10 then [DigitChar(n)] else NatToDecimal(n / 10) + [DigitChar(n % 10)]
  }

  /** `str(n)` for a Python integer. */
  function IntToDecimal(n: int): (r: string)
    ensures r != [] && (r[0] == '-' <==> n < 0)
  {
    if n < 0 then "-" + NatToDecimal(-n) else NatToDecimal(n)
  }

  /** The value of a non-empty string of decimal digits. */
  function DigitsValue(s: string): nat
    requires s != [] && forall i :: 0 <= i < |s| ==> IsDigit(s[i])
    decreases |s|
  {
    assert IsDigit(s[|s| - 1]);
    var last: nat := s[|s| - 1] as int - '0' as int;
    if |s| == 1 then last else DigitsValue(s[..|s| - 1]) * 10 + last
  }

  /** A canonical decimal numeral: digits only, no leading zero unless it is "0". */
  predicate IsNumeral(s: string) {
    s != [] && (forall i :: 0 <= i < |s| ==> IsDigit(s[i])) && (s[0] == '0' ==> |s| == 1)
  }

  /** The integer a canonical, optionally negative, decimal string stands for. */
  function ParseInt(s: string): Option<int> {
    if |s| > 1 && s[0] == '-' && IsNumeral(s[1..]) && s[1..] != "0" then
      var magnitude: int := DigitsValue(s[1..]);
      Some(-magnitude)
    else if IsNumeral(s) then Some(DigitsValue(s))
    else None
  }

  lemma {:induction false} NatToDecimalIsNumeral(n: nat)
    ensures IsNumeral(NatToDecimal(n))
    ensures DigitsValue(NatToDecimal(n)) == n
    ensures NatToDecimal(n) == "0" <==> n == 0
    decreases n
  {
    if n >= 10 {
      NatToDecimalIsNumeral(n / 10);
      var s := NatToDecimal(n);
      assert s == NatToDecimal(n / 10) + [DigitChar(n % 10)];
      assert s[..|s| - 1] == NatToDecimal(n / 10);
      assert s[0] == NatToDecimal(n / 10)[0];
    }
  }

  /** Whatever integer a title or chapter id is, its decimal text gives it back. */
  lemma IntToDecimalRoundTrip(n: int)
    ensures ParseInt(IntToDecimal(n)) == Some(n)
  {
    if n < 0 {
      NatToDecimalIsNumeral(-n);
      var s := IntToDecimal(n);
      assert s == "-" + NatToDecimal(-n);
      assert s[0] == '-' && s[1..] == NatToDecimal(-n);
    } else {
      NatToDecimalIsNumeral(n);
      var s := IntToDecimal(n);
      assert s[0] != '-';
    }
  }
}

/**
 * `Integer.toString(int)` and `Integer.parseInt(String)` in base ten, as the
 * targeting-predicate translator uses them to write and read numeric
 * attributes.
 */
module JavaInteger {
  import opened Java

  predicate IsDigit(c: char)
  {
    '0' <= c <= '9'
  }

  predicate AllDigits(s: string)
  {
    forall k | 0 <= k < |s| :: IsDigit(s[k])
  }

  /** The character of a decimal digit. */
  function DigitChar(d: int): (c: char)
    requires 0 <= d <= 9
    ensures IsDigit(c) && c as int - '0' as int == d
  {
    ('0' as int + d) as char
  }

  /** The value of a string of decimal digits, most significant first. */
  function DigitsValue(s: string): nat
    requires AllDigits(s)
  {
    if s == [] then 0 else 10 * DigitsValue(s[..|s| - 1]) + (s[|s| - 1] as int - '0' as int)
  }

  /** No superfluous leading zero: a single digit, or a first digit other than '0'. */
  predicate NoLeadingZero(s: string)
  {
    |s| == 1 || (|s| > 1 && s[0] != '0')
  }

  /** The decimal digits of a natural number: digits only, no leading zero, and they denote `n`. */
  function Digits(n: nat): (s: string)
    ensures AllDigits(s) && NoLeadingZero(s)
    ensures DigitsValue(s) == n
    decreases n
  {
    if n < 10 then [DigitChar(n)]
    else
      var s := Digits(n / 10) + [DigitChar(n % 10)];
      assert s[..|s| - 1] == Digits(n / 10);
      s
  }

  /** `Integer.toString(int)`: a minus sign for negative values, then the digits of the magnitude. */
  function IntToString(n: Int32): string
  {
    if n < 0 then "-" + Digits(-(n as int)) else Digits(n)
  }

  /**
   * `Integer.parseInt(String)`: an optional '+' or '-' followed by at least one
   * decimal digit, denoting a value inside the `int` range. `None` stands for the
   * NumberFormatException thrown for null, empty, malformed or out-of-range input.
   */
  function ParseInt(s: Option<string>): (r: Option<Int32>)
    ensures r.Some? ==> s.Some? && s.value != []
  {
    if s.None? || s.value == [] then None
    else
      var t := s.value;
      var signed := t[0] == '-' || t[0] == '+';
      var body := if signed then t[1..] else t;
      if body == [] || !AllDigits(body) then None
      else
        var v: int := if t[0] == '-' then -(DigitsValue(body) as int) else DigitsValue(body);
        if INT_MIN <= v <= INT_MAX then Some(v) else None
  }

  /** Every `int` survives `parseInt(toString(n))`. */
  lemma ParseIntOfIntToString(n: Int32)
    ensures ParseInt(Some(IntToString(n))) == Some(n)
  {
    if n < 0 {
      assert ("-" + Digits(-(n as int)))[1..] == Digits(-(n as int));
    } else {
      assert IsDigit(Digits(n)[0]);
    }
  }

  /** A digit string without leading zero that is longer than one digit denotes at least 10. */
  lemma {:induction false} LeadingDigitPositive(s: string)
    requires AllDigits(s) && |s| >= 1 && s[0] != '0'
    ensures DigitsValue(s) >= 1
  {
    if |s| > 1 {
      LeadingDigitPositive(s[..|s| - 1]);
    }
  }

  /** The digits of the value of a canonical digit string are that string. */
  lemma {:induction false} DigitsOfValue(s: string)
    requires AllDigits(s) && NoLeadingZero(s)
    ensures Digits(DigitsValue(s)) == s
  {
    if |s| > 1 {
      var init := s[..|s| - 1];
      LeadingDigitPositive(init);
      DigitsOfValue(init);
      var n := DigitsValue(s);
      assert n / 10 == DigitsValue(init) && n % 10 == s[|s| - 1] as int - '0' as int;
      assert s == init + [s[|s| - 1]];
    }
  }

  /** The strings `Integer.toString` produces: the canonical decimal spelling, "-" only before a non-zero value. */
  predicate Canonical(t: string)
  {
    (AllDigits(t) && NoLeadingZero(t))
    || (|t| >= 2 && t[0] == '-' && t[1] != '0' && AllDigits(t[1..]))
  }

  /** On canonical spellings `toString(parseInt(t))` gives `t` back, so the two are mutually inverse there. */
  lemma IntToStringOfParseInt(t: string)
    requires Canonical(t) && ParseInt(Some(t)).Some?
    ensures IntToString(ParseInt(Some(t)).value) == t
  {
    if t[0] == '-' {
      var body := t[1..];
      assert NoLeadingZero(body);
      LeadingDigitPositive(body);
      DigitsOfValue(body);
      assert t == "-" + body;
    } else {
      DigitsOfValue(t);
    }
  }
}

/** Decimal numerals: how an id is written, and which texts are read as an integer. */
module Numerals {
  import opened Json

  predicate IsDigit(c: char) {
    '0' <= c <= '9'
  }

  /** A non-empty text of digits only. */
  predicate AllDigits(s: string) {
    s != "" && forall i | 0 <= i < |s| :: IsDigit(s[i])
  }

  function DecimalNat(n: nat): (s: string)
    ensures AllDigits(s)
  {
    var last := ['0' + (n % 10) as char];
    if n < 10 then last else DecimalNat(n / 10) + last
  }

  function Decimal(n: int): string {
    if n < 0 then "-" + DecimalNat(-n) else DecimalNat(n)
  }

  predicate IsSpace(c: char) {
    c in " \t\n\r\U{000B}\U{000C}"
  }

  function Strip(s: string): string
    decreases |s|
  {
    if s != "" && IsSpace(s[0]) then Strip(s[1..])
    else if s != "" && IsSpace(s[|s| - 1]) then Strip(s[..|s| - 1])
    else s
  }

  /** Digits, with single underscores allowed between them. */
  function ParseNat(s: string): Option<nat>
    decreases |s|
  {
    if s == "" || !IsDigit(s[|s| - 1]) then None
    else
      var last := (s[|s| - 1] - '0') as nat;
      if |s| == 1 then Some(last)
      else
        var rest := if s[|s| - 2] == '_' then s[..|s| - 2] else s[..|s| - 1];
        match ParseNat(rest)
        case None => None
        case Some(n) => Some(10 * n + last)
  }

  /** The integer a text stands for; None where the conversion raises an error. */
  function ParseInt(s: string): Option<int> {
    var t := Strip(s);
    if t == "" then None
    else
      match ParseNat(if t[0] in "+-" then t[1..] else t)
      case None => None
      case Some(n) => var v: int := n; Some(if t[0] == '-' then -v else v)
  }

  lemma {:induction false} ParseDecimalNat(n: nat)
    ensures ParseNat(DecimalNat(n)) == Some(n)
  {
    if n >= 10 {
      ParseDecimalNat(n / 10);
      var s := DecimalNat(n);
      assert s[..|s| - 1] == DecimalNat(n / 10);
      assert IsDigit(s[|s| - 2]);
    }
  }

  lemma NothingToStrip(s: string)
    requires s != "" && !IsSpace(s[0]) && !IsSpace(s[|s| - 1])
    ensures Strip(s) == s
  {
  }

  lemma DigitsAreNoSpace(s: string)
    requires AllDigits(s)
    ensures !IsSpace(s[0]) && !IsSpace(s[|s| - 1]) && s[0] !in "+-"
  {
    assert IsDigit(s[0]) && IsDigit(s[|s| - 1]);
  }

  lemma ParsePlain(n: int)
    requires n >= 0
    ensures ParseInt(Decimal(n)) == Some(n)
  {
    DigitsAreNoSpace(DecimalNat(n));
    NothingToStrip(DecimalNat(n));
    ParseDecimalNat(n);
  }

  lemma ParseNegative(n: int)
    requires n < 0
    ensures ParseInt(Decimal(n)) == Some(n)
  {
    var s, digits := Decimal(n), DecimalNat(-n);
    DigitsAreNoSpace(digits);
    assert s[|s| - 1] == digits[|digits| - 1] && s[1..] == digits;
    NothingToStrip(s);
    ParseDecimalNat(-n);
  }

  /** Reading a written integer gives it back, so different integers are written differently. */
  lemma ParseDecimal(n: int)
    ensures ParseInt(Decimal(n)) == Some(n)
  {
    if n < 0 {
      ParseNegative(n);
    } else {
      ParsePlain(n);
    }
  }

  // ---------------------------------------------------------------- other spellings

  lemma {:induction false} StripsBehind(s: string, c: char)
    requires IsSpace(c)
    ensures Strip(s + [c]) == Strip(s)
    decreases |s|
  {
    if s == "" {
      assert (s + [c])[1..] == "";
    } else if IsSpace(s[0]) {
      assert (s + [c])[1..] == s[1..] + [c];
      StripsBehind(s[1..], c);
    } else {
      assert (s + [c])[..|s|] == s;
    }
  }

  /** White space around an integer does not matter. */
  lemma SpaceIsSkipped(s: string, c: char)
    requires c == ' ' || c == '\t' || c == '\n' || c == '\r' || c == '\U{000B}' || c == '\U{000C}'
    ensures ParseInt([c] + s) == ParseInt(s) && ParseInt(s + [c]) == ParseInt(s)
  {
    assert ([c] + s)[1..] == s;
    StripsBehind(s, c);
  }

  /** One more digit; an underscore may stand before it. */
  lemma OneMoreDigit(s: string, t: string)
    requires ParseNat(s).Some? && |t| > |s| && t[..|s|] == s && '0' <= t[|t| - 1] <= '9'
    requires |t| == |s| + 1 || (|t| == |s| + 2 && t[|s|] == '_')
    ensures ParseNat(t) == Some(10 * ParseNat(s).value + (t[|t| - 1] - '0') as nat)
  {
    assert |t| == |s| + 1 ==> t[|t| - 2] == s[|s| - 1];
  }

  /** Nothing but digits and underscores is read as a natural number, and no digit is left out. */
  lemma {:induction false} OnlyNumerals(s: string)
    requires ParseNat(s).Some?
    ensures s != "" && forall i | 0 <= i < |s| :: '0' <= s[i] <= '9' || s[i] == '_'
    ensures '0' <= s[0] <= '9' && '0' <= s[|s| - 1] <= '9'
    decreases |s|
  {
    if |s| > 1 {
      var rest := if s[|s| - 2] == '_' then s[..|s| - 2] else s[..|s| - 1];
      OnlyNumerals(rest);
      forall i | 0 <= i < |s| ensures '0' <= s[i] <= '9' || s[i] == '_' {
        assert i < |rest| ==> s[i] == rest[i];
      }
    }
  }

  lemma {:induction false} DigitsAreRead(s: string)
    requires AllDigits(s)
    ensures ParseNat(s).Some?
    decreases |s|
  {
    assert IsDigit(s[|s| - 1]);
    if |s| > 1 {
      var rest := s[..|s| - 1];
      assert IsDigit(s[|s| - 2]);
      DigitsAreRead(rest);
    }
  }

  /** A text is all digits when it is read as a natural number and has no underscore. */
  lemma AllDigitsIff(s: string)
    ensures AllDigits(s) <==> ParseNat(s).Some? && '_' !in s
  {
    if AllDigits(s) {
      DigitsAreRead(s);
      assert forall i | 0 <= i < |s| :: IsDigit(s[i]);
    }
    if ParseNat(s).Some? {
      OnlyNumerals(s);
    }
  }

  lemma PlainIsRead(s: string)
    requires ParseNat(s).Some?
    ensures ParseInt(s) == Some(ParseNat(s).value)
  {
    OnlyNumerals(s);
    NothingToStrip(s);
  }

  /** A sign in front. */
  lemma SignIsRead(sign: char, s: string)
    requires ParseNat(s).Some? && (sign == '+' || sign == '-')
    ensures ParseInt([sign] + s).Some?
    ensures sign == '+' ==> ParseInt([sign] + s).value == ParseNat(s).value
    ensures sign == '-' ==> ParseInt([sign] + s).value + ParseNat(s).value == 0
  {
    var t := [sign] + s;
    OnlyNumerals(s);
    assert t[|t| - 1] == s[|s| - 1] && t[1..] == s;
    NothingToStrip(t);
  }
}

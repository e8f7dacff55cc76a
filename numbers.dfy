/** Numbers as the calculators see them: JavaScript numbers (a finite value or
    NaN), the result of an evaluation (a number or the string "Error"), and
    the reading of a display string as a number (`parseFloat`), restricted to
    the strings the calculators build: an optional minus sign, decimal digits
    and at most one decimal point. */
module Numbers {

  datatype Option<+T> = None | Some(value: T)

  /** A JavaScript number as far as the calculators use it. Exact reals stand
      for IEEE-754 doubles; `undefined` popped from an empty array behaves as
      NaN in every arithmetic operation the calculators perform. */
  datatype Num = Finite(x: real) | NaN

  /** What an evaluation hands back to the display: a number, or the
      string "Error" (division by zero, a token that is not a number). */
  datatype Outcome = Number(n: Num) | Error

  predicate IsDigit(c: char) { '0' <= c <= '9' }

  predicate AllDigits(s: string) { forall i | 0 <= i < |s| :: IsDigit(s[i]) }

  /** No two positions of `s` both hold a decimal point. */
  predicate AtMostOneDot(s: string) {
    forall i, j | 0 <= i < j < |s| :: !(s[i] == '.' && s[j] == '.')
  }

  function DigitValue(c: char): (d: nat)
    requires IsDigit(c)
    ensures d < 10
  {
    c as int - '0' as int
  }

  function DigitChar(d: nat): (c: char)
    requires d < 10
    ensures IsDigit(c) && DigitValue(c) == d
  {
    ('0' as int + d) as char
  }

  /** The value of a string of decimal digits, most significant first. */
  function DigitsValue(s: string): nat
    requires AllDigits(s)
    decreases |s|
  {
    if s == [] then 0 else 10 * DigitsValue(s[..|s| - 1]) + DigitValue(s[|s| - 1])
  }

  function Pow10(n: nat): (p: nat)
    ensures p > 0
  {
    if n == 0 then 1 else 10 * Pow10(n - 1)
  }

  /** The position of the first decimal point of `s`, or `|s|` if it has none. */
  function DotIndex(s: string): (k: nat)
    ensures k <= |s|
    ensures k < |s| ==> s[k] == '.'
    ensures forall i | 0 <= i < k :: s[i] != '.'
  {
    if s == [] || s[0] == '.' then 0 else 1 + DotIndex(s[1..])
  }

  /** `digits[.digits]` with at least one digit on either side of the point
      ("5", "5.", ".5", "0.25"); anything else is NaN. */
  function ParseUnsigned(s: string): Option<real> {
    var k := DotIndex(s);
    var whole := s[..k];
    var frac := if k < |s| then s[k + 1..] else "";
    if AllDigits(whole) && AllDigits(frac) && |whole| + |frac| > 0 then
      Some(DigitsValue(whole) as real + DigitsValue(frac) as real / Pow10(|frac|) as real)
    else
      None
  }

  /** `parseFloat` on a display string; `None` is NaN. */
  function Parse(s: string): Option<real> {
    var negative := |s| > 0 && s[0] == '-';
    match ParseUnsigned(if negative then s[1..] else s)
    case None => None
    case Some(v) => Some(if negative then -v else v)
  }

  /** `isValidNumber`: the regular expression `^-?\d*\.?\d+$`, i.e. an
      optional minus sign, then digits, then optionally a point followed by
      at least one digit. The calculators never call it. */
  predicate IsValidNumber(s: string) {
    var r := if |s| > 0 && s[0] == '-' then s[1..] else s;
    var k := DotIndex(r);
    if k == |r| then |r| > 0 && AllDigits(r)
    else AllDigits(r[..k]) && AllDigits(r[k + 1..]) && k + 1 < |r|
  }

  /** Every string the regular expression accepts is a number for `parseFloat`. */
  lemma ValidNumberParses(s: string)
    requires IsValidNumber(s)
    ensures Parse(s).Some?
  {
    var r := if |s| > 0 && s[0] == '-' then s[1..] else s;
    var k := DotIndex(r);
    if k == |r| {
      assert r[..k] == r;
    }
  }

  /** The converse fails: a trailing point is a number for `parseFloat`
      but not for the regular expression. */
  lemma TrailingPointParsesButIsNotValid()
    ensures Parse("5.") == Some(5.0)
    ensures !IsValidNumber("5.")
  {
    assert DotIndex("5.") == 1 by {
      assert "5."[1..] == ".";
    }
    assert "5."[..1] == "5";
    assert "5."[2..] == "";
    assert DigitsValue("5") == 5 by {
      assert "5"[..0] == "";
    }
  }

  lemma {:induction false} DigitsHaveNoDot(s: string)
    requires AllDigits(s)
    ensures DotIndex(s) == |s|
  {
    if s != [] {
      assert IsDigit(s[0]);
      DigitsHaveNoDot(s[1..]);
    }
  }

  /** The decimal rendering of a natural number, as `String(n)` gives it. */
  function NatToString(n: nat): (s: string)
    ensures |s| > 0 && AllDigits(s)
  {
    if n < 10 then [DigitChar(n)] else NatToString(n / 10) + [DigitChar(n % 10)]
  }

  lemma {:induction false} NatToStringValue(n: nat)
    ensures DigitsValue(NatToString(n)) == n
  {
    var s := NatToString(n);
    if n < 10 {
      assert s[..|s| - 1] == [];
    } else {
      NatToStringValue(n / 10);
      assert s[..|s| - 1] == NatToString(n / 10);
    }
  }

  /** A nonempty string of digits reads as its decimal value. */
  lemma ParseDigits(t: string)
    requires |t| > 0 && AllDigits(t)
    ensures Parse(t) == Some(DigitsValue(t) as real)
  {
    assert t[0] != '-';
    DigitsHaveNoDot(t);
    assert t[..|t|] == t;
    var frac: string := "";
    assert DigitsValue(frac) == 0 && Pow10(|frac|) == 1;
    assert ParseUnsigned(t) == Some(DigitsValue(t) as real + 0.0 / 1.0);
  }

  /** Reading back the rendering of a natural number gives that number. */
  lemma ParseNatToString(n: nat)
    ensures Parse(NatToString(n)) == Some(n as real)
  {
    NatToStringValue(n);
    ParseDigits(NatToString(n));
  }

  /** Typing one more digit after an integer display multiplies its value by
      ten and adds the digit. */
  lemma AppendDigitValue(s: string, c: char)
    requires |s| > 0 && AllDigits(s) && IsDigit(c)
    ensures Parse(s + [c]).Some?
    ensures Parse(s + [c]).value == (10 * DigitsValue(s) + DigitValue(c)) as real
  {
    var t := s + [c];
    assert AllDigits(t);
    assert t[..|t| - 1] == s;
    var v := 10 * DigitsValue(s) + DigitValue(c);
    assert DigitsValue(t) == v;
    ParseDigits(t);
    assert Parse(t) == Some(v as real);
  }
}

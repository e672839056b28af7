/** Decimal text of integers, as strconv.FormatInt and strconv.ParseInt write and read it. */
module Decimal {
  import opened Common

  function Digit(d: nat): (c: char)
    requires d < 10
    ensures IsDigit(c) && DigitValue(c) == d
  {
    "0123456789"[d]
  }

  predicate IsDigit(c: char) { '0' <= c <= '9' }

  function DigitValue(c: char): (d: nat)
    requires IsDigit(c)
    ensures d < 10
  {
    c as int - '0' as int
  }

  function FormatNat(n: nat): (s: string)
    ensures s != [] && forall c | c in s :: IsDigit(c)
  {
    if n < 10 then [Digit(n)] else FormatNat(n / 10) + [Digit(n % 10)]
  }

  function Format(n: int): string {
    if n < 0 then "-" + FormatNat(-n) else FormatNat(n)
  }

  function ParseNat(s: string): Option<int> {
    if s == [] || !IsDigit(s[|s| - 1]) then None
    else if |s| == 1 then Some(DigitValue(s[0]))
    else
      match ParseNat(s[..|s| - 1])
      case None => None
      case Some(n) => Some(10 * n + DigitValue(s[|s| - 1]))
  }

  function Parse(s: string): Option<int> {
    var sign := if s != [] && s[0] in "+-" then s[..1] else "";
    var n := ParseNat(s[|sign|..]);
    if n.None? then None else if sign == "-" then Some(-n.value) else Some(n.value)
  }

  lemma {:induction false} ParseNatOfFormat(n: nat)
    ensures ParseNat(FormatNat(n)) == Some(n)
  {
    if n >= 10 {
      ParseNatOfFormat(n / 10);
      var s := FormatNat(n);
      assert s[..|s| - 1] == FormatNat(n / 10);
    }
  }

  /** Reading back what was written. */
  lemma ParseOfFormat(n: int)
    ensures Parse(Format(n)) == Some(n)
  {
    var text := FormatNat(if n < 0 then -n else n);
    ParseNatOfFormat(if n < 0 then -n else n);
    if n < 0 {
      assert Format(n)[..1] == "-" && Format(n)[1..] == text;
    } else {
      assert text[0] in text && text[0..] == text;
    }
  }
}

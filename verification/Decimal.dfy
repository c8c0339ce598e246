/** Decimal integers: the printer used for numbers in text, and a reader that undoes it. */
module Decimal {
  import opened Options

  function Digit(d: nat): char
    requires d < 10
  {
    ('0' as int + d) as char
  }

  predicate IsDigit(c: char) {
    '0' <= c <= '9'
  }

  function PrintNat(n: nat): string {
    if n < 10 then [Digit(n)] else PrintNat(n / 10) + [Digit(n % 10)]
  }

  function Print(n: int): string {
    if n < 0 then "-" + PrintNat(-n) else PrintNat(n)
  }

  function ReadNat(s: string): nat
    requires forall c | c in s :: IsDigit(c)
  {
    if s == [] then 0
    else assert IsDigit(s[|s|-1]); 10 * ReadNat(s[..|s|-1]) + (s[|s|-1] as int - '0' as int)
  }

  predicate AllDigits(s: string) {
    s != [] && forall c | c in s :: IsDigit(c)
  }

  /** An optional sign and at least one digit; anything else is not a number. */
  function Read(s: string): Option<int> {
    if AllDigits(s) then Some(ReadNat(s))
    else if s != [] && s[0] == '-' && AllDigits(s[1..]) then Some(0 - ReadNat(s[1..]))
    else if s != [] && s[0] == '+' && AllDigits(s[1..]) then Some(ReadNat(s[1..]))
    else None
  }

  lemma {:induction false} PrintNatReads(n: nat)
    ensures AllDigits(PrintNat(n)) && ReadNat(PrintNat(n)) == n
  {
    if n >= 10 {
      PrintNatReads(n / 10);
      var front := PrintNat(n / 10);
      assert PrintNat(n)[..|front|] == front;
    }
  }

  lemma ReadPrint(n: int)
    ensures Read(Print(n)) == Some(n)
  {
    if n < 0 {
      PrintNatReads(-n);
      assert Print(n)[1..] == PrintNat(-n);
      assert Print(n)[0] == '-' && '-' in Print(n);
    } else {
      PrintNatReads(n);
    }
  }

  lemma PrintInjective(m: int, n: int)
    requires Print(m) == Print(n)
    ensures m == n
  {
    ReadPrint(m);
    ReadPrint(n);
  }

  lemma SignIsFirst(sign: char, digits: string)
    requires sign == '-' || sign == '+'
    ensures ([sign] + digits)[0] == sign && ([sign] + digits)[1..] == digits && !AllDigits([sign] + digits)
  {
    assert ([sign] + digits)[0] in [sign] + digits;
  }

  /** Digits count as they are or with a plus sign, and negatively with a minus sign. */
  lemma ReadSigns(digits: string)
    requires AllDigits(digits)
    ensures Read(digits) == Some(ReadNat(digits)) && Read(['+'] + digits) == Some(ReadNat(digits))
    ensures Read(['-'] + digits) == Some(0 - ReadNat(digits))
  {
    SignIsFirst('-', digits);
    SignIsFirst('+', digits);
  }
}

/** Numbers as settings files hold them: a printer without exponents, and a reader for signs, fractions, exponents,
    other bases and infinity. A finite number is a whole count of units at some number of decimal places, as few as
    it needs. */
module Numbers {
  import opened Options
  import Decimal
  import Text

  datatype Scaled = Scaled(units: int, places: nat)

  predicate Shortest(n: Scaled) {
    n.places == 0 || n.units % 10 != 0
  }

  type Number = n: Scaled | Shortest(n) witness Scaled(0, 0)

  /** Drop the zeros at the end of the fraction. */
  function Shorten(units: int, places: nat): Number
    decreases places
  {
    if places > 0 && units % 10 == 0 then Shorten(units / 10, places - 1) else Scaled(units, places)
  }

  /** Units times ten to the number of places dropped: the value stays. */
  lemma {:induction false} ShortenKeepsValue(units: int, places: nat)
    ensures Shorten(units, places).places <= places
    ensures Shorten(units, places).units * Pow10(places - Shorten(units, places).places) == units
    decreases places
  {
    if places > 0 && units % 10 == 0 {
      ShortenKeepsValue(units / 10, places - 1);
      var n := Shorten(units / 10, places - 1);
      var k := places - 1 - n.places;
      assert n.units * Pow10(k) * 10 == units;
      assert n.units * Pow10(k + 1) == n.units * Pow10(k) * 10;
    }
  }

  // ---------------------------------------------------------------- printing

  /** At least n characters, with zeros in front. */
  function Pad(digits: string, n: nat): string
    decreases n - |digits|
  {
    if |digits| >= n then digits else Pad("0" + digits, n)
  }

  function PointBefore(digits: string, places: nat): string
    requires places <= |digits|
  {
    digits[..|digits| - places] + "." + digits[|digits| - places..]
  }

  function PrintAbs(units: nat, places: nat): string {
    if places == 0 then Decimal.PrintNat(units)
    else
      PadLength(Decimal.PrintNat(units), places + 1);
      PointBefore(Pad(Decimal.PrintNat(units), places + 1), places)
  }

  function PrintDecimal(n: Number): string {
    if n.units < 0 then "-" + PrintAbs(-n.units, n.places) else PrintAbs(n.units, n.places)
  }

  // ---------------------------------------------------------------- reading

  function Digits(digits: string, places: nat): Option<Scaled> {
    if Decimal.AllDigits(digits) then Some(Scaled(Decimal.ReadNat(digits), places)) else None
  }

  /** Digits with at most one point among them. */
  function ReadMantissa(s: string): Option<Scaled> {
    var i := Text.Find(s, '.');
    if i < |s| then Digits(s[..i] + s[i + 1..], |s| - i - 1) else Digits(s, 0)
  }

  function Pow10(k: nat): nat {
    if k == 0 then 1 else 10 * Pow10(k - 1)
  }

  function Shift(n: Scaled, exponent: int): Scaled {
    if exponent >= n.places then Scaled(n.units * Pow10(exponent - n.places), 0)
    else Scaled(n.units, n.places - exponent)
  }

  /** Where the exponent mark stands, or the length when there is none. */
  function Mark(s: string): (k: nat)
    ensures k <= |s|
  {
    var i, j := Text.Find(s, 'e'), Text.Find(s, 'E');
    if i < j then i else j
  }

  function ReadUnsigned(s: string): Option<Scaled> {
    var k := Mark(s);
    if k == |s| then ReadMantissa(s)
    else
      match (ReadMantissa(s[..k]), Decimal.Read(s[k + 1..]))
      case (Some(n), Some(e)) => Some(Shift(n, e))
      case _ => None
  }

  function Signed(negative: bool, n: Option<Scaled>): Option<Number> {
    match n case None => None case Some(v) => Some(Shorten(if negative then -v.units else v.units, v.places))
  }

  /** Whether there is a minus sign, and what follows the sign. */
  function TakeSign(s: string): (bool, string) {
    if s != [] && s[0] == '-' then (true, s[1..])
    else if s != [] && s[0] == '+' then (false, s[1..])
    else (false, s)
  }

  function ReadDecimal(s: string): Option<Number> {
    var (negative, rest) := TakeSign(s);
    Signed(negative, ReadUnsigned(rest))
  }

  // ---------------------------------------------------------------- the reader undoes the printer

  lemma {:induction false} PadLength(digits: string, n: nat)
    ensures |Pad(digits, n)| >= n && |Pad(digits, n)| >= |digits|
    decreases n - |digits|
  {
    if |digits| < n {
      PadLength("0" + digits, n);
    }
  }

  lemma {:induction false} LeadingZero(digits: string)
    requires Decimal.AllDigits(digits)
    ensures Decimal.AllDigits("0" + digits) && Decimal.ReadNat("0" + digits) == Decimal.ReadNat(digits)
  {
    var s := "0" + digits;
    assert forall c | c in s :: c == '0' || c in digits;
    var init := digits[..|digits| - 1];
    assert s[..|s| - 1] == "0" + init && s[|s| - 1] == digits[|digits| - 1];
    if init != [] {
      LeadingZero(init);
    } else {
      assert "0" + init == "0" && "0"[..0] == [];
      assert Decimal.ReadNat("0") == 0;
    }
  }

  lemma {:induction false} PadReads(digits: string, n: nat)
    requires Decimal.AllDigits(digits)
    ensures Decimal.AllDigits(Pad(digits, n)) && Decimal.ReadNat(Pad(digits, n)) == Decimal.ReadNat(digits)
    decreases n - |digits|
  {
    if |digits| < n {
      LeadingZero(digits);
      PadReads("0" + digits, n);
    }
  }

  predicate PlainText(s: string) {
    s != [] && Decimal.IsDigit(s[0]) && Decimal.IsDigit(s[|s| - 1]) && forall c | c in s :: c == '.' || Decimal.IsDigit(c)
  }

  lemma NoMark(s: string)
    requires PlainText(s)
    ensures Mark(s) == |s|
  {
  }

  lemma PointParts(digits: string, k: nat, s: string)
    requires Decimal.AllDigits(digits) && 0 < k < |digits| && s == digits[..k] + "." + digits[k..]
    ensures Text.Find(s, '.') == k && |s| == |digits| + 1 && s[..k] + s[k + 1..] == digits
  {
    assert s[..k] == digits[..k] && s[k] == '.' && s[k + 1..] == digits[k..];
    assert forall c | c in digits[..k] :: c in digits;
    Text.FindAt(s, '.', k);
  }

  lemma PointShape(digits: string, places: nat)
    requires Decimal.AllDigits(digits) && 0 < places < |digits|
    ensures PlainText(PointBefore(digits, places))
  {
    var k := |digits| - places;
    var s := PointBefore(digits, places);
    assert s[0] == digits[0] && s[|s| - 1] == digits[|digits| - 1];
    forall c | c in s
      ensures c == '.' || Decimal.IsDigit(c)
    {
      assert c in digits[..k] || c == '.' || c in digits[k..];
    }
  }

  lemma MantissaSplit(s: string, k: nat, digits: string)
    requires Text.Find(s, '.') == k < |s| && s[..k] + s[k + 1..] == digits
    ensures ReadMantissa(s) == Digits(digits, |s| - k - 1)
  {
  }

  lemma DigitsRead(digits: string, places: nat)
    requires Decimal.AllDigits(digits)
    ensures Digits(digits, places) == Some(Scaled(Decimal.ReadNat(digits), places))
  {
  }

  lemma {:induction false} PointReads(digits: string, places: nat, s: string)
    requires Decimal.AllDigits(digits) && 0 < places < |digits| && s == PointBefore(digits, places)
    ensures ReadMantissa(s) == Some(Scaled(Decimal.ReadNat(digits), places))
  {
    var k := |digits| - places;
    PointParts(digits, k, s);
    MantissaSplit(s, k, digits);
    DigitsRead(digits, places);
  }

  lemma PrintAbsReads(units: nat, places: nat)
    ensures PlainText(PrintAbs(units, places)) && ReadUnsigned(PrintAbs(units, places)) == Some(Scaled(units, places))
  {
    var digits := Decimal.PrintNat(units);
    Decimal.PrintNatReads(units);
    if places > 0 {
      PadLength(digits, places + 1);
      PadReads(digits, places + 1);
      PointShape(Pad(digits, places + 1), places);
      PointReads(Pad(digits, places + 1), places, PrintAbs(units, places));
    } else {
      assert digits[0] in digits && digits[|digits| - 1] in digits;
      assert Text.Find(digits, '.') == |digits|;
    }
    NoMark(PrintAbs(units, places));
  }

  lemma ShortestStays(n: Number)
    ensures Shorten(n.units, n.places) == n
  {
  }

  lemma SignTaken(text: string)
    ensures TakeSign("-" + text) == (true, text)
    ensures text != [] && Decimal.IsDigit(text[0]) ==> TakeSign(text) == (false, text)
  {
    assert ("-" + text)[1..] == text;
  }

  lemma ReadParts(s: string, negative: bool, text: string, n: Scaled)
    requires TakeSign(s) == (negative, text) && ReadUnsigned(text) == Some(n)
    ensures ReadDecimal(s) == Some(Shorten(if negative then -n.units else n.units, n.places))
  {
  }

  lemma SignOf(negative: bool, text: string, s: string)
    requires text != [] && Decimal.IsDigit(text[0]) && s == if negative then "-" + text else text
    ensures TakeSign(s) == (negative, text)
  {
    SignTaken(text);
  }

  lemma ReadPrinted(n: Number, units: nat, text: string, s: string)
    requires units == (if n.units < 0 then -n.units else n.units) && ReadUnsigned(text) == Some(Scaled(units, n.places))
    requires text != [] && Decimal.IsDigit(text[0]) && s == if n.units < 0 then "-" + text else text
    ensures ReadDecimal(s) == Some(n)
  {
    SignOf(n.units < 0, text, s);
    ReadParts(s, n.units < 0, text, Scaled(units, n.places));
    ShortestStays(n);
  }

  lemma ReadPrintDecimal(n: Number)
    ensures ReadDecimal(PrintDecimal(n)) == Some(n)
  {
    var units: nat := if n.units < 0 then -n.units else n.units;
    PrintAbsReads(units, n.places);
    ReadPrinted(n, units, PrintAbs(units, n.places), PrintDecimal(n));
  }

  /** Digits and a point, with at most a minus sign in front. */
  predicate SignedText(s: string) {
    && s != [] && (s[0] == '-' || Decimal.IsDigit(s[0])) && Decimal.IsDigit(s[|s| - 1])
    && forall c | c in s :: c == '-' || c == '.' || Decimal.IsDigit(c)
  }

  lemma PlainIsSigned(text: string, s: string)
    requires PlainText(text) && (s == text || s == "-" + text)
    ensures SignedText(s)
  {
    assert s[|s| - 1] == text[|text| - 1];
  }

  lemma DecimalChars(n: Number)
    ensures SignedText(PrintDecimal(n))
  {
    var units: nat := if n.units < 0 then -n.units else n.units;
    PrintAbsReads(units, n.places);
    PlainIsSigned(PrintAbs(units, n.places), PrintDecimal(n));
  }

  // ---------------------------------------------------------------- other bases, and infinity

  datatype Value = Finite(number: Number) | Infinite(negative: bool)

  /** The base a letter after a leading zero stands for, or 0. */
  function Base(c: char): nat {
    if c == 'x' || c == 'X' then 16 else if c == 'o' || c == 'O' then 8 else if c == 'b' || c == 'B' then 2 else 0
  }

  /** What a digit counts, or 16 if it is none. */
  function DigitValue(c: char): nat {
    if '0' <= c <= '9' then c as int - '0' as int
    else if 'a' <= c <= 'f' then c as int - 'a' as int + 10
    else if 'A' <= c <= 'F' then c as int - 'A' as int + 10
    else 16
  }

  predicate DigitsIn(s: string, base: nat) {
    s != [] && forall c | c in s :: DigitValue(c) < base
  }

  function ReadIn(s: string, base: nat): nat {
    if s == [] then 0 else base * ReadIn(s[..|s| - 1], base) + DigitValue(s[|s| - 1])
  }

  const INFINITY := "Infinity"

  function Read(s: string): Option<Value> {
    if |s| >= 2 && s[0] == '0' && Base(s[1]) > 0 then
      if DigitsIn(s[2..], Base(s[1])) then Some(Finite(Scaled(ReadIn(s[2..], Base(s[1])), 0))) else None
    else if TakeSign(s).1 == INFINITY then Some(Infinite(TakeSign(s).0))
    else match ReadDecimal(s) case None => None case Some(n) => Some(Finite(n))
  }

  function Print(v: Value): string {
    match v
    case Finite(n) => PrintDecimal(n)
    case Infinite(negative) => if negative then "-" + INFINITY else INFINITY
  }

  lemma NoOtherBase(s: string)
    requires SignedText(s)
    ensures |s| >= 2 ==> Base(s[1]) == 0
  {
    if |s| >= 2 {
      assert s[1] in s;
    }
  }

  lemma DigitFirst(text: string)
    requires PlainText(text)
    ensures text != INFINITY
  {
    assert INFINITY[0] == 'I';
  }

  lemma {:induction false} NotInfinity(n: Number)
    ensures TakeSign(PrintDecimal(n)).1 != INFINITY
  {
    var units: nat := if n.units < 0 then -n.units else n.units;
    var text := PrintAbs(units, n.places);
    PrintAbsReads(units, n.places);
    SignTaken(text);
    DigitFirst(text);
  }

  /** A printed number reads back as itself. */
  lemma ReadPrint(v: Value)
    ensures Read(Print(v)) == Some(v)
  {
    if v.Finite? {
      DecimalChars(v.number);
      NoOtherBase(PrintDecimal(v.number));
      NotInfinity(v.number);
      ReadPrintDecimal(v.number);
    } else {
      SignTaken(INFINITY);
      assert INFINITY[0] == 'I' && ("-" + INFINITY)[0] == '-';
    }
  }

  /** No blanks and no line breaks. */
  lemma PrintChars(v: Value)
    ensures Print(v) != [] && forall c | c in Print(v) :: '!' <= c <= '~'
  {
    if v.Finite? {
      DecimalChars(v.number);
    }
  }
}

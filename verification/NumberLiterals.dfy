/** What a number literal means: its digits, shifted by the point and the exponent. */
module NumberLiterals {
  import opened Options
  import opened Numbers
  import Decimal
  import Text

  // ---------------------------------------------------------------- powers of ten

  lemma {:induction false} PowerSum(a: nat, b: nat)
    ensures Pow10(a + b) == Pow10(a) * Pow10(b)
  {
    if a > 0 {
      PowerSum(a - 1, b);
    }
  }

  /** n is units times ten to the power e - places. */
  predicate Means(n: Scaled, units: int, places: nat, e: int) {
    if e >= 0 then n.units * Pow10(places) == units * Pow10(n.places + e)
    else n.units * Pow10(places - e) == units * Pow10(n.places)
  }

  lemma TimesBoth(x: int, a: nat, u: int, b: nat)
    requires x * a == u
    ensures x * (a * b) == u * b
  {
  }

  lemma ShiftMeans(units: int, places: nat, e: int)
    ensures Means(Shift(Scaled(units, places), e), units, places, e)
  {
    if e >= places {
      PowerSum(e - places, places);
      TimesBoth(units, Pow10(e - places), units * Pow10(e - places), Pow10(places));
    }
  }

  lemma {:induction false} PowerPositive(k: nat)
    ensures Pow10(k) > 0
  {
    if k > 0 {
      PowerPositive(k - 1);
    }
  }

  lemma Cancels(x: int, k: nat, a: nat, u: int, b: nat)
    requires k > 0 && x * k * a == u * (k * b)
    ensures x * a == u * b
  {
    assert k * (x * a) == k * (u * b);
  }

  lemma ShortenMeans(n: Scaled, units: int, places: nat, e: int)
    requires Means(n, units, places, e)
    ensures Means(Shorten(n.units, n.places), units, places, e)
  {
    var m := Shorten(n.units, n.places);
    var k := n.places - m.places;
    ShortenKeepsValue(n.units, n.places);
    PowerPositive(k);
    if e >= 0 {
      PowerSum(k, m.places + e);
      Cancels(m.units, Pow10(k), Pow10(places), units, Pow10(m.places + e));
    } else {
      PowerSum(k, m.places);
      Cancels(m.units, Pow10(k), Pow10(places - e), units, Pow10(m.places));
    }
  }

  // ---------------------------------------------------------------- decimal literals

  /** A decimal literal: a sign, digits with a point among them, a mark and an exponent, all but some digits optional. */
  datatype Literal = Literal(sign: string, whole: string, point: bool, fraction: string, mark: string, exponent: string)

  predicate OnlyDigits(s: string) {
    forall c | c in s :: Decimal.IsDigit(c)
  }

  predicate ProperMantissa(l: Literal) {
    OnlyDigits(l.whole) && OnlyDigits(l.fraction) && l.whole + l.fraction != "" && (l.point || l.fraction == "")
  }

  predicate IsMark(mark: string) {
    mark == "e" || mark == "E"
  }

  predicate Proper(l: Literal) {
    && (l.sign == "" || l.sign == "+" || l.sign == "-")
    && ProperMantissa(l)
    && (if l.mark == "" then l.exponent == "" else IsMark(l.mark) && Decimal.Read(l.exponent).Some?)
  }

  function Mantissa(l: Literal): string {
    l.whole + (if l.point then "." + l.fraction else "")
  }

  function Unsigned(l: Literal): string {
    Mantissa(l) + (l.mark + l.exponent)
  }

  function Spell(l: Literal): string {
    l.sign + Unsigned(l)
  }

  function ExponentOf(l: Literal): int
    requires Proper(l)
  {
    if l.mark == "" then 0 else Decimal.Read(l.exponent).value
  }

  function DigitsOf(l: Literal): nat
    requires ProperMantissa(l)
  {
    Decimal.ReadNat(l.whole + l.fraction)
  }

  function Negate(negative: bool, units: int): int {
    if negative then -units else units
  }

  lemma PointReads(whole: string, fraction: string, s: string)
    requires OnlyDigits(whole) && OnlyDigits(fraction) && whole + fraction != "" && s == whole + ("." + fraction)
    ensures ReadMantissa(s) == Some(Scaled(Decimal.ReadNat(whole + fraction), |fraction|))
  {
    var k := |whole|;
    assert s[k] == '.' && s[..k] == whole && s[k + 1..] == fraction;
    Text.FindAt(s, '.', k);
    MantissaSplit(s, k, whole + fraction);
    DigitsRead(whole + fraction, |fraction|);
  }

  lemma PlainReads(whole: string)
    requires OnlyDigits(whole) && whole != ""
    ensures ReadMantissa(whole) == Some(Scaled(Decimal.ReadNat(whole), 0))
  {
    assert '.' !in whole;
  }

  lemma MantissaReads(l: Literal)
    requires ProperMantissa(l)
    ensures ReadMantissa(Mantissa(l)) == Some(Scaled(DigitsOf(l), |l.fraction|))
  {
    if l.point {
      PointReads(l.whole, l.fraction, Mantissa(l));
    } else {
      assert l.whole + l.fraction == l.whole && Mantissa(l) == l.whole;
      PlainReads(l.whole);
    }
  }

  predicate OnlyMantissa(s: string) {
    forall c | c in s :: c == '.' || Decimal.IsDigit(c)
  }

  lemma NoMarkIn(head: string)
    requires OnlyMantissa(head)
    ensures Mark(head) == |head|
  {
  }

  lemma {:induction false} FindBeyond(s: string, c: char, k: nat)
    requires k <= |s| && c !in s[..k]
    ensures Text.Find(s, c) >= k
  {
    if k > 0 {
      assert s[..k][0] == s[0] && s[1..][..k - 1] == s[..k][1..];
      FindBeyond(s[1..], c, k - 1);
    }
  }

  lemma MarkAt(head: string, mark: char, tail: string, s: string)
    requires OnlyMantissa(head) && (mark == 'e' || mark == 'E') && s == head + [mark] + tail
    ensures Mark(s) == |head| && s[..|head|] == head && s[|head| + 1..] == tail
  {
    var k := |head|;
    assert s[k] == mark && s[..k] == head;
    Text.FindAt(s, mark, k);
    FindBeyond(s, 'e', k);
    FindBeyond(s, 'E', k);
  }

  lemma ExponentReads(head: string, mark: char, tail: string, s: string, n: Scaled, e: int)
    requires OnlyMantissa(head) && (mark == 'e' || mark == 'E') && s == head + [mark] + tail
    requires ReadMantissa(head) == Some(n) && Decimal.Read(tail) == Some(e)
    ensures ReadUnsigned(s) == Some(Shift(n, e))
  {
    MarkAt(head, mark, tail, s);
  }

  lemma MantissaChars(l: Literal)
    requires ProperMantissa(l)
    ensures OnlyMantissa(Mantissa(l)) && Mantissa(l) != ""
  {
  }

  lemma UnsignedPlain(head: string, s: string, n: Scaled)
    requires OnlyMantissa(head) && s == head && ReadMantissa(head) == Some(n)
    ensures ReadUnsigned(s) == Some(n)
  {
    NoMarkIn(head);
  }

  lemma ShiftByNothing(n: Scaled)
    ensures Shift(n, 0) == n
  {
  }

  lemma UnsignedMarked(head: string, mark: string, tail: string, s: string, n: Scaled, e: int)
    requires OnlyMantissa(head) && IsMark(mark) && s == head + (mark + tail)
    requires ReadMantissa(head) == Some(n) && Decimal.Read(tail) == Some(e)
    ensures ReadUnsigned(s) == Some(Shift(n, e))
  {
    assert s == head + [mark[0]] + tail;
    ExponentReads(head, mark[0], tail, s, n, e);
  }

  lemma UnsignedReads(l: Literal, n: Scaled, e: int)
    requires Proper(l) && n == Scaled(DigitsOf(l), |l.fraction|) && e == ExponentOf(l)
    ensures ReadUnsigned(Unsigned(l)) == Some(Shift(n, e))
  {
    var head, s := Mantissa(l), Unsigned(l);
    MantissaReads(l);
    MantissaChars(l);
    if l.mark == "" {
      UnsignedPlain(head, s, n);
      ShiftByNothing(n);
    } else {
      UnsignedMarked(head, l.mark, l.exponent, s, n, e);
    }
  }

  /** Begins with a digit or a point, and goes on as a decimal does. */
  predicate DecimalStart(s: string) {
    && s != "" && (s[0] == '.' || Decimal.IsDigit(s[0]))
    && (|s| > 1 ==> s[1] == '.' || Decimal.IsDigit(s[1]) || s[1] == 'e' || s[1] == 'E')
  }

  lemma UnsignedStart(l: Literal)
    requires Proper(l)
    ensures DecimalStart(Unsigned(l))
  {
    var m, s := Mantissa(l), Unsigned(l);
    assert OnlyMantissa(m) && m != "" && s[0] == m[0] && m[0] in m;
    if |m| > 1 {
      assert s[1] == m[1] && m[1] in m;
    } else if |s| > 1 {
      assert s[1] == l.mark[0];
    }
  }

  lemma SignTakenOff(sign: string, rest: string, s: string)
    requires (sign == "" || sign == "+" || sign == "-") && s == sign + rest && DecimalStart(rest)
    ensures TakeSign(s) == (sign == "-", rest)
  {
    assert sign == "" ==> s == rest;
    assert sign != "" ==> s[0] == sign[0] && s[1..] == rest;
  }

  lemma NoBaseMark(sign: string, rest: string, s: string)
    requires (sign == "" || sign == "+" || sign == "-") && s == sign + rest && DecimalStart(rest)
    ensures |s| >= 2 && s[0] == '0' ==> Base(s[1]) == 0
  {
    assert sign == "" ==> s == rest;
    assert sign != "" ==> s[0] == sign[0];
  }

  lemma NotInfinite(rest: string)
    requires DecimalStart(rest)
    ensures rest != INFINITY
  {
    assert INFINITY[0] == 'I';
  }

  lemma SignedReads(sign: string, rest: string, s: string, n: Scaled)
    requires (sign == "" || sign == "+" || sign == "-") && s == sign + rest && DecimalStart(rest)
    requires ReadUnsigned(rest) == Some(n)
    ensures Read(s) == Some(Finite(Shorten(Negate(sign == "-", n.units), n.places)))
  {
    SignTakenOff(sign, rest, s);
    NoBaseMark(sign, rest, s);
    NotInfinite(rest);
    ReadParts(s, sign == "-", rest, n);
  }

  lemma NegatedMeans(negative: bool, n: Scaled, units: int, places: nat, e: int)
    requires Means(n, units, places, e)
    ensures Means(Scaled(Negate(negative, n.units), n.places), Negate(negative, units), places, e)
  {
    if negative {
      if e >= 0 {
        Opposite(n.units, Pow10(places), units, Pow10(n.places + e));
      } else {
        Opposite(n.units, Pow10(places - e), units, Pow10(n.places));
      }
    }
  }

  lemma Opposite(x: int, a: nat, u: int, b: nat)
    requires x * a == u * b
    ensures -x * a == -u * b
  {
  }

  /** Every decimal literal is read, and as the number it spells: its digits, shifted by the point and the exponent,
      with its sign. */
  lemma LiteralMeans(l: Literal)
    requires Proper(l)
    ensures Read(Spell(l)).Some? && Read(Spell(l)).value.Finite?
    ensures Means(Read(Spell(l)).value.number, Negate(l.sign == "-", DigitsOf(l)), |l.fraction|, ExponentOf(l))
  {
    var places, e := |l.fraction|, ExponentOf(l);
    var n := Shift(Scaled(DigitsOf(l), places), e);
    UnsignedReads(l, Scaled(DigitsOf(l), places), e);
    UnsignedStart(l);
    SignedReads(l.sign, Unsigned(l), Spell(l), n);
    ShiftMeans(DigitsOf(l), places, e);
    NegatedMeans(l.sign == "-", n, DigitsOf(l), places, e);
    ShortenMeans(Scaled(Negate(l.sign == "-", n.units), n.places), Negate(l.sign == "-", DigitsOf(l)), places, e);
  }

  lemma MantissaIsLiteral(s: string) returns (whole: string, point: bool, fraction: string)
    requires ReadMantissa(s).Some?
    ensures ProperMantissa(Literal("", whole, point, fraction, "", ""))
    ensures s == whole + (if point then "." + fraction else "")
  {
    var i := Text.Find(s, '.');
    whole, point, fraction := s[..i], i < |s|, if i < |s| then s[i + 1..] else "";
    if point {
      assert s == s[..i] + ("." + s[i + 1..]);
      assert forall c :: c in whole || c in fraction ==> c in whole + fraction;
    } else {
      assert whole == s && whole + fraction == s;
    }
  }

  lemma MarkParts(s: string, k: nat)
    requires ReadUnsigned(s).Some? && k == Mark(s) < |s|
    ensures IsMark([s[k]]) && ReadMantissa(s[..k]).Some? && Decimal.Read(s[k + 1..]).Some?
  {
  }

  lemma WholeIsMantissa(s: string)
    requires ReadUnsigned(s).Some? && Mark(s) == |s|
    ensures ReadMantissa(s).Some?
  {
  }

  lemma Assembled(l: Literal, head: string, s: string)
    requires head == Mantissa(l) && s == head + (l.mark + l.exponent)
    ensures Unsigned(l) == s
  {
  }

  lemma PlainLiteral(s: string) returns (l: Literal)
    requires ReadMantissa(s).Some?
    ensures Proper(l) && Unsigned(l) == s
  {
    var whole, point, fraction := MantissaIsLiteral(s);
    l := Literal("", whole, point, fraction, "", "");
    assert ProperMantissa(l);
    assert s == s + (l.mark + l.exponent);
    Assembled(l, s, s);
  }

  lemma MarkedLiteral(head: string, mark: string, tail: string, s: string) returns (l: Literal)
    requires ReadMantissa(head).Some? && IsMark(mark) && Decimal.Read(tail).Some? && s == head + (mark + tail)
    ensures Proper(l) && Unsigned(l) == s
  {
    var whole, point, fraction := MantissaIsLiteral(head);
    l := Literal("", whole, point, fraction, mark, tail);
    assert ProperMantissa(l);
    Assembled(l, head, s);
  }

  lemma {:induction false} UnsignedIsLiteral(s: string) returns (l: Literal)
    requires ReadUnsigned(s).Some?
    ensures Proper(l) && Unsigned(l) == s
  {
    var k := Mark(s);
    if k == |s| {
      WholeIsMantissa(s);
      l := PlainLiteral(s);
    } else {
      MarkParts(s, k);
      assert s == s[..k] + ([s[k]] + s[k + 1..]);
      l := MarkedLiteral(s[..k], [s[k]], s[k + 1..], s);
    }
  }

  lemma SignParts(s: string, negative: bool, rest: string) returns (sign: string)
    requires TakeSign(s) == (negative, rest)
    ensures s == sign + rest && (sign == "" || sign == "+" || sign == "-")
  {
    sign := if s != "" && (s[0] == '-' || s[0] == '+') then [s[0]] else "";
    assert sign != "" ==> s == [s[0]] + s[1..];
  }

  predicate OtherPrefix(s: string) {
    |s| > 2 && s[0] == '0' && s[1] in "xXoObB"
  }

  lemma BasePrefix(s: string)
    requires Read(s).Some? && |s| >= 2 && s[0] == '0' && Base(s[1]) > 0
    ensures OtherPrefix(s)
  {
    var c := s[1];
    var letters := "xXoObB";
    assert letters[0] == 'x' && letters[1] == 'X' && letters[2] == 'o' && letters[3] == 'O' && letters[4] == 'b' && letters[5] == 'B';
    assert DigitsIn(s[2..], Base(c));
  }

  lemma DecimalParts(s: string, negative: bool, rest: string)
    requires Read(s).Some? && TakeSign(s) == (negative, rest) && rest != INFINITY
    requires !(|s| >= 2 && s[0] == '0' && Base(s[1]) > 0)
    ensures ReadUnsigned(rest).Some?
  {
  }

  lemma Resigned(u: Literal, sign: string, rest: string, s: string)
    requires Proper(u) && Unsigned(u) == rest && s == sign + rest && (sign == "" || sign == "+" || sign == "-")
    ensures Proper(u.(sign := sign)) && Spell(u.(sign := sign)) == s
  {
    assert Mantissa(u.(sign := sign)) == Mantissa(u);
  }

  /** Nothing else is read: a text with a value is a decimal literal, infinity with a sign, or begins with a zero and
      the letter of another base. */
  lemma OnlyLiterals(s: string) returns (l: Literal, sign: string)
    requires Read(s).Some?
    ensures sign == "" || sign == "+" || sign == "-"
    ensures (Proper(l) && Spell(l) == s) || s == sign + "Infinity" || OtherPrefix(s)
  {
    l := Literal("", "", false, "", "", "");
    var (negative, rest) := TakeSign(s);
    sign := SignParts(s, negative, rest);
    if |s| >= 2 && s[0] == '0' && Base(s[1]) > 0 {
      BasePrefix(s);
    } else if rest != INFINITY {
      DecimalParts(s, negative, rest);
      var u := UnsignedIsLiteral(rest);
      Resigned(u, sign, rest, s);
      l := u.(sign := sign);
    }
  }

  // ---------------------------------------------------------------- other bases

  lemma TwoDigits(a: char, b: char, base: nat)
    ensures ReadIn([a, b], base) == base * DigitValue(a) + DigitValue(b)
  {
    assert [a, b][..1] == [a];
    assert ReadIn([a], base) == base * ReadIn([], base) + DigitValue(a);
    assert base * 0 == 0;
  }

  lemma BothDigits(a: char, b: char, base: nat)
    ensures DigitsIn([a, b], base) <==> DigitValue(a) < base && DigitValue(b) < base
  {
    assert [a, b][0] == a && [a, b][1] == b;
  }

  lemma BaseReads(s: string, mark: char, a: char, b: char)
    requires Base(mark) > 0 && s == ['0', mark, a, b]
    ensures Read(s) == if DigitValue(a) < Base(mark) && DigitValue(b) < Base(mark)
                       then Some(Finite(Scaled(Base(mark) * DigitValue(a) + DigitValue(b), 0))) else None
  {
    assert s[2..] == [a, b];
    BothDigits(a, b, Base(mark));
    TwoDigits(a, b, Base(mark));
  }

  /** Hexadecimal, octal and binary. */
  lemma {:induction false} OtherBases()
    ensures Read("0xfF") == Some(Finite(Scaled(255, 0))) && Read("0o17") == Some(Finite(Scaled(15, 0)))
    ensures Read("0B10") == Some(Finite(Scaled(2, 0))) && Read("0x1g") == None
  {
    BaseReads("0xfF", 'x', 'f', 'F');
    BaseReads("0o17", 'o', '1', '7');
    BaseReads("0B10", 'B', '1', '0');
    BaseReads("0x1g", 'x', '1', 'g');
  }
}

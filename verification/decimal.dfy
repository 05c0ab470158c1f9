/** Decimal text as the Kotlin runtime writes and reads it: `Int.toString()`,
    `Double.toString()` for plain decimal values, and `String.toDoubleOrNull()`
    for the plain decimal forms. */
module Decimal {
  import opened Base

  predicate IsDigit(c: char) { '0' <= c <= '9' }

  predicate AllDigits(s: string) { forall i :: 0 <= i < |s| ==> IsDigit(s[i]) }

  function DigitChar(d: nat): (c: char)
    requires d < 10
    ensures IsDigit(c)
  {
    ('0' as int + d) as char
  }

  function DigitValue(c: char): (d: nat)
    requires IsDigit(c)
    ensures d < 10 && DigitChar(d) == c
  {
    c as int - '0' as int
  }

  function Pow10(k: nat): (r: nat)
    ensures r >= 1
  {
    if k == 0 then 1 else 10 * Pow10(k - 1)
  }

  /** `Int.toString()` of a non-negative value: at least one digit, and no
      leading zero except in "0" itself. */
  function NatToDecimal(n: nat): (s: string)
    ensures |s| >= 1 && AllDigits(s)
    ensures s[0] == '0' <==> n == 0
  {
    if n < 10 then [DigitChar(n)] else NatToDecimal(n / 10) + [DigitChar(n % 10)]
  }

  /** `Int.toString()`: a minus sign before the digits of a negative value. */
  function IntToString(n: int): (s: string)
    ensures |s| >= 1
    ensures n < 0 <==> s[0] == '-'
  {
    if n < 0 then "-" + NatToDecimal(-n) else NatToDecimal(n)
  }

  /** The value of a string of decimal digits (the empty string counts 0). */
  function DigitsValue(s: string): (n: nat)
    requires AllDigits(s)
    ensures n < Pow10(|s|)
  {
    if s == [] then 0 else DigitsValue(s[..|s| - 1]) * 10 + DigitValue(s[|s| - 1])
  }

  /** Reading back the digits `Int.toString()` writes gives the value. */
  lemma {:induction false} DigitsValueOfNatToDecimal(n: nat)
    ensures DigitsValue(NatToDecimal(n)) == n
  {
    if n >= 10 {
      var s := NatToDecimal(n);
      assert s[..|s| - 1] == NatToDecimal(n / 10);
      DigitsValueOfNatToDecimal(n / 10);
    }
  }

  lemma NatToDecimalInjective(a: nat, b: nat)
    ensures NatToDecimal(a) == NatToDecimal(b) ==> a == b
  {
    DigitsValueOfNatToDecimal(a);
    DigitsValueOfNatToDecimal(b);
  }

  /** Distinct `Int`s have distinct decimal forms. */
  lemma IntToStringInjective(a: int, b: int)
    ensures IntToString(a) == IntToString(b) ==> a == b
  {
    if IntToString(a) == IntToString(b) {
      if a < 0 && b < 0 {
        assert NatToDecimal(-a) == IntToString(a)[1..];
        assert NatToDecimal(-b) == IntToString(b)[1..];
        NatToDecimalInjective(-a, -b);
      } else if a >= 0 && b >= 0 {
        NatToDecimalInjective(a, b);
      }
    }
  }

  /** For k >= 1, a value has at most k digits exactly when it is below 10^k. */
  lemma {:induction false} NatToDecimalLength(n: nat, k: nat)
    requires k >= 1
    ensures |NatToDecimal(n)| <= k <==> n < Pow10(k)
  {
    if n >= 10 {
      if k == 1 {
        assert Pow10(1) == 10;
      } else {
        NatToDecimalLength(n / 10, k - 1);
        assert n / 10 < Pow10(k - 1) <==> n < 10 * Pow10(k - 1);
      }
    } else {
      assert Pow10(k) >= 10 by { assert Pow10(k) == 10 * Pow10(k - 1); }
    }
  }

  /** The first position of `c` in `s`, if any. */
  function IndexOf(s: string, c: char): (r: Option<nat>)
    ensures r.Some? ==> r.value < |s| && s[r.value] == c && c !in s[..r.value]
    ensures r.None? ==> c !in s
  {
    if s == [] then None
    else if s[0] == c then Some(0)
    else match IndexOf(s[1..], c)
      case None => None
      case Some(i) =>
        assert s[..i + 1] == [s[0]] + s[1..][..i];
        Some(i + 1)
  }

  /** An unsigned plain decimal: digits, or digits and a point with digits
      on at least one side of it ("15000", "15000.00", "5.", ".5"). */
  function ParseUnsigned(s: string): (r: Option<real>)
    ensures r.Some? ==> r.value >= 0.0
  {
    match IndexOf(s, '.')
    case None =>
      if |s| > 0 && AllDigits(s) then Some(DigitsValue(s) as real) else None
    case Some(i) =>
      var whole, fraction := s[..i], s[i + 1..];
      if (|whole| > 0 || |fraction| > 0) && AllDigits(whole) && AllDigits(fraction)
      then
        CocienteNoNegativo(DigitsValue(fraction), Pow10(|fraction|));
        Some(DigitsValue(whole) as real + DigitsValue(fraction) as real / Pow10(|fraction|) as real)
      else None
  }

  lemma CocienteNoNegativo(a: nat, b: nat)
    requires b >= 1
    ensures a as real / b as real >= 0.0
  {
    assert (a as real / b as real) * b as real == a as real;
  }

  /** The characters `toDoubleOrNull` skips around a number: U+0000 to
      U+0020. */
  predicate EsBlanco(c: char)
  {
    c <= ' '
  }

  /** The type suffix a decimal literal may carry. */
  predicate EsSufijo(c: char)
  {
    c == 'f' || c == 'F' || c == 'd' || c == 'D'
  }

  /** The text without its leading blanks. */
  function SinBlancosInicio(s: string): (r: string)
    ensures |r| <= |s| && r == s[|s| - |r|..]
    ensures r != [] ==> !EsBlanco(r[0])
  {
    if s != [] && EsBlanco(s[0]) then SinBlancosInicio(s[1..]) else s
  }

  /** What `SinBlancosInicio` drops is blanks only. */
  lemma {:induction false} SoloBlancosAlInicio(s: string)
    ensures forall i :: 0 <= i < |s| - |SinBlancosInicio(s)| ==> EsBlanco(s[i])
    decreases |s|
  {
    if s != [] && EsBlanco(s[0]) {
      SoloBlancosAlInicio(s[1..]);
      assert forall i :: 1 <= i < |s| ==> s[i] == s[1..][i - 1];
    }
  }

  /** The text without its trailing blanks. */
  function SinBlancosFinal(s: string): (r: string)
    ensures |r| <= |s| && r == s[..|r|]
    ensures r != [] ==> !EsBlanco(r[|r| - 1])
  {
    if s != [] && EsBlanco(s[|s| - 1]) then SinBlancosFinal(s[..|s| - 1]) else s
  }

  /** The text without blanks at either end. */
  function Recortar(s: string): (r: string)
    ensures r != [] ==> !EsBlanco(r[0]) && !EsBlanco(r[|r| - 1])
  {
    SinBlancosFinal(SinBlancosInicio(s))
  }

  /** The text without one trailing type suffix, if it has one. */
  function SinSufijo(t: string): (r: string)
    ensures r == t || (t != [] && EsSufijo(t[|t| - 1]) && r == t[..|t| - 1])
  {
    if t != [] && EsSufijo(t[|t| - 1]) then t[..|t| - 1] else t
  }

  /** A trimmed text without its suffix: an optional sign, then an
      unsigned decimal. */
  function LeerNumero(t: string): (r: Option<real>)
    ensures t == [] ==> r == None
    ensures r.Some? && r.value < 0.0 ==> t[0] == '-'
  {
    if |t| > 0 && t[0] == '-' then
      match ParseUnsigned(t[1..])
      case None => None
      case Some(v) => Some(-v)
    else if |t| > 0 && t[0] == '+' then ParseUnsigned(t[1..])
    else ParseUnsigned(t)
  }

  /** `String.toDoubleOrNull()` on plain decimal text: blanks at either end,
      an optional sign, the number and an optional type suffix. Other text
      reads as `null` here; Kotlin also reads exponents, hexadecimal, NaN
      and Infinity, which this model leaves out. */
  function ParseDouble(s: string): (r: Option<real>)
    ensures Recortar(s) == [] ==> r == None
    ensures r.Some? && r.value < 0.0 ==> Recortar(s) != [] && Recortar(s)[0] == '-'
  {
    LeerNumero(SinSufijo(Recortar(s)))
  }

  /** Text made only of blanks reads as `null`. */
  lemma ParseDoubleEnBlanco(s: string)
    requires forall i :: 0 <= i < |s| ==> EsBlanco(s[i])
    ensures ParseDouble(s) == None
  {
  }

  /** A negative value is read only when the first character that is not a
      blank is '-'. */
  lemma ParseDoubleNegativo(s: string)
    requires ParseDouble(s).Some? && ParseDouble(s).value < 0.0
    ensures exists i :: 0 <= i < |s| && s[i] == '-' && forall j :: 0 <= j < i ==> EsBlanco(s[j])
  {
    var u := SinBlancosInicio(s);
    var i := |s| - |u|;
    assert Recortar(s)[0] == u[0];
    SoloBlancosAlInicio(s);
    assert s[i] == '-';
  }

  lemma {:induction false} InicioTrasBlancos(b: string, x: string)
    requires forall i :: 0 <= i < |b| ==> EsBlanco(b[i])
    ensures SinBlancosInicio(b + x) == SinBlancosInicio(x)
    decreases |b|
  {
    if b != [] {
      assert (b + x)[1..] == b[1..] + x;
      InicioTrasBlancos(b[1..], x);
    } else {
      assert b + x == x;
    }
  }

  lemma {:induction false} FinalAntesDeBlancos(x: string, e: string)
    requires forall i :: 0 <= i < |e| ==> EsBlanco(e[i])
    ensures SinBlancosFinal(x + e) == SinBlancosFinal(x)
    decreases |e|
  {
    if e != [] {
      assert (x + e)[..|x + e| - 1] == x + e[..|e| - 1];
      FinalAntesDeBlancos(x, e[..|e| - 1]);
    } else {
      assert x + e == x;
    }
  }

  lemma {:induction false} RecortarAntesDeBlancos(x: string, e: string)
    requires forall i :: 0 <= i < |e| ==> EsBlanco(e[i])
    ensures Recortar(x + e) == Recortar(x)
    decreases |x|
  {
    if x == [] {
      assert x + e == e;
      assert SinBlancosInicio(e) == [];
    } else if EsBlanco(x[0]) {
      assert (x + e)[1..] == x[1..] + e;
      RecortarAntesDeBlancos(x[1..], e);
    } else {
      FinalAntesDeBlancos(x, e);
    }
  }

  /** Blanks around a number do not change what `toDoubleOrNull` reads. */
  lemma ParseDoubleIgnoraBlancos(b: string, s: string, e: string)
    requires forall i :: 0 <= i < |b| ==> EsBlanco(b[i])
    requires forall i :: 0 <= i < |e| ==> EsBlanco(e[i])
    ensures ParseDouble(b + s + e) == ParseDouble(s)
  {
    assert Recortar(b + s + e) == Recortar(s) by {
      assert b + s + e == b + (s + e);
      InicioTrasBlancos(b, s + e);
      RecortarAntesDeBlancos(s, e);
    }
  }

  /** Text with no blank at either end is its own trimmed form. */
  lemma RecortarSinBlancos(t: string)
    requires t != [] && !EsBlanco(t[0]) && !EsBlanco(t[|t| - 1])
    ensures Recortar(t) == t
  {
  }

  lemma {:induction false} InicioConCola(x: string, y: string)
    requires SinBlancosInicio(x) != []
    ensures SinBlancosInicio(x + y) == SinBlancosInicio(x) + y
    decreases |x|
  {
    assert (x + y)[0] == x[0];
    if EsBlanco(x[0]) {
      assert SinBlancosInicio(x + y) == SinBlancosInicio(x[1..] + y) by {
        assert (x + y)[1..] == x[1..] + y;
      }
      InicioConCola(x[1..], y);
    }
  }

  /** Texts that agree once trimmed and stripped of a suffix read alike. */
  lemma MismoNumero(s1: string, s2: string)
    requires SinSufijo(Recortar(s1)) == SinSufijo(Recortar(s2))
    ensures ParseDouble(s1) == ParseDouble(s2)
  {
  }

  /** Text whose last character is not a blank keeps something when its
      leading blanks go. */
  lemma {:induction false} InicioNoVacio(s: string)
    requires s != [] && !EsBlanco(s[|s| - 1])
    ensures SinBlancosInicio(s) != []
    decreases |s|
  {
    if EsBlanco(s[0]) {
      assert |s| > 1;
      assert s[1..][|s| - 2] == s[|s| - 1];
      InicioNoVacio(s[1..]);
    }
  }

  /** Text ending in a digit keeps its end when trimmed. */
  lemma RecortarTerminaIgual(s: string)
    requires s != [] && IsDigit(s[|s| - 1])
    ensures Recortar(s) == SinBlancosInicio(s)
    ensures Recortar(s) != [] && Recortar(s)[|Recortar(s)| - 1] == s[|s| - 1]
  {
    var u := SinBlancosInicio(s);
    assert u != [] && u[|u| - 1] == s[|s| - 1] by {
      InicioNoVacio(s);
    }
    assert SinBlancosFinal(u) == u by {
      assert !EsBlanco(u[|u| - 1]);
    }
  }

  /** A character after a digit survives trimming. */
  lemma RecortarConSufijo(s: string, c: char)
    requires s != [] && IsDigit(s[|s| - 1]) && EsSufijo(c)
    ensures Recortar(s + [c]) == Recortar(s) + [c]
  {
    RecortarTerminaIgual(s);
    var u := SinBlancosInicio(s);
    InicioConCola(s, [c]);
    assert SinBlancosFinal(u + [c]) == u + [c];
  }

  /** A type suffix after the last digit is dropped again once the text is
      trimmed. */
  lemma SufijoSeQuita(s: string, c: char)
    requires s != [] && IsDigit(s[|s| - 1]) && EsSufijo(c)
    ensures SinSufijo(Recortar(s + [c])) == SinSufijo(Recortar(s))
  {
    RecortarConSufijo(s, c);
    RecortarTerminaIgual(s);
    var t := Recortar(s);
    assert SinSufijo(t + [c]) == t by {
      assert (t + [c])[..|t|] == t;
    }
    assert SinSufijo(t) == t by {
      assert !EsSufijo(t[|t| - 1]);
    }
  }

  /** Text that starts and ends with a digit reads as an unsigned decimal. */
  lemma ParseDoubleDeDigitos(x: string)
    requires x != [] && IsDigit(x[0]) && IsDigit(x[|x| - 1])
    ensures ParseDouble(x) == ParseUnsigned(x)
  {
    assert ParseDouble(x) == LeerNumero(x) by {
      RecortarSinBlancos(x);
      assert SinSufijo(x) == x;
    }
    assert LeerNumero(x) == ParseUnsigned(x) by {
      assert x[0] != '-' && x[0] != '+';
    }
  }

  /** A type suffix after the last digit does not change the value read. */
  lemma ParseDoubleConSufijo(s: string, c: char)
    requires s != [] && IsDigit(s[|s| - 1]) && EsSufijo(c)
    ensures ParseDouble(s + [c]) == ParseDouble(s)
  {
    SufijoSeQuita(s, c);
    MismoNumero(s + [c], s);
  }

  function LeftPadZeros(s: string, width: nat): (r: string)
    ensures |r| >= width && |r| >= |s|
    ensures AllDigits(s) ==> AllDigits(r)
    decreases width - |s|
  {
    if |s| >= width then s else LeftPadZeros(['0'] + s, width)
  }

  function TrimTrailingZeros(s: string): (r: string)
    ensures |r| <= |s| && r == s[..|r|]
    ensures r != [] ==> r[|r| - 1] != '0'
  {
    if s != [] && s[|s| - 1] == '0' then TrimTrailingZeros(s[..|s| - 1]) else s
  }

  /** The fraction digits written after the point: the first 17 decimal
      digits of 0 <= f < 1 (a `Double` carries at most 17 significant
      digits), trailing zeros dropped, at least one digit. */
  function FractionText(f: real): (s: string)
    requires 0.0 <= f < 1.0
    ensures |s| >= 1
  {
    var scaled := (f * 100_000_000_000_000_000.0).Floor;
    var digits := TrimTrailingZeros(LeftPadZeros(NatToDecimal(scaled), 17));
    if digits == [] then "0" else digits
  }

  /** The text of a non-negative value: whole part, a point, fraction. */
  function ShowNonNegative(x: real): (s: string)
    requires x >= 0.0
  {
    var n := x.Floor;
    if x == n as real then NatToDecimal(n) + ".0"
    else NatToDecimal(n) + "." + FractionText(x - n as real)
  }

  /** `Double.toString()` for values written in plain decimal notation. */
  function ShowDouble(x: real): (s: string)
  {
    (if x < 0.0 then "-" else "") + ShowNonNegative(Magnitud(x))
  }

  /** The absolute value of `x`. */
  function Magnitud(x: real): (r: real)
    ensures r >= 0.0
    ensures r == x || r == -x
  {
    if x < 0.0 then -x else x
  }

  lemma ShowNonNegativeWhole(y: real, m: nat)
    requires y == m as real
    ensures ShowNonNegative(y) == NatToDecimal(m) + ".0"
  {
    assert y.Floor == m;
  }

  /** A negative whole value is written as a minus sign, its digits, ".0". */
  lemma ShowNegativeWhole(x: real, m: nat)
    requires x == -(m as real) && m > 0
    ensures ShowDouble(x) == "-" + (NatToDecimal(m) + ".0")
  {
    var y := m as real;
    assert ShowNonNegative(y) == NatToDecimal(m) + ".0" by {
      ShowNonNegativeWhole(y, m);
    }
    assert Magnitud(x) == y;
    assert ShowDouble(x) == "-" + ShowNonNegative(y);
  }

  /** A whole-valued `Double` is written as its `Int` digits followed by ".0". */
  lemma ShowWholeDouble(n: int)
    ensures ShowDouble(n as real) == IntToString(n) + ".0"
  {
    if n < 0 {
      assert ShowDouble(n as real) == "-" + (NatToDecimal(-n) + ".0") by {
        ShowNegativeWhole(n as real, -n);
      }
      assert IntToString(n) + ".0" == "-" + (NatToDecimal(-n) + ".0");
    } else {
      assert ShowDouble(n as real) == ShowNonNegative(n as real) by {
        assert Magnitud(n as real) == n as real;
        assert "" + ShowNonNegative(n as real) == ShowNonNegative(n as real);
      }
      ShowNonNegativeWhole(n as real, n);
    }
  }

  /** The digits of `m` followed by ".0" read back as `m`. */
  lemma ParseWholeText(m: nat)
    ensures ParseUnsigned(NatToDecimal(m) + ".0") == Some(m as real)
  {
    var digits := NatToDecimal(m);
    var body := digits + ".0";
    assert '.' !in digits by {
      forall i | 0 <= i < |digits| ensures digits[i] != '.' { assert IsDigit(digits[i]); }
    }
    assert body[..|digits|] == digits;
    assert body[|digits|] == '.';
    assert IndexOf(body, '.') == Some(|digits|);
    assert body[|digits| + 1..] == "0";
    assert DigitsValue("0") == 0;
    DigitsValueOfNatToDecimal(m);
  }

  /** The text of a whole number with ".0" appended has no blank at
      either end. */
  lemma RecortarTextoEntero(n: int)
    ensures Recortar(IntToString(n) + ".0") == IntToString(n) + ".0"
  {
    var t := IntToString(n) + ".0";
    assert !EsBlanco(t[0]) by {
      if n >= 0 {
        assert IsDigit(NatToDecimal(n)[0]);
      }
    }
    RecortarSinBlancos(t);
  }

  /** The sign and digits of a whole number followed by ".0" read as the
      number. */
  lemma LeerNumeroEntero(n: int)
    ensures LeerNumero(IntToString(n) + ".0") == Some(n as real)
    ensures SinSufijo(IntToString(n) + ".0") == IntToString(n) + ".0"
  {
    var m: nat := if n < 0 then -n else n;
    var body := NatToDecimal(m) + ".0";
    assert ParseUnsigned(body) == Some(m as real) by {
      ParseWholeText(m);
    }
    var t := IntToString(n) + ".0";
    if n < 0 {
      assert t == "-" + body;
      assert t[1..] == body;
    } else {
      assert t == body;
      assert IsDigit(body[0]);
    }
  }

  /** Reading a whole-valued `Double` back from its text gives the value. */
  lemma ParseShowWhole(n: int)
    ensures ParseDouble(ShowDouble(n as real)) == Some(n as real)
  {
    var t := IntToString(n) + ".0";
    assert ShowDouble(n as real) == t by {
      ShowWholeDouble(n);
    }
    assert ParseDouble(t) == LeerNumero(t) by {
      RecortarTextoEntero(n);
      LeerNumeroEntero(n);
    }
    LeerNumeroEntero(n);
  }
}

/** The logic of the cart screen: the price text with thousands separated
    by dots, the rule behind the quantity buttons, and what the screen
    shows for a given list of lines. */
module CarritoPantalla {
  import opened Base
  import opened Decimal

  /** `String.reversed()`. */
  function Reverse(s: string): (r: string)
    ensures |r| == |s|
    ensures forall i :: 0 <= i < |s| ==> r[i] == s[|s| - 1 - i]
  {
    if s == [] then [] else Reverse(s[1..]) + [s[0]]
  }

  lemma ReverseConcat(a: string, b: string)
    ensures Reverse(a + b) == Reverse(b) + Reverse(a)
  {
    assert forall i :: 0 <= i < |a + b| ==> Reverse(a + b)[i] == (Reverse(b) + Reverse(a))[i];
  }

  lemma ReverseReverse(s: string)
    ensures Reverse(Reverse(s)) == s
  {
  }

  /** `chunked(3)`: consecutive pieces of three characters, the last one
      possibly shorter; none for the empty string. */
  function Chunked3(s: string): (r: seq<string>)
    ensures s == [] <==> r == []
    ensures forall i :: 0 <= i < |r| ==> 1 <= |r[i]| <= 3
  {
    if |s| <= 3 then (if s == [] then [] else [s]) else [s[..3]] + Chunked3(s[3..])
  }

  /** `joinToString(sep)`. */
  function Join(parts: seq<string>, sep: string): string
  {
    if parts == [] then "" else if |parts| == 1 then parts[0] else parts[0] + sep + Join(parts[1..], sep)
  }

  /** The expression chain of `formatearPrecio` applied to a digit text:
      reverse, cut into threes, join with dots, reverse back. */
  function AgruparMiles(digitos: string): string
  {
    Reverse(Join(Chunked3(Reverse(digitos)), "."))
  }

  /** An independent description of the same text: the last three
      characters are split off behind a dot, again and again, while more
      than three remain. */
  function Agrupado(d: string): (r: string)
    ensures |d| <= 3 ==> r == d
    decreases |d|
  {
    if |d| <= 3 then d else Agrupado(d[..|d| - 3]) + "." + d[|d| - 3..]
  }

  /** Past three digits, the chain in `formatearPrecio` groups all but
      the last three digits and appends a dot and those three. */
  lemma AgruparMilesPaso(d: string)
    requires |d| > 3
    ensures AgruparMiles(d) == AgruparMiles(d[..|d| - 3]) + "." + d[|d| - 3..]
  {
    var p, u := d[..|d| - 3], d[|d| - 3..];
    var ru, rp := Reverse(u), Reverse(p);
    assert Reverse(d) == ru + rp by {
      assert d == p + u;
      ReverseConcat(p, u);
    }
    var resto := Chunked3(rp);
    assert Chunked3(ru + rp) == [ru] + resto by {
      assert (ru + rp)[..3] == ru && (ru + rp)[3..] == rp;
    }
    var j := Join(resto, ".");
    assert Join([ru] + resto, ".") == ru + "." + j by {
      assert ([ru] + resto)[1..] == resto;
    }
    assert Reverse(ru + "." + j) == Reverse(j) + "." + u by {
      ReverseConcat(ru + ".", j);
      ReverseConcat(ru, ".");
      ReverseReverse(u);
    }
  }

  /** The chain in `formatearPrecio` computes exactly `Agrupado`. */
  lemma {:induction false} AgruparMilesEsAgrupado(d: string)
    ensures AgruparMiles(d) == Agrupado(d)
    decreases |d|
  {
    if |d| <= 3 {
      if d != [] {
        assert Chunked3(Reverse(d)) == [Reverse(d)];
      }
      ReverseReverse(d);
    } else {
      AgruparMilesPaso(d);
      AgruparMilesEsAgrupado(d[..|d| - 3]);
    }
  }

  /** The text with its dots removed. */
  function SinPuntos(s: string): (r: string)
  {
    if s == [] then [] else (if s[0] == '.' then [] else [s[0]]) + SinPuntos(s[1..])
  }

  lemma {:induction false} SinPuntosConcat(a: string, b: string)
    ensures SinPuntos(a + b) == SinPuntos(a) + SinPuntos(b)
  {
    if a == [] {
      assert a + b == b;
    } else {
      assert (a + b)[1..] == a[1..] + b;
      SinPuntosConcat(a[1..], b);
    }
  }

  lemma {:induction false} SinPuntosSinPunto(s: string)
    requires '.' !in s
    ensures SinPuntos(s) == s
  {
    if s != [] {
      SinPuntosSinPunto(s[1..]);
      assert s == [s[0]] + s[1..];
    }
  }

  /** Removing the dots of a text, a dot and a dot-free tail. */
  lemma SinPuntosTrasPunto(a: string, u: string)
    requires '.' !in u
    ensures SinPuntos(a + "." + u) == SinPuntos(a) + u
  {
    var b := a + ".";
    assert SinPuntos(b + u) == SinPuntos(b) + SinPuntos(u) by {
      SinPuntosConcat(b, u);
    }
    assert SinPuntos(b) == SinPuntos(a) by {
      SinPuntosConcat(a, ".");
      SinPuntosPunto();
    }
    assert SinPuntos(u) == u by {
      SinPuntosSinPunto(u);
    }
  }

  lemma SinPuntosPunto()
    ensures SinPuntos(".") == []
  {
    assert "."[1..] == [];
  }

  /** Removing the separators gives back the text that was grouped. */
  lemma {:induction false} SinPuntosAgrupado(d: string)
    requires '.' !in d
    ensures SinPuntos(Agrupado(d)) == d
    decreases |d|
  {
    if |d| <= 3 {
      SinPuntosSinPunto(d);
    } else {
      var p, u := d[..|d| - 3], d[|d| - 3..];
      assert '.' !in p && '.' !in u by {
        assert forall c :: c in p ==> c in d;
        assert forall c :: c in u ==> c in d;
      }
      var a := Agrupado(p);
      assert Agrupado(d) == a + "." + u;
      SinPuntosTrasPunto(a, u);
      SinPuntosAgrupado(p);
      assert d == p + u;
    }
  }

  /** A grouped text contains a dot exactly when more than three
      characters were grouped. */
  lemma PuntoEnAgrupado(d: string)
    requires '.' !in d
    ensures '.' in Agrupado(d) <==> |d| > 3
  {
    if |d| > 3 {
      var a := Agrupado(d[..|d| - 3]);
      assert Agrupado(d)[|a|] == '.';
    }
  }

  /** `split(".")`: the pieces between the dots, from left to right. */
  function Separar(s: string): (r: seq<string>)
    ensures |r| >= 1
    ensures forall i :: 0 <= i < |r| ==> '.' !in r[i]
    decreases |s|
  {
    match IndexOf(s, '.')
    case None => [s]
    case Some(i) => [s[..i]] + Separar(s[i + 1..])
  }

  /** Splitting a text with one more dot-free piece at its end. */
  lemma {:induction false} SepararAlFinal(x: string, u: string)
    requires '.' !in u
    ensures Separar(x + "." + u) == Separar(x) + [u]
    decreases |x|
  {
    var s := x + "." + u;
    match IndexOf(x, '.')
    case None =>
      assert s[..|x|] == x && s[|x|] == '.';
      assert IndexOf(s, '.') == Some(|x|);
      assert s[|x| + 1..] == u;
      assert IndexOf(u, '.') == None;
    case Some(i) =>
      assert s[..i] == x[..i] && s[i] == '.';
      assert IndexOf(s, '.') == Some(i);
      assert s[i + 1..] == x[i + 1..] + "." + u;
      SepararAlFinal(x[i + 1..], u);
  }

  /** Groups as thousands separators make them: at least one group, the
      first of one to three characters, every later one of exactly three. */
  predicate GruposDeTres(g: seq<string>)
  {
    |g| >= 1 && 1 <= |g[0]| <= 3 && forall i :: 1 <= i < |g| ==> |g[i]| == 3
  }

  /** The groups of a grouped text: the first has one to three characters,
      every later one exactly three. */
  lemma {:induction false} GruposDeAgrupado(d: string)
    requires '.' !in d && d != []
    ensures GruposDeTres(Separar(Agrupado(d)))
    decreases |d|
  {
    if |d| <= 3 {
      assert IndexOf(d, '.') == None;
    } else {
      var p, u := d[..|d| - 3], d[|d| - 3..];
      assert '.' !in p && '.' !in u by {
        assert forall c :: c in p ==> c in d;
        assert forall c :: c in u ==> c in d;
      }
      GruposDeAgrupado(p);
      var gp := Separar(Agrupado(p));
      assert Agrupado(d) == Agrupado(p) + "." + u;
      SepararAlFinal(Agrupado(p), u);
      var g := gp + [u];
      assert Separar(Agrupado(d)) == g;
      assert g[0] == gp[0];
      forall i | 1 <= i < |g| ensures |g[i]| == 3 {
        if i < |gp| {
          assert g[i] == gp[i];
        } else {
          assert g[i] == u;
        }
      }
    }
  }

  lemma NatSinPunto(m: nat)
    ensures '.' !in NatToDecimal(m)
  {
    var d := NatToDecimal(m);
    forall i | 0 <= i < |d| ensures d[i] != '.' {
      assert IsDigit(d[i]);
    }
  }

  lemma DecimalSinPunto(n: int)
    ensures '.' !in IntToString(n)
  {
    var d := NatToDecimal(if n < 0 then -n else n);
    NatSinPunto(if n < 0 then -n else n);
    if n < 0 {
      assert IntToString(n) == "-" + d;
    } else {
      assert IntToString(n) == d;
    }
  }

  /** What follows a prefix in front of a grouped text is `Agrupado`. */
  lemma TrasPrefijo(pre: string, d: string)
    ensures (pre + AgruparMiles(d))[|pre|..] == Agrupado(d)
  {
    AgruparMilesEsAgrupado(d);
    assert (pre + AgruparMiles(d))[|pre|..] == AgruparMiles(d);
  }

  /** `formatearPrecio`: "$$" and then the truncated price, grouped. The
      template writes two literal dollar signs before the value. */
  function FormatearPrecio(precio: real): (r: string)
    ensures |r| >= 2 && r[..2] == "$$"
  {
    "$$" + AgruparMiles(IntToString(DoubleToInt(precio)))
  }

  /** Deleting the dots after the prefix gives `Int.toString()` of the
      truncated price, for every price. */
  lemma FormatearPrecioDigitos(precio: real)
    ensures SinPuntos(FormatearPrecio(precio)[2..]) == IntToString(DoubleToInt(precio))
  {
    var d := IntToString(DoubleToInt(precio));
    DecimalSinPunto(DoubleToInt(precio));
    TrasPrefijo("$$", d);
    SinPuntosAgrupado(d);
  }

  /** For a non-negative price the digits are grouped in threes from the
      right: the leading group has one to three digits, every other group
      exactly three. */
  lemma FormatearPrecioGrupos(precio: real)
    requires precio >= 0.0
    ensures GruposDeTres(Separar(FormatearPrecio(precio)[2..]))
  {
    var d := IntToString(DoubleToInt(precio));
    DecimalSinPunto(DoubleToInt(precio));
    TrasPrefijo("$$", d);
    GruposDeAgrupado(d);
  }

  /** For a non-negative price a separator appears exactly when the
      truncated value reaches 1000; 0..999 are written without one. */
  lemma FormatearPrecioSeparador(precio: real)
    requires precio >= 0.0
    ensures '.' in FormatearPrecio(precio)[2..] <==> DoubleToInt(precio) >= 1000
  {
    var n := DoubleToInt(precio);
    var d := IntToString(n);
    DecimalSinPunto(n);
    TrasPrefijo("$$", d);
    PuntoEnAgrupado(d);
    NatToDecimalLength(n, 3);
    assert Pow10(3) == 1000;
  }

  /** As written, the minus sign takes part in the grouping: a negative
      value whose digit count is a multiple of three gets a separator right
      after the sign. */
  lemma FormatearPrecioNegativo()
    ensures FormatearPrecio(-123.0) == "$$-.123"
  {
    assert DoubleToInt(-123.0) == -123;
    assert NatToDecimal(123) == "123" by {
      assert NatToDecimal(12) == "12" by {
        assert NatToDecimal(1) == "1";
      }
    }
    assert IntToString(-123) == "-123";
    AgruparMilesEsAgrupado("-123");
    assert "-123"[..1] == "-" && "-123"[1..] == "123";
  }

  function Abs(n: int): nat
  {
    if n < 0 then -n else n
  }

  /** The price text with the sign kept outside the grouping. */
  function FormatearPrecioConSigno(precio: real): (r: string)
    ensures |r| >= 2 && r[..2] == "$$"
  {
    var n := DoubleToInt(precio);
    (if n < 0 then "$$-" else "$$") + AgruparMiles(NatToDecimal(Abs(n)))
  }

  /** With the sign outside, every value is grouped in threes from the
      right after the prefix and the sign, and the dots removed give the
      digits of the absolute value. */
  lemma FormatearPrecioConSignoGrupos(precio: real)
    ensures var n := DoubleToInt(precio);
      var r := FormatearPrecioConSigno(precio);
      var k := if n < 0 then 3 else 2;
      |r| >= k && SinPuntos(r[k..]) == NatToDecimal(Abs(n)) && GruposDeTres(Separar(r[k..]))
  {
    var n := DoubleToInt(precio);
    var d := NatToDecimal(Abs(n));
    NatSinPunto(Abs(n));
    SinPuntosAgrupado(d);
    GruposDeAgrupado(d);
    TrasPrefijo(if n < 0 then "$$-" else "$$", d);
  }

  /** For non-negative prices the corrected text is the text as written. */
  lemma FormatearPrecioConSignoCoincide(precio: real)
    requires precio >= 0.0
    ensures FormatearPrecioConSigno(precio) == FormatearPrecio(precio)
  {
    var n := DoubleToInt(precio);
    assert n >= 0;
    assert IntToString(n) == NatToDecimal(n);
  }

  /** The "-" control: it requests one less only above 1 (it is disabled
      at 1), so it never asks for a quantity below 1. */
  function CantidadAlDisminuir(cantidad: int): (r: Option<int>)
    ensures r.Some? <==> cantidad > 1
    ensures r.Some? ==> r.value == cantidad - 1 && r.value >= 1
  {
    if cantidad > 1 then Some(cantidad - 1) else None
  }

  /** The "+" control always requests one more, in Kotlin `Int`
      arithmetic. */
  function CantidadAlAumentar(cantidad: int): (r: int)
    requires INT_MIN <= cantidad <= INT_MAX
    ensures cantidad < INT_MAX ==> r == cantidad + 1
    ensures cantidad == INT_MAX ==> r == INT_MIN
  {
    Wrap32(cantidad + 1)
  }

  /** Pressing "-" after "+" gives back a quantity of at least 1. */
  lemma AumentarLuegoDisminuir(cantidad: int)
    requires 1 <= cantidad < INT_MAX
    ensures CantidadAlDisminuir(CantidadAlAumentar(cantidad)) == Some(cantidad)
  {
  }

  /** What the cart screen shows for its list of lines. */
  datatype Vista = Vista(titulo: string, botonVaciar: bool, barraTotal: bool)

  function VistaCarrito<T>(items: seq<T>): (v: Vista)
    ensures v.botonVaciar <==> items != []
    ensures v.barraTotal <==> items != []
    ensures v.titulo == "Mi Carrito (" + NatToDecimal(|items|) + ")"
  {
    Vista("Mi Carrito (" + NatToDecimal(|items|) + ")", |items| > 0, |items| > 0)
  }

  /** Texts that differ only in their middle part are different. */
  lemma MismoMarco(p: string, x: string, y: string, q: string)
    ensures p + x + q == p + y + q ==> x == y
  {
    if p + x + q == p + y + q {
      assert |x| == |y|;
      assert x == (p + x + q)[|p|..|p| + |x|];
      assert y == (p + y + q)[|p|..|p| + |y|];
    }
  }

  /** The title tells carts of different sizes apart. */
  lemma TituloDistingueTamanos<T>(a: seq<T>, b: seq<T>)
    requires |a| != |b|
    ensures VistaCarrito(a).titulo != VistaCarrito(b).titulo
  {
    NatToDecimalInjective(|a|, |b|);
    MismoMarco("Mi Carrito (", NatToDecimal(|a|), NatToDecimal(|b|), ")");
  }
}

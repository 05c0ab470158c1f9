/** The navigation routes: the screen names and the two builders that put
    a product id into a route. */
module Rutas {
  import opened Decimal

  const PORTADA: string := "portada"
  const HOME: string := "home"
  const DETALLE: string := "detalle"
  const CARRITO: string := "carrito"
  const REGISTRO: string := "registro"
  const LOGIN_ADMIN: string := "login_admin"
  const PANEL_ADMIN: string := "panel_admin"
  const FORMULARIO_PRODUCTO: string := "formulario_producto?productoId={productoId}"

  /** The placeholder the form route declares for its argument. */
  const MARCADOR: string := "{productoId}"

  /** The route the admin panel opens to add a product. */
  const AGREGAR_PRODUCTO: string := "formulario_producto?productoId=-1"

  /** Every route constant, in declaration order. */
  const TODAS: seq<string> :=
    [PORTADA, HOME, DETALLE, CARRITO, REGISTRO, LOGIN_ADMIN, PANEL_ADMIN, FORMULARIO_PRODUCTO]

  /** No two screens share a route. */
  lemma RutasDistintas()
    ensures |TODAS| == 8
    ensures forall i, j :: 0 <= i < j < |TODAS| ==> TODAS[i] != TODAS[j]
  {
  }

  /** `detalleConId`. It is the route the navigation graph builds by hand
      from `DETALLE`, a slash and the id. */
  function DetalleConId(id: int): (r: string)
    ensures r == DETALLE + "/" + IntToString(id)
  {
    "detalle/" + IntToString(id)
  }

  /** `formularioEditar`. */
  function FormularioEditar(id: int): (r: string)
  {
    "formulario_producto?productoId=" + IntToString(id)
  }

  /** `String.replace(marcador, valor)`: every occurrence of `marcador`,
      read from left to right, replaced by `valor`. */
  function Sustituir(s: string, marcador: string, valor: string): (r: string)
    requires marcador != []
    decreases |s|
  {
    if |s| < |marcador| then s
    else if s[..|marcador|] == marcador then valor + Sustituir(s[|marcador|..], marcador, valor)
    else [s[0]] + Sustituir(s[1..], marcador, valor)
  }

  /** Text before the first '{' is copied as it is. */
  lemma {:induction false} SustituirTrasTextoFijo(x: string, marcador: string, y: string, valor: string)
    requires marcador != [] && marcador[0] == '{' && '{' !in x
    ensures Sustituir(x + marcador + y, marcador, valor) == x + valor + Sustituir(y, marcador, valor)
    decreases |x|
  {
    var s := x + marcador + y;
    var m := |marcador|;
    if x == [] {
      assert s == marcador + y;
      assert s[..m] == marcador && s[m..] == y;
    } else {
      var t := x[1..] + marcador + y;
      assert Sustituir(s, marcador, valor) == [x[0]] + Sustituir(t, marcador, valor) by {
        assert s[0] == x[0] && x[0] in x;
        assert s[..m][0] == s[0];
        assert s[1..] == t;
      }
      assert '{' !in x[1..] by {
        assert forall c :: c in x[1..] ==> c in x;
      }
      SustituirTrasTextoFijo(x[1..], marcador, y, valor);
      assert x == [x[0]] + x[1..];
    }
  }

  /** `formularioEditar(id)` is the declared form route with its
      placeholder replaced by the id. */
  lemma FormularioEditarSustituye(id: int)
    ensures FormularioEditar(id) == Sustituir(FORMULARIO_PRODUCTO, MARCADOR, IntToString(id))
  {
    var pre := "formulario_producto?productoId=";
    assert FORMULARIO_PRODUCTO == pre + MARCADOR + "";
    SustituirTrasTextoFijo(pre, MARCADOR, "", IntToString(id));
    assert pre + IntToString(id) + "" == FormularioEditar(id);
  }

  /** The add route is the edit route for id -1. */
  lemma AgregarEsEditarMenosUno()
    ensures AGREGAR_PRODUCTO == FormularioEditar(-1)
  {
    assert NatToDecimal(1) == "1";
    assert IntToString(-1) == "-1";
  }

  /** The same fixed text followed by different ids gives different routes. */
  lemma PrefijoMasIdInyectivo(pre: string, a: int, b: int)
    ensures pre + IntToString(a) == pre + IntToString(b) ==> a == b
  {
    IntToStringInjective(a, b);
    if pre + IntToString(a) == pre + IntToString(b) {
      assert IntToString(a) == (pre + IntToString(a))[|pre|..];
      assert IntToString(b) == (pre + IntToString(b))[|pre|..];
    }
  }

  /** Different products get different detail routes and different form
      routes. */
  lemma RutasConIdInyectivas(a: int, b: int)
    requires a != b
    ensures DetalleConId(a) != DetalleConId(b)
    ensures FormularioEditar(a) != FormularioEditar(b)
  {
    PrefijoMasIdInyectivo("detalle/", a, b);
    PrefijoMasIdInyectivo("formulario_producto?productoId=", a, b);
  }

  /** A detail route is never one of the fixed routes. */
  lemma DetalleNoEsFija(id: int)
    ensures DetalleConId(id) !in TODAS
  {
    var r := DetalleConId(id);
    assert r[7] == '/';
    assert |r| > 8;
  }
}

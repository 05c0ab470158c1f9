/** The logic of the admin panel: the four statistics cards computed from
    the product list, and the delete confirmation, whose state is the
    product waiting for confirmation. */
module AdminPanel {
  import opened Base
  import opened Decimal
  import opened Entidades

  /** The exact sum of the stocks. */
  function SumaStock(ps: seq<Producto>): (s: int)
    ensures (forall i :: 0 <= i < |ps| ==> ps[i].stock >= 0) ==> s >= 0
  {
    if ps == [] then 0 else SumaStock(ps[..|ps| - 1]) + ps[|ps| - 1].stock
  }

  /** `sumOf { it.stock }` on Kotlin `Int`: left to right, every addition
      wrapping around. */
  function SumaStockInt(ps: seq<Producto>): (s: int)
    ensures INT_MIN <= s <= INT_MAX
  {
    if ps == [] then 0 else Wrap32(SumaStockInt(ps[..|ps| - 1]) + ps[|ps| - 1].stock)
  }

  /** Two integers that differ by a multiple of 2^32 wrap to the same `Int`. */
  lemma WrapCongruente(x: int, y: int)
    requires (x - y) % 0x1_0000_0000 == 0
    ensures Wrap32(x) == Wrap32(y)
  {
    var k := (x - y) / 0x1_0000_0000;
    assert x == y + k * 0x1_0000_0000;
    var a, b := Wrap32(x), Wrap32(y);
    assert (a - b) % 0x1_0000_0000 == 0 by {
      var ka := (a - x) / 0x1_0000_0000;
      var kb := (b - y) / 0x1_0000_0000;
      assert a - b == (ka - kb + k) * 0x1_0000_0000;
    }
  }

  /** Wrapping after every addition gives the wrapped exact sum. */
  lemma {:induction false} SumaStockIntEsEnvuelta(ps: seq<Producto>)
    ensures SumaStockInt(ps) == Wrap32(SumaStock(ps))
  {
    if ps != [] {
      var pre, ult := ps[..|ps| - 1], ps[|ps| - 1].stock;
      SumaStockIntEsEnvuelta(pre);
      var w := Wrap32(SumaStock(pre));
      var k := (w - SumaStock(pre)) / 0x1_0000_0000;
      assert w + ult - (SumaStock(pre) + ult) == k * 0x1_0000_0000;
      WrapCongruente(w + ult, SumaStock(pre) + ult);
    }
  }

  /** "Stock Total" is the sum of the stocks, and not negative, whenever
      every stock is not negative and the sum fits in an `Int`. */
  lemma StockTotalExacto(ps: seq<Producto>)
    requires forall i :: 0 <= i < |ps| ==> ps[i].stock >= 0
    requires SumaStock(ps) <= INT_MAX
    ensures SumaStockInt(ps) == SumaStock(ps) >= 0
  {
    SumaStockIntEsEnvuelta(ps);
  }

  /** `sumOf { it.precio * it.stock }`: the value of the inventory. */
  function SumaValor(ps: seq<Producto>): (v: real)
    ensures (forall i :: 0 <= i < |ps| ==> ps[i].precio >= 0.0 && ps[i].stock >= 0) ==> v >= 0.0
  {
    if ps == [] then 0.0
    else
      var pre, ult := ps[..|ps| - 1], ps[|ps| - 1];
      assert ult.precio >= 0.0 && ult.stock >= 0 ==> ult.precio * ult.stock as real >= 0.0;
      SumaValor(pre) + ult.precio * ult.stock as real
  }

  /** `distinct()`: each value once, at the place it first appears. */
  function Distintas(cs: seq<string>): (r: seq<string>)
    ensures forall c :: c in r <==> c in cs
    ensures forall i, j :: 0 <= i < j < |r| ==> r[i] != r[j]
    ensures |r| <= |cs|
  {
    if cs == [] then []
    else
      var r := Distintas(cs[..|cs| - 1]);
      if cs[|cs| - 1] in r then r else r + [cs[|cs| - 1]]
  }

  /** A list without repeats has as many elements as its set. */
  lemma {:induction false} SinRepetidosCardinal(r: seq<string>)
    requires forall i, j :: 0 <= i < j < |r| ==> r[i] != r[j]
    ensures |set c | c in r| == |r|
  {
    if r != [] {
      var pre := r[..|r| - 1];
      SinRepetidosCardinal(pre);
      assert (set c | c in r) == (set c | c in pre) + {r[|r| - 1]} by {
        assert r == pre + [r[|r| - 1]];
      }
      assert r[|r| - 1] !in pre;
    }
  }

  /** The categories of the products, in list order. */
  function CategoriasDe(ps: seq<Producto>): (cs: seq<string>)
    ensures |cs| == |ps|
    ensures forall i :: 0 <= i < |ps| ==> cs[i] == ps[i].categoria
  {
    if ps == [] then [] else CategoriasDe(ps[..|ps| - 1]) + [ps[|ps| - 1].categoria]
  }

  /** The four cards' numbers. */
  datatype Estadisticas = Estadisticas(
    totalProductos: int,
    stockTotal: int,
    valorInventario: int,
    categorias: int)

  /** `EstadisticasPanel`. */
  function EstadisticasDe(ps: seq<Producto>): (e: Estadisticas)
    ensures e.totalProductos == |ps|
    ensures e.stockTotal == Wrap32(SumaStock(ps))
    ensures e.valorInventario == DoubleToInt(SumaValor(ps))
    ensures e.categorias == |set i | 0 <= i < |ps| :: ps[i].categoria|
  {
    var cs := CategoriasDe(ps);
    var d := Distintas(cs);
    SumaStockIntEsEnvuelta(ps);
    SinRepetidosCardinal(d);
    assert (set c | c in d) == (set i | 0 <= i < |ps| :: ps[i].categoria) by {
      forall c | c in d ensures c in (set i | 0 <= i < |ps| :: ps[i].categoria) {
        var i :| 0 <= i < |cs| && cs[i] == c;
      }
    }
    Estadisticas(|ps|, SumaStockInt(ps), DoubleToInt(SumaValor(ps)), |d|)
  }

  /** The category count is at most the product count, and at least 1 as
      soon as there is a product. */
  lemma CategoriasAcotadas(ps: seq<Producto>)
    ensures var n := EstadisticasDe(ps).categorias;
      n <= |ps| && (ps != [] ==> n >= 1)
  {
    var cs := CategoriasDe(ps);
    var d := Distintas(cs);
    SinRepetidosCardinal(d);
    if ps != [] {
      assert cs[0] in d;
    }
  }

  /** With non-negative prices and stocks and a value that fits in an
      `Int`, "Valor Inventario" is the value rounded down. */
  lemma ValorInventarioTruncado(ps: seq<Producto>)
    requires forall i :: 0 <= i < |ps| ==> ps[i].precio >= 0.0 && ps[i].stock >= 0
    requires SumaValor(ps) <= INT_MAX as real
    ensures var v := EstadisticasDe(ps).valorInventario;
      0 <= v && v as real <= SumaValor(ps) < v as real + 1.0
  {
  }

  /** The card texts: the numbers in decimal; the value has one "$" in
      front, since the template's first "$" is a literal. */
  function Textos(e: Estadisticas): (t: seq<(string, string)>)
    ensures |t| == 4
    ensures t[2].1 == "$" + IntToString(e.valorInventario)
  {
    [("Total Productos", IntToString(e.totalProductos)),
     ("Stock Total", IntToString(e.stockTotal)),
     ("Valor Inventario", "$" + IntToString(e.valorInventario)),
     ("Categorías", IntToString(e.categorias))]
  }

  /** What the user can do around the delete dialog. */
  datatype Evento =
    | TocarEliminar(producto: Producto)   // the delete icon of a card
    | Confirmar                           // "Eliminar" in the dialog
    | Cancelar                            // "Cancelar" in the dialog
    | Descartar                           // tapping outside the dialog

  /** The product waiting for confirmation (`mostrarDialogoEliminar`) and
      the products passed to `onEliminarProducto`, in order. */
  datatype Dialogo = Dialogo(pendiente: Option<Producto>, eliminados: seq<Producto>)

  /** One event. The dialog's buttons exist only while a product is
      pending, so they do nothing otherwise. */
  function Paso(d: Dialogo, ev: Evento): (r: Dialogo)
    ensures ev.TocarEliminar? ==> r == d.(pendiente := Some(ev.producto))
    ensures !ev.TocarEliminar? ==> r.pendiente == None
    ensures ev.Confirmar? && d.pendiente.Some? ==> r.eliminados == d.eliminados + [d.pendiente.value]
    ensures !(ev.Confirmar? && d.pendiente.Some?) ==> r.eliminados == d.eliminados
  {
    match ev
    case TocarEliminar(p) => d.(pendiente := Some(p))
    case Confirmar =>
      if d.pendiente.Some? then Dialogo(None, d.eliminados + [d.pendiente.value]) else d
    case Cancelar => d.(pendiente := None)
    case Descartar => d.(pendiente := None)
  }

  /** A sequence of events, from left to right. */
  function Ejecutar(d: Dialogo, evs: seq<Evento>): (r: Dialogo)
    decreases |evs|
  {
    if evs == [] then d else Ejecutar(Paso(d, evs[0]), evs[1..])
  }

  /** Whatever the user does, the deletions are only ever appended, and
      every product deleted was first chosen with a card's delete icon
      (or was already pending). */
  lemma {:induction false} SoloSeEliminaLoElegido(d: Dialogo, evs: seq<Evento>)
    ensures var r := Ejecutar(d, evs);
      |r.eliminados| >= |d.eliminados| && r.eliminados[..|d.eliminados|] == d.eliminados &&
      forall j :: |d.eliminados| <= j < |r.eliminados| ==>
        Some(r.eliminados[j]) == d.pendiente || TocarEliminar(r.eliminados[j]) in evs
    decreases |evs|
  {
    if evs != [] {
      var d1 := Paso(d, evs[0]);
      SoloSeEliminaLoElegido(d1, evs[1..]);
      var r := Ejecutar(d, evs);
      assert r == Ejecutar(d1, evs[1..]);
      forall j | |d.eliminados| <= j < |r.eliminados|
        ensures Some(r.eliminados[j]) == d.pendiente || TocarEliminar(r.eliminados[j]) in evs
      {
        if j < |d1.eliminados| {
          assert r.eliminados[j] == d1.eliminados[j];
        } else {
          assert TocarEliminar(r.eliminados[j]) in evs[1..] || Some(r.eliminados[j]) == d1.pendiente;
          if Some(r.eliminados[j]) == d1.pendiente && evs[0].TocarEliminar? {
            assert evs[0] == TocarEliminar(r.eliminados[j]);
          }
        }
      }
    }
  }

  /** Without a confirmation nothing is deleted. */
  lemma {:induction false} SinConfirmarNoSeElimina(d: Dialogo, evs: seq<Evento>)
    requires Confirmar !in evs
    ensures Ejecutar(d, evs).eliminados == d.eliminados
    decreases |evs|
  {
    if evs != [] {
      assert Confirmar !in evs[1..];
      SinConfirmarNoSeElimina(Paso(d, evs[0]), evs[1..]);
    }
  }

  /** Confirming right after choosing a product deletes exactly that
      product, once. */
  lemma ElegirYConfirmar(d: Dialogo, p: Producto)
    ensures Ejecutar(d, [TocarEliminar(p), Confirmar]) == Dialogo(None, d.eliminados + [p])
  {
    var evs := [TocarEliminar(p), Confirmar];
    var d1 := Paso(d, evs[0]);
    assert evs[1..] == [Confirmar] && [Confirmar][1..] == [];
    assert Ejecutar(d1, [Confirmar]) == Paso(d1, Confirmar);
  }

  /** The panel's dialog state, updated by the buttons. */
  class PanelAdmin {
    var pendiente: Option<Producto>
    var eliminados: seq<Producto>

    function Estado(): Dialogo
      reads this
    {
      Dialogo(pendiente, eliminados)
    }

    constructor ()
      ensures Estado() == Dialogo(None, [])
    {
      pendiente := None;
      eliminados := [];
    }

    /** The delete icon of a card. */
    method TocarEliminar(p: Producto)
      modifies this
      ensures Estado() == Paso(old(Estado()), Evento.TocarEliminar(p))
    {
      pendiente := Some(p);
    }

    /** The confirm button: report the pending product, then close. */
    method Confirmar()
      modifies this
      ensures Estado() == Paso(old(Estado()), Evento.Confirmar)
    {
      if pendiente.Some? {
        eliminados := eliminados + [pendiente.value];
        pendiente := None;
      }
    }

    /** The cancel button. */
    method Cancelar()
      modifies this
      ensures Estado() == Paso(old(Estado()), Evento.Cancelar)
    {
      pendiente := None;
    }

    /** Dismissing the dialog. */
    method Descartar()
      modifies this
      ensures Estado() == Paso(old(Estado()), Evento.Descartar)
    {
      pendiente := None;
    }
  }
}

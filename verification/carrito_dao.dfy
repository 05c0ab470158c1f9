/** The `carrito` table and the Room DAO over it.

    Each cart line has its own AUTOINCREMENT row id; `productoId` is an
    ordinary column, so the table itself accepts several lines for the same
    product. Inserts bind `nullif(id, 0)` and use `INSERT OR ABORT`: an id
    already present makes the statement fail and leaves the table as it
    was. A query without `ORDER BY` walks the table in row id order, so the
    rows are kept as a sequence ordered by id. */
module CarritoDaoImpl {
  import opened Base
  import opened Entidades

  /** The table's contents in row id order, and the AUTOINCREMENT counter. */
  datatype TablaCarrito = TablaCarrito(filas: seq<CarritoEntity>, secuencia: int)

  /** Row ids strictly increase along the sequence. */
  predicate IdsCrecientes(filas: seq<CarritoEntity>)
  {
    forall i, j :: 0 <= i < j < |filas| ==> filas[i].id < filas[j].id
  }

  /** Row ids are increasing, never 0 (`nullif` turns 0 into a fresh id)
      and never above the counter. */
  predicate Valida(t: TablaCarrito)
  {
    t.secuencia >= 0 &&
    IdsCrecientes(t.filas) &&
    forall i :: 0 <= i < |t.filas| ==> t.filas[i].id != 0 && t.filas[i].id <= t.secuencia
  }

  /** Whether some row has row id `id`. */
  predicate TieneId(filas: seq<CarritoEntity>, id: int)
  {
    exists i :: 0 <= i < |filas| && filas[i].id == id
  }

  /** How many cart lines refer to product `p`. */
  function Cuenta(filas: seq<CarritoEntity>, p: int): (n: nat)
    ensures n <= |filas|
    ensures n == 0 <==> forall i :: 0 <= i < |filas| ==> filas[i].productoId != p
  {
    if filas == [] then 0
    else (if filas[0].productoId == p then 1 else 0) + Cuenta(filas[1..], p)
  }

  /** What one line adds to the total: `precio * cantidad`. */
  function Importe(f: CarritoEntity): real
  {
    f.precio * f.cantidad as real
  }

  /** `SUM(precio * cantidad)` over the given rows. */
  function Suma(filas: seq<CarritoEntity>): real
  {
    if filas == [] then 0.0 else Importe(filas[0]) + Suma(filas[1..])
  }

  /** A row put at its place in row id order. */
  function InsertarPorId(filas: seq<CarritoEntity>, e: CarritoEntity): (r: seq<CarritoEntity>)
    requires IdsCrecientes(filas) && !TieneId(filas, e.id)
    ensures |r| == |filas| + 1
    ensures forall x :: x in r <==> x in filas || x == e
    ensures IdsCrecientes(r)
  {
    if filas == [] || e.id < filas[0].id then [e] + filas
    else
      assert !TieneId(filas[1..], e.id) by {
        forall i | 0 <= i < |filas[1..]| ensures filas[1..][i].id != e.id {
          assert filas[1..][i] == filas[i + 1];
        }
      }
      var resto := InsertarPorId(filas[1..], e);
      assert forall x :: x in filas <==> x == filas[0] || x in filas[1..];
      assert forall x :: x in resto ==> filas[0].id < x.id by {
        forall x | x in resto ensures filas[0].id < x.id {
          if x != e {
            var i :| 0 <= i < |filas[1..]| && filas[1..][i] == x;
            assert filas[i + 1] == x;
          }
        }
      }
      [filas[0]] + resto
  }

  /** A new line adds one to its product's count and nothing to the
      others'. */
  lemma {:induction false} CuentaInsertarPorId(filas: seq<CarritoEntity>, e: CarritoEntity, p: int)
    requires IdsCrecientes(filas) && !TieneId(filas, e.id)
    ensures Cuenta(InsertarPorId(filas, e), p) == Cuenta(filas, p) + (if e.productoId == p then 1 else 0)
  {
    if filas == [] || e.id < filas[0].id {
      CuentaCons(e, filas);
    } else {
      var resto := filas[1..];
      assert !TieneId(resto, e.id) by {
        forall i | 0 <= i < |resto| ensures resto[i].id != e.id {
          assert resto[i] == filas[i + 1];
        }
      }
      CuentaInsertarPorId(resto, e, p);
      CuentaCons(filas[0], InsertarPorId(resto, e));
      CuentaCons(filas[0], resto);
      assert [filas[0]] + resto == filas;
    }
  }

  /** A new line adds its `precio * cantidad` to the total. */
  lemma {:induction false} SumaInsertarPorId(filas: seq<CarritoEntity>, e: CarritoEntity)
    requires IdsCrecientes(filas) && !TieneId(filas, e.id)
    ensures Suma(InsertarPorId(filas, e)) == Suma(filas) + Importe(e)
  {
    if filas == [] || e.id < filas[0].id {
      SumaCons(e, filas);
    } else {
      var resto := filas[1..];
      assert !TieneId(resto, e.id) by {
        forall i | 0 <= i < |resto| ensures resto[i].id != e.id {
          assert resto[i] == filas[i + 1];
        }
      }
      SumaInsertarPorId(resto, e);
      SumaCons(filas[0], InsertarPorId(resto, e));
      SumaCons(filas[0], resto);
      assert [filas[0]] + resto == filas;
    }
  }

  lemma SumaCons(f: CarritoEntity, filas: seq<CarritoEntity>)
    ensures Suma([f] + filas) == Importe(f) + Suma(filas)
  {
    assert ([f] + filas)[1..] == filas;
  }

  lemma CuentaCons(f: CarritoEntity, filas: seq<CarritoEntity>)
    ensures forall p :: Cuenta([f] + filas, p) == (if f.productoId == p then 1 else 0) + Cuenta(filas, p)
  {
    assert ([f] + filas)[1..] == filas;
  }

  /** The outcome of `insertar`. `Abortada` stands for the
      `SQLiteConstraintException` that a duplicate row id makes `insertar`
      throw to its caller. `insertar` itself returns `Unit`: the id in
      `Insertada` is added by this model so that contracts can name the
      line's id. */
  datatype Insercion = Insertada(id: int) | Abortada

  /** `INSERT OR ABORT ... VALUES (nullif(?, 0), ...)`. */
  function InsertarFila(t: TablaCarrito, e: CarritoEntity): (r: (TablaCarrito, Insercion))
    requires Valida(t)
    ensures Valida(r.0)
    ensures r.1.Abortada? <==> e.id != 0 && TieneId(t.filas, e.id)
    ensures r.1.Abortada? ==> r.0 == t
    ensures r.1.Insertada? && e.id != 0 ==> r.1.id == e.id
    ensures r.1.Insertada? && e.id == 0 ==> forall i :: 0 <= i < |t.filas| ==> t.filas[i].id < r.1.id
    ensures r.1.Insertada? ==>
      !TieneId(t.filas, r.1.id) && r.0.filas == InsertarPorId(t.filas, e.(id := r.1.id))
  {
    if e.id != 0 && TieneId(t.filas, e.id) then (t, Abortada)
    else
      var id := if e.id == 0 then t.secuencia + 1 else e.id;
      var filas := InsertarPorId(t.filas, e.(id := id));
      assert forall i :: 0 <= i < |filas| ==> filas[i].id != 0 && filas[i].id <= (if id > t.secuencia then id else t.secuencia) by {
        forall i | 0 <= i < |filas|
          ensures filas[i].id != 0 && filas[i].id <= (if id > t.secuencia then id else t.secuencia)
        {
          assert filas[i] in filas;
        }
      }
      (TablaCarrito(filas, if id > t.secuencia then id else t.secuencia), Insertada(id))
  }

  /** Nothing in the table keeps two lines for one product apart: adding the
      same product twice with automatic ids leaves two more lines for it. */
  lemma DosLineasMismoProducto(t: TablaCarrito, e1: CarritoEntity, e2: CarritoEntity)
    requires Valida(t) && e1.id == 0 && e2.id == 0 && e1.productoId == e2.productoId
    ensures InsertarFila(t, e1).1.Insertada?
    ensures InsertarFila(InsertarFila(t, e1).0, e2).1.Insertada?
    ensures Cuenta(InsertarFila(InsertarFila(t, e1).0, e2).0.filas, e1.productoId) == Cuenta(t.filas, e1.productoId) + 2
  {
    var (t1, r1) := InsertarFila(t, e1);
    CuentaInsertarPorId(t.filas, e1.(id := r1.id), e1.productoId);
    var (t2, r2) := InsertarFila(t1, e2);
    CuentaInsertarPorId(t1.filas, e2.(id := r2.id), e1.productoId);
  }

  /** `UPDATE carrito SET cantidad = ? WHERE productoId = ?`. */
  function ConCantidad(filas: seq<CarritoEntity>, p: int, c: int): (r: seq<CarritoEntity>)
    ensures |r| == |filas|
    ensures forall i :: 0 <= i < |filas| ==>
      r[i] == if filas[i].productoId == p then filas[i].(cantidad := c) else filas[i]
  {
    if filas == [] then [] else
      [if filas[0].productoId == p then filas[0].(cantidad := c) else filas[0]] + ConCantidad(filas[1..], p, c)
  }

  /** Changing a quantity keeps row ids, and every line of the product then
      has the new quantity. */
  lemma ConCantidadConservaIds(t: TablaCarrito, p: int, c: int)
    requires Valida(t)
    ensures Valida(t.(filas := ConCantidad(t.filas, p, c)))
    ensures forall x :: x in ConCantidad(t.filas, p, c) && x.productoId == p ==> x.cantidad == c
    ensures forall q :: Cuenta(ConCantidad(t.filas, p, c), q) == Cuenta(t.filas, q)
  {
    var r := ConCantidad(t.filas, p, c);
    forall q ensures Cuenta(r, q) == Cuenta(t.filas, q) {
      CuentaConCantidad(t.filas, p, c, q);
    }
  }

  lemma {:induction false} CuentaConCantidad(filas: seq<CarritoEntity>, p: int, c: int, q: int)
    ensures Cuenta(ConCantidad(filas, p, c), q) == Cuenta(filas, q)
  {
    if filas != [] {
      var r := ConCantidad(filas, p, c);
      assert r[1..] == ConCantidad(filas[1..], p, c);
      CuentaConCantidad(filas[1..], p, c, q);
    }
  }

  /** `DELETE FROM carrito WHERE productoId = ?`: exactly the lines of that
      product go, every other line stays, in the same order. */
  function SinProducto(filas: seq<CarritoEntity>, p: int): (r: seq<CarritoEntity>)
    ensures forall x :: x in r <==> x in filas && x.productoId != p
    ensures IdsCrecientes(filas) ==> IdsCrecientes(r)
  {
    if filas == [] then []
    else
      var resto := SinProducto(filas[1..], p);
      assert forall x :: x in filas <==> x == filas[0] || x in filas[1..];
      if filas[0].productoId == p then resto
      else
        assert ([filas[0]] + resto)[1..] == resto;
        assert IdsCrecientes(filas) ==> forall x :: x in resto ==> filas[0].id < x.id by {
          if IdsCrecientes(filas) {
            forall x | x in resto ensures filas[0].id < x.id {
              var i :| 0 <= i < |filas[1..]| && filas[1..][i] == x;
              assert filas[i + 1] == x;
            }
          }
        }
        [filas[0]] + resto
  }

  /** After the delete the product has no lines left, and every other
      product keeps all of its lines. */
  lemma {:induction false} CuentaSinProducto(filas: seq<CarritoEntity>, p: int, q: int)
    ensures Cuenta(SinProducto(filas, p), q) == if q == p then 0 else Cuenta(filas, q)
  {
    if filas != [] {
      var f := filas[0];
      var resto := SinProducto(filas[1..], p);
      CuentaSinProducto(filas[1..], p, q);
      assert Cuenta(filas, q) == (if f.productoId == q then 1 else 0) + Cuenta(filas[1..], q);
      if f.productoId == p {
        assert SinProducto(filas, p) == resto;
      } else {
        assert SinProducto(filas, p) == [f] + resto;
        assert ([f] + resto)[1..] == resto;
        assert Cuenta([f] + resto, q) == (if f.productoId == q then 1 else 0) + Cuenta(resto, q);
      }
    }
  }

  /** The total of the table after removing a product's lines falls by
      exactly what those lines added. */
  lemma {:induction false} SumaSinProducto(filas: seq<CarritoEntity>, p: int)
    ensures Suma(filas) == Suma(SinProducto(filas, p)) + Suma(DeProducto(filas, p))
  {
    if filas != [] {
      var f := filas[0];
      var sin := SinProducto(filas[1..], p);
      var de := DeProducto(filas[1..], p);
      SumaSinProducto(filas[1..], p);
      assert Suma(filas) == Importe(f) + Suma(sin) + Suma(de);
      if f.productoId == p {
        assert SinProducto(filas, p) == sin;
        SumaCons(f, de);
        assert DeProducto(filas, p) == [f] + de;
      } else {
        SumaCons(f, sin);
        assert SinProducto(filas, p) == [f] + sin;
        assert DeProducto(filas, p) == de;
      }
    }
  }

  /** The lines of product `p`, in table order. */
  function DeProducto(filas: seq<CarritoEntity>, p: int): (r: seq<CarritoEntity>)
    ensures forall x :: x in r <==> x in filas && x.productoId == p
  {
    if filas == [] then []
    else
      assert forall x :: x in filas <==> x == filas[0] || x in filas[1..];
      (if filas[0].productoId == p then [filas[0]] else []) + DeProducto(filas[1..], p)
  }

  /** `SELECT SUM(precio * cantidad) FROM carrito`: SQL's SUM of no rows is
      null. */
  function Total(t: TablaCarrito): (r: Option<real>)
    ensures r.None? <==> t.filas == []
    ensures r.Some? ==> r.value == Suma(t.filas)
  {
    if t.filas == [] then None else Some(Suma(t.filas))
  }

  /** Where the first line of product `p` sits, if there is one. */
  function PrimeraDe(filas: seq<CarritoEntity>, p: int): (r: Option<nat>)
    ensures r.None? <==> forall i :: 0 <= i < |filas| ==> filas[i].productoId != p
    ensures r.Some? ==> r.value < |filas| && filas[r.value].productoId == p
    ensures r.Some? ==> forall i :: 0 <= i < r.value ==> filas[i].productoId != p
  {
    if filas == [] then None
    else if filas[0].productoId == p then Some(0)
    else match PrimeraDe(filas[1..], p)
      case None => None
      case Some(i) => Some(i + 1)
  }

  /** `SELECT * FROM carrito WHERE productoId = ? LIMIT 1`: null exactly
      when no line has that product, otherwise the first such line. */
  function BuscarPorProducto(t: TablaCarrito, p: int): (r: Option<CarritoEntity>)
    ensures r.None? <==> Cuenta(t.filas, p) == 0
    ensures r.Some? ==> r.value in t.filas && r.value.productoId == p
  {
    match PrimeraDe(t.filas, p)
    case None => None
    case Some(i) => Some(t.filas[i])
  }

  /** The DAO: the cart lines and the counter, changed in place. */
  class CarritoDao {
    var filas: seq<CarritoEntity>
    var secuencia: int

    function Estado(): TablaCarrito
      reads this
    {
      TablaCarrito(filas, secuencia)
    }

    predicate Valid()
      reads this
    {
      Valida(Estado())
    }

    constructor ()
      ensures Valid() && filas == [] && secuencia == 0
    {
      filas := [];
      secuencia := 0;
    }

    /** `insertar`. */
    method Insertar(e: CarritoEntity) returns (r: Insercion)
      requires Valid()
      modifies this
      ensures Valid()
      ensures (Estado(), r) == InsertarFila(old(Estado()), e)
    {
      var t := InsertarFila(Estado(), e);
      filas, secuencia, r := t.0.filas, t.0.secuencia, t.1;
    }

    /** `vaciar`: every line goes; the counter stays. */
    method Vaciar()
      requires Valid()
      modifies this
      ensures Valid()
      ensures filas == [] && secuencia == old(secuencia)
    {
      filas := [];
    }

    /** `actualizarCantidad`. */
    method ActualizarCantidad(p: int, c: int)
      requires Valid()
      modifies this
      ensures Valid()
      ensures filas == ConCantidad(old(filas), p, c) && secuencia == old(secuencia)
    {
      ConCantidadConservaIds(Estado(), p, c);
      filas := ConCantidad(filas, p, c);
    }

    /** `eliminarProducto`. */
    method EliminarProducto(p: int)
      requires Valid()
      modifies this
      ensures Valid()
      ensures filas == SinProducto(old(filas), p) && secuencia == old(secuencia)
    {
      filas := SinProducto(filas, p);
    }

    /** `obtenerTodo` (its first emission): the cursor copies each stored
        row, all nine columns, in table order. */
    method ObtenerTodo() returns (r: seq<CarritoEntity>)
      ensures r == filas
    {
      r := [];
      var i := 0;
      while i < |filas|
        invariant 0 <= i <= |filas|
        invariant r == filas[..i]
      {
        r := r + [filas[i]];
        i := i + 1;
      }
    }

    /** `obtenerTotal` (its first emission). */
    method ObtenerTotal() returns (r: Option<real>)
      ensures r == Total(Estado())
    {
      if filas == [] {
        r := None;
      } else {
        r := Some(Suma(filas));
      }
    }

    /** `obtenerPorProductoId`. */
    method ObtenerPorProductoId(p: int) returns (r: Option<CarritoEntity>)
      ensures r == BuscarPorProducto(Estado(), p)
    {
      r := BuscarPorProducto(Estado(), p);
    }
  }
}

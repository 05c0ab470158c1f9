/** The `productos` table and the Room DAO over it.

    The table is `id INTEGER PRIMARY KEY AUTOINCREMENT`: at most one row per
    id, and SQLite remembers the largest id ever handed out, so an id
    assigned automatically is never reused, not even after every row has
    been deleted. Inserts bind `nullif(id, 0)`: an entity whose id is 0 gets
    a fresh id, any other id is stored as given, replacing a row already
    there (`INSERT OR REPLACE`). */
module ProductoDaoImpl {
  import opened Base
  import opened Entidades

  /** The table's contents: rows by id, and the AUTOINCREMENT counter
      (the largest id the table has ever held). */
  datatype TablaProductos = TablaProductos(filas: map<int, ProductoEntity>, secuencia: int)

  /** Every row is stored under its own id, and no id exceeds the counter. */
  predicate Valida(t: TablaProductos)
  {
    t.secuencia >= 0 &&
    forall k :: k in t.filas ==> t.filas[k].id == k && k <= t.secuencia
  }

  /** A freshly created database. */
  const VACIA := TablaProductos(map[], 0)

  /** `INSERT OR REPLACE ... VALUES (nullif(?, 0), ...)` of one entity; also
      yields the row id `insertAndReturnId` hands back. */
  function Insertar(t: TablaProductos, e: ProductoEntity): (r: (TablaProductos, int))
    ensures e.id != 0 ==> r.1 == e.id
    ensures e.id == 0 ==> r.1 > t.secuencia
    ensures e.id == 0 && Valida(t) ==> r.1 > 0 && r.1 !in t.filas
    ensures r.0.filas == t.filas[r.1 := e.(id := r.1)]
    ensures t.secuencia <= r.0.secuencia && r.1 <= r.0.secuencia
    ensures Valida(t) ==> Valida(r.0)
  {
    var id := if e.id == 0 then t.secuencia + 1 else e.id;
    (TablaProductos(t.filas[id := e.(id := id)], if id > t.secuencia then id else t.secuencia), id)
  }

  /** `insertarProductos(list)`: the entities inserted one after another,
      in list order. */
  function InsertarTodos(t: TablaProductos, es: seq<ProductoEntity>): (r: TablaProductos)
    ensures t.secuencia <= r.secuencia
    ensures Valida(t) ==> Valida(r)
    decreases |es|
  {
    if es == [] then t else InsertarTodos(Insertar(t, es[0]).0, es[1..])
  }

  /** Inserting a list in two parts is inserting the whole list. */
  lemma {:induction false} InsertarTodosConcatena(t: TablaProductos, a: seq<ProductoEntity>, b: seq<ProductoEntity>)
    ensures InsertarTodos(t, a + b) == InsertarTodos(InsertarTodos(t, a), b)
    decreases |a|
  {
    if a != [] {
      assert (a + b)[0] == a[0];
      assert (a + b)[1..] == a[1..] + b;
      InsertarTodosConcatena(Insertar(t, a[0]).0, a[1..], b);
    } else {
      assert a + b == b;
    }
  }

  /** A row whose id no entity of the list carries keeps its contents, as
      long as no automatic id can land on it: either it is not above the
      counter, or every entity brings its own id. */
  lemma {:induction false} InsertarTodosConservaOtras(t: TablaProductos, es: seq<ProductoEntity>, k: int)
    requires forall i :: 0 <= i < |es| ==> es[i].id != k
    requires k <= t.secuencia || forall i :: 0 <= i < |es| ==> es[i].id != 0
    ensures k in InsertarTodos(t, es).filas <==> k in t.filas
    ensures k in t.filas ==> InsertarTodos(t, es).filas[k] == t.filas[k]
    decreases |es|
  {
    if es != [] {
      var t1 := Insertar(t, es[0]).0;
      assert k in t1.filas <==> k in t.filas;
      assert k in t.filas ==> t1.filas[k] == t.filas[k];
      InsertarTodosConservaOtras(t1, es[1..], k);
    }
  }

  /** With repeated ids the last entity carrying an id wins: the row under
      that id afterwards is that entity. */
  lemma InsertarTodosUltimoGana(t: TablaProductos, es: seq<ProductoEntity>, i: int)
    requires 0 <= i < |es| && es[i].id != 0
    requires forall j :: i < j < |es| ==> es[j].id != es[i].id
    ensures es[i].id in InsertarTodos(t, es).filas
    ensures InsertarTodos(t, es).filas[es[i].id] == es[i]
  {
    var k := es[i].id;
    assert es == es[..i] + [es[i]] + es[i + 1..];
    InsertarTodosConcatena(t, es[..i] + [es[i]], es[i + 1..]);
    InsertarTodosConcatena(t, es[..i], [es[i]]);
    var t1 := InsertarTodos(t, es[..i]);
    var t2 := Insertar(t1, es[i]).0;
    assert InsertarTodos(t1, [es[i]]) == t2 by {
      assert [es[i]][1..] == [];
    }
    assert t2.filas[k] == es[i];
    InsertarTodosConservaOtras(t2, es[i + 1..], k);
  }

  /** When every entity brings its own id, the ids afterwards are exactly
      the ids before plus those of the list. */
  lemma {:induction false} InsertarTodosClaves(t: TablaProductos, es: seq<ProductoEntity>, k: int)
    requires forall i :: 0 <= i < |es| ==> es[i].id != 0
    ensures k in InsertarTodos(t, es).filas <==> k in t.filas || exists i :: 0 <= i < |es| && es[i].id == k
    decreases |es|
  {
    if es != [] {
      var t1 := Insertar(t, es[0]).0;
      InsertarTodosClaves(t1, es[1..], k);
      if exists i :: 0 <= i < |es[1..]| && es[1..][i].id == k {
        var i :| 0 <= i < |es[1..]| && es[1..][i].id == k;
        assert es[i + 1].id == k;
      }
      if exists i :: 0 <= i < |es| && es[i].id == k {
        var i :| 0 <= i < |es| && es[i].id == k;
        if i > 0 {
          assert es[1..][i - 1].id == k;
        }
      }
    }
  }

  /** `UPDATE OR ABORT ... WHERE id = ?`: every column of the row with the
      entity's id is overwritten; with no such row nothing changes and
      nothing is inserted. */
  function Actualizar(t: TablaProductos, e: ProductoEntity): (r: TablaProductos)
    ensures r.secuencia == t.secuencia && r.filas.Keys == t.filas.Keys
    ensures e.id in t.filas ==> r.filas[e.id] == e
    ensures forall k :: k in t.filas && k != e.id ==> r.filas[k] == t.filas[k]
    ensures e.id !in t.filas ==> r == t
    ensures Valida(t) ==> Valida(r)
  {
    if e.id in t.filas then t.(filas := t.filas[e.id := e]) else t
  }

  /** `DELETE FROM productos WHERE id = ?`: only the entity's id matters. */
  function Eliminar(t: TablaProductos, e: ProductoEntity): (r: TablaProductos)
    ensures r.secuencia == t.secuencia
    ensures r.filas.Keys == t.filas.Keys - {e.id}
    ensures forall k :: k in r.filas ==> r.filas[k] == t.filas[k]
    ensures Valida(t) ==> Valida(r)
  {
    t.(filas := t.filas - {e.id})
  }

  /** `DELETE FROM productos`: no rows left; the AUTOINCREMENT counter is
      kept. */
  function EliminarTodos(t: TablaProductos): (r: TablaProductos)
    ensures r.filas == map[] && r.secuencia == t.secuencia
    ensures Valida(t) ==> Valida(r)
  {
    t.(filas := map[])
  }

  /** Ids are never reused: a row inserted with id 0 after the table was
      emptied gets an id above every id the table held before. */
  lemma IdNoReutilizado(t: TablaProductos, e: ProductoEntity, k: int)
    requires Valida(t) && k in t.filas && e.id == 0
    ensures Insertar(EliminarTodos(t), e).1 > k
  {
  }

  /** `SELECT * FROM productos WHERE id = ?`: the row, or null. */
  function Buscar(t: TablaProductos, id: int): (r: Option<ProductoEntity>)
    ensures r.Some? <==> id in t.filas
    ensures r.Some? ==> r.value == t.filas[id]
  {
    if id in t.filas then Some(t.filas[id]) else None
  }

  /** SQLite's BINARY collation on UTF-8 text: lexicographic order of the
      code points. */
  predicate LexLe(a: string, b: string)
  {
    a == [] || (b != [] && (a[0] < b[0] || (a[0] == b[0] && LexLe(a[1..], b[1..]))))
  }

  lemma LexLeTotal(a: string, b: string)
    ensures LexLe(a, b) || LexLe(b, a)
  {
  }

  lemma LexLeTransitive(a: string, b: string, c: string)
    requires LexLe(a, b) && LexLe(b, c)
    ensures LexLe(a, c)
  {
  }

  /** Rows in ascending order of `nombre`. */
  predicate OrdenadaPorNombre(r: seq<ProductoEntity>)
  {
    forall i, j :: 0 <= i < j < |r| ==> LexLe(r[i].nombre, r[j].nombre)
  }

  /** `r` is a possible answer to `SELECT * FROM productos ORDER BY nombre
      ASC`: every row exactly once, as stored, in ascending name order (rows
      with equal names may come in any order). */
  predicate EsListado(filas: map<int, ProductoEntity>, r: seq<ProductoEntity>)
  {
    |r| == |filas| &&
    (forall i :: 0 <= i < |r| ==> r[i].id in filas && filas[r[i].id] == r[i]) &&
    (forall i, j :: 0 <= i < j < |r| ==> r[i].id != r[j].id) &&
    (forall k :: k in filas ==> exists i :: 0 <= i < |r| && r[i].id == k) &&
    OrdenadaPorNombre(r)
  }

  /** Where a row named `nombre` goes in a name-ordered list: after every
      row it does not precede. */
  function Posicion(r: seq<ProductoEntity>, nombre: string): (p: nat)
    ensures p <= |r|
    ensures forall i :: 0 <= i < p ==> !LexLe(nombre, r[i].nombre)
    ensures p < |r| ==> LexLe(nombre, r[p].nombre)
  {
    if r == [] || LexLe(nombre, r[0].nombre) then 0 else 1 + Posicion(r[1..], nombre)
  }

  /** A row put into a name-ordered list at its place: the rows before it and
      after it keep their order, and the list stays ordered by name. */
  function Colocar(r: seq<ProductoEntity>, e: ProductoEntity): (s: seq<ProductoEntity>)
    ensures |s| == |r| + 1
    ensures var p := Posicion(r, e.nombre);
      s[p] == e &&
      (forall i :: 0 <= i < p ==> s[i] == r[i]) &&
      (forall i :: p < i < |s| ==> s[i] == r[i - 1])
    ensures OrdenadaPorNombre(r) ==> OrdenadaPorNombre(s)
  {
    var p := Posicion(r, e.nombre);
    ColocarOrdena(r, e, p);
    r[..p] + [e] + r[p..]
  }

  lemma ColocarOrdena(r: seq<ProductoEntity>, e: ProductoEntity, p: nat)
    requires p == Posicion(r, e.nombre)
    ensures OrdenadaPorNombre(r) ==> OrdenadaPorNombre(r[..p] + [e] + r[p..])
  {
    var s := r[..p] + [e] + r[p..];
    if OrdenadaPorNombre(r) {
      forall i, j | 0 <= i < j < |s|
        ensures LexLe(s[i].nombre, s[j].nombre)
      {
        if j > p + 1 {
          LexLeTransitive(e.nombre, r[p].nombre, r[j - 1].nombre);
        }
        if i < p {
          LexLeTotal(e.nombre, r[i].nombre);
          if j > p {
            LexLeTransitive(r[i].nombre, e.nombre, r[j - 1].nombre);
          }
        }
      }
    }
  }

  /** The state of the listing loop: `r` holds, in name order and once
      each, exactly the rows whose ids are no longer `restantes`. */
  predicate ListadoParcial(filas: map<int, ProductoEntity>, r: seq<ProductoEntity>, restantes: set<int>)
  {
    restantes <= filas.Keys &&
    |r| + |restantes| == |filas| &&
    (forall i :: 0 <= i < |r| ==> r[i].id in filas && filas[r[i].id] == r[i] && r[i].id !in restantes) &&
    (forall i, j :: 0 <= i < j < |r| ==> r[i].id != r[j].id) &&
    (forall k :: k in filas && k !in restantes ==> exists i :: 0 <= i < |r| && r[i].id == k) &&
    OrdenadaPorNombre(r)
  }

  /** After `Colocar`, every row but the new one sits one place further
      right when it came after the new row's place. */
  lemma ColocarDesplaza(r: seq<ProductoEntity>, e: ProductoEntity, i: int)
    requires 0 <= i < |r| + 1 && i != Posicion(r, e.nombre)
    ensures Colocar(r, e)[i] == r[if i < Posicion(r, e.nombre) then i else i - 1]
  {
  }

  /** After one turn of the listing loop every listed row is a stored row,
      no longer pending. */
  lemma ColocarFilasGuardadas(filas: map<int, ProductoEntity>, r: seq<ProductoEntity>, restantes: set<int>, k: int)
    requires ListadoParcial(filas, r, restantes) && k in restantes && filas[k].id == k
    ensures var s := Colocar(r, filas[k]);
      forall i :: 0 <= i < |s| ==> s[i].id in filas && filas[s[i].id] == s[i] && s[i].id !in restantes - {k}
  {
    var s := Colocar(r, filas[k]);
    var p := Posicion(r, filas[k].nombre);
    forall i | 0 <= i < |s|
      ensures s[i].id in filas && filas[s[i].id] == s[i] && s[i].id !in restantes - {k}
    {
      if i != p {
        ColocarDesplaza(r, filas[k], i);
      }
    }
  }

  /** After one turn of the listing loop no id is listed twice. */
  lemma ColocarIdsDistintos(filas: map<int, ProductoEntity>, r: seq<ProductoEntity>, restantes: set<int>, k: int)
    requires ListadoParcial(filas, r, restantes) && k in restantes && filas[k].id == k
    ensures var s := Colocar(r, filas[k]);
      forall i, j :: 0 <= i < j < |s| ==> s[i].id != s[j].id
  {
    var s := Colocar(r, filas[k]);
    var p := Posicion(r, filas[k].nombre);
    forall i, j | 0 <= i < j < |s|
      ensures s[i].id != s[j].id
    {
      if i != p {
        ColocarDesplaza(r, filas[k], i);
      }
      if j != p {
        ColocarDesplaza(r, filas[k], j);
      }
    }
  }

  /** After one turn of the listing loop every row no longer pending is
      listed. */
  lemma ColocarCubre(filas: map<int, ProductoEntity>, r: seq<ProductoEntity>, restantes: set<int>, k: int)
    requires ListadoParcial(filas, r, restantes) && k in restantes && filas[k].id == k
    ensures var s := Colocar(r, filas[k]);
      forall k2 :: k2 in filas && k2 !in restantes - {k} ==> exists i :: 0 <= i < |s| && s[i].id == k2
  {
    var s := Colocar(r, filas[k]);
    var p := Posicion(r, filas[k].nombre);
    forall k2 | k2 in filas && k2 !in restantes - {k}
      ensures exists i :: 0 <= i < |s| && s[i].id == k2
    {
      if k2 == k {
        assert s[p].id == k2;
      } else {
        var i :| 0 <= i < |r| && r[i].id == k2;
        if i < p {
          assert s[i].id == k2;
        } else {
          assert s[i + 1].id == k2;
        }
      }
    }
  }

  /** One turn of the listing loop keeps its state. */
  lemma ColocarAvanza(filas: map<int, ProductoEntity>, r: seq<ProductoEntity>, restantes: set<int>, k: int)
    requires ListadoParcial(filas, r, restantes) && k in restantes && filas[k].id == k
    ensures ListadoParcial(filas, Colocar(r, filas[k]), restantes - {k})
  {
    assert |restantes - {k}| == |restantes| - 1;
    ColocarFilasGuardadas(filas, r, restantes, k);
    ColocarIdsDistintos(filas, r, restantes, k);
    ColocarCubre(filas, r, restantes, k);
  }

  /** The DAO: the table's rows and counter, changed in place by each
      statement. */
  class ProductoDao {
    var filas: map<int, ProductoEntity>
    var secuencia: int

    function Estado(): TablaProductos
      reads this
    {
      TablaProductos(filas, secuencia)
    }

    predicate Valid()
      reads this
    {
      Valida(Estado())
    }

    constructor ()
      ensures Valid() && Estado() == VACIA
    {
      filas := map[];
      secuencia := 0;
    }

    /** `insertarProducto`: one insert, returning the row's id. */
    method InsertarProducto(e: ProductoEntity) returns (id: int)
      requires Valid()
      modifies this
      ensures Valid()
      ensures (Estado(), id) == Insertar(old(Estado()), e)
    {
      id := if e.id == 0 then secuencia + 1 else e.id;
      filas := filas[id := e.(id := id)];
      if id > secuencia {
        secuencia := id;
      }
    }

    /** `insertarProductos`: the insert adapter walks the list. */
    method InsertarProductos(es: seq<ProductoEntity>)
      requires Valid()
      modifies this
      ensures Valid()
      ensures Estado() == InsertarTodos(old(Estado()), es)
    {
      var i := 0;
      while i < |es|
        invariant 0 <= i <= |es|
        invariant Valid()
        invariant Estado() == InsertarTodos(old(Estado()), es[..i])
      {
        InsertarTodosConcatena(old(Estado()), es[..i], [es[i]]);
        assert es[..i + 1] == es[..i] + [es[i]];
        assert InsertarTodos(Estado(), [es[i]]) == Insertar(Estado(), es[i]).0 by {
          assert [es[i]][1..] == [];
        }
        var _ := InsertarProducto(es[i]);
        i := i + 1;
      }
      assert es[..i] == es;
    }

    /** `actualizarProducto`. */
    method ActualizarProducto(e: ProductoEntity)
      requires Valid()
      modifies this
      ensures Valid()
      ensures Estado() == Actualizar(old(Estado()), e)
    {
      if e.id in filas {
        filas := filas[e.id := e];
      }
    }

    /** `eliminarProducto`. */
    method EliminarProducto(e: ProductoEntity)
      requires Valid()
      modifies this
      ensures Valid()
      ensures Estado() == Eliminar(old(Estado()), e)
    {
      filas := filas - {e.id};
    }

    /** `eliminarTodosLosProductos`. */
    method EliminarTodosLosProductos()
      requires Valid()
      modifies this
      ensures Valid()
      ensures Estado() == EliminarTodos(old(Estado()))
    {
      filas := map[];
    }

    /** `obtenerProductoPorId`. */
    method ObtenerProductoPorId(id: int) returns (r: Option<ProductoEntity>)
      ensures r == Buscar(Estado(), id)
    {
      if id in filas {
        r := Some(filas[id]);
      } else {
        r := None;
      }
    }

    /** `obtenerTodosLosProductos` (its first emission): the query's rows
        collected one by one into a list kept in name order. */
    method ObtenerTodosLosProductos() returns (r: seq<ProductoEntity>)
      requires Valid()
      ensures EsListado(filas, r)
    {
      r := [];
      var restantes := filas.Keys;
      while restantes != {}
        invariant ListadoParcial(filas, r, restantes)
        decreases |restantes|
      {
        assert exists k :: k in restantes by {
          if forall k :: k !in restantes {
            assert false;
          }
        }
        var k :| k in restantes;
        ColocarAvanza(filas, r, restantes, k);
        r := Colocar(r, filas[k]);
        restantes := restantes - {k};
      }
    }
  }
}

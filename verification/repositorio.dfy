/** `ProductoRepositoryImpl`: the catalog repository that asks the REST API
    first and falls back to the local `productos` table.

    The network is not modelled: each operation receives the outcome of its
    remote call as a parameter (an HTTP status with an optional body, or the
    exception the call threw), and the repository records the requests it
    sends. Reads fall back to the table on a non-2xx status, a null body or
    any exception, and never write the table. Every write to the catalog is
    applied to the table whatever the remote outcome. */
module Repositorio {
  import opened Base
  import opened Entidades
  import opened ProductoDaoImpl
  import opened Mapeadores

  /** The exceptions the read path tells apart; all three lead to the same
      fallback. */
  datatype Excepcion = HostDesconocido | ErrorDeRed | Inesperada

  /** The outcome of one remote call. */
  datatype Respuesta<T> = Http(codigo: int, cuerpo: Option<T>) | Lanzada(excepcion: Excepcion)

  /** Retrofit's `isSuccessful`: a status in 200..299. */
  predicate EsExitosa(codigo: int)
  {
    200 <= codigo <= 299
  }

  /** Whether a read uses the remote answer: a 2xx status with a body. */
  predicate TraeCuerpo<T>(r: Respuesta<T>)
  {
    r.Http? && EsExitosa(r.codigo) && r.cuerpo.Some?
  }

  /** The requests the repository sends to the API. */
  datatype Peticion =
    | ListarTodos
    | ObtenerPorId(id: int)
    | Agregar(dto: ProductoDto)
    | Modificar(id: int, dto: ProductoDto)
    | Borrar(id: int)

  /** The answer of `obtenerProductoPorId` given the remote outcome and the
      local row with that id. */
  function ProductoSegun(resp: Respuesta<ProductoDto>, local: Option<ProductoEntity>): (r: Option<Producto>)
    ensures TraeCuerpo(resp) ==> r == Some(AModelo(resp.cuerpo.value))
    ensures !TraeCuerpo(resp) ==> (r.Some? <==> local.Some?)
    ensures !TraeCuerpo(resp) && local.Some? ==> r == Some(ToProducto(local.value))
  {
    if TraeCuerpo(resp) then Some(AModelo(resp.cuerpo.value))
    else match local
      case None => None
      case Some(e) => Some(ToProducto(e))
  }

  /** Offline read after write: once a product has been created locally, a
      lookup of its id whose remote call fails returns it, fields and all
      (with the id the table assigned when the product came with id 0). */
  lemma LeerTrasCrearSinRed(t: TablaProductos, p: Producto, resp: Respuesta<ProductoDto>)
    requires Valida(t) && !TraeCuerpo(resp)
    ensures var (t2, id) := Insertar(t, ToEntity(p));
      ProductoSegun(resp, Buscar(t2, id)) == Some(p.(id := id))
    ensures p.id != 0 ==> ProductoSegun(resp, Buscar(Insertar(t, ToEntity(p)).0, p.id)) == Some(p)
  {
  }

  /** Offline read after update: a lookup whose remote call fails sees the
      new fields of a product that was in the table. */
  lemma LeerTrasActualizarSinRed(t: TablaProductos, p: Producto, resp: Respuesta<ProductoDto>)
    requires p.id in t.filas && !TraeCuerpo(resp)
    ensures ProductoSegun(resp, Buscar(Actualizar(t, ToEntity(p)), p.id)) == Some(p)
  {
  }

  /** Offline read after delete: the product is gone. */
  lemma LeerTrasEliminarSinRed(t: TablaProductos, p: Producto, resp: Respuesta<ProductoDto>)
    requires !TraeCuerpo(resp)
    ensures ProductoSegun(resp, Buscar(Eliminar(t, ToEntity(p)), p.id)) == None
  {
  }

  /** The repository: the DAO it writes through and the requests it has
      sent so far. */
  class ProductoRepositorio {
    const dao: ProductoDao
    var peticiones: seq<Peticion>

    predicate Valid()
      reads this, dao
    {
      dao.Valid()
    }

    constructor (dao: ProductoDao)
      requires dao.Valid()
      ensures this.dao == dao && peticiones == [] && Valid()
    {
      this.dao := dao;
      peticiones := [];
    }

    /** `usarDatosLocales` (the first list the table's flow emits): every
        local row once, in name order, as a `Producto`. */
    method UsarDatosLocales() returns (r: seq<Producto>)
      requires Valid()
      ensures EsListado(dao.filas, ToEntities(r))
    {
      var entidades := dao.ObtenerTodosLosProductos();
      r := ToProductos(entidades);
      ToEntitiesToProductos(entidades);
    }

    /** `obtenerProductos` (its first emission). */
    method ObtenerProductos(resp: Respuesta<seq<ProductoDto>>) returns (r: seq<Producto>)
      requires Valid()
      modifies this
      ensures Valid()
      ensures dao.Estado() == old(dao.Estado())
      ensures peticiones == old(peticiones) + [ListarTodos]
      ensures TraeCuerpo(resp) ==> r == AModelos(resp.cuerpo.value)
      ensures !TraeCuerpo(resp) ==> EsListado(dao.filas, ToEntities(r))
      // A 2xx answer with an empty list is taken as it is: the catalog is
      // empty even when the table has products.
      ensures resp.Http? && EsExitosa(resp.codigo) && resp.cuerpo == Some([]) ==> r == []
    {
      peticiones := peticiones + [ListarTodos];
      match resp
      case Http(codigo, cuerpo) =>
        if EsExitosa(codigo) {
          if cuerpo.Some? {
            r := AModelos(cuerpo.value);
          } else {
            r := UsarDatosLocales();
          }
        } else {
          r := UsarDatosLocales();
        }
      case Lanzada(_) =>
        r := UsarDatosLocales();
    }

    /** `obtenerProductoPorId`. */
    method ObtenerProductoPorId(id: int, resp: Respuesta<ProductoDto>) returns (r: Option<Producto>)
      requires Valid()
      modifies this
      ensures Valid()
      ensures dao.Estado() == old(dao.Estado())
      ensures peticiones == old(peticiones) + [ObtenerPorId(id)]
      ensures r == ProductoSegun(resp, Buscar(dao.Estado(), id))
    {
      peticiones := peticiones + [ObtenerPorId(id)];
      if resp.Http? && EsExitosa(resp.codigo) && resp.cuerpo.Some? {
        r := Some(AModelo(resp.cuerpo.value));
      } else {
        var entidad := dao.ObtenerProductoPorId(id);
        r := if entidad.Some? then Some(ToProducto(entidad.value)) else None;
      }
    }

    /** `insertarProductos`: local only, no request. */
    method InsertarProductos(ps: seq<Producto>)
      requires Valid()
      modifies dao
      ensures Valid()
      ensures dao.Estado() == InsertarTodos(old(dao.Estado()), ToEntities(ps))
    {
      dao.InsertarProductos(ToEntities(ps));
    }

    /** `insertarProducto`: the caller's product is stored locally in every
        outcome, even when the API accepted it, and the local id is
        returned. */
    method InsertarProducto(p: Producto, resp: Respuesta<ProductoDto>) returns (id: int)
      requires Valid()
      modifies this, dao
      ensures Valid()
      ensures (dao.Estado(), id) == Insertar(old(dao.Estado()), ToEntity(p))
      ensures peticiones == old(peticiones) + [Agregar(ADto(p))]
    {
      peticiones := peticiones + [Agregar(ADto(p))];
      if resp.Http? && EsExitosa(resp.codigo) {
        id := dao.InsertarProducto(ToEntity(p));
      } else {
        id := dao.InsertarProducto(ToEntity(p));
      }
    }

    /** `actualizarProducto`: the local update runs in `finally`. */
    method ActualizarProducto(p: Producto, resp: Respuesta<ProductoDto>)
      requires Valid()
      modifies this, dao
      ensures Valid()
      ensures dao.Estado() == Actualizar(old(dao.Estado()), ToEntity(p))
      ensures peticiones == old(peticiones) + [Modificar(p.id, ADto(p))]
    {
      peticiones := peticiones + [Modificar(p.id, ADto(p))];
      dao.ActualizarProducto(ToEntity(p));
    }

    /** `eliminarProducto`: the local delete runs in `finally`. */
    method EliminarProducto(p: Producto, resp: Respuesta<()>)
      requires Valid()
      modifies this, dao
      ensures Valid()
      ensures dao.Estado() == Eliminar(old(dao.Estado()), ToEntity(p))
      ensures peticiones == old(peticiones) + [Borrar(p.id)]
    {
      peticiones := peticiones + [Borrar(p.id)];
      dao.EliminarProducto(ToEntity(p));
    }

    /** `eliminarTodosLosProductos`: local only, no request. */
    method EliminarTodosLosProductos()
      requires Valid()
      modifies dao
      ensures Valid()
      ensures dao.Estado() == EliminarTodos(old(dao.Estado()))
    {
      dao.EliminarTodosLosProductos();
    }
  }
}

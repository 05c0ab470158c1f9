/** The records the app moves between its layers: the domain `Producto`,
    the `productos` row `ProductoEntity` and the `carrito` row
    `CarritoEntity`. Prices are Kotlin `Double`s, modelled as `real`. */
module Entidades {

  /** A catalog product as the screens and the repository see it. */
  datatype Producto = Producto(
    id: int,
    nombre: string,
    descripcion: string,
    precio: real,
    imagenUrl: string,
    categoria: string,
    stock: int)

  /** A row of the `productos` table: the same seven columns. */
  datatype ProductoEntity = ProductoEntity(
    id: int,
    nombre: string,
    descripcion: string,
    precio: real,
    imagenUrl: string,
    categoria: string,
    stock: int)

  /** A row of the `carrito` table: its own row id, the product it refers to
      (not unique), a copy of the product's fields and the quantity. */
  datatype CarritoEntity = CarritoEntity(
    id: int,
    productoId: int,
    nombre: string,
    descripcion: string,
    precio: real,
    imagenUrl: string,
    categoria: string,
    stock: int,
    cantidad: int)

  /** `Producto.toEntity()`: every field copied unchanged. */
  function ToEntity(p: Producto): (e: ProductoEntity)
    ensures ToProducto(e) == p
  {
    ProductoEntity(p.id, p.nombre, p.descripcion, p.precio, p.imagenUrl, p.categoria, p.stock)
  }

  /** `ProductoEntity.toProducto()`: every field copied unchanged. */
  function ToProducto(e: ProductoEntity): Producto
  {
    Producto(e.id, e.nombre, e.descripcion, e.precio, e.imagenUrl, e.categoria, e.stock)
  }

  /** The two conversions are inverse to each other in both directions. */
  lemma EntidadIdaYVuelta(p: Producto, e: ProductoEntity)
    ensures ToProducto(ToEntity(p)) == p
    ensures ToEntity(ToProducto(e)) == e
    ensures ToEntity(p).id == p.id
  {
  }

  function ToProductos(es: seq<ProductoEntity>): (ps: seq<Producto>)
    ensures |ps| == |es|
    ensures forall i :: 0 <= i < |es| ==> ps[i] == ToProducto(es[i])
  {
    if es == [] then [] else [ToProducto(es[0])] + ToProductos(es[1..])
  }

  function ToEntities(ps: seq<Producto>): (es: seq<ProductoEntity>)
    ensures |es| == |ps|
    ensures forall i :: 0 <= i < |ps| ==> es[i] == ToEntity(ps[i])
  {
    if ps == [] then [] else [ToEntity(ps[0])] + ToEntities(ps[1..])
  }

  /** Mapping rows to products and back gives the rows again. */
  lemma ToEntitiesToProductos(es: seq<ProductoEntity>)
    ensures ToEntities(ToProductos(es)) == es
  {
    var r := ToEntities(ToProductos(es));
    forall i | 0 <= i < |es| ensures r[i] == es[i] {
      EntidadIdaYVuelta(ToProducto(es[i]), es[i]);
    }
  }
}

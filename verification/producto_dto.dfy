/** The REST API's product record and its conversions to and from the
    domain `Producto`. The API sends the price as text ("15000.00") and may
    send no category; the conversions never fail. */
module Mapeadores {
  import opened Base
  import opened Decimal
  import opened Entidades

  /** `ProductoDto`, fields named as in the app (the JSON names are `id`,
      `nombre`, `descripcion`, `precio`, `imagen`, `categoria_nombre`,
      `stock`). */
  datatype ProductoDto = ProductoDto(
    identificador: int,
    titulo: string,
    descripcion: string,
    precio: string,
    urlImagen: string,
    categoria: Option<string>,
    stock: int)

  /** The category shown for a product the API sends without one. */
  const CATEGORIA_POR_DEFECTO: string := "General"

  /** The price of a DTO: its text read as a number, or 0 when the text is
      not a number. */
  function PrecioDe(d: ProductoDto): (x: real)
    ensures ParseDouble(d.precio).Some? ==> x == ParseDouble(d.precio).value
    ensures ParseDouble(d.precio).None? ==> x == 0.0
  {
    match ParseDouble(d.precio)
    case Some(v) => v
    case None => 0.0
  }

  /** The category of a DTO: the API's value, or "General" when it is null. */
  function CategoriaDe(d: ProductoDto): (c: string)
    ensures d.categoria.Some? ==> c == d.categoria.value
    ensures d.categoria.None? ==> c == CATEGORIA_POR_DEFECTO
  {
    match d.categoria
    case Some(c) => c
    case None => CATEGORIA_POR_DEFECTO
  }

  /** `aModelo`: the identity fields and the stock copied, the price read
      from its text, the category defaulted. */
  function AModelo(d: ProductoDto): (p: Producto)
    ensures p.id == d.identificador && p.nombre == d.titulo && p.descripcion == d.descripcion
    ensures p.imagenUrl == d.urlImagen && p.stock == d.stock
    ensures p.precio == PrecioDe(d) && p.categoria == CategoriaDe(d)
  {
    Producto(d.identificador, d.titulo, d.descripcion, PrecioDe(d), d.urlImagen, CategoriaDe(d), d.stock)
  }

  /** `aModeloConStock`: `aModelo` with the stock replaced. */
  function AModeloConStock(d: ProductoDto, stockPersonalizado: int): (p: Producto)
    ensures p == AModelo(d).(stock := stockPersonalizado)
  {
    Producto(d.identificador, d.titulo, d.descripcion, PrecioDe(d), d.urlImagen, CategoriaDe(d), stockPersonalizado)
  }

  /** `aDto`: every field copied, the price written with `Double.toString()`. */
  function ADto(p: Producto): (d: ProductoDto)
    ensures d.identificador == p.id && d.titulo == p.nombre && d.descripcion == p.descripcion
    ensures d.urlImagen == p.imagenUrl && d.categoria == Some(p.categoria) && d.stock == p.stock
    ensures d.precio == ShowDouble(p.precio)
  {
    ProductoDto(p.id, p.nombre, p.descripcion, ShowDouble(p.precio), p.imagenUrl, Some(p.categoria), p.stock)
  }

  /** `aModelos`: `aModelo` on each element, order kept. */
  function AModelos(ds: seq<ProductoDto>): (ps: seq<Producto>)
    ensures |ps| == |ds|
    ensures forall i :: 0 <= i < |ds| ==> ps[i] == AModelo(ds[i])
  {
    if ds == [] then [] else [AModelo(ds[0])] + AModelos(ds[1..])
  }

  /** `aDtos`: `aDto` on each element, order kept. */
  function ADtos(ps: seq<Producto>): (ds: seq<ProductoDto>)
    ensures |ds| == |ps|
    ensures forall i :: 0 <= i < |ps| ==> ds[i] == ADto(ps[i])
  {
    if ps == [] then [] else [ADto(ps[0])] + ADtos(ps[1..])
  }

  /** Sending a product and reading it back keeps every field but the
      price, and keeps the price too whenever its text reads back as the
      same number. */
  lemma AModeloADto(p: Producto)
    ensures var q := AModelo(ADto(p));
      q.id == p.id && q.nombre == p.nombre && q.descripcion == p.descripcion &&
      q.imagenUrl == p.imagenUrl && q.categoria == p.categoria && q.stock == p.stock
    ensures ParseDouble(ShowDouble(p.precio)) == Some(p.precio) ==> AModelo(ADto(p)) == p
  {
  }

  /** Whole prices, which every price of the seed catalog is, survive the
      round trip exactly. */
  lemma AModeloADtoPrecioEntero(p: Producto, n: int)
    requires p.precio == n as real
    ensures AModelo(ADto(p)) == p
  {
    ParseShowWhole(n);
  }

  /** A DTO whose category is present and whose price text is what
      `Double.toString()` writes for it comes back unchanged. */
  lemma ADtoAModelo(d: ProductoDto)
    requires d.categoria.Some?
    requires ParseDouble(d.precio).Some? && ShowDouble(ParseDouble(d.precio).value) == d.precio
    ensures ADto(AModelo(d)) == d
  {
  }

  /** A product without a category, once sent and read back, shows as
      "General" rather than being lost. */
  lemma CategoriaNulaEsGeneral(d: ProductoDto)
    requires d.categoria.None?
    ensures AModelo(d).categoria == "General"
    ensures ADto(AModelo(d)).categoria == Some("General")
  {
  }

  /** A price text that is not a number becomes 0, and the rest of the
      record is still mapped. */
  lemma PrecioIlegible(d: ProductoDto)
    requires ParseDouble(d.precio).None?
    ensures AModelo(d).precio == 0.0
    ensures AModelo(d).nombre == d.titulo && AModelo(d).stock == d.stock
  {
  }

  lemma PuntoDeEjemplo()
    ensures IndexOf("15000.00", '.') == Some(5)
  {
    assert "15000.00"[1..][1..][1..][1..][1..] == ".00";
  }

  lemma DigitosDeEjemplo()
    ensures DigitsValue("15000") == 15000 && DigitsValue("00") == 0
  {
    assert "15000"[..4] == "1500" && "1500"[..3] == "150" && "150"[..2] == "15" && "15"[..1] == "1";
    assert "1"[..0] == "";
    assert "00"[..1] == "0" && "0"[..0] == "";
  }

  lemma NumeroDeEjemplo()
    ensures ParseUnsigned("15000.00") == Some(15000.0)
  {
    PuntoDeEjemplo();
    DigitosDeEjemplo();
    assert "15000.00"[..5] == "15000";
    assert "15000.00"[6..] == "00";
    assert Pow10(2) == 100;
  }

  /** The price text the API documents reads as its value. */
  lemma PrecioDeEjemplo()
    ensures ParseDouble("15000.00") == Some(15000.0)
  {
    NumeroDeEjemplo();
    ParseDoubleDeDigitos("15000.00");
  }


  /** Converting a list to DTOs and back gives the list again when every
      price survives its own round trip. */
  lemma AModelosADtos(ps: seq<Producto>)
    requires forall i :: 0 <= i < |ps| ==> ParseDouble(ShowDouble(ps[i].precio)) == Some(ps[i].precio)
    ensures AModelos(ADtos(ps)) == ps
  {
    forall i | 0 <= i < |ps| {
      AModeloADto(ps[i]);
    }
  }
}

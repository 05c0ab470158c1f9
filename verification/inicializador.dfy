/** The seed catalog loaded into `productos` the first time the app runs:
    when product 1 is missing, the ten example products are bulk-inserted;
    when it is there, nothing happens. */
module Inicializador {
  import opened Base
  import opened Entidades
  import opened ProductoDaoImpl

  /** The ten example products, ids 1 to 10, in insertion order. */
  const Semillas: seq<Producto> := [
    Producto(1, "Catan",
      "Un clásico juego de estrategia donde los jugadores compiten por colonizar y\n" +
      "expandirse en la isla de Catan. Ideal para 3-4 jugadores y perfecto para noches de juego en\n" +
      "familia o con amigos.",
      29990.0, "catan", "Juegos de Mesa", 15),
    Producto(2, "Carcassonne",
      "Un juego de colocación de fichas donde los jugadores construyen el paisaje\n" +
      "alrededor de la fortaleza medieval de Carcassonne. Ideal para 2-5 jugadores y fácil de\n" +
      "aprender.",
      24990.0, "carcassonne", "Juegos de Mesa", 8),
    Producto(3, "Controlador Inalámbrico Xbox Series X",
      "Ofrece una experiencia de juego cómoda con\n" +
      "botones mapeables y una respuesta táctil mejorada. Compatible con consolas Xbox y PC.",
      59990.0, "xboxcontrol", "Accesorios", 12),
    Producto(4, "Auriculares Gamer HyperX Cloud II",
      "Proporcionan un sonido envolvente de calidad con un\n" +
      "micrófono desmontable y almohadillas de espuma viscoelástica para mayor comodidad\n" +
      "durante largas sesiones de juego.",
      79990.0, "audifonos", "Accesorios", 5),
    Producto(5, "PlayStation 5",
      "La consola de última generación de Sony, que ofrece gráficos\n" +
      "impresionantes y tiempos de carga ultrarrápidos para una experiencia de juego inmersiva.",
      549990.0, "play5", "Consolas", 3),
    Producto(6, "PC Gamer ASUS ROG Strix",
      "Disco sólido NVMe Gen4 de 1TB, velocidades de lectura hasta 7000 MB/s, ideal para gaming y creación de contenido.",
      1299990.0, "pcgamer", "Computadores Gamers", 20),
    Producto(7, "Silla Gamer Secretlab Titan",
      "Diseñada para el máximo confort, esta silla ofrece un soporte\n" +
      "ergonómico y personalización ajustable para sesiones de juego prolongadas.",
      349990.0, "sillagamer", "Sillas Gamer", 6),
    Producto(8, "Mouse Gamer Logitech G502 HERO",
      "Con sensor de alta precisión y botones\n" +
      "personalizables, este mouse es ideal para gamers que buscan un control preciso y\n" +
      "personalización.",
      49990.0, "mouse", "Mouse", 25),
    Producto(9, "Mousepad Razer Goliathus Extended\n" + "Chroma",
      "Ofrece un área de juego amplia con\n" +
      "iluminación RGB personalizable, asegurando una superficie suave y uniforme para el\n" +
      "movimiento del mouse.",
      29990.0, "mousepad", "Mousepad", 25),
    Producto(10, "Polera Gamer Personalizada 'Level-Up'",
      "Una camiseta cómoda y estilizada, con la\n" +
      "posibilidad de personalizarla con tu gamer tag.",
      14990.0, "polera", "Poleras Personalizadas", 25)
  ]

  /** The seed at position i carries id i + 1, so the ids are 1..10 and
      pairwise distinct; every seed has stock and a positive price. */
  lemma SemillasBienFormadas()
    ensures |Semillas| == 10
    ensures forall i :: 0 <= i < |Semillas| ==> Semillas[i].id == i + 1
    ensures forall i, j :: 0 <= i < j < |Semillas| ==> Semillas[i].id != Semillas[j].id
    ensures forall i :: 0 <= i < |Semillas| ==> Semillas[i].stock > 0 && Semillas[i].precio > 0.0
  {
  }

  /** The effect of `inicializarProductos` on the table: look up product 1
      and insert the seeds only when it is missing. */
  function Sembrar(t: TablaProductos): (r: TablaProductos)
    ensures Valida(t) ==> Valida(r)
  {
    match Buscar(t, 1)
    case Some(_) => t
    case None => InsertarTodos(t, ToEntities(Semillas))
  }

  /** With product 1 present the table is left as it is. */
  lemma SembrarConProductoUno(t: TablaProductos)
    requires 1 in t.filas
    ensures Sembrar(t) == t
  {
  }

  /** With product 1 missing, rows 1..10 afterwards are the seeds. */
  lemma SembrarCargaSemillas(t: TablaProductos, i: int)
    requires 1 !in t.filas && 0 <= i < 10
    ensures i + 1 in Sembrar(t).filas
    ensures Sembrar(t).filas[i + 1] == ToEntity(Semillas[i])
  {
    SemillasBienFormadas();
    var es := ToEntities(Semillas);
    InsertarTodosUltimoGana(t, es, i);
  }

  /** Rows with any other id are untouched: present exactly when they were,
      with the same contents. */
  lemma SembrarConservaOtras(t: TablaProductos, k: int)
    requires k < 1 || k > 10
    ensures k in Sembrar(t).filas <==> k in t.filas
    ensures k in t.filas ==> Sembrar(t).filas[k] == t.filas[k]
  {
    SemillasBienFormadas();
    if 1 !in t.filas {
      InsertarTodosConservaOtras(t, ToEntities(Semillas), k);
    }
  }

  /** Seeding twice is seeding once: the first run creates product 1. */
  lemma SembrarIdempotente(t: TablaProductos)
    ensures Sembrar(Sembrar(t)) == Sembrar(t)
  {
    if 1 !in t.filas {
      SembrarCargaSemillas(t, 0);
    }
  }

  /** `inicializarProductos` run against the DAO. */
  method InicializarProductos(dao: ProductoDao)
    requires dao.Valid()
    modifies dao
    ensures dao.Valid()
    ensures dao.Estado() == Sembrar(old(dao.Estado()))
  {
    var existentes := dao.ObtenerProductoPorId(1);
    if existentes.None? {
      dao.InsertarProductos(ToEntities(Semillas));
    }
  }
}

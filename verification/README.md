# labx_api catalog and cart, modelled in Dafny

labx_api is an Android shop app. It shows a catalog of gaming products and keeps a shopping cart. It also has an admin panel where products are added, edited and deleted. This project models the logic at its core and proves properties of it:

- **`productos` table** (`producto_dao.dfy`). Its DAO, as Room generates it. Rows are kept by id. An AUTOINCREMENT counter is never lowered. Id 0 means "assign one". An existing id is replaced. The listing is sorted by name.
- **`carrito` table** (`carrito_dao.dfy`). Its DAO. Cart lines have their own row ids, and one product may have several lines. Lines are inserted with `INSERT OR ABORT`. A duplicate row id makes the insert throw `SQLiteConstraintException` to the caller; the model returns that as the value `Abortada`. The program's insert returns nothing; the model also returns the id the line got. A quantity change or a delete applies to every line of a product. The total is null when the table is empty.
- **Record types** (`entidades.dfy`). The product and row records.
- **API record** (`producto_dto.dfy`). `ProductoDto` and its mappers. The price travels as text, and a missing category becomes "General".
- **Seed loader** (`inicializador.dfy`). It loads ten example products on first run.
- **Catalog repository** (`repositorio.dfy`). `ProductoRepositoryImpl` asks the REST API first. A read falls back to the table on a non-2xx status, a null body or an exception. Every write goes to the table, whatever the remote outcome. The network is a parameter: each operation receives the outcome of its remote call, and the repository records the requests it sends.
- **Cart screen** (`carrito_pantalla.dfy`). The price text (`formatearPrecio`), the rule behind the quantity buttons, and what the screen shows.
- **Admin panel** (`admin_panel.dfy`). The statistics cards, and the confirmation state of a delete.
- **Routes** (`rutas.dfy`). The route names and the builders that put a product id into a route.

Shared pieces:

- `base.dfy` holds Kotlin's nullable values, 32-bit `Int` wrap-around and `Double.toInt()`.
- `decimal.dfy` holds decimal text: `Int.toString()`, `Double.toString()` for plain decimals, and `String.toDoubleOrNull()`.

Each table is modelled twice:

- a value (`TablaProductos`, `TablaCarrito`) with functions for the SQL statements and lemmas about them;
- a class (`ProductoDao`, `CarritoDao`) whose fields are the table. Its methods change the fields and promise the new state in terms of those functions.

The same holds for the admin panel's dialog: `Dialogo` and `Paso` are the value model, and `PanelAdmin` is the class.

Where the code and its documentation disagree, the model follows the code:

- `insertarProducto` stores the caller's product in the table even when the API accepted it. The API's answer is not used.
- `obtenerProductos` uses the table only on a non-2xx status, a null body or an exception. A 2xx answer with an empty list is emitted as an empty catalog.
- The `carrito` table does not keep one line per product. Merging lines is left to a cart repository that is not part of this model. The table accepts a second line for the same product.
- `DELETE FROM productos` leaves the AUTOINCREMENT counter alone, so ids are not reused after the table is emptied.

## Model

| member | source | states |
|---|---|---|
| Base.Wrap32 | labx_api/app/src/main/java/com/example/labx/ui/screen/AdminPanelScreen.kt:246 | A Kotlin `Int` sum is the exact sum brought into [-2^31, 2^31-1], differing from it by a multiple of 2^32; sums that fit are unchanged |
| Base.DoubleToInt | labx_api/app/src/main/java/com/example/labx/ui/screen/CarritoScreen.kt:332 | `Double.toInt()` stays in `Int` range, rounds toward zero inside it and saturates at either bound outside it |
| Decimal.IntToString | labx_api/app/src/main/java/com/example/labx/ui/screen/CarritoScreen.kt:333 | `Int.toString()` is never empty and starts with '-' exactly for negative numbers |
| Decimal.DigitsValueOfNatToDecimal | labx_api/app/src/main/java/com/example/labx/ui/screen/CarritoScreen.kt:333 | Reading the decimal digits of a number back gives the number |
| Decimal.IntToStringInjective | labx_api/app/src/main/java/com/example/labx/navigation/Rutas.kt:26 | Different integers have different decimal texts |
| Decimal.NatToDecimalLength | labx_api/app/src/main/java/com/example/labx/ui/screen/CarritoScreen.kt:333 | A number has at most k digits exactly when it is below 10^k |
| Decimal.ParseDouble | labx_api/app/src/main/java/com/example/labx/data/remote/dto/ProductoDto.kt:57 | `toDoubleOrNull` gives null when nothing is left after dropping characters up to U+0020 at both ends, and a negative value only when what is left starts with '-' |
| Decimal.ParseDoubleEnBlanco | labx_api/app/src/main/java/com/example/labx/data/remote/dto/ProductoDto.kt:57 | Text made only of characters up to U+0020 reads as null |
| Decimal.ParseDoubleNegativo | labx_api/app/src/main/java/com/example/labx/data/remote/dto/ProductoDto.kt:57 | A negative value is read only when the first character above U+0020 is '-' |
| Decimal.ParseDoubleDeDigitos | labx_api/app/src/main/java/com/example/labx/data/remote/dto/ProductoDto.kt:57 | Text that starts and ends with a digit reads as a plain unsigned decimal |
| Decimal.ParseDoubleIgnoraBlancos | labx_api/app/src/main/java/com/example/labx/data/remote/dto/ProductoDto.kt:57 | Characters up to U+0020 before and after a price do not change what `toDoubleOrNull` reads |
| Decimal.ParseDoubleConSufijo | labx_api/app/src/main/java/com/example/labx/data/remote/dto/ProductoDto.kt:57 | An `f`, `F`, `d` or `D` after the last digit does not change what `toDoubleOrNull` reads |
| Decimal.ShowWholeDouble | labx_api/app/src/main/java/com/example/labx/data/remote/dto/ProductoDto.kt:91 | `Double.toString()` of a whole number is its integer text followed by ".0" |
| Decimal.ParseShowWhole | labx_api/app/src/main/java/com/example/labx/data/remote/dto/ProductoDto.kt:57 | Reading the `toString()` text of a whole-number price gives back the same price |
| Entidades.ToEntity | labx_api/app/src/main/java/com/example/labx/data/local/ProductoInicializador.kt:148-156 | `toEntity` copies every field, so `toProducto` of the row gives the product back |
| Entidades.EntidadIdaYVuelta | labx_api/app/src/main/java/com/example/labx/data/local/ProductoInicializador.kt:148-156 | Product to row and row to product are inverse in both directions and keep the id |
| Entidades.ToEntitiesToProductos | labx_api/app/src/main/java/com/example/labx/data/repository/ProductoRepositoryImpl.kt:140-142 | Mapping rows to products and back gives the same rows |
| ProductoDaoImpl.Insertar | labx_api/app/build/kspCaches/debug/backups/java/byRounds/1/com/example/labx/data/local/dao/ProductoDao_Impl.java:130-146 | Id 0 gets a fresh id above the counter, not present before and positive; any other id is used as given and replaces its row; the row stored is the entity with that id; the counter never decreases and the table stays well formed |
| ProductoDaoImpl.InsertarTodos | labx_api/app/build/kspCaches/debug/backups/java/byRounds/1/com/example/labx/data/local/dao/ProductoDao_Impl.java:111-127 | Inserting a list never lowers the counter and keeps the table well formed |
| ProductoDaoImpl.InsertarTodosConcatena | labx_api/app/build/kspCaches/debug/backups/java/byRounds/1/com/example/labx/data/local/dao/ProductoDao_Impl.java:111-127 | Inserting `a + b` is inserting `a`, then `b` |
| ProductoDaoImpl.InsertarTodosConservaOtras | labx_api/app/build/kspCaches/debug/backups/java/byRounds/1/com/example/labx/data/local/dao/ProductoDao_Impl.java:111-127 | A row whose id no entity of the list carries, and that no fresh id can reach, is present afterwards exactly when it was, with the same contents |
| ProductoDaoImpl.InsertarTodosUltimoGana | labx_api/app/build/kspCaches/debug/backups/java/byRounds/1/com/example/labx/data/local/dao/ProductoDao_Impl.java:111-127 | An entity with a non-zero id that no later entity of the list repeats is what is stored under that id afterwards: the last one wins |
| ProductoDaoImpl.InsertarTodosClaves | labx_api/app/build/kspCaches/debug/backups/java/byRounds/1/com/example/labx/data/local/dao/ProductoDao_Impl.java:111-127 | With non-zero ids, the ids afterwards are the old ids plus the list's ids |
| ProductoDaoImpl.Actualizar | labx_api/app/build/kspCaches/debug/backups/java/byRounds/1/com/example/labx/data/local/dao/ProductoDao_Impl.java:168-184 | The update replaces the row with the entity's id if there is one, leaves every other row and the set of ids alone, and otherwise changes nothing |
| ProductoDaoImpl.Eliminar | labx_api/app/build/kspCaches/debug/backups/java/byRounds/1/com/example/labx/data/local/dao/ProductoDao_Impl.java:149-165 | The delete removes exactly the entity's id; other rows and the counter are kept |
| ProductoDaoImpl.EliminarTodos | labx_api/app/build/kspCaches/debug/backups/java/byRounds/1/com/example/labx/data/local/dao/ProductoDao_Impl.java:187-207 | Deleting all leaves no rows and the counter as it was |
| ProductoDaoImpl.IdNoReutilizado | labx_api/app/build/generated/ksp/debug/java/com/example/labx/data/local/AppDatabase_Impl.java:44 | After deleting all rows, an automatic id is above every id the table held |
| ProductoDaoImpl.Buscar | labx_api/app/build/kspCaches/debug/backups/java/byRounds/1/com/example/labx/data/local/dao/ProductoDao_Impl.java:260-307 | The lookup by id gives the row exactly when the id is present, and null otherwise |
| ProductoDaoImpl.LexLeTotal | labx_api/app/build/kspCaches/debug/backups/java/byRounds/1/com/example/labx/data/local/dao/ProductoDao_Impl.java:211 | The name order compares any two names |
| ProductoDaoImpl.LexLeTransitive | labx_api/app/build/kspCaches/debug/backups/java/byRounds/1/com/example/labx/data/local/dao/ProductoDao_Impl.java:211 | The name order is transitive |
| ProductoDaoImpl.Colocar | labx_api/app/build/kspCaches/debug/backups/java/byRounds/1/com/example/labx/data/local/dao/ProductoDao_Impl.java:211 | A row placed in a name-ordered list lands at its place, keeps every other row in order, and the list stays ordered |
| ProductoDaoImpl.ColocarFilasGuardadas | labx_api/app/build/kspCaches/debug/backups/java/byRounds/1/com/example/labx/data/local/dao/ProductoDao_Impl.java:210-257 | After one more row is placed, every listed row is a stored row no longer pending |
| ProductoDaoImpl.ColocarIdsDistintos | labx_api/app/build/kspCaches/debug/backups/java/byRounds/1/com/example/labx/data/local/dao/ProductoDao_Impl.java:210-257 | After one more row is placed, no id is listed twice |
| ProductoDaoImpl.ColocarCubre | labx_api/app/build/kspCaches/debug/backups/java/byRounds/1/com/example/labx/data/local/dao/ProductoDao_Impl.java:210-257 | After one more row is placed, every row no longer pending is listed |
| ProductoDaoImpl.ColocarAvanza | labx_api/app/build/kspCaches/debug/backups/java/byRounds/1/com/example/labx/data/local/dao/ProductoDao_Impl.java:210-257 | Adding one more unlisted row to a partial listing gives a partial listing of one more row |
| ProductoDaoImpl.ProductoDao.constructor | labx_api/app/build/generated/ksp/debug/java/com/example/labx/data/local/AppDatabase_Impl.java:44 | A new table is empty, with counter 0 |
| ProductoDaoImpl.ProductoDao.InsertarProducto | labx_api/app/build/kspCaches/debug/backups/java/byRounds/1/com/example/labx/data/local/dao/ProductoDao_Impl.java:130-146 | The table and the returned id are those of `Insertar` |
| ProductoDaoImpl.ProductoDao.InsertarProductos | labx_api/app/build/kspCaches/debug/backups/java/byRounds/1/com/example/labx/data/local/dao/ProductoDao_Impl.java:111-127 | Inserting one entity after another gives `InsertarTodos` |
| ProductoDaoImpl.ProductoDao.ActualizarProducto | labx_api/app/build/kspCaches/debug/backups/java/byRounds/1/com/example/labx/data/local/dao/ProductoDao_Impl.java:168-184 | The new table is `Actualizar` of the old one |
| ProductoDaoImpl.ProductoDao.EliminarProducto | labx_api/app/build/kspCaches/debug/backups/java/byRounds/1/com/example/labx/data/local/dao/ProductoDao_Impl.java:149-165 | The new table is `Eliminar` of the old one |
| ProductoDaoImpl.ProductoDao.EliminarTodosLosProductos | labx_api/app/build/kspCaches/debug/backups/java/byRounds/1/com/example/labx/data/local/dao/ProductoDao_Impl.java:187-207 | The new table is `EliminarTodos` of the old one |
| ProductoDaoImpl.ProductoDao.ObtenerProductoPorId | labx_api/app/build/kspCaches/debug/backups/java/byRounds/1/com/example/labx/data/local/dao/ProductoDao_Impl.java:260-307 | The answer is `Buscar` on the current table |
| ProductoDaoImpl.ProductoDao.ObtenerTodosLosProductos | labx_api/app/build/kspCaches/debug/backups/java/byRounds/1/com/example/labx/data/local/dao/ProductoDao_Impl.java:210-257 | The answer has every row exactly once, as stored, in ascending name order |
| CarritoDaoImpl.Cuenta | labx_api/app/build/kspCaches/debug/backups/java/byRounds/1/com/example/labx/data/local/dao/CarritoDao_Impl.java:283 | The number of lines of a product is at most the number of lines, and 0 exactly when no line refers to it |
| CarritoDaoImpl.InsertarPorId | labx_api/app/build/generated/ksp/debug/java/com/example/labx/data/local/AppDatabase_Impl.java:43 | A new line joins the table at its row id's place: one more line, the old lines and the new one, ids still increasing |
| CarritoDaoImpl.CuentaInsertarPorId | labx_api/app/build/kspCaches/debug/backups/java/byRounds/1/com/example/labx/data/local/dao/CarritoDao_Impl.java:95-110 | Inserting a line adds one line to its product's count and none to any other |
| CarritoDaoImpl.SumaInsertarPorId | labx_api/app/build/kspCaches/debug/backups/java/byRounds/1/com/example/labx/data/local/dao/CarritoDao_Impl.java:95-110 | Inserting a line adds its `precio * cantidad` to the cart's sum |
| CarritoDaoImpl.InsertarFila | labx_api/app/build/kspCaches/debug/backups/java/byRounds/1/com/example/labx/data/local/dao/CarritoDao_Impl.java:51 | The insert aborts, leaving the table unchanged, exactly when a non-zero id is already there; otherwise the line is stored under its own id, or under an id above every existing one for id 0; the table stays well formed |
| CarritoDaoImpl.DosLineasMismoProducto | labx_api/app/build/generated/ksp/debug/java/com/example/labx/data/local/AppDatabase_Impl.java:43 | Two automatic-id inserts for the same product both succeed and give the product two more lines |
| CarritoDaoImpl.ConCantidad | labx_api/app/build/kspCaches/debug/backups/java/byRounds/1/com/example/labx/data/local/dao/CarritoDao_Impl.java:136-161 | The quantity update sets `cantidad` on the product's lines and changes nothing else |
| CarritoDaoImpl.ConCantidadConservaIds | labx_api/app/build/kspCaches/debug/backups/java/byRounds/1/com/example/labx/data/local/dao/CarritoDao_Impl.java:136-161 | After the update the table is still well formed, every line of the product has the new quantity, and no product gains or loses lines |
| CarritoDaoImpl.CuentaConCantidad | labx_api/app/build/kspCaches/debug/backups/java/byRounds/1/com/example/labx/data/local/dao/CarritoDao_Impl.java:136-161 | A quantity update keeps the line count of every product |
| CarritoDaoImpl.SinProducto | labx_api/app/build/kspCaches/debug/backups/java/byRounds/1/com/example/labx/data/local/dao/CarritoDao_Impl.java:164-187 | The delete keeps exactly the lines of other products, and ids stay increasing |
| CarritoDaoImpl.CuentaSinProducto | labx_api/app/build/kspCaches/debug/backups/java/byRounds/1/com/example/labx/data/local/dao/CarritoDao_Impl.java:164-187 | After the delete the product has no lines left and every other product keeps its line count |
| CarritoDaoImpl.DeProducto | labx_api/app/build/kspCaches/debug/backups/java/byRounds/1/com/example/labx/data/local/dao/CarritoDao_Impl.java:164-187 | The lines that the delete removes are exactly the product's lines |
| CarritoDaoImpl.SumaSinProducto | labx_api/app/build/kspCaches/debug/backups/java/byRounds/1/com/example/labx/data/local/dao/CarritoDao_Impl.java:164-187 | The cart's sum before a delete is the sum after it plus the sum of the removed lines |
| CarritoDaoImpl.Total | labx_api/app/build/kspCaches/debug/backups/java/byRounds/1/com/example/labx/data/local/dao/CarritoDao_Impl.java:246-278 | The total is null exactly for an empty cart, and otherwise the sum of `precio * cantidad` |
| CarritoDaoImpl.PrimeraDe | labx_api/app/build/kspCaches/debug/backups/java/byRounds/1/com/example/labx/data/local/dao/CarritoDao_Impl.java:283 | `LIMIT 1` finds the first line of the product in row id order, and nothing exactly when there is none |
| CarritoDaoImpl.BuscarPorProducto | labx_api/app/build/kspCaches/debug/backups/java/byRounds/1/com/example/labx/data/local/dao/CarritoDao_Impl.java:281-334 | The lookup by product is null exactly when the product has no line, and otherwise gives one of its lines |
| CarritoDaoImpl.CarritoDao.constructor | labx_api/app/build/generated/ksp/debug/java/com/example/labx/data/local/AppDatabase_Impl.java:43 | A new cart table is empty, with counter 0 |
| CarritoDaoImpl.CarritoDao.Insertar | labx_api/app/build/kspCaches/debug/backups/java/byRounds/1/com/example/labx/data/local/dao/CarritoDao_Impl.java:95-110 | The new table and the outcome are those of `InsertarFila` |
| CarritoDaoImpl.CarritoDao.Vaciar | labx_api/app/build/kspCaches/debug/backups/java/byRounds/1/com/example/labx/data/local/dao/CarritoDao_Impl.java:113-133 | No lines remain; the counter is kept |
| CarritoDaoImpl.CarritoDao.ActualizarCantidad | labx_api/app/build/kspCaches/debug/backups/java/byRounds/1/com/example/labx/data/local/dao/CarritoDao_Impl.java:136-161 | The lines become `ConCantidad` of the old lines |
| CarritoDaoImpl.CarritoDao.EliminarProducto | labx_api/app/build/kspCaches/debug/backups/java/byRounds/1/com/example/labx/data/local/dao/CarritoDao_Impl.java:164-187 | The lines become `SinProducto` of the old lines |
| CarritoDaoImpl.CarritoDao.ObtenerTodo | labx_api/app/build/kspCaches/debug/backups/java/byRounds/1/com/example/labx/data/local/dao/CarritoDao_Impl.java:190-243 | The cursor loop returns every line, in row id order |
| CarritoDaoImpl.CarritoDao.ObtenerTotal | labx_api/app/build/kspCaches/debug/backups/java/byRounds/1/com/example/labx/data/local/dao/CarritoDao_Impl.java:246-278 | The answer is `Total` of the current table |
| CarritoDaoImpl.CarritoDao.ObtenerPorProductoId | labx_api/app/build/kspCaches/debug/backups/java/byRounds/1/com/example/labx/data/local/dao/CarritoDao_Impl.java:281-334 | The answer is `BuscarPorProducto` on the current table |
| Mapeadores.PrecioDe | labx_api/app/src/main/java/com/example/labx/data/remote/dto/ProductoDto.kt:57 | The price is the text read as a number, or 0.0 when the text is not a number |
| Mapeadores.CategoriaDe | labx_api/app/src/main/java/com/example/labx/data/remote/dto/ProductoDto.kt:60 | The category is the API's value, or "General" when it is null |
| Mapeadores.AModelo | labx_api/app/src/main/java/com/example/labx/data/remote/dto/ProductoDto.kt:51-64 | Id, name, description, image and stock are copied; the price is read from text; the category is defaulted |
| Mapeadores.AModeloConStock | labx_api/app/src/main/java/com/example/labx/data/remote/dto/ProductoDto.kt:70-80 | The result is `aModelo` with only the stock replaced |
| Mapeadores.ADto | labx_api/app/src/main/java/com/example/labx/data/remote/dto/ProductoDto.kt:86-96 | Every field is copied, the category is always present, and the price is written with `Double.toString()` |
| Mapeadores.AModelos | labx_api/app/src/main/java/com/example/labx/data/remote/dto/ProductoDto.kt:98-100 | Each element is mapped, in the same order |
| Mapeadores.ADtos | labx_api/app/src/main/java/com/example/labx/data/remote/dto/ProductoDto.kt:102-104 | Each element is mapped, in the same order |
| Mapeadores.AModeloADto | labx_api/app/src/main/java/com/example/labx/data/remote/dto/ProductoDto.kt:51-96 | Sending a product and reading it back keeps every field but the price, and the whole product when the price text reads back as the same number |
| Mapeadores.AModeloADtoPrecioEntero | labx_api/app/src/main/java/com/example/labx/data/remote/dto/ProductoDto.kt:51-96 | A product with a whole-number price survives the round trip unchanged |
| Mapeadores.ADtoAModelo | labx_api/app/src/main/java/com/example/labx/data/remote/dto/ProductoDto.kt:51-96 | An API record with a category and with a price text in `toString()` form survives the opposite round trip |
| Mapeadores.CategoriaNulaEsGeneral | labx_api/app/src/main/java/com/example/labx/data/remote/dto/ProductoDto.kt:60 | A null category becomes "General", and is sent back as "General" |
| Mapeadores.PrecioIlegible | labx_api/app/src/main/java/com/example/labx/data/remote/dto/ProductoDto.kt:57 | A price text that is not a number gives price 0, and the rest of the record is still mapped |
| Mapeadores.PrecioDeEjemplo | labx_api/app/src/main/java/com/example/labx/data/remote/dto/ProductoDto.kt:28 | The documented price text "15000.00" reads as 15000 |
| Mapeadores.AModelosADtos | labx_api/app/src/main/java/com/example/labx/data/remote/dto/ProductoDto.kt:98-104 | A list sent and read back is the same list when each price survives its own round trip |
| Inicializador.SemillasBienFormadas | labx_api/app/src/main/java/com/example/labx/data/local/ProductoInicializador.kt:31-138 | There are ten seeds with ids 1 to 10 in order, all distinct, each with stock and a positive price |
| Inicializador.Sembrar | labx_api/app/src/main/java/com/example/labx/data/local/ProductoInicializador.kt:29-141 | Seeding keeps the table well formed |
| Inicializador.SembrarConProductoUno | labx_api/app/src/main/java/com/example/labx/data/local/ProductoInicializador.kt:29-30 | With product 1 present nothing changes |
| Inicializador.SembrarCargaSemillas | labx_api/app/src/main/java/com/example/labx/data/local/ProductoInicializador.kt:31-141 | With product 1 missing, rows 1 to 10 afterwards are the seeds |
| Inicializador.SembrarConservaOtras | labx_api/app/src/main/java/com/example/labx/data/local/ProductoInicializador.kt:141 | Rows with ids outside 1 to 10 are untouched |
| Inicializador.SembrarIdempotente | labx_api/app/src/main/java/com/example/labx/data/local/ProductoInicializador.kt:29-141 | Seeding twice is the same as seeding once |
| Inicializador.InicializarProductos | labx_api/app/src/main/java/com/example/labx/data/local/ProductoInicializador.kt:22-144 | The lookup-then-insert on the DAO gives `Sembrar` of the old table |
| Repositorio.ProductoSegun | labx_api/app/src/main/java/com/example/labx/data/repository/ProductoRepositoryImpl.kt:164-190 | A 2xx answer with a body is mapped with `aModelo`; any other outcome gives the local row as a product, or null when there is none |
| Repositorio.LeerTrasCrearSinRed | labx_api/app/src/main/java/com/example/labx/data/repository/ProductoRepositoryImpl.kt:220-248 | Offline, a product just created is found again under its id with all its fields |
| Repositorio.LeerTrasActualizarSinRed | labx_api/app/src/main/java/com/example/labx/data/repository/ProductoRepositoryImpl.kt:259-280 | Offline, a lookup after an update sees the new fields |
| Repositorio.LeerTrasEliminarSinRed | labx_api/app/src/main/java/com/example/labx/data/repository/ProductoRepositoryImpl.kt:291-311 | Offline, a lookup after a delete finds nothing |
| Repositorio.ProductoRepositorio.constructor | labx_api/app/src/main/java/com/example/labx/data/repository/ProductoRepositoryImpl.kt:41 | A new repository writes through the given DAO and has sent no request |
| Repositorio.ProductoRepositorio.UsarDatosLocales | labx_api/app/src/main/java/com/example/labx/data/repository/ProductoRepositoryImpl.kt:136-152 | The local fallback gives every stored product once, in name order |
| Repositorio.ProductoRepositorio.ObtenerProductos | labx_api/app/src/main/java/com/example/labx/data/repository/ProductoRepositoryImpl.kt:70-126 | One list request is sent; a 2xx answer with a body gives the mapped list; any other outcome gives the local listing; the table is not written; a 2xx answer with an empty list gives the empty catalog even when the table has products |
| Repositorio.ProductoRepositorio.ObtenerProductoPorId | labx_api/app/src/main/java/com/example/labx/data/repository/ProductoRepositoryImpl.kt:164-190 | One request for the id is sent; the answer is `ProductoSegun` of the outcome and the local row; the table is not written |
| Repositorio.ProductoRepositorio.InsertarProductos | labx_api/app/src/main/java/com/example/labx/data/repository/ProductoRepositoryImpl.kt:200-204 | The products go to the table as rows, with no request |
| Repositorio.ProductoRepositorio.InsertarProducto | labx_api/app/src/main/java/com/example/labx/data/repository/ProductoRepositoryImpl.kt:220-248 | One create request with the product's record is sent; whatever the outcome the product is inserted locally and its local id returned |
| Repositorio.ProductoRepositorio.ActualizarProducto | labx_api/app/src/main/java/com/example/labx/data/repository/ProductoRepositoryImpl.kt:259-280 | One update request is sent, and the table is updated whatever the outcome |
| Repositorio.ProductoRepositorio.EliminarProducto | labx_api/app/src/main/java/com/example/labx/data/repository/ProductoRepositoryImpl.kt:291-311 | One delete request is sent, and the row is deleted whatever the outcome |
| Repositorio.ProductoRepositorio.EliminarTodosLosProductos | labx_api/app/src/main/java/com/example/labx/data/repository/ProductoRepositoryImpl.kt:319-322 | Every row is deleted, with no request |
| CarritoPantalla.AgruparMilesPaso | labx_api/app/src/main/java/com/example/labx/ui/screen/CarritoScreen.kt:333 | Past three digits, the chain groups all but the last three and appends a dot and those three |
| CarritoPantalla.AgruparMilesEsAgrupado | labx_api/app/src/main/java/com/example/labx/ui/screen/CarritoScreen.kt:333 | The reverse, chunk, join, reverse chain equals splitting off the last three characters behind a dot, again and again |
| CarritoPantalla.SinPuntosAgrupado | labx_api/app/src/main/java/com/example/labx/ui/screen/CarritoScreen.kt:333 | Removing the separators from a grouped text gives back the text |
| CarritoPantalla.PuntoEnAgrupado | labx_api/app/src/main/java/com/example/labx/ui/screen/CarritoScreen.kt:333 | A grouped text has a dot exactly when more than three characters were grouped |
| CarritoPantalla.GruposDeAgrupado | labx_api/app/src/main/java/com/example/labx/ui/screen/CarritoScreen.kt:333 | Split at the dots, the first group has one to three characters and every other group exactly three |
| CarritoPantalla.FormatearPrecio | labx_api/app/src/main/java/com/example/labx/ui/screen/CarritoScreen.kt:331-334 | The text starts with two literal dollar signs |
| CarritoPantalla.FormatearPrecioDigitos | labx_api/app/src/main/java/com/example/labx/ui/screen/CarritoScreen.kt:333 | After the prefix, deleting the dots gives `toString()` of the truncated price, for every price |
| CarritoPantalla.FormatearPrecioGrupos | labx_api/app/src/main/java/com/example/labx/ui/screen/CarritoScreen.kt:333 | For a non-negative price the digits are in groups of three counted from the right; the leading group has one to three digits |
| CarritoPantalla.FormatearPrecioSeparador | labx_api/app/src/main/java/com/example/labx/ui/screen/CarritoScreen.kt:333 | For a non-negative price a dot appears exactly when the truncated value is 1000 or more, so 0 to 999 have none |
| CarritoPantalla.FormatearPrecioNegativo | labx_api/app/src/main/java/com/example/labx/ui/screen/CarritoScreen.kt:333 | As written, -123 is shown as "$$-.123" |
| CarritoPantalla.FormatearPrecioConSigno | labx_api/app/src/main/java/com/example/labx/ui/screen/CarritoScreen.kt:331-334 | The corrected text also starts with two dollar signs |
| CarritoPantalla.FormatearPrecioConSignoGrupos | labx_api/app/src/main/java/com/example/labx/ui/screen/CarritoScreen.kt:333 | With the sign kept out of the grouping, every price, negative ones included, is grouped in threes after the sign, and the dots removed give the digits of its absolute value |
| CarritoPantalla.FormatearPrecioConSignoCoincide | labx_api/app/src/main/java/com/example/labx/ui/screen/CarritoScreen.kt:331-334 | For a non-negative price the corrected text is the text as written |
| CarritoPantalla.CantidadAlDisminuir | labx_api/app/src/main/java/com/example/labx/ui/screen/CarritoScreen.kt:264-271 | "-" requests a change exactly when the quantity is above 1, and then asks for one less, never below 1 |
| CarritoPantalla.CantidadAlAumentar | labx_api/app/src/main/java/com/example/labx/ui/screen/CarritoScreen.kt:296 | "+" requests one more, wrapping to the `Int` minimum only from the `Int` maximum |
| CarritoPantalla.AumentarLuegoDisminuir | labx_api/app/src/main/java/com/example/labx/ui/screen/CarritoScreen.kt:264-296 | "-" after "+" gives back the quantity |
| CarritoPantalla.VistaCarrito | labx_api/app/src/main/java/com/example/labx/ui/screen/CarritoScreen.kt:59-96 | The title shows the number of lines; the clear button and the total bar appear exactly for a non-empty cart |
| CarritoPantalla.TituloDistingueTamanos | labx_api/app/src/main/java/com/example/labx/ui/screen/CarritoScreen.kt:59 | Carts of different sizes get different titles |
| AdminPanel.SumaStock | labx_api/app/src/main/java/com/example/labx/ui/screen/AdminPanelScreen.kt:246 | The exact stock sum is not negative when no stock is |
| AdminPanel.SumaStockInt | labx_api/app/src/main/java/com/example/labx/ui/screen/AdminPanelScreen.kt:246 | `sumOf` on `Int` stays within `Int` |
| AdminPanel.SumaStockIntEsEnvuelta | labx_api/app/src/main/java/com/example/labx/ui/screen/AdminPanelScreen.kt:246 | Wrapping after each addition gives the wrapped exact sum |
| AdminPanel.StockTotalExacto | labx_api/app/src/main/java/com/example/labx/ui/screen/AdminPanelScreen.kt:246 | "Stock Total" is the exact sum, and not negative, when all stocks are non-negative and the sum fits |
| AdminPanel.SumaValor | labx_api/app/src/main/java/com/example/labx/ui/screen/AdminPanelScreen.kt:253 | The inventory value is not negative when no price or stock is |
| AdminPanel.Distintas | labx_api/app/src/main/java/com/example/labx/ui/screen/AdminPanelScreen.kt:260 | `distinct()` keeps exactly the values of the list, each once, and is no longer than the list |
| AdminPanel.SinRepetidosCardinal | labx_api/app/src/main/java/com/example/labx/ui/screen/AdminPanelScreen.kt:260 | A list without repeats has as many elements as its set |
| AdminPanel.CategoriasDe | labx_api/app/src/main/java/com/example/labx/ui/screen/AdminPanelScreen.kt:260 | The categories are listed in product order |
| AdminPanel.EstadisticasDe | labx_api/app/src/main/java/com/example/labx/ui/screen/AdminPanelScreen.kt:229-262 | The cards show the product count, the stock sum in `Int` arithmetic, the value truncated to `Int`, and the number of distinct categories |
| AdminPanel.CategoriasAcotadas | labx_api/app/src/main/java/com/example/labx/ui/screen/AdminPanelScreen.kt:260 | There are at most as many categories as products, and at least one as soon as there is a product |
| AdminPanel.ValorInventarioTruncado | labx_api/app/src/main/java/com/example/labx/ui/screen/AdminPanelScreen.kt:253 | With non-negative prices and stocks and a value that fits, "Valor Inventario" is the value rounded down |
| AdminPanel.Textos | labx_api/app/src/main/java/com/example/labx/ui/screen/AdminPanelScreen.kt:253 | There are four cards, and the value card shows one "$" before the number |
| AdminPanel.Paso | labx_api/app/src/main/java/com/example/labx/ui/screen/AdminPanelScreen.kt:143-164 | The delete icon makes its product pending; confirm, cancel and dismiss close the dialog; only a confirm with a pending product reports a deletion, of exactly that product |
| AdminPanel.SoloSeEliminaLoElegido | labx_api/app/src/main/java/com/example/labx/ui/screen/AdminPanelScreen.kt:128-152 | Over any sequence of taps, deletions are only appended, and each deleted product was chosen with a card's delete icon or was already pending |
| AdminPanel.SinConfirmarNoSeElimina | labx_api/app/src/main/java/com/example/labx/ui/screen/AdminPanelScreen.kt:143-164 | Without a confirm, nothing is deleted |
| AdminPanel.ElegirYConfirmar | labx_api/app/src/main/java/com/example/labx/ui/screen/AdminPanelScreen.kt:128-152 | Choosing a product and confirming deletes that product once and closes the dialog |
| AdminPanel.PanelAdmin.constructor | labx_api/app/src/main/java/com/example/labx/ui/screen/AdminPanelScreen.kt:40 | The panel starts with no pending product and no deletion |
| AdminPanel.PanelAdmin.TocarEliminar | labx_api/app/src/main/java/com/example/labx/ui/screen/AdminPanelScreen.kt:128 | The state after the delete icon is `Paso` of the old state |
| AdminPanel.PanelAdmin.Confirmar | labx_api/app/src/main/java/com/example/labx/ui/screen/AdminPanelScreen.kt:150-153 | The state after the confirm button is `Paso` of the old state |
| AdminPanel.PanelAdmin.Cancelar | labx_api/app/src/main/java/com/example/labx/ui/screen/AdminPanelScreen.kt:159 | The state after the cancel button is `Paso` of the old state |
| AdminPanel.PanelAdmin.Descartar | labx_api/app/src/main/java/com/example/labx/ui/screen/AdminPanelScreen.kt:145 | The state after a dismiss is `Paso` of the old state |
| Rutas.RutasDistintas | labx_api/app/src/main/java/com/example/labx/navigation/Rutas.kt:14-23 | The eight route constants are pairwise distinct |
| Rutas.DetalleConId | labx_api/app/src/main/java/com/example/labx/navigation/Rutas.kt:26 | The detail route equals `DETALLE`, a slash and the id, as the navigation graph builds it by hand |
| Rutas.FormularioEditarSustituye | labx_api/app/src/main/java/com/example/labx/navigation/Rutas.kt:23-27 | The edit route is the form route with `{productoId}` replaced by the id |
| Rutas.AgregarEsEditarMenosUno | labx_api/app/src/main/java/com/example/labx/ui/navigation/NavGraph.kt:179 | The add-product route equals the edit route for id -1 |
| Rutas.RutasConIdInyectivas | labx_api/app/src/main/java/com/example/labx/navigation/Rutas.kt:26-27 | Different ids give different detail routes and different edit routes |
| Rutas.DetalleNoEsFija | labx_api/app/src/main/java/com/example/labx/navigation/Rutas.kt:14-26 | A detail route is never one of the fixed routes |

## Left out

- Room's machinery is not modelled: transactions, statement caching, cursor column lookup, `Flow` invalidation and the re-emission of query results after a later write. Each read is modelled as its first answer.
- A query without `ORDER BY` (`SELECT * FROM carrito`) is modelled as row id order, which is what SQLite does for such a table but does not promise.
- HTTP, Retrofit, Gson, coroutines and logging are not modelled. The remote outcome of each call is a parameter, so timeouts and retries are not modelled either.
- `Double` is modelled as an exact real: rounding, NaN, infinities and negative zero are out. `Decimal.ShowDouble` covers only plain decimal notation. Kotlin writes values of 10^7 or more, and non-zero values below 10^-3, in exponent form (`0.0001` is written "1.0E-4", where `ShowDouble` gives "0.0001"), and writes the shortest digits that read back as the same `Double`.
- Decimal.ParseDouble: it accepts what `toDoubleOrNull` accepts in plain decimal notation: characters up to U+0020 at either end, an optional sign, the digits and an optional `f`, `F`, `d` or `D` suffix. It does not accept exponents, hexadecimal, or the words NaN and Infinity, which Kotlin reads as numbers.
- Mapeadores.AModeloADto: the price survives the round trip only where the printed text reads back as the same number. That is proved for whole-number prices, not for every `Double`.
- `ProductoEntity.toProducto()` and `Producto.toEntity()` in the entity file are not part of this model. Both are modelled as field-by-field copies, like the `toEntity` in the seed loader.
- The cart repository that merges lines for the same product, and the cart's `ItemCarrito.subtotal`, are not part of this model.
- Stock, ids and quantities are unbounded integers in the tables. Only the admin panel's stock sum and `CantidadAlAumentar` model `Int` wrap-around.
- Compose layout, colours, images, the tab switch and navigation calls are not modelled. Of the screens, only the values they compute and the delete-dialog state are.
- Rutas.DetalleConId: the argument parsing done by the navigation library (`NavType.IntType`) is not modelled. Routes are shown to be injective instead of parsed back.

## Findings

| source | as written | input that shows it | evidently intended | confidence | as-written member | corrected member |
|---|---|---|---|---|---|---|
| labx_api/app/src/main/java/com/example/labx/ui/screen/CarritoScreen.kt:333 | The minus sign takes part in the reverse-and-chunk grouping, so it can end up as a group of its own | `formatearPrecio(-123.0)` gives "$$-.123" | The sign stays outside the grouping: "$$-123" | not executed; the screen shows negative amounts only for a negative price | CarritoPantalla.FormatearPrecioNegativo | CarritoPantalla.FormatearPrecioConSigno |

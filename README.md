# Restaurant point-of-sale backend, modelled in Dafny

The system is an Express + PostgreSQL backend for a restaurant. Waiters open a
tab (`cuenta`) on a table (`mesa`) and take orders. Each order line
(`pedido`) belongs to one diner (`cliente_nombre`). The kitchen moves lines
through `pendiente → preparando → listo → entregado`. Tables can be merged
under a principal table. A tab is settled with one or more payments (`pagos`),
and settling it frees the principal table and every table merged into it.
Administrators create staff accounts (`usuarios`). Most routes sit behind a
JWT check and a role check. Changes are broadcast over Socket.IO.

## How the model is built

- **The database is one object.** `Store.Db` has four fields:
  - `rows`: every table as a map keyed by id; `pagos` is a sequence in insertion order.
  - `serials`: the SERIAL counters that issue new ids.
  - `clock`: the source of `NOW()` / `CURRENT_TIMESTAMP`.
  - `events`: the Socket.IO broadcasts; one `io.emit` appends one event.
- **Each SQL statement is one `Db` method with an exact contract.** The constraints are those of the DDL in
  `src/scripts/setup.js`: foreign keys, `UNIQUE(username)`, the column defaults, the
  `VARCHAR` and `DECIMAL(10,2)` limits, and the `INTEGER` range of `cantidad` and of every id
  that a handler compares with or stores in an `INTEGER` column. Such an id outside
  -2147483648..2147483647 makes PostgreSQL fail the statement, so the handler answers 500.
  - A statement that violates a constraint fails and changes no row.
  - SERIAL counters still advance on failure, as in PostgreSQL.
  - `Db.Valid()` bundles three invariants, and every method preserves it:
    - referential integrity;
    - unique usernames;
    - at most one `abierta` tab per table.
- **Each HTTP handler is a method.** It composes those statements in the handler's own order.
  - It returns `Status<T>`: `Ok`, `BadRequest(reason)`, `Unauthorized`, `Forbidden`, `NotFound` or
    `InternalError`.
  - `BEGIN` / `COMMIT` / `ROLLBACK` become `Db.Begin` and `Db.Rollback`. `Rollback` restores the rows
    saved at `BEGIN`.
  - Every error path is proved to leave the rows and the event log as they were.
- **Read-only handlers are pure functions over the row maps.** This covers the menu, the table list,
  the kitchen queue and the bill.
  - Each one carries a lemma that says which rows it returns.
  - `ORDER BY` is an insertion sort. Its result is proved sorted and a permutation of the joined rows.
- **Money is integer cents.** Prices and payment amounts are whole numbers of cents (`DECIMAL(10,2)`).
- **Both implementations are modelled.** The handlers under `src/routes/` that `src/index.js` mounts
  are modules `PedidosRoutes`, `MesasRoutes` and `PagosRoutes`. The controllers are modules
  `PedidosController`, `MesasController` and `PagosController`. Of these, only `obtenerCuenta` is
  mounted, by `src/routes/pagos.js:9` (`PagosRoutes.VerCuenta`); `abrirCuenta`, `tomarOrden`,
  `obtenerMesas`, `fusionarMesas` and `procesarPago` are reached by no route. The contracts show
  where the two implementations differ:
  - the mounted `/abrir-cuenta` neither occupies the table nor broadcasts;
  - the mounted `/ordenar` checks neither that the tab is open nor that the product is available;
  - the mounted `/pagar` refuses a paid tab but releases no table.
- **Foreign code is a parameter.** `jwt.verify` is a function parameter
  `verificar: string -> Option<Payload>`. `bcrypt.hash` is a parameter `hash: string -> string`.
- **The middlewares are methods on a `Request` object.** `Request` records the decoded user and how
  many times `next` was called. Each mounted handler first runs `AuthMiddleware.Proteger`, which is
  `verificarToken` followed by `verificarRol(roles)`.

Files: `base.dfy` (Option, truncation), `collections.dfy` (sorted keys,
filtering, insertion sort), `schema.dfy` (rows, events, invariants, row
updates), `store.dfy` (the `Db` class), `orden.dfy` (order validation and
line construction, shared by both order handlers), then one file per source
file.

## Model

| member | source | states |
|---|---|---|
| Base.Truncate | src/routes/pagos.js:26-28 | `substring(0, n)`: the result is a prefix of the input of length min(n, length) |
| Schema.CuentaAbiertaDe | src/controllers/pedidosController.js:43-46 | the id found names an `abierta` tab of that table; none is found only when the table has no open tab |
| Schema.CuentaAbiertaUnica | src/controllers/pedidosController.js:43-53 | with at most one open tab per table, the tab found is the table's open tab |
| Schema.Ocupar | src/controllers/pedidosController.js:64-67 | `UPDATE mesas SET estado='ocupada' WHERE id=$1`: that table becomes `ocupada`; every other table is untouched; no table appears or disappears |
| Schema.Fusionadas | src/controllers/mesasController.js:39-42 | every listed table becomes `ocupada` with the principal as parent; unlisted tables are untouched |
| Schema.Liberadas | src/controllers/pagosController.js:114-121 | the principal and every table whose parent is the principal become `disponible` with no parent; all others are untouched |
| Schema.OcuparKeeps | src/scripts/setup.js:44-50 | occupying a table keeps the store consistent |
| Schema.FusionKeeps | src/scripts/setup.js:48 | merging, when the principal exists or no listed table does, keeps every `mesa_padre_id` pointing at a table |
| Schema.LiberacionKeeps | src/scripts/setup.js:48 | releasing a group keeps the store consistent |
| Schema.CuentaInsertKeeps | src/controllers/pedidosController.js:43-62 | inserting an open tab for an existing table that has no open tab keeps at most one open tab per table |
| Schema.AbiertasTrasInsertar | src/controllers/pedidosController.js:43-62 | adding a tab under a fresh id keeps at most one open tab per table, when its table had no open tab |
| Schema.CuentaPagadaKeeps | src/controllers/pagosController.js:108-111 | marking a tab `pagada` keeps the store consistent |
| Schema.PedidoInsertKeeps | src/scripts/setup.js:73-81 | a line whose tab and product exist keeps the foreign keys of `pedidos` satisfied |
| Schema.PedidoEstadoKeeps | src/controllers/cocinaController.js:35-38 | changing a line's state keeps the store consistent |
| Schema.PagoAppendKeeps | src/scripts/setup.js:83-90 | a payment for an existing tab keeps the foreign key of `pagos` satisfied |
| Schema.UsuarioInsertKeeps | src/scripts/setup.js:33-42 | a user with an existing role and an unused username keeps usernames unique |
| Store.Db.Provision | src/scripts/setup.js:95-111 | after setup the database holds the four roles and the one user `admin` with role 1 and the given hash, the given tables, categories and products, and no tab, line or payment, and satisfies every invariant |
| Store.Db.Begin | src/controllers/pedidosController.js:55 | `BEGIN` reads the clock for this transaction's `NOW()` and changes no row |
| Store.Db.Rollback | src/controllers/pedidosController.js:85 | `ROLLBACK` restores the rows saved at `BEGIN`; the SERIAL counters keep their advance |
| Store.Db.Emit | src/controllers/pedidosController.js:71-77 | `io.emit` appends exactly that event and changes no row |
| Store.Db.InsertCuenta | src/routes/pedidos.js:45-48 | inserts an `abierta` tab with the next id; fails when the table id does not fit `INTEGER` (no id drawn) or the table does not exist (foreign key) |
| Store.Db.OcuparMesa | src/controllers/pedidosController.js:64-67 | succeeds exactly when the id fits `INTEGER`; the rows then become those of `Schema.Ocupar`, and are otherwise unchanged |
| Store.Db.FusionarEn | src/controllers/mesasController.js:38-42 | succeeds exactly when every id fits `INTEGER` and the principal exists or no listed table does (the `mesa_padre_id` foreign key); on success the mesas become `Fusionadas` |
| Store.Db.LiberarMesas | src/controllers/pagosController.js:115-120 | the rows become those of `Schema.Liberadas` |
| Store.Db.InsertPedido | src/routes/pedidos.js:81-85 | inserts a `pendiente` line with the next id; fails exactly when an id does not fit `INTEGER`, the tab or product is missing, or the quantity or name does not fit its column; an out-of-range parameter draws no id |
| Store.Db.SetPedidoEstado | src/controllers/cocinaController.js:35-38 | fails exactly when the id does not fit `INTEGER`; otherwise only that line's state changes, and no line is found exactly when the id is absent |
| Store.Db.InsertPago | src/controllers/pagosController.js:100-104 | appends one payment with the next id; fails exactly when the tab id does not fit `INTEGER` (no id drawn), the tab is missing, or a value does not fit its column |
| Store.Db.MarcarPagada | src/controllers/pagosController.js:108-111 | only that tab's state changes, to `pagada` |
| Store.Db.InsertUsuario | src/controllers/usuariosController.js:24-29 | inserts an active user with the next id; fails exactly when the role id does not fit `INTEGER` (no id drawn), the role is missing, the username is taken, or a field is too long |
| Orden.PlatilloErrores | src/controllers/pedidosController.js:102-106 | no message exactly when the item has positive product id and quantity and a non-empty diner name |
| Orden.PlatillosErrores | src/controllers/pedidosController.js:101-107 | no message exactly when every item is valid |
| Orden.OrdenErrores | src/controllers/pedidosController.js:99-108 | no message exactly when the order is valid; an empty item list and a non-positive tab id are each reported |
| Orden.Lineas | src/controllers/pedidosController.js:147-155 | one `pendiente` line per item, in input order, copying tab, product, quantity and diner, with consecutive ids |
| Orden.AgregadosKeys | src/controllers/pedidosController.js:147-155 | after the inserts, the lines are exactly the old ones plus the new ids |
| Orden.AgregadosExtended | src/controllers/pedidosController.js:147-155 | every inserted line is stored as returned, and every line that existed before is unchanged |
| Orden.InsertadosIds | src/controllers/pedidosController.js:147-155 | the inserted lines carry consecutive ids starting at the counter |
| Orden.Detalles | src/controllers/pedidosController.js:159-172 | one kitchen detail per inserted line, in order, with its line id and the tab's table number |
| PedidosController.ObtenerMenu | src/controllers/pedidosController.js:10-24 | the result is a permutation of the joined available products, sorted by category name then product name |
| PedidosController.MenuExacto | src/controllers/pedidosController.js:10-20 | the menu holds exactly the available products whose category exists, each with its category's name |
| PedidosController.MenuUnaVez | src/controllers/pedidosController.js:10-20 | the menu has one row per listed product, and each listed product's row occurs exactly once |
| PedidosController.CuentaErrores | src/controllers/pedidosController.js:35-37 | no message exactly when `mesa_id` is positive |
| PedidosController.AbrirCuenta | src/controllers/pedidosController.js:39-94 | 400 with no change for a bad id; 500 with no change for an id beyond `INTEGER`; 400 carrying the open tab's id when the table has one; otherwise inserts one open tab, occupies the table and broadcasts `ocupacion_individual`; a missing table rolls back |
| PedidosController.PrimerRechazo | src/controllers/pedidosController.js:132-145 | the index of the first item whose product is missing or unavailable, or whose values do not fit the columns; every earlier item passes |
| PedidosController.InsertarPlatillo | src/controllers/pedidosController.js:134-155 | one loop iteration: checks the product, then inserts one line, extending the inserted prefix by exactly that line |
| PedidosController.InsertarLineas | src/controllers/pedidosController.js:129-156 | the loop succeeds exactly when no item is rejected; it then inserted `Lineas` and nothing else |
| PedidosController.TomarOrden | src/controllers/pedidosController.js:110-201 | 400 for invalid input; 500 with no change for a tab id beyond `INTEGER`; 400 for a tab that is not open; the first bad product (a product id beyond `INTEGER` is a 500) gives 400 naming it, with every line of the call rolled back; on success the lines of `Lineas` are added, old lines are unchanged, and one `nueva_orden_cocina` is broadcast |
| PedidosRoutes.Menu | src/routes/pedidos.js:8-23 | 401 or 403 from the middlewares; otherwise the controller's menu |
| PedidosRoutes.AbrirCuenta | src/routes/pedidos.js:25-60 | roles 1 and 3; 400 for a bad id or an already open tab; 500 with no change for an id beyond `INTEGER`; on success one tab is inserted, the table is NOT occupied and no event is broadcast |
| PedidosRoutes.PrimerFallo | src/routes/pedidos.js:80-87 | the first item whose insert fails (missing tab or product, oversize value); every earlier item inserts |
| PedidosRoutes.InsertarItem | src/routes/pedidos.js:81-86 | one loop iteration, inserting one line without any open-tab or availability check |
| PedidosRoutes.InsertarItems | src/routes/pedidos.js:76-87 | the loop succeeds exactly when no insert fails; it then inserted `Lineas` and nothing else |
| PedidosRoutes.ProductosDeLineas | src/routes/pedidos.js:89-96 | after a successful loop every inserted line's product exists, so the kitchen join finds every line |
| PedidosRoutes.Ordenar | src/routes/pedidos.js:62-118 | roles 1 and 3; 400 for invalid input; succeeds exactly when every insert does, even for a paid tab or an unavailable product; any failure rolls back every line; success broadcasts the table number of the tab |
| PagosController.Filas | src/controllers/pagosController.js:23-40 | the tab's lines that join a product; empty exactly when the tab has none |
| PagosController.LineasDe | src/controllers/pagosController.js:34-36 | exactly the ids of the lines of that tab whose product exists |
| PagosController.DelCliente | src/controllers/pagosController.js:36-37 | exactly the rows of one diner, each as often as in the tab, in the tab's order |
| PagosController.Clientes | src/controllers/pagosController.js:37 | `GROUP BY cliente_nombre`: each diner who ordered appears once, and no one else |
| PagosController.Conceptos | src/controllers/pagosController.js:27-33 | one detail entry per row, entry i carrying row i's dish, quantity, unit price and subtotal |
| PagosController.GrupoDe | src/controllers/pagosController.js:24-33 | a diner's `total_a_pagar` is Σ precio × cantidad over that diner's own lines, and equals the sum of its detail, whose entry i is that diner's line i |
| PagosController.DetalleSuma | src/controllers/pagosController.js:26 | Σ over the detail entries equals Σ precio × cantidad over the rows |
| PagosController.Grupos | src/controllers/pagosController.js:23-38 | one group per listed diner, in order |
| PagosController.PartirPorCliente | src/controllers/pagosController.js:42-47 | splitting the rows by diner loses nothing: the group totals add up to Σ precio × cantidad over all rows |
| PagosController.ObtenerCuenta | src/controllers/pagosController.js:8-60 | 500 exactly when the id does not fit `INTEGER`; otherwise 404 exactly when the tab is absent; otherwise reports the tab's id and state, and `gran_total` is Σ precio × cantidad over its lines; no lines gives an empty breakdown and total 0 |
| PagosController.CadaClienteListado | src/controllers/pagosController.js:37 | every row's diner is among the groups |
| PagosController.CuentasSeparadas | src/controllers/pagosController.js:23-38 | the groups are the diners who ordered, each once, and each group's total is Σ precio × cantidad over that diner's lines of the tab, with one detail entry per such line |
| PagosController.GruposDeClientes | src/controllers/pagosController.js:24-37 | the groups carry the diners' names in order, and each group's total is Σ precio × cantidad over that diner's lines, with one detail entry per such line |
| PagosController.PagoInErrores | src/controllers/pagosController.js:68-72 | no message exactly when the payment has a non-empty name, a positive amount and method `efectivo` or `terminal` |
| PagosController.PagosInErrores | src/controllers/pagosController.js:67-73 | no message exactly when every payment is valid |
| PagosController.PagoErrores | src/controllers/pagosController.js:65-74 | no message exactly when the request is valid; an empty list and a non-positive id are each reported |
| PagosController.Registros | src/controllers/pagosController.js:99-105 | one payment row per input payment, in order |
| PagosController.PrimerPagoFallido | src/controllers/pagosController.js:99-105 | the first payment whose values do not fit the columns; every earlier one inserts |
| PagosController.RegistrarPago | src/controllers/pagosController.js:100-104 | one loop iteration, appending one payment row |
| PagosController.RegistrarPagos | src/controllers/pagosController.js:99-105 | succeeds exactly when every payment fits; then exactly `Registros` was appended |
| PagosController.MesaDeCuentaPositiva | src/controllers/pagosController.js:96 | a tab's table id is a real id, so `if (mesaPrincipalId)` always holds |
| PagosController.ProcesarPago | src/controllers/pagosController.js:79-148 | 400 for invalid input; 500 with no new id for a tab id beyond `INTEGER`; 404 for an absent tab; otherwise, with no double-payment check and no comparison with the bill, appends the payments, marks the tab `pagada`, releases the principal table and its merged tables, and broadcasts `liberacion`; failures roll back |
| PagosRoutes.VerCuenta | src/routes/pagos.js:9 | roles 1, 2 and 3; then exactly the controller's bill, including its 500 for an id beyond `INTEGER` |
| PagosRoutes.NormalizarReferencia | src/routes/pagos.js:27-29 | null exactly when the reference is absent or empty; otherwise a prefix of at most 200 characters, unchanged when already short |
| PagosRoutes.Pagar | src/routes/pagos.js:10-107 | no token check; 400 with no change for missing data; 500 with no new id for an id beyond `INTEGER`; 404 for an absent tab; 400 for a paid tab; otherwise exactly one payment is appended and the tab becomes `pagada`; no table is released and nothing is broadcast |
| MesasController.FilasDeMesa | src/controllers/mesasController.js:16-17 | `LEFT JOIN`: at least one row per table, each carrying that table |
| MesasController.ConCuentas | src/controllers/mesasController.js:17 | one joined row per open tab of the table, each carrying that table |
| MesasController.ObtenerMesas | src/controllers/mesasController.js:5-26 | a permutation of the joined rows, sorted by table number |
| MesasController.AlMasUnaAbierta | src/controllers/mesasController.js:17 | under the one-open-tab rule a table has at most one open tab |
| MesasController.UnaFilaPorMesa | src/controllers/mesasController.js:17 | a table with at most one open tab yields exactly one row, carrying its open tab or null |
| MesasController.UnaPorMesa | src/controllers/mesasController.js:8-18 | one row per listed table |
| MesasController.TodasUnaFila | src/controllers/mesasController.js:17 | every listed table yields its single row |
| MesasController.UnirUnaPorMesa | src/controllers/mesasController.js:16-17 | the join equals one row per table |
| MesasController.MesasExactas | src/controllers/mesasController.js:8-18 | one row per table: every table appears with its open tab's id or null, and nothing else appears |
| MesasController.OrdenDeUnaPorMesa | src/controllers/mesasController.js:18 | the sorted list is a permutation of one row per table |
| MesasController.UnaPorMesaMiembros | src/controllers/mesasController.js:8-18 | the per-table rows are exactly the rows of the existing tables |
| MesasController.IdsErrores | src/controllers/mesasController.js:30 | no message exactly when every listed id is positive |
| MesasController.FusionErrores | src/controllers/mesasController.js:28-31 | no message exactly when the principal is positive and the list is non-empty with positive ids; each failure is reported |
| MesasController.FusionResultado | src/controllers/mesasController.js:38-42 | the principal becomes `ocupada` with its parent untouched; listed tables become `ocupada` under the principal; every other table is unchanged |
| MesasController.LiberarDeshaceFusion | src/controllers/pagosController.js:114-121 | settling the principal's tab after a merge frees the principal and every merged table |
| MesasController.FusionarMesas | src/controllers/mesasController.js:33-55 | 400 with no change for invalid input; 500 with no change when an id does not fit `INTEGER`; otherwise the mesas become `Fusion` and `fusion_y_ocupacion` is broadcast; a failing update rolls back both |
| MesasRoutes.MesasPorId | src/routes/mesas.js:10 | every table once, and nothing else |
| MesasRoutes.MesasDe | src/routes/mesas.js:10 | the rows of the given tables, one each: every listed table's row appears and every row is some table's |
| MesasRoutes.ListaMesas | src/routes/mesas.js:10 | `SELECT * ... ORDER BY numero`: a permutation of the tables, sorted by number |
| MesasRoutes.ListaCompleta | src/routes/mesas.js:8-11 | the list has one entry per table and holds every table and nothing else |
| MesasRoutes.Listar | src/routes/mesas.js:8-16 | roles 1, 2 and 3; then the list of tables without tab information |
| MesasRoutes.Fusionar | src/routes/mesas.js:23-60 | roles 1 and 2 only; then the same validation, `INTEGER` range failure, updates, rollback and broadcast as the controller |
| CocinaController.ComandaDe | src/controllers/cocinaController.js:8-13 | the queue row of a line carries its id and a kitchen state |
| CocinaController.ColaIds | src/controllers/cocinaController.js:10-14 | exactly the ids of the lines in `pendiente` or `preparando` that survive the three joins, strictly increasing |
| CocinaController.Comandas | src/controllers/cocinaController.js:8-13 | the rows of the given lines, one per line in the given order: row i is line i's row, and every row is some waiting line's row |
| CocinaController.ComandasPorId | src/controllers/cocinaController.js:7-14 | one row per waiting line in id order: every waiting line appears, and every row belongs to a waiting line |
| CocinaController.ObtenerPendientes | src/controllers/cocinaController.js:5-23 | a permutation of the waiting rows, oldest `creado_en` first |
| CocinaController.PendientesExactos | src/controllers/cocinaController.js:7-16 | with intact references, the queue holds exactly the lines in `pendiente` or `preparando`, one row per such line |
| CocinaController.PendientesUnaVez | src/controllers/cocinaController.js:7-16 | every waiting line's row occurs in the queue exactly once |
| CocinaController.EstadoDe | src/controllers/cocinaController.js:25-29 | `estadoSchema` accepts only states after `pendiente` |
| CocinaController.EstadoDeNombre | src/controllers/cocinaController.js:26 | the schema accepts exactly the names of `preparando`, `listo` and `entregado`, and reads each as that state |
| CocinaController.CambiarEstadoPedido | src/controllers/cocinaController.js:31-64 | 400 with no change for another state; 500 with no change for an id beyond `INTEGER`; 404 with no change for an unknown line; otherwise only that line's state changes, whatever it was before; `pedido_listo_para_entregar` with table number, diner and line id is broadcast exactly when the new state is `listo` |
| UsuariosController.UsuarioErrores | src/controllers/usuariosController.js:5-10 | no message exactly when every rule holds; each rule's message appears exactly when that rule fails |
| UsuariosController.CrearUsuario | src/controllers/usuariosController.js:12-43 | 400 with no change for invalid input or a taken username; otherwise exactly one active user is added, storing hash(password), and the response omits the hash; a missing role is a 500 with no user added |
| AuthMiddleware.Buscar | src/middlewares/authMiddleware.js:4 | finds the first occurrence of the pattern at or after a position, or reports that none exists |
| AuthMiddleware.QuitarPrimera | src/middlewares/authMiddleware.js:4 | `String.replace` with a string pattern never lengthens the text |
| AuthMiddleware.QuitarSinOcurrencia | src/middlewares/authMiddleware.js:4 | without an occurrence, `replace` returns the text unchanged |
| AuthMiddleware.QuitarPrimeraOcurrencia | src/middlewares/authMiddleware.js:4 | `replace` removes exactly the first occurrence and keeps the rest |
| AuthMiddleware.TokenDeBearer | src/middlewares/authMiddleware.js:4 | `"Bearer " + t` yields exactly the token t |
| AuthMiddleware.TokenDe | src/middlewares/authMiddleware.js:4 | the token is absent exactly when the header is |
| AuthMiddleware.Request.constructor | src/middlewares/authMiddleware.js:3 | a new request carries its header, no user, and no `next` call yet |
| AuthMiddleware.VerificarToken | src/middlewares/authMiddleware.js:3-17 | 401 for an absent or empty token and for a rejected token; otherwise sets `req.usuario` to the payload and calls `next` exactly once |
| AuthMiddleware.VerificarRol | src/middlewares/authMiddleware.js:19-26 | calls `next` exactly when a user is present and its role is listed; otherwise 403; the user is untouched |
| AuthMiddleware.Proteger | src/middlewares/authMiddleware.js:3-26 | the handler runs exactly when the token verifies and the role is listed; 401 when the token is missing or rejected; 403 when the role is not listed |

## Left out

- Express routing, HTTP plumbing, JSON shapes and `console` logging are left out. The message texts are kept only where they are part of a 400 body.
- `src/index.js` is left out; Socket.IO is modelled only as the event log.
  - An absent `io` is not modelled: the controllers guard `if (io)`, and the model always broadcasts.
  - The model also broadcasts where a mounted route would crash on a missing `io` (src/routes/pedidos.js:100-101).
- `src/routes/cocina.js` and `src/routes/usuarios.js` are not modelled. They only mount the kitchen controller for roles 1 and 4, and user creation for role 1, behind `AuthMiddleware.Proteger`.
- `src/routes/auth.js` (login) is not part of this model. It is `bcrypt.compare` followed by `jwt.sign`.
- `jwt.verify` and `bcrypt.hash` are opaque function parameters.
  - `CrearUsuario` stores `hash(password)` and does not model bcrypt's random salt.
  - So it cannot state that the hash differs from the plaintext.
- Concurrency is not modelled; each handler runs as one atomic step. Two consequences:
  - the open-tab check runs before `BEGIN` in both `abrirCuenta` versions;
  - `BEGIN` / `COMMIT` / `ROLLBACK` go through the pool, not a pinned client.
- Store.Db.Rollback: a `ROLLBACK` issued after a validation error, with no transaction open, is a no-op and is not modelled.
- Store.Db.Begin: the clock also ticks on paths that later abort. Only the order of timestamps matters in the model.
- Timestamps are natural numbers from a per-database clock, not wall-clock time. Lines inserted by one order share one `creado_en`; the kitchen queue is proved sorted by it, not ordered among equals.
- Result order:
  - rows the SQL leaves unordered are taken in id order: the bill's `GROUP BY` groups, the kitchen details, and ties under `ORDER BY`;
  - text `ORDER BY` (menu) is compared by code point, as under the C collation.
- `parseFloat` in `gran_total` is not modelled: money is exact integer cents, and the float conversion is out of scope.
- String lengths count Dafny characters. JavaScript and `VARCHAR` count UTF-16 code units and characters respectively.
- Path parameters (`:id`, `:cuenta_id`) are integers. A non-numeric id, which PostgreSQL rejects with a 500, is not modelled.
- Zod reports for a missing field, or for a wrong JSON type, are not modelled. Each field is taken to be present with its declared type, and only the range, length and enum rules are checked.
  - Zod's full error objects are reduced to their messages.
  - Where the schema gives no custom message, zod's default is represented by a fixed text.
- PagosRoutes.Pagar: the `INSERT` in `/pagar` names `referencia` and `fecha_pago`, which the `pagos` DDL lacks, and omits `monto`, which is `NOT NULL` (src/scripts/setup.js:83-90). The model lets the insert succeed, with no amount, and stores the reference and timestamp.
  - The only storage failure it keeps is `metodo_pago` longer than the 50 characters of its column. The route truncates to 200 characters, not 50.
- `cuenta_id = Number(cuenta_id)` in `/pagar` is taken as already numeric; JavaScript truthiness is modelled only for 0 and the empty string.
- PagosController.ProcesarPago: a tab whose `mesa_id` is `NULL` (`ON DELETE CASCADE` makes this unreachable in practice) is not modelled. Every tab refers to an existing table, so the release always runs.
- CocinaController.CambiarEstadoPedido: a tab whose table is missing, which makes the source throw after its update has already been applied, cannot happen under the store's referential invariant and is not modelled.
- Of the setup script (`src/scripts/setup.js`), the DDL gives the defaults, constraints and column limits, and `Store.Db.Provision` models its seed rows: the four roles and the user `admin`. The tables, categories and products are parameters, since no seed of them is part of this model.
- SERIAL sequences are unbounded in the model: inserting after id 2147483647 has been issued does not fail, and the ids of tabs, lines and users may exceed the `INTEGER` range.

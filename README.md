# Storefront back end: orders, tasks, users and the product catalogue

This project models the service layer of a small Spring/Kotlin storefront API. It covers four services:

- **PedidoService**: places orders, changes their status, deletes them (admin) and cancels them (self).
- **TareaService**: creates, updates and deletes to-do tasks.
- **UsuarioService**: registers users and looks them up for login.
- **ProductoService**: maintains the product catalogue.

Each service method is a chain of guard checks followed by in-place updates to keyed stores. Every check in these services runs before anything is written. So a call that fails leaves every store as it was, and the contracts say so.

## Layout

- `model.dfy` (module `Model`) holds the records as the services use them: `Producto`, `Pedido`, `Factura`, `Usuario`, `Tarea`, `LogSistema`. It also holds:
  - the error kinds;
  - `Db`, the database value: products, orders, users and tasks as maps keyed by their ids, plus the append-only log;
  - `IsBlank` (Kotlin's `isBlank`);
  - `Consistent`, which says each record is stored under its own key.
- `pedidos.dfy`, `tareas.dfy`, `usuarios.dfy` and `productos.dfy` have one module per service. Each service operation is a function from `Db` to a `Step`, which pairs the result with the new `Db`. The function's contract states the error cases in the order the source checks them, and the complete new state on success. The lemmas beside them relate one operation to another.
- `backend.dfy` (module `Services`) holds the class `Backend`. Its fields are the five stores. It has one method per state-changing service operation. Each method runs the guard chain and then reassigns the fields, as the source does. Its `ensures` ties the returned value and the new fields to the module function applied to the old state. Every method keeps `Valid()`: records are stored under their own keys, no two orders share an invoice number and no two users share an email. The ones that write the log only append to it.

The environment is passed in as parameters:
- the clock is `now`, an integer in epoch milliseconds;
- each fresh UUID or database id is a parameter, with a precondition that it is not already a key of its store; a fresh invoice number must differ from the invoice number of every stored order (and, on the admin path, from the one the submitted order carries);
- `passwordEncoder.encode` is a function parameter `encode: string -> string`.

Modelling choices where the record declarations and the code disagree:
- Prices and stock are integers. `Producto.kt` declares both as `String`, but the services compare and add them as numbers.
- The fields of `Producto` take the names the services use: `numeroProducto`, `articulo`, `imagenUrl`.
- `Pedido` gets `estado` and `fechaCreacion`, which the service reads and writes but `Pedido.kt` does not declare.
  - `estado` is `None` until someone sets it. The self path never sets it. The admin path keeps the one the submitted order carries.
  - `fechaCreacion` is the time of the insert.
- Products are looked up by key. `findProductosBynumeroProducto` is not declared in `ProductoRepository.kt`.
- `Error` adds `Internal` to NotFound, BadRequest, Unauthorized and Conflict. `Internal` stands for the unchecked exceptions the exception handler turns into a 500 error: a `!!` on a null field (`insertTarea`, `loadUserByUsername`) and `first()` on an empty list (`isUserOwner`).

Where the system's design description and the code disagree, this model follows the code:
- an order covers one product, not a set of products;
- a self order does not first look up the caller;
- `updateEstadoPedido` accepts any string and checks neither role nor ownership;
- neither delete nor self-cancel writes an audit entry.

Stock conservation is stated with `Pedidos.Unidades`: a product's stock plus the number of stored orders for it. The lemmas `*ConservaUnidades` show that every order operation leaves this number unchanged, whether the call succeeds or fails. Updating or deleting a product does not preserve it: `updateProducto` overwrites stock without any range check, which `Productos.UpdateNoCompruebaRangos` exhibits.

## Model

| member | source | states |
|---|---|---|
| Pedidos.VerificarPlazoCancelacion | src/main/kotlin/com/es/TFG/service/PedidoService.kt:185-193 | the window check passes exactly when now - fechaCreacion <= 259,200,000 ms (three days, the boundary included); otherwise BadRequest |
| Pedidos.AjustarStock | src/main/kotlin/com/es/TFG/service/PedidoService.kt:48-50 | only the one product changes, its stock by delta and its update time to now; the key set and every other product are unchanged |
| Pedidos.InsertPedidoSelf | src/main/kotlin/com/es/TFG/service/PedidoService.kt:38-80 | missing product: NotFound, nothing changed; stock <= 0: BadRequest, nothing changed; otherwise stock of that product -1 and no other product touched, one order inserted under the fresh id with caller, catalogue name and price, the product key the catalogue record itself carries, an invoice whose number no stored order carries, stamped now, status unset and creation time now, and exactly one log entry (caller, CREACIÓN PEDIDO, order id); users and tasks untouched; key consistency and unique invoice numbers preserved |
| Pedidos.InsertPedidoAdmin | src/main/kotlin/com/es/TFG/service/PedidoService.kt:82-124 | checks in order: product exists, user exists (both NotFound), stock > 0 (BadRequest), every failure before any write; on success a fresh order id, an invoice number that neither a stored order nor the submitted order carries, stamped now, name and price from the catalogue whatever the input carried, creation time now; product, user and status kept from the input; stock -1, one log entry for the order's user; key consistency and unique invoice numbers preserved |
| Pedidos.UpdateEstadoPedido | src/main/kotlin/com/es/TFG/service/PedidoService.kt:125-131 | missing id: NotFound; otherwise estado becomes the given string unvalidated and nothing else changes |
| Pedidos.FindPedidosByUsuario | src/main/kotlin/com/es/TFG/service/PedidoService.kt:137-138 | returns exactly the stored orders whose usuario is the given name |
| Pedidos.FindAll | src/main/kotlin/com/es/TFG/service/PedidoService.kt:140 | returns every stored order and nothing else |
| Pedidos.FindById | src/main/kotlin/com/es/TFG/service/PedidoService.kt:141-144 | the stored order, or NotFound exactly when the id is absent |
| Pedidos.DeletePedido | src/main/kotlin/com/es/TFG/service/PedidoService.kt:147-161 | missing order: NotFound; order whose product is missing: NotFound and the order stays; otherwise that product's stock +1, the order removed, log, users and tasks unchanged |
| Pedidos.DeletePedidoSelf | src/main/kotlin/com/es/TFG/service/PedidoService.kt:165-183 | checks in order NotFound, owner mismatch (Unauthorized), window over three days (BadRequest), missing product (NotFound); every failure leaves the database unchanged |
| Pedidos.ReservadosInsert | src/main/kotlin/com/es/TFG/service/PedidoService.kt:69 | inserting an order under a fresh id adds one to the count of orders for its product and none to any other |
| Pedidos.ReservadosRemove | src/main/kotlin/com/es/TFG/service/PedidoService.kt:160 | removing an order takes one from the count of orders for its product and none from any other |
| Pedidos.InsertPedidoSelfConservaUnidades | src/main/kotlin/com/es/TFG/service/PedidoService.kt:43-69 | a self order, successful or not, leaves stock plus outstanding orders of every product unchanged |
| Pedidos.InsertPedidoAdminConservaUnidades | src/main/kotlin/com/es/TFG/service/PedidoService.kt:89-109 | an admin order leaves stock plus outstanding orders of every product unchanged |
| Pedidos.UpdateEstadoPedidoConservaUnidades | src/main/kotlin/com/es/TFG/service/PedidoService.kt:125-131 | a status change leaves stock plus outstanding orders of every product unchanged |
| Pedidos.DeletePedidoConservaUnidades | src/main/kotlin/com/es/TFG/service/PedidoService.kt:147-161 | an admin delete leaves stock plus outstanding orders of every product unchanged |
| Pedidos.DeletePedidoSelfConservaUnidades | src/main/kotlin/com/es/TFG/service/PedidoService.kt:165-183 | a self cancel leaves stock plus outstanding orders of every product unchanged |
| Pedidos.CrearYBorrarRestauraStock | src/main/kotlin/com/es/TFG/service/PedidoService.kt:38-161 | a successful self order followed by an admin delete of it succeeds and restores that product's stock and the order store exactly; other products untouched; the log keeps the creation entry |
| Pedidos.BorrarDosVecesEsNotFound | src/main/kotlin/com/es/TFG/service/PedidoService.kt:147-149 | after a successful delete, a second delete of the same id is NotFound and changes nothing |
| Pedidos.CancelarSelfEsBorrarAdmin | src/main/kotlin/com/es/TFG/service/PedidoService.kt:165-183 | a self cancel by the owner within the window is exactly the admin delete, and every successful self cancel is one |
| Pedidos.AdminSinEstadoEsSelf | src/main/kotlin/com/es/TFG/service/PedidoService.kt:82-109 | for a registered user, the admin path given an order naming that user and product and carrying no status gives the same result and state as the user's self order |
| Pedidos.EjemploP001 | src/main/kotlin/com/es/TFG/service/PedidoService.kt:38-161 | product with stock 1 and price 999: an order leaves stock 0 with price 999 copied; deleting it brings stock back to 1 and removes the order |
| Productos.OrElse | src/main/kotlin/com/es/TFG/service/ProductoService.kt:38 | Kotlin's `?:`: the left value when present, otherwise the right |
| Productos.InsertProducto | src/main/kotlin/com/es/TFG/service/ProductoService.kt:17-28 | BadRequest with nothing changed exactly when articulo is null or blank, precio <= 0 or stock < 0; otherwise one product stored under the new key, every other field copied, both timestamps now |
| Productos.FindAllProductos | src/main/kotlin/com/es/TFG/service/ProductoService.kt:30 | returns every stored product and nothing else |
| Productos.FindById | src/main/kotlin/com/es/TFG/service/ProductoService.kt:32-33 | the stored product, or NotFound exactly when the id is absent |
| Productos.Fusionar | src/main/kotlin/com/es/TFG/service/ProductoService.kt:38-43 | articulo, descripcion and imagenUrl keep their old values when the update carries null; precio and stock are always overwritten; key and creation time kept |
| Productos.UpdateProducto | src/main/kotlin/com/es/TFG/service/ProductoService.kt:35-46 | missing id: NotFound, nothing changed; otherwise only that product changes, to the merge of old and new |
| Productos.DeleteProducto | src/main/kotlin/com/es/TFG/service/ProductoService.kt:48-53 | missing id: NotFound; otherwise exactly that product is removed |
| Productos.InsertEntoncesFind | src/main/kotlin/com/es/TFG/service/ProductoService.kt:17-33 | a lookup under the new key returns what insert stored |
| Productos.InsertEntoncesDeleteRestaura | src/main/kotlin/com/es/TFG/service/ProductoService.kt:17-53 | deleting a product just inserted gives back the original database |
| Productos.UpdateIdempotente | src/main/kotlin/com/es/TFG/service/ProductoService.kt:35-46 | applying the same update twice equals applying it once |
| Productos.UpdateNoCompruebaRangos | src/main/kotlin/com/es/TFG/service/ProductoService.kt:38-45 | update stores price 0 and stock -1, which insert would reject |
| Tareas.CampoVacio | src/main/kotlin/com/es/TFG/service/TareaService.kt:25-27 | `x!!.isBlank()`: a null field throws, otherwise the blank test |
| Tareas.InsertTarea | src/main/kotlin/com/es/TFG/service/TareaService.kt:23-51 | titulo, descripcion, usuario tested in that order (null: Internal, blank: BadRequest) before the user lookup (NotFound); any failure leaves the database unchanged; on success one task stored with estado PENDIENTE whatever the input estado |
| Tareas.InsertTareaSelf | src/main/kotlin/com/es/TFG/service/TareaService.kt:52-76 | blank titulo or descripcion: BadRequest, nothing changed; otherwise one task stored with estado PENDIENTE and the caller as owner |
| Tareas.FindAllTareas | src/main/kotlin/com/es/TFG/service/TareaService.kt:77-79 | returns every stored task and nothing else |
| Tareas.FindTareasByUser | src/main/kotlin/com/es/TFG/service/TareaService.kt:82-87 | unknown user: NotFound; otherwise exactly the tasks whose usuario is that name |
| Tareas.UpdateEstado | src/main/kotlin/com/es/TFG/service/TareaService.kt:88-106 | estado other than PENDIENTE/HECHA: BadRequest even when the id is missing; then NotFound; otherwise only estado and fechaActualizacion of that task change |
| Tareas.UpdateEstadoSelf | src/main/kotlin/com/es/TFG/service/TareaService.kt:107-129 | BadRequest, then NotFound, then Unauthorized for another user's task with nothing changed; on success only estado and fechaActualizacion change |
| Tareas.DeleteTarea | src/main/kotlin/com/es/TFG/service/TareaService.kt:131-136 | missing id: NotFound; otherwise only that task is removed |
| Tareas.DeleteTareaSelf | src/main/kotlin/com/es/TFG/service/TareaService.kt:137-145 | NotFound, then Unauthorized with the task left in place; on success only that task is removed |
| Tareas.IsUserOwner | src/main/kotlin/com/es/TFG/service/TareaService.kt:146-148 | true exactly when the task's owner is the given name; a missing task throws |
| Tareas.UpdateSelfEsAdminParaPropietario | src/main/kotlin/com/es/TFG/service/TareaService.kt:88-129 | for the owner the self status change equals the admin one; for a non-owner it is Unauthorized with nothing changed wherever the admin one succeeds |
| Tareas.DeleteSelfEsAdminParaPropietario | src/main/kotlin/com/es/TFG/service/TareaService.kt:131-148 | for the owner the self delete equals the admin delete; a non-owner gets Unauthorized and the task stays |
| Tareas.DeleteDosVecesEsNotFound | src/main/kotlin/com/es/TFG/service/TareaService.kt:131-136 | a second delete of the same task is NotFound |
| Tareas.InsertSelfEsInsertAdmin | src/main/kotlin/com/es/TFG/service/TareaService.kt:23-76 | for a registered, non-blank username, the self insert equals the admin insert of the same fields with that owner, whatever estado is submitted |
| Tareas.InsertEntoncesFindByUser | src/main/kotlin/com/es/TFG/service/TareaService.kt:23-87 | a task inserted by an admin is among its owner's tasks afterwards |
| Usuarios.InsertUser | src/main/kotlin/com/es/TFG/service/UsuarioService.kt:43-94 | blank field: BadRequest; taken username: Conflict; passwords differ: BadRequest; role other than null/USER/ADMIN: BadRequest; taken email: Conflict; the first failing check decides and nothing changes; on success exactly one user is added, stored with encode(password), and the result echoes email, username and rol; unique emails are preserved |
| Usuarios.LoadUserByUsername | src/main/kotlin/com/es/TFG/service/UsuarioService.kt:29-41 | null name: Internal; unknown name: Unauthorized; otherwise the stored username, password hash and roles |
| Usuarios.InsertEntoncesLoad | src/main/kotlin/com/es/TFG/service/UsuarioService.kt:29-94 | a user just registered loads with the encoded password and the requested role |
| Usuarios.InsertDosVecesEsConflict | src/main/kotlin/com/es/TFG/service/UsuarioService.kt:52-54 | registering the same request again is Conflict |
| Usuarios.VacioAntesQueConflicto | src/main/kotlin/com/es/TFG/service/UsuarioService.kt:45-54 | a blank password is BadRequest even when the username is taken |
| Services.Backend.constructor | src/main/kotlin/com/es/TFG/service/PedidoService.kt:24-35 | starts with empty stores and satisfies the invariant |
| Services.Backend.InsertPedidoSelf | src/main/kotlin/com/es/TFG/service/PedidoService.kt:38-80 | in-place version, given an invoice number unused by any stored order: the result and the new stores are those of Pedidos.InsertPedidoSelf, so invoice numbers stay unique; the log only grows |
| Services.Backend.InsertPedidoAdmin | src/main/kotlin/com/es/TFG/service/PedidoService.kt:82-124 | in-place version of Pedidos.InsertPedidoAdmin, given an invoice number unused by any stored order and different from the submitted one, so invoice numbers stay unique; the log only grows |
| Services.Backend.UpdateEstadoPedido | src/main/kotlin/com/es/TFG/service/PedidoService.kt:125-131 | in-place version of Pedidos.UpdateEstadoPedido |
| Services.Backend.DeletePedido | src/main/kotlin/com/es/TFG/service/PedidoService.kt:147-161 | in-place version of Pedidos.DeletePedido; the log is unchanged |
| Services.Backend.DeletePedidoSelf | src/main/kotlin/com/es/TFG/service/PedidoService.kt:165-183 | in-place version of Pedidos.DeletePedidoSelf; the log is unchanged |
| Services.Backend.InsertTarea | src/main/kotlin/com/es/TFG/service/TareaService.kt:23-51 | in-place version of Tareas.InsertTarea |
| Services.Backend.InsertTareaSelf | src/main/kotlin/com/es/TFG/service/TareaService.kt:52-76 | in-place version of Tareas.InsertTareaSelf |
| Services.Backend.UpdateEstado | src/main/kotlin/com/es/TFG/service/TareaService.kt:88-106 | in-place version of Tareas.UpdateEstado |
| Services.Backend.UpdateEstadoSelf | src/main/kotlin/com/es/TFG/service/TareaService.kt:107-129 | in-place version of Tareas.UpdateEstadoSelf |
| Services.Backend.DeleteTarea | src/main/kotlin/com/es/TFG/service/TareaService.kt:131-136 | in-place version of Tareas.DeleteTarea |
| Services.Backend.DeleteTareaSelf | src/main/kotlin/com/es/TFG/service/TareaService.kt:137-145 | in-place version of Tareas.DeleteTareaSelf |
| Services.Backend.InsertUser | src/main/kotlin/com/es/TFG/service/UsuarioService.kt:43-94 | in-place version of Usuarios.InsertUser |
| Services.Backend.InsertProducto | src/main/kotlin/com/es/TFG/service/ProductoService.kt:17-28 | in-place version of Productos.InsertProducto |
| Services.Backend.UpdateProducto | src/main/kotlin/com/es/TFG/service/ProductoService.kt:35-46 | in-place version of Productos.UpdateProducto: fetch, overwrite or merge field by field, save |
| Services.Backend.DeleteProducto | src/main/kotlin/com/es/TFG/service/ProductoService.kt:48-53 | in-place version of Productos.DeleteProducto |

## Left out

- Controllers (HTTP routing, request binding, `@PreAuthorize` role gates): which caller may reach which method is not modelled; every method is callable.
- Spring Security, JWT signing and decoding, RSA keys and BCrypt: foreign libraries and cryptography. The encoder is a function parameter.
- Pedidos.InsertPedidoAdmin: the confirmation email sent at the end has no effect on the stores and is not modelled. If sending fails, the source raises an internal error after the stock debit, order insert and log entry are already saved; the model returns Success in that case.
- The external geo API client, the exception-to-HTTP-status mapping and the Mongo repositories: transport and persistence. The repositories are maps.
- The identifiers Mongo assigns to users and to log entries: they are never read. The users store is keyed by username.
- `Direccion` is not part of this model. Registration copies it unchanged, so the user record omits it.
- `PedidoDTO`, `TareaDTO` and `EstadoDTO`: their declarations are not available, so their fields are inferred from use. `PedidoDTO` becomes a product key parameter, `TareaDTO` a datatype with a title and a description, and `EstadoDTO` a status string parameter.
- Usuarios.LoadUserByUsername: Spring's building of granted authorities from the role string is not modelled. That covers the `ROLE_` prefix, and the failure `.roles(null)` raises for a user registered without a role. The result carries the stored role as is.
- Pedidos.InsertPedidoAdmin: the creation time is set to the insert time rather than kept from the submitted order. `pedido.copy(...)` at PedidoService.kt:97-107 does not name `fechaCreacion`, and `Pedido.kt` does not declare it. The choice rests on the comment at PedidoService.kt:106 that says it is set automatically. If it were a constructor property, `copy` would keep the submitted value.
- Concurrency: the unsynchronised read, check and write of stock is only a race between concurrent requests. The model is sequential.
- Floating point: prices are only copied and compared with 0, so they are integers, and the two-decimal formatting in the email is left out.
- The width of stock: the declared type is `String` and the services treat it as a number, so the width is unknown. Stock is an unbounded integer, and a +1 at the largest 32-bit value would not wrap here.
- Instant.now() and UUID generation are parameters. Different calls to `Instant.now()` inside one service call are modelled as the same instant.

/**
  The order workflow: placing an order (self or admin), changing its status,
  deleting it (admin) and cancelling it (self, within three days). Each call
  is a function from the database to a `Step`; the imperative version lives in
  `Services.Backend`.
*/
module Pedidos {
  import opened Model

  const TRES_DIAS_EN_MILIS: int := 3 * 24 * 60 * 60 * 1000
  const CREACION_PEDIDO: string := "CREACIÓN PEDIDO"

  /** The cancellation window: at most three days (in milliseconds) since creation. */
  function VerificarPlazoCancelacion(fechaCreacion: int, ahora: int): (r: Result<()>)
    ensures r.Success? <==> ahora - fechaCreacion <= 259_200_000
    ensures r.Failure? ==> r.error == BadRequest
  {
    if ahora - fechaCreacion > TRES_DIAS_EN_MILIS then Failure(BadRequest) else Success(())
  }

  /** The catalogue with the stock of `k` moved by `delta` and its update time set. */
  function AjustarStock(productos: map<string, Producto>, k: string, delta: int, now: int): (r: map<string, Producto>)
    requires k in productos
    ensures StockMoved(productos, r, k, delta, now)
  {
    productos[k := productos[k].(stock := productos[k].stock + delta, fechaActualizacion := Some(now))]
  }

  /** No stored order carries the invoice number `numeroFactura`: the number
      is a fresh random UUID. */
  predicate FacturaLibre(db: Db, numeroFactura: string) {
    forall k :: k in db.pedidos ==> db.pedidos[k].factura.numeroFactura != numeroFactura
  }

  /** No two stored orders share an invoice number. */
  ghost predicate FacturasUnicas(db: Db) {
    forall a, b :: (a in db.pedidos && b in db.pedidos
                    && db.pedidos[a].factura.numeroFactura == db.pedidos[b].factura.numeroFactura) ==> a == b
  }

  /** Place an order for one unit of `numeroProducto` on behalf of the caller `username`. */
  function InsertPedidoSelf(db: Db, numeroProducto: string, username: string,
                            numeroPedido: string, numeroFactura: string, now: int): (s: Step<Pedido>)
    requires numeroPedido !in db.pedidos && FacturaLibre(db, numeroFactura)
    ensures numeroProducto !in db.productos ==> s == Step(Failure(NotFound), db)
    ensures numeroProducto in db.productos && db.productos[numeroProducto].stock <= 0 ==>
              s == Step(Failure(BadRequest), db)
    ensures s.result.Success? <==> numeroProducto in db.productos && db.productos[numeroProducto].stock > 0
    ensures s.result.Success? ==>
              var p, o := db.productos[numeroProducto], s.result.value;
              && o.numeroPedido == Some(numeroPedido) && o.numeroProducto == numeroProducto
              && o.usuario == username && o.articulo == p.articulo && o.precioFinal == p.precio
              && o.factura == Factura(numeroFactura, now) && o.estado == None && o.fechaCreacion == now
              && StockMoved(db.productos, s.db.productos, numeroProducto, -1, now)
              && s.db.pedidos == db.pedidos[numeroPedido := o]
              && s.db.logs == db.logs + [LogSistema(username, CREACION_PEDIDO, numeroPedido, now)]
              && s.db.usuarios == db.usuarios && s.db.tareas == db.tareas
    ensures Consistent(db) && s.result.Success? ==>
              db.productos[numeroProducto].numeroProducto == Some(s.result.value.numeroProducto)
    ensures Consistent(db) ==> Consistent(s.db)
    ensures FacturasUnicas(db) ==> FacturasUnicas(s.db)
  {
    if numeroProducto !in db.productos then Step(Failure(NotFound), db)
    else
      var producto := db.productos[numeroProducto];
      if producto.stock <= 0 then Step(Failure(BadRequest), db)
      else
        var nuevo := Pedido(Some(numeroPedido), numeroProducto, username, producto.articulo,
                            producto.precio, Factura(numeroFactura, now), None, now);
        Step(Success(nuevo),
             db.(productos := AjustarStock(db.productos, numeroProducto, -1, now),
                 pedidos := db.pedidos[numeroPedido := nuevo],
                 logs := db.logs + [LogSistema(username, CREACION_PEDIDO, numeroPedido, now)]))
  }

  /** Place the order `pedido` on behalf of the user it names. The order number,
      invoice, name, price and creation time are replaced; every other field of
      `pedido` is kept. */
  function InsertPedidoAdmin(db: Db, pedido: Pedido, numeroPedido: string, numeroFactura: string, now: int): (s: Step<Pedido>)
    requires numeroPedido !in db.pedidos && FacturaLibre(db, numeroFactura)
    requires numeroFactura != pedido.factura.numeroFactura
    ensures pedido.numeroProducto !in db.productos ==> s == Step(Failure(NotFound), db)
    ensures pedido.numeroProducto in db.productos && pedido.usuario !in db.usuarios ==>
              s == Step(Failure(NotFound), db)
    ensures (pedido.numeroProducto in db.productos && pedido.usuario in db.usuarios
             && db.productos[pedido.numeroProducto].stock <= 0) ==> s == Step(Failure(BadRequest), db)
    ensures s.result.Success? <==>
              pedido.numeroProducto in db.productos && pedido.usuario in db.usuarios
              && db.productos[pedido.numeroProducto].stock > 0
    ensures s.result.Success? ==>
              var p, o := db.productos[pedido.numeroProducto], s.result.value;
              && o.numeroPedido == Some(numeroPedido) && o.numeroProducto == pedido.numeroProducto
              && o.usuario == pedido.usuario && o.articulo == p.articulo && o.precioFinal == p.precio
              && o.factura == Factura(numeroFactura, now) && o.estado == pedido.estado && o.fechaCreacion == now
              && StockMoved(db.productos, s.db.productos, pedido.numeroProducto, -1, now)
              && s.db.pedidos == db.pedidos[numeroPedido := o]
              && s.db.logs == db.logs + [LogSistema(pedido.usuario, CREACION_PEDIDO, numeroPedido, now)]
              && s.db.usuarios == db.usuarios && s.db.tareas == db.tareas
    ensures Consistent(db) && s.result.Success? ==>
              db.productos[pedido.numeroProducto].numeroProducto == Some(s.result.value.numeroProducto)
    ensures Consistent(db) ==> Consistent(s.db)
    ensures FacturasUnicas(db) ==> FacturasUnicas(s.db)
  {
    if pedido.numeroProducto !in db.productos then Step(Failure(NotFound), db)
    else if pedido.usuario !in db.usuarios then Step(Failure(NotFound), db)
    else
      var producto := db.productos[pedido.numeroProducto];
      if producto.stock <= 0 then Step(Failure(BadRequest), db)
      else
        var nuevo := pedido.(numeroPedido := Some(numeroPedido), articulo := producto.articulo,
                             precioFinal := producto.precio, factura := Factura(numeroFactura, now),
                             fechaCreacion := now);
        Step(Success(nuevo),
             db.(productos := AjustarStock(db.productos, pedido.numeroProducto, -1, now),
                 pedidos := db.pedidos[numeroPedido := nuevo],
                 logs := db.logs + [LogSistema(pedido.usuario, CREACION_PEDIDO, numeroPedido, now)]))
  }

  /** Overwrite the status of order `id` with any string. */
  function UpdateEstadoPedido(db: Db, id: string, nuevoEstado: string): (s: Step<Pedido>)
    ensures id !in db.pedidos ==> s == Step(Failure(NotFound), db)
    ensures id in db.pedidos ==>
              && s.result == Success(db.pedidos[id].(estado := Some(nuevoEstado)))
              && s.db == db.(pedidos := db.pedidos[id := s.result.value])
    ensures Consistent(db) ==> Consistent(s.db)
    ensures FacturasUnicas(db) ==> FacturasUnicas(s.db)
  {
    if id !in db.pedidos then Step(Failure(NotFound), db)
    else
      var pedido := db.pedidos[id].(estado := Some(nuevoEstado));
      Step(Success(pedido), db.(pedidos := db.pedidos[id := pedido]))
  }

  /** The orders placed by `usuario`. */
  function FindPedidosByUsuario(db: Db, usuario: string): (r: map<string, Pedido>)
    ensures forall id :: id in r <==> id in db.pedidos && db.pedidos[id].usuario == usuario
    ensures forall id :: id in r ==> r[id] == db.pedidos[id]
  {
    map id | id in db.pedidos && db.pedidos[id].usuario == usuario :: db.pedidos[id]
  }

  /** Every stored order. */
  function FindAll(db: Db): (r: set<Pedido>)
    ensures forall id :: id in db.pedidos ==> db.pedidos[id] in r
    ensures forall p :: p in r ==> exists id :: id in db.pedidos && db.pedidos[id] == p
  {
    set id | id in db.pedidos :: db.pedidos[id]
  }

  function FindById(db: Db, id: string): (r: Result<Pedido>)
    ensures r.Success? <==> id in db.pedidos
    ensures r.Success? ==> r.value == db.pedidos[id]
    ensures r.Failure? ==> r.error == NotFound
  {
    if id in db.pedidos then Success(db.pedidos[id]) else Failure(NotFound)
  }

  /** Admin delete: give the unit back to its product and remove the order.
      Nothing is written to the log. */
  function DeletePedido(db: Db, id: string, now: int): (s: Step<()>)
    ensures id !in db.pedidos ==> s == Step(Failure(NotFound), db)
    ensures id in db.pedidos && db.pedidos[id].numeroProducto !in db.productos ==>
              s == Step(Failure(NotFound), db)
    ensures s.result.Success? <==> id in db.pedidos && db.pedidos[id].numeroProducto in db.productos
    ensures s.result.Success? ==>
              && StockMoved(db.productos, s.db.productos, db.pedidos[id].numeroProducto, 1, now)
              && s.db.pedidos == db.pedidos - {id}
              && s.db.logs == db.logs && s.db.usuarios == db.usuarios && s.db.tareas == db.tareas
    ensures Consistent(db) ==> Consistent(s.db)
    ensures FacturasUnicas(db) ==> FacturasUnicas(s.db)
  {
    if id !in db.pedidos then Step(Failure(NotFound), db)
    else
      var pedido := db.pedidos[id];
      if pedido.numeroProducto !in db.productos then Step(Failure(NotFound), db)
      else
        Step(Success(()),
             db.(productos := AjustarStock(db.productos, pedido.numeroProducto, 1, now),
                 pedidos := db.pedidos - {id}))
  }

  /** Self cancel: the order must exist, belong to `usuario` and be at most three
      days old; then it is deleted exactly as an admin would. */
  function DeletePedidoSelf(db: Db, id: string, usuario: string, now: int): (s: Step<()>)
    ensures id !in db.pedidos ==> s == Step(Failure(NotFound), db)
    ensures id in db.pedidos && db.pedidos[id].usuario != usuario ==> s == Step(Failure(Unauthorized), db)
    ensures (id in db.pedidos && db.pedidos[id].usuario == usuario
             && now - db.pedidos[id].fechaCreacion > 259_200_000) ==> s == Step(Failure(BadRequest), db)
    ensures s.result.Success? <==>
              && id in db.pedidos && db.pedidos[id].usuario == usuario
              && now - db.pedidos[id].fechaCreacion <= 259_200_000
              && db.pedidos[id].numeroProducto in db.productos
    ensures s.result.Failure? ==> s.db == db
    ensures Consistent(db) ==> Consistent(s.db)
    ensures FacturasUnicas(db) ==> FacturasUnicas(s.db)
  {
    if id !in db.pedidos then Step(Failure(NotFound), db)
    else
      var pedido := db.pedidos[id];
      if pedido.usuario != usuario then Step(Failure(Unauthorized), db)
      else
        match VerificarPlazoCancelacion(pedido.fechaCreacion, now)
        case Failure(e) => Step(Failure(e), db)
        case Success(_) => DeletePedido(db, id, now)
  }

  // ---------------------------------------------------------------------------
  // Stock conservation: the stock of a product plus the number of stored orders
  // for it is the same before and after every order operation.

  ghost function Reservados(pedidos: map<string, Pedido>, k: string): set<string> {
    set id | id in pedidos && pedidos[id].numeroProducto == k
  }

  /** Units of product `k` in the system: on the shelf or held by an order. */
  ghost function Unidades(db: Db, k: string): int
    requires k in db.productos
  {
    db.productos[k].stock + |Reservados(db.pedidos, k)|
  }

  lemma ReservadosInsert(pedidos: map<string, Pedido>, id: string, o: Pedido, k: string)
    requires id !in pedidos
    ensures |Reservados(pedidos[id := o], k)| ==
            |Reservados(pedidos, k)| + (if o.numeroProducto == k then 1 else 0)
  {
    var after, before := Reservados(pedidos[id := o], k), Reservados(pedidos, k);
    if o.numeroProducto == k {
      assert after == before + {id};
    } else {
      assert after == before;
    }
  }

  lemma ReservadosRemove(pedidos: map<string, Pedido>, id: string, k: string)
    requires id in pedidos
    ensures |Reservados(pedidos - {id}, k)| ==
            |Reservados(pedidos, k)| - (if pedidos[id].numeroProducto == k then 1 else 0)
  {
    var after, before := Reservados(pedidos - {id}, k), Reservados(pedidos, k);
    if pedidos[id].numeroProducto == k {
      assert before == after + {id};
    } else {
      assert after == before;
    }
  }

  lemma {:induction false} InsertPedidoSelfConservaUnidades(db: Db, numeroProducto: string, username: string,
                                                            numeroPedido: string, numeroFactura: string, now: int, k: string)
    requires numeroPedido !in db.pedidos && FacturaLibre(db, numeroFactura) && k in db.productos
    ensures var s := InsertPedidoSelf(db, numeroProducto, username, numeroPedido, numeroFactura, now);
            k in s.db.productos && Unidades(s.db, k) == Unidades(db, k)
  {
    var s := InsertPedidoSelf(db, numeroProducto, username, numeroPedido, numeroFactura, now);
    if s.result.Success? {
      ReservadosInsert(db.pedidos, numeroPedido, s.result.value, k);
    }
  }

  lemma {:induction false} InsertPedidoAdminConservaUnidades(db: Db, pedido: Pedido, numeroPedido: string,
                                                             numeroFactura: string, now: int, k: string)
    requires numeroPedido !in db.pedidos && FacturaLibre(db, numeroFactura) && k in db.productos
    requires numeroFactura != pedido.factura.numeroFactura
    ensures var s := InsertPedidoAdmin(db, pedido, numeroPedido, numeroFactura, now);
            k in s.db.productos && Unidades(s.db, k) == Unidades(db, k)
  {
    var s := InsertPedidoAdmin(db, pedido, numeroPedido, numeroFactura, now);
    if s.result.Success? {
      ReservadosInsert(db.pedidos, numeroPedido, s.result.value, k);
    }
  }

  lemma {:induction false} UpdateEstadoPedidoConservaUnidades(db: Db, id: string, nuevoEstado: string, k: string)
    requires k in db.productos
    ensures var s := UpdateEstadoPedido(db, id, nuevoEstado);
            k in s.db.productos && Unidades(s.db, k) == Unidades(db, k)
  {
    var s := UpdateEstadoPedido(db, id, nuevoEstado);
    assert Reservados(s.db.pedidos, k) == Reservados(db.pedidos, k);
  }

  lemma {:induction false} DeletePedidoConservaUnidades(db: Db, id: string, now: int, k: string)
    requires k in db.productos
    ensures var s := DeletePedido(db, id, now);
            k in s.db.productos && Unidades(s.db, k) == Unidades(db, k)
  {
    var s := DeletePedido(db, id, now);
    if s.result.Success? {
      ReservadosRemove(db.pedidos, id, k);
    }
  }

  lemma {:induction false} DeletePedidoSelfConservaUnidades(db: Db, id: string, usuario: string, now: int, k: string)
    requires k in db.productos
    ensures var s := DeletePedidoSelf(db, id, usuario, now);
            k in s.db.productos && Unidades(s.db, k) == Unidades(db, k)
  {
    if DeletePedidoSelf(db, id, usuario, now).result.Success? {
      DeletePedidoConservaUnidades(db, id, now, k);
    }
  }

  // ---------------------------------------------------------------------------
  // Relations between operations.

  /** Placing an order and then deleting it gives the unit back: stock and the
      order store are as before, the log keeps the creation entry. */
  lemma {:induction false} CrearYBorrarRestauraStock(db: Db, numeroProducto: string, username: string,
                                                     numeroPedido: string, numeroFactura: string, t1: int, t2: int)
    requires numeroPedido !in db.pedidos && FacturaLibre(db, numeroFactura)
    requires InsertPedidoSelf(db, numeroProducto, username, numeroPedido, numeroFactura, t1).result.Success?
    ensures var s1 := InsertPedidoSelf(db, numeroProducto, username, numeroPedido, numeroFactura, t1);
            var s2 := DeletePedido(s1.db, numeroPedido, t2);
            && s2.result.Success?
            && s2.db.productos.Keys == db.productos.Keys
            && s2.db.productos[numeroProducto].stock == db.productos[numeroProducto].stock
            && (forall j :: j in db.productos && j != numeroProducto ==> s2.db.productos[j] == db.productos[j])
            && s2.db.pedidos == db.pedidos
            && s2.db.logs == db.logs + [LogSistema(username, CREACION_PEDIDO, numeroPedido, t1)]
  {
    var s1 := InsertPedidoSelf(db, numeroProducto, username, numeroPedido, numeroFactura, t1);
    var s2 := DeletePedido(s1.db, numeroPedido, t2);
    assert s1.db.pedidos[numeroPedido].numeroProducto == numeroProducto;
    assert s2.db.pedidos == db.pedidos[numeroPedido := s1.result.value] - {numeroPedido};
    assert s2.db.pedidos == db.pedidos;
  }

  /** A successful delete removes the order, so deleting it again is NotFound. */
  lemma BorrarDosVecesEsNotFound(db: Db, id: string, t1: int, t2: int)
    requires DeletePedido(db, id, t1).result.Success?
    ensures DeletePedido(DeletePedido(db, id, t1).db, id, t2) == Step(Failure(NotFound), DeletePedido(db, id, t1).db)
  {
  }

  /** Self cancel by the owner within the window is exactly the admin delete;
      any other self cancel fails and leaves the database alone. */
  lemma {:induction false} CancelarSelfEsBorrarAdmin(db: Db, id: string, usuario: string, now: int)
    ensures (id in db.pedidos && db.pedidos[id].usuario == usuario
             && now - db.pedidos[id].fechaCreacion <= 259_200_000) ==>
              DeletePedidoSelf(db, id, usuario, now) == DeletePedido(db, id, now)
    ensures DeletePedidoSelf(db, id, usuario, now).result.Success? ==>
              DeletePedidoSelf(db, id, usuario, now) == DeletePedido(db, id, now)
  {
    if id in db.pedidos && db.pedidos[id].usuario == usuario {
      var v := VerificarPlazoCancelacion(db.pedidos[id].fechaCreacion, now);
      assert v.Success? <==> now - db.pedidos[id].fechaCreacion <= 259_200_000;
    }
  }

  /** For a registered user, the admin path given an order with no status
      behaves exactly as that user's own self order. */
  lemma {:induction false} AdminSinEstadoEsSelf(db: Db, numeroProducto: string, username: string,
                                                numeroPedido: string, numeroFactura: string, now: int,
                                                plantilla: Pedido)
    requires numeroPedido !in db.pedidos && FacturaLibre(db, numeroFactura) && username in db.usuarios
    requires numeroFactura != plantilla.factura.numeroFactura
    requires plantilla.numeroProducto == numeroProducto && plantilla.usuario == username && plantilla.estado == None
    ensures InsertPedidoAdmin(db, plantilla, numeroPedido, numeroFactura, now)
            == InsertPedidoSelf(db, numeroProducto, username, numeroPedido, numeroFactura, now)
  {
    var a := InsertPedidoAdmin(db, plantilla, numeroPedido, numeroFactura, now);
    var s := InsertPedidoSelf(db, numeroProducto, username, numeroPedido, numeroFactura, now);
    if s.result.Success? {
      assert a.result.value == s.result.value;
    }
  }

  /** The worked example: P001 with one unit, alice orders it, an admin deletes
      the order, and the unit is back on the shelf. */
  lemma EjemploP001(db: Db, p: Producto, t0: int, t1: int)
    requires "P001" in db.productos && db.productos["P001"] == p && p.stock == 1 && p.precio == 999
    requires "o1" !in db.pedidos && FacturaLibre(db, "f1")
    ensures var s1 := InsertPedidoSelf(db, "P001", "alice", "o1", "f1", t0);
            && s1.result.Success? && s1.result.value.precioFinal == 999 && s1.db.productos["P001"].stock == 0
            && var s2 := DeletePedido(s1.db, "o1", t1);
               s2.result.Success? && s2.db.productos["P001"].stock == 1 && "o1" !in s2.db.pedidos
  {
  }
}

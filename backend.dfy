/**
  The services as one object over the five stores. Every method runs the
  source's guard chain and then updates the stores in place; its contract
  says that the value it returns and the stores it leaves are exactly what
  the corresponding function of `Pedidos`, `Tareas`, `Usuarios` or
  `Productos` gives for the stores it found.
*/
module Services {
  import opened Model
  import Pedidos
  import Tareas
  import Usuarios
  import Productos

  class Backend {
    var productos: map<string, Producto>
    var pedidos: map<string, Pedido>
    var usuarios: map<string, Usuario>
    var tareas: map<string, Tarea>
    var logs: seq<LogSistema>

    function State(): Db
      reads this
    {
      Db(productos, pedidos, usuarios, tareas, logs)
    }

    ghost predicate Valid()
      reads this
    {
      && Consistent(State())
      && Pedidos.FacturasUnicas(State())
      && Usuarios.EmailsUnicos(State())
    }

    constructor ()
      ensures Valid()
      ensures State() == Db(map[], map[], map[], map[], [])
    {
      productos, pedidos, usuarios, tareas, logs := map[], map[], map[], map[], [];
    }

    // --- orders ---------------------------------------------------------------

    method InsertPedidoSelf(numeroProducto: string, username: string,
                            numeroPedido: string, numeroFactura: string, now: int) returns (r: Result<Pedido>)
      requires Valid() && numeroPedido !in pedidos && Pedidos.FacturaLibre(State(), numeroFactura)
      modifies this
      ensures Valid() && old(logs) <= logs
      ensures var s := Pedidos.InsertPedidoSelf(old(State()), numeroProducto, username, numeroPedido, numeroFactura, now);
              r == s.result && State() == s.db
    {
      if numeroProducto !in productos {
        return Failure(NotFound);
      }
      var producto := productos[numeroProducto];
      if producto.stock <= 0 {
        return Failure(BadRequest);
      }
      producto := producto.(stock := producto.stock - 1, fechaActualizacion := Some(now));
      productos := productos[numeroProducto := producto];
      var factura := Factura(numeroFactura, now);
      var nuevo := Pedido(Some(numeroPedido), numeroProducto, username, producto.articulo,
                          producto.precio, factura, None, now);
      pedidos := pedidos[numeroPedido := nuevo];
      logs := logs + [LogSistema(username, Pedidos.CREACION_PEDIDO, numeroPedido, now)];
      r := Success(nuevo);
    }

    method InsertPedidoAdmin(pedido: Pedido, numeroPedido: string, numeroFactura: string, now: int)
      returns (r: Result<Pedido>)
      requires Valid() && numeroPedido !in pedidos && Pedidos.FacturaLibre(State(), numeroFactura)
      requires numeroFactura != pedido.factura.numeroFactura
      modifies this
      ensures Valid() && old(logs) <= logs
      ensures var s := Pedidos.InsertPedidoAdmin(old(State()), pedido, numeroPedido, numeroFactura, now);
              r == s.result && State() == s.db
    {
      if pedido.numeroProducto !in productos {
        return Failure(NotFound);
      }
      var producto := productos[pedido.numeroProducto];
      if pedido.usuario !in usuarios {
        return Failure(NotFound);
      }
      if producto.stock <= 0 {
        return Failure(BadRequest);
      }
      producto := producto.(stock := producto.stock - 1, fechaActualizacion := Some(now));
      productos := productos[pedido.numeroProducto := producto];
      var nuevo := pedido.(numeroPedido := Some(numeroPedido), articulo := producto.articulo,
                           precioFinal := producto.precio, factura := Factura(numeroFactura, now),
                           fechaCreacion := now);
      pedidos := pedidos[numeroPedido := nuevo];
      logs := logs + [LogSistema(pedido.usuario, Pedidos.CREACION_PEDIDO, numeroPedido, now)];
      r := Success(nuevo);
    }

    method UpdateEstadoPedido(id: string, nuevoEstado: string) returns (r: Result<Pedido>)
      requires Valid()
      modifies this
      ensures Valid() && logs == old(logs)
      ensures var s := Pedidos.UpdateEstadoPedido(old(State()), id, nuevoEstado);
              r == s.result && State() == s.db
    {
      if id !in pedidos {
        return Failure(NotFound);
      }
      var pedido := pedidos[id];
      pedido := pedido.(estado := Some(nuevoEstado));
      pedidos := pedidos[id := pedido];
      r := Success(pedido);
    }

    method DeletePedido(id: string, now: int) returns (r: Result<()>)
      requires Valid()
      modifies this
      ensures Valid() && logs == old(logs)
      ensures var s := Pedidos.DeletePedido(old(State()), id, now);
              r == s.result && State() == s.db
    {
      if id !in pedidos {
        return Failure(NotFound);
      }
      var pedido := pedidos[id];
      if pedido.numeroProducto !in productos {
        return Failure(NotFound);
      }
      var producto := productos[pedido.numeroProducto];
      producto := producto.(stock := producto.stock + 1, fechaActualizacion := Some(now));
      productos := productos[pedido.numeroProducto := producto];
      pedidos := pedidos - {id};
      r := Success(());
    }

    method DeletePedidoSelf(id: string, usuario: string, now: int) returns (r: Result<()>)
      requires Valid()
      modifies this
      ensures Valid() && logs == old(logs)
      ensures var s := Pedidos.DeletePedidoSelf(old(State()), id, usuario, now);
              r == s.result && State() == s.db
    {
      if id !in pedidos {
        return Failure(NotFound);
      }
      var pedido := pedidos[id];
      if pedido.usuario != usuario {
        return Failure(Unauthorized);
      }
      var plazo := Pedidos.VerificarPlazoCancelacion(pedido.fechaCreacion, now);
      if plazo.Failure? {
        return Failure(plazo.error);
      }
      if pedido.numeroProducto !in productos {
        return Failure(NotFound);
      }
      var producto := productos[pedido.numeroProducto];
      producto := producto.(stock := producto.stock + 1, fechaActualizacion := Some(now));
      productos := productos[pedido.numeroProducto := producto];
      pedidos := pedidos - {id};
      r := Success(());
    }

    // --- tasks ----------------------------------------------------------------

    method InsertTarea(entrada: Tarea, nuevoId: string, now: int) returns (r: Result<Tarea>)
      requires Valid() && nuevoId !in tareas
      modifies this
      ensures Valid() && logs == old(logs)
      ensures var s := Tareas.InsertTarea(old(State()), entrada, nuevoId, now);
              r == s.result && State() == s.db
    {
      if entrada.titulo.None? {
        return Failure(Internal);
      }
      if IsBlank(entrada.titulo.value) {
        return Failure(BadRequest);
      }
      if entrada.descripcion.None? {
        return Failure(Internal);
      }
      if IsBlank(entrada.descripcion.value) {
        return Failure(BadRequest);
      }
      if entrada.usuario.None? {
        return Failure(Internal);
      }
      if IsBlank(entrada.usuario.value) {
        return Failure(BadRequest);
      }
      if entrada.usuario.value !in usuarios {
        return Failure(NotFound);
      }
      var tarea := Tarea(Some(nuevoId), entrada.titulo, entrada.descripcion, Tareas.PENDIENTE,
                         entrada.usuario, Some(now), Some(now));
      tareas := tareas[nuevoId := tarea];
      r := Success(tarea);
    }

    method InsertTareaSelf(entrada: Tareas.TareaDTO, username: string, nuevoId: string, now: int)
      returns (r: Result<Tarea>)
      requires Valid() && nuevoId !in tareas
      modifies this
      ensures Valid() && logs == old(logs)
      ensures var s := Tareas.InsertTareaSelf(old(State()), entrada, username, nuevoId, now);
              r == s.result && State() == s.db
    {
      if IsBlank(entrada.titulo) || IsBlank(entrada.descripcion) {
        return Failure(BadRequest);
      }
      var tarea := Tarea(Some(nuevoId), Some(entrada.titulo), Some(entrada.descripcion), Tareas.PENDIENTE,
                         Some(username), Some(now), Some(now));
      tareas := tareas[nuevoId := tarea];
      r := Success(tarea);
    }

    method UpdateEstado(id: string, actualizada: Tarea, now: int) returns (r: Result<Tarea>)
      requires Valid()
      modifies this
      ensures Valid() && logs == old(logs)
      ensures var s := Tareas.UpdateEstado(old(State()), id, actualizada, now);
              r == s.result && State() == s.db
    {
      if actualizada.estado != Tareas.PENDIENTE && actualizada.estado != Tareas.HECHA {
        return Failure(BadRequest);
      }
      if id !in tareas {
        return Failure(NotFound);
      }
      var tarea := tareas[id];
      tarea := tarea.(estado := actualizada.estado);
      tarea := tarea.(fechaActualizacion := Some(now));
      tareas := tareas[id := tarea];
      r := Success(tarea);
    }

    method UpdateEstadoSelf(id: string, actualizada: Tarea, usuario: string, now: int) returns (r: Result<Tarea>)
      requires Valid()
      modifies this
      ensures Valid() && logs == old(logs)
      ensures var s := Tareas.UpdateEstadoSelf(old(State()), id, actualizada, usuario, now);
              r == s.result && State() == s.db
    {
      if actualizada.estado != Tareas.PENDIENTE && actualizada.estado != Tareas.HECHA {
        return Failure(BadRequest);
      }
      if id !in tareas {
        return Failure(NotFound);
      }
      var tarea := tareas[id];
      if tarea.usuario != Some(usuario) {
        return Failure(Unauthorized);
      }
      tarea := tarea.(estado := actualizada.estado);
      tarea := tarea.(fechaActualizacion := Some(now));
      tareas := tareas[id := tarea];
      r := Success(tarea);
    }

    method DeleteTarea(id: string) returns (r: Result<()>)
      requires Valid()
      modifies this
      ensures Valid() && logs == old(logs)
      ensures var s := Tareas.DeleteTarea(old(State()), id);
              r == s.result && State() == s.db
    {
      if id !in tareas {
        return Failure(NotFound);
      }
      tareas := tareas - {id};
      r := Success(());
    }

    method DeleteTareaSelf(id: string, usuario: string) returns (r: Result<()>)
      requires Valid()
      modifies this
      ensures Valid() && logs == old(logs)
      ensures var s := Tareas.DeleteTareaSelf(old(State()), id, usuario);
              r == s.result && State() == s.db
    {
      if id !in tareas {
        return Failure(NotFound);
      }
      var tarea := tareas[id];
      if tarea.usuario != Some(usuario) {
        return Failure(Unauthorized);
      }
      tareas := tareas - {id};
      r := Success(());
    }

    // --- users ----------------------------------------------------------------

    method InsertUser(dto: Usuarios.UsuarioRegisterDTO, encode: string -> string, now: int)
      returns (r: Result<Usuarios.UsuarioDTO>)
      requires Valid()
      modifies this
      ensures Valid() && logs == old(logs)
      ensures var s := Usuarios.InsertUser(old(State()), dto, encode, now);
              r == s.result && State() == s.db
    {
      if IsBlank(dto.username) || IsBlank(dto.email) || IsBlank(dto.password) || IsBlank(dto.passwordRepeat) {
        return Failure(BadRequest);
      }
      if dto.username in usuarios {
        return Failure(Conflict);
      }
      if dto.password != dto.passwordRepeat {
        return Failure(BadRequest);
      }
      if dto.rol.Some? && dto.rol.value != "USER" && dto.rol.value != "ADMIN" {
        return Failure(BadRequest);
      }
      if exists k :: k in usuarios && usuarios[k].email == dto.email {
        return Failure(Conflict);
      }
      var usuario := Usuario(dto.username, encode(dto.password), dto.email, dto.rol, now);
      usuarios := usuarios[dto.username := usuario];
      r := Success(Usuarios.UsuarioDTO(usuario.email, usuario.username, usuario.roles));
    }

    // --- products -------------------------------------------------------------

    method InsertProducto(producto: Producto, nuevoId: string, now: int) returns (r: Result<Producto>)
      requires Valid() && nuevoId !in productos
      modifies this
      ensures Valid() && logs == old(logs)
      ensures var s := Productos.InsertProducto(old(State()), producto, nuevoId, now);
              r == s.result && State() == s.db
    {
      if IsNullOrBlank(producto.articulo) || producto.precio <= 0 || producto.stock < 0 {
        return Failure(BadRequest);
      }
      var nuevo := producto.(numeroProducto := None, fechaCreacion := Some(now), fechaActualizacion := Some(now));
      nuevo := nuevo.(numeroProducto := Some(nuevoId));
      productos := productos[nuevoId := nuevo];
      r := Success(nuevo);
    }

    method UpdateProducto(id: string, actualizado: Producto, now: int) returns (r: Result<Producto>)
      requires Valid()
      modifies this
      ensures Valid() && logs == old(logs)
      ensures var s := Productos.UpdateProducto(old(State()), id, actualizado, now);
              r == s.result && State() == s.db
    {
      if id !in productos {
        return Failure(NotFound);
      }
      var producto := productos[id];
      producto := producto.(articulo := Productos.OrElse(actualizado.articulo, producto.articulo));
      producto := producto.(descripcion := Productos.OrElse(actualizado.descripcion, producto.descripcion));
      producto := producto.(precio := actualizado.precio);
      producto := producto.(stock := actualizado.stock);
      producto := producto.(imagenUrl := Productos.OrElse(actualizado.imagenUrl, producto.imagenUrl));
      producto := producto.(fechaActualizacion := Some(now));
      productos := productos[id := producto];
      r := Success(producto);
    }

    method DeleteProducto(id: string) returns (r: Result<()>)
      requires Valid()
      modifies this
      ensures Valid() && logs == old(logs)
      ensures var s := Productos.DeleteProducto(old(State()), id);
              r == s.result && State() == s.db
    {
      if id !in productos {
        return Failure(NotFound);
      }
      productos := productos - {id};
      r := Success(());
    }
  }
}

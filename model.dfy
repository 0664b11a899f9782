/**
  The records the four services read and write, the error kinds they raise,
  and the database value (one keyed store per repository plus the audit log)
  that every service operation takes and returns.
*/
module Model {

  datatype Option<+T> = None | Some(value: T)

  /** The exceptions a service call can end in. `Internal` stands for the
      unchecked exceptions (a `!!` on null, `first()` on an empty list) that the
      exception handler reports as an internal server error. */
  datatype Error = NotFound | BadRequest | Unauthorized | Conflict | Internal

  datatype Result<+T> = Success(value: T) | Failure(error: Error)

  /** A catalogue product. The key is null until the store assigns one;
      price and stock are integers (the price in an abstract unit). */
  datatype Producto = Producto(
    numeroProducto: Option<string>,
    articulo: Option<string>,
    descripcion: Option<string>,
    imagenUrl: Option<string>,
    precio: int,
    stock: int,
    fechaCreacion: Option<int>,
    fechaActualizacion: Option<int>)

  datatype Factura = Factura(numeroFactura: string, fecha: int)

  /** An order for one unit of one product, with the product's name and price
      copied at order time. `estado` is None until someone sets it;
      `fechaCreacion` is in epoch milliseconds. */
  datatype Pedido = Pedido(
    numeroPedido: Option<string>,
    numeroProducto: string,
    usuario: string,
    articulo: Option<string>,
    precioFinal: int,
    factura: Factura,
    estado: Option<string>,
    fechaCreacion: int)

  /** A registered user; `password` holds the encoded password. */
  datatype Usuario = Usuario(
    username: string,
    password: string,
    email: string,
    roles: Option<string>,
    fechacrea: int)

  datatype Tarea = Tarea(
    id: Option<string>,
    titulo: Option<string>,
    descripcion: Option<string>,
    estado: string,
    usuario: Option<string>,
    fechaCreacion: Option<int>,
    fechaActualizacion: Option<int>)

  /** One audit fact: who, what, which order, when. */
  datatype LogSistema = LogSistema(usuario: string, accion: string, referencia: string, fecha: int)

  /** The whole persistent state: products by key, orders by order number,
      users by username, tasks by id, and the append-only log. */
  datatype Db = Db(
    productos: map<string, Producto>,
    pedidos: map<string, Pedido>,
    usuarios: map<string, Usuario>,
    tareas: map<string, Tarea>,
    logs: seq<LogSistema>)

  /** What a service call returns, together with the state it leaves. */
  datatype Step<+T> = Step(result: Result<T>, db: Db)

  /** Kotlin's `Char.isWhitespace` on the JVM: Java whitespace or a Unicode space separator. */
  predicate IsWhitespace(c: char) {
    c == ' ' || c == '\t' || c == '\n' || c == '\U{000B}' || c == '\U{000C}' || c == '\r'
    || ('\U{001C}' <= c <= '\U{001F}')
    || c == '\U{00A0}' || c == '\U{1680}' || ('\U{2000}' <= c <= '\U{200A}')
    || c == '\U{2028}' || c == '\U{2029}' || c == '\U{202F}' || c == '\U{205F}' || c == '\U{3000}'
  }

  /** Kotlin's `isBlank`: empty or whitespace only. */
  predicate IsBlank(s: string) {
    forall i :: 0 <= i < |s| ==> IsWhitespace(s[i])
  }

  /** Kotlin's `isNullOrBlank`. */
  predicate IsNullOrBlank(s: Option<string>) {
    s.None? || IsBlank(s.value)
  }

  /** Every record is stored under its own key, as the repositories do. */
  ghost predicate Consistent(db: Db) {
    && (forall k :: k in db.productos ==> db.productos[k].numeroProducto == Some(k))
    && (forall k :: k in db.pedidos ==> db.pedidos[k].numeroPedido == Some(k))
    && (forall k :: k in db.usuarios ==> db.usuarios[k].username == k)
    && (forall k :: k in db.tareas ==> db.tareas[k].id == Some(k))
  }

  /** `after` is `before` with the one product `k` changed in `stock` by `delta`
      and stamped at `now`; every other product is as it was. */
  ghost predicate StockMoved(before: map<string, Producto>, after: map<string, Producto>, k: string, delta: int, now: int)
  {
    && k in before
    && after.Keys == before.Keys
    && after[k] == before[k].(stock := before[k].stock + delta, fechaActualizacion := Some(now))
    && forall j :: j in before && j != k ==> after[j] == before[j]
  }
}

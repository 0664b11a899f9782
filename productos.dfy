/**
  The product catalogue: a range-checked insert, lookups, a field-merging
  update without range checks, and delete.
*/
module Productos {
  import opened Model

  /** Kotlin's elvis operator `a ?: b` on nullable values. */
  function OrElse<T>(a: Option<T>, b: Option<T>): (r: Option<T>)
    ensures a.Some? ==> r == a
    ensures a.None? ==> r == b
  {
    if a.Some? then a else b
  }

  /** The fields insert accepts: a name that is not blank, a positive price
      and a stock that is not negative. */
  predicate CamposValidos(p: Producto) {
    !IsNullOrBlank(p.articulo) && p.precio > 0 && p.stock >= 0
  }

  /** Store a copy of `producto` under the new key `nuevoId`, both timestamps
      set to `now`. */
  function InsertProducto(db: Db, producto: Producto, nuevoId: string, now: int): (s: Step<Producto>)
    requires nuevoId !in db.productos
    ensures s.result.Success? <==> CamposValidos(producto)
    ensures !CamposValidos(producto) ==> s == Step(Failure(BadRequest), db)
    ensures s.result.Success? ==>
              && s.result.value == producto.(numeroProducto := Some(nuevoId), fechaCreacion := Some(now),
                                             fechaActualizacion := Some(now))
              && CamposValidos(s.result.value)
              && s.db == db.(productos := db.productos[nuevoId := s.result.value])
    ensures Consistent(db) ==> Consistent(s.db)
  {
    if IsNullOrBlank(producto.articulo) || producto.precio <= 0 || producto.stock < 0 then
      Step(Failure(BadRequest), db)
    else
      var nuevo := producto.(numeroProducto := None, fechaCreacion := Some(now), fechaActualizacion := Some(now));
      var guardado := nuevo.(numeroProducto := Some(nuevoId));
      Step(Success(guardado), db.(productos := db.productos[nuevoId := guardado]))
  }

  /** Every stored product. */
  function FindAllProductos(db: Db): (r: set<Producto>)
    ensures forall id :: id in db.productos ==> db.productos[id] in r
    ensures forall p :: p in r ==> exists id :: id in db.productos && db.productos[id] == p
  {
    set id | id in db.productos :: db.productos[id]
  }

  function FindById(db: Db, id: string): (r: Result<Producto>)
    ensures r.Success? <==> id in db.productos
    ensures r.Success? ==> r.value == db.productos[id]
    ensures r.Failure? ==> r.error == NotFound
  {
    if id in db.productos then Success(db.productos[id]) else Failure(NotFound)
  }

  /** The stored product after an update: name, description and image are kept
      where the update carries null, price and stock are always taken. */
  function Fusionar(producto: Producto, actualizado: Producto, now: int): (r: Producto)
    ensures r.numeroProducto == producto.numeroProducto && r.fechaCreacion == producto.fechaCreacion
    ensures r.articulo == (if actualizado.articulo.Some? then actualizado.articulo else producto.articulo)
    ensures r.descripcion == (if actualizado.descripcion.Some? then actualizado.descripcion else producto.descripcion)
    ensures r.imagenUrl == (if actualizado.imagenUrl.Some? then actualizado.imagenUrl else producto.imagenUrl)
    ensures r.precio == actualizado.precio && r.stock == actualizado.stock
    ensures r.fechaActualizacion == Some(now)
  {
    producto.(articulo := OrElse(actualizado.articulo, producto.articulo),
              descripcion := OrElse(actualizado.descripcion, producto.descripcion),
              precio := actualizado.precio,
              stock := actualizado.stock,
              imagenUrl := OrElse(actualizado.imagenUrl, producto.imagenUrl),
              fechaActualizacion := Some(now))
  }

  function UpdateProducto(db: Db, id: string, actualizado: Producto, now: int): (s: Step<Producto>)
    ensures id !in db.productos ==> s == Step(Failure(NotFound), db)
    ensures id in db.productos ==>
              && s.result == Success(Fusionar(db.productos[id], actualizado, now))
              && s.db == db.(productos := db.productos[id := s.result.value])
    ensures Consistent(db) ==> Consistent(s.db)
  {
    match FindById(db, id)
    case Failure(e) => Step(Failure(e), db)
    case Success(producto) =>
      var guardado := Fusionar(producto, actualizado, now);
      Step(Success(guardado), db.(productos := db.productos[id := guardado]))
  }

  function DeleteProducto(db: Db, id: string): (s: Step<()>)
    ensures id !in db.productos ==> s == Step(Failure(NotFound), db)
    ensures id in db.productos ==> s == Step(Success(()), db.(productos := db.productos - {id}))
    ensures Consistent(db) ==> Consistent(s.db)
  {
    if id !in db.productos then Step(Failure(NotFound), db)
    else Step(Success(()), db.(productos := db.productos - {id}))
  }

  // ---------------------------------------------------------------------------

  /** What insert stored is what a lookup under the new key returns. */
  lemma InsertEntoncesFind(db: Db, producto: Producto, nuevoId: string, now: int)
    requires nuevoId !in db.productos && CamposValidos(producto)
    ensures var s := InsertProducto(db, producto, nuevoId, now);
            FindById(s.db, nuevoId) == s.result
  {
  }

  /** Deleting a product just inserted gives back the original database. */
  lemma {:induction false} InsertEntoncesDeleteRestaura(db: Db, producto: Producto, nuevoId: string, now: int)
    requires nuevoId !in db.productos
    ensures var s := InsertProducto(db, producto, nuevoId, now);
            s.result.Success? ==> DeleteProducto(s.db, nuevoId) == Step(Success(()), db)
  {
    var s := InsertProducto(db, producto, nuevoId, now);
    if s.result.Success? {
      assert s.db.productos - {nuevoId} == db.productos;
    }
  }

  /** Applying the same update twice is the same as applying it once. */
  lemma {:induction false} UpdateIdempotente(db: Db, id: string, actualizado: Producto, t1: int, t2: int)
    ensures UpdateProducto(UpdateProducto(db, id, actualizado, t1).db, id, actualizado, t2)
            == UpdateProducto(db, id, actualizado, t2)
  {
    if id in db.productos {
      var p := db.productos[id];
      var p1 := Fusionar(p, actualizado, t1);
      assert Fusionar(p1, actualizado, t2) == Fusionar(p, actualizado, t2);
      assert db.productos[id := p1][id := Fusionar(p1, actualizado, t2)] == db.productos[id := Fusionar(p, actualizado, t2)];
    }
  }

  /** Unlike insert, update checks no ranges: it stores a negative stock and a
      price of zero. */
  lemma UpdateNoCompruebaRangos(db: Db, id: string, actualizado: Producto, now: int)
    requires id in db.productos && actualizado.precio == 0 && actualizado.stock == -1
    ensures var s := UpdateProducto(db, id, actualizado, now);
            s.result.Success? && !CamposValidos(s.db.productos[id])
  {
  }
}

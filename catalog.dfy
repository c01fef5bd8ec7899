/**
 * The catalogue writes: product creation with its column defaults, and the
 * sparse product and service patches, where a field changes only when its
 * key is present in the request.
 */
module Catalog {
  import opened Wrappers
  import opened Models
  import opened Api

  function AddProducto(db: Db, p: Producto): Db {
    db.(productos := db.productos[db.nextId := p], nextId := db.nextId + 1)
  }

  /** A new product whose brand and category are set only to existing rows keeps the database valid. */
  lemma AddProductoValid(db: Db, p: Producto)
    requires Valid(db) && ProductoRefs(db, p)
    ensures Valid(AddProducto(db, p))
  {
  }

  /**
   * `crear_producto`. The arguments are read first, in order, and a
   * missing key raises; the constructor then accepts only null for the
   * relationship attributes `marca` and `categoria`; the commit rejects a
   * null in a non-nullable column. `cantidad` is `data.get("cantidad", 0)`,
   * and a null is left out of the INSERT so the column default applies.
   */
  function CrearProducto(db: Db, req: ProductoRequest): Response<Step> {
    if req.marca.Absent? then Err(MissingKey("marca"))
    else if req.descripcion.Absent? then Err(MissingKey("descripcion"))
    else if req.categoria.Absent? then Err(MissingKey("categoria"))
    else if req.costo.Absent? then Err(MissingKey("costo"))
    else if req.precio.Absent? then Err(MissingKey("precio"))
    else if req.marca.Value? then Err(NotAnEntity("marca"))
    else if req.categoria.Value? then Err(NotAnEntity("categoria"))
    else if req.descripcion.Null? then Err(NotNullViolation("productos.descripcion"))
    else if req.costo.Null? then Err(NotNullViolation("productos.costo"))
    else if req.precio.Null? then Err(NotNullViolation("productos.precio"))
    else
      var cantidad := if req.cantidad.Value? then req.cantidad.value else DEFAULT_PRODUCTO_CANTIDAD;
      var p := Producto(None, req.descripcion.value, None, req.costo.value, req.precio.value, cantidad, req.imagen.Get());
      Ok(Step(AddProducto(db, p), db.nextId))
  }

  /**
   * Creation succeeds only with a null brand and category and with
   * `descripcion`, `costo` and `precio` given; every failure is a server
   * error, and a missing key is the one reported first. The new product
   * has the request's values, `cantidad` 0 when the key is absent or null, and the
   * `imagen` given or none. Nothing else changes and the database stays
   * valid.
   */
  lemma CrearProductoOk(db: Db, req: ProductoRequest)
    requires Valid(db)
    ensures CrearProducto(db, req).Ok? <==>
              && req.marca.Null? && req.categoria.Null?
              && req.descripcion.Value? && req.costo.Value? && req.precio.Value?
    ensures CrearProducto(db, req).Err? ==> Status(CrearProducto(db, req).error) == 500
    ensures (req.marca.Absent? || req.descripcion.Absent? || req.categoria.Absent? || req.costo.Absent? || req.precio.Absent?) ==>
              CrearProducto(db, req).Err? && CrearProducto(db, req).error.MissingKey?
    ensures CrearProducto(db, req).Ok? ==>
              var r := CrearProducto(db, req).value;
              && r.id == db.nextId && r.id !in db.productos && r.id in r.db.productos
              && r.db == AddProducto(db, r.db.productos[r.id])
              && var p := r.db.productos[r.id];
              && p.marcaId.None? && p.categoriaId.None?
              && p.descripcion == req.descripcion.value && p.costo == req.costo.value && p.precio == req.precio.value
              && (!req.cantidad.Value? ==> p.cantidad == 0)
              && (req.cantidad.Value? ==> p.cantidad == req.cantidad.value)
              && p.imagen == req.imagen.Get()
              && Valid(r.db)
  {
    var r := CrearProducto(db, req);
    if r.Ok? {
      AddProductoValid(db, r.value.db.productos[r.value.id]);
    }
  }

  // ---------- Sparse patches ----------

  /**
   * `if key in data: x = data[key]` (and `data.get(key, x)`) on a
   * non-nullable column: `None` when the key holds a null, which the
   * commit rejects.
   */
  function Assign<T>(f: Field<T>, current: T): Option<T> {
    match f
    case Absent => Some(current)
    case Null => None
    case Value(v) => Some(v)
  }

  /** The same on a nullable column: a null clears it. */
  function AssignNullable<T>(f: Field<T>, current: Option<T>): Option<T> {
    if f.Present() then f.Get() else current
  }

  /**
   * The patched product row, or the failure: a non-null value assigned to
   * `marca` or `categoria`, or a null written to a non-nullable column.
   */
  function PatchProducto(p: Producto, patch: ProductoPatch): Response<Producto>
  {
    if patch.marca.Value? then Err(NotAnEntity("marca"))
    else if patch.categoria.Value? then Err(NotAnEntity("categoria"))
    else
      var descripcion := Assign(patch.descripcion, p.descripcion);
      var costo := Assign(patch.costo, p.costo);
      var precio := Assign(patch.precio, p.precio);
      var cantidad := Assign(patch.cantidad, p.cantidad);
      if descripcion.None? then Err(NotNullViolation("productos.descripcion"))
      else if costo.None? then Err(NotNullViolation("productos.costo"))
      else if precio.None? then Err(NotNullViolation("productos.precio"))
      else if cantidad.None? then Err(NotNullViolation("productos.cantidad"))
      else
        Ok(p.(marcaId := if patch.marca.Null? then None else p.marcaId,
              descripcion := descripcion.value,
              categoriaId := if patch.categoria.Null? then None else p.categoriaId,
              costo := costo.value, precio := precio.value, cantidad := cantidad.value,
              imagen := AssignNullable(patch.imagen, p.imagen)))
  }

  /** `actualizar_producto`. */
  function ActualizarProducto(db: Db, pid: Id, patch: ProductoPatch): Response<Step> {
    if pid !in db.productos then Err(NotFound)
    else
      var p :- PatchProducto(db.productos[pid], patch);
      Ok(Step(db.(productos := db.productos[pid := p]), pid))
  }

  /**
   * A field changes only when its key is present, and then to the value
   * sent; a null clears a nullable column and is rejected on the others;
   * a brand or category can only be cleared.
   */
  lemma PatchProductoSpec(p: Producto, patch: ProductoPatch)
    ensures PatchProducto(p, patch).Ok? <==>
              && !patch.marca.Value? && !patch.categoria.Value?
              && !patch.descripcion.Null? && !patch.costo.Null? && !patch.precio.Null? && !patch.cantidad.Null?
    ensures PatchProducto(p, patch).Err? ==> Status(PatchProducto(p, patch).error) == 500
    ensures PatchProducto(p, patch).Ok? ==>
              var n := PatchProducto(p, patch).value;
              && (patch.marca.Absent? ==> n.marcaId == p.marcaId)
              && (patch.marca.Null? ==> n.marcaId.None?)
              && (patch.categoria.Absent? ==> n.categoriaId == p.categoriaId)
              && (patch.categoria.Null? ==> n.categoriaId.None?)
              && (patch.descripcion.Absent? ==> n.descripcion == p.descripcion)
              && (patch.descripcion.Value? ==> n.descripcion == patch.descripcion.value)
              && (patch.costo.Absent? ==> n.costo == p.costo)
              && (patch.costo.Value? ==> n.costo == patch.costo.value)
              && (patch.precio.Absent? ==> n.precio == p.precio)
              && (patch.precio.Value? ==> n.precio == patch.precio.value)
              && (patch.cantidad.Absent? ==> n.cantidad == p.cantidad)
              && (patch.cantidad.Value? ==> n.cantidad == patch.cantidad.value)
              && (patch.imagen.Absent? ==> n.imagen == p.imagen)
              && (patch.imagen.Present() ==> n.imagen == patch.imagen.Get())
  {
  }

  /** Sending the same patch twice has the effect of sending it once. */
  lemma PatchProductoIdempotent(p: Producto, patch: ProductoPatch)
    requires PatchProducto(p, patch).Ok?
    ensures PatchProducto(PatchProducto(p, patch).value, patch) == PatchProducto(p, patch)
  {
    PatchProductoSpec(p, patch);
    PatchProductoSpec(PatchProducto(p, patch).value, patch);
  }

  /** A patch with no keys leaves the product as it is. */
  lemma PatchProductoEmpty(p: Producto)
    ensures PatchProducto(p, ProductoPatch(Absent, Absent, Absent, Absent, Absent, Absent, Absent)) == Ok(p)
  {
  }

  /**
   * An update touches that one product and nothing else: in particular the
   * order items keep the price they were sold at. The database stays
   * valid.
   */
  lemma ActualizarProductoOk(db: Db, pid: Id, patch: ProductoPatch)
    requires Valid(db)
    ensures ActualizarProducto(db, pid, patch).Err? <==>
              pid !in db.productos || PatchProducto(db.productos[pid], patch).Err?
    ensures pid !in db.productos ==> ActualizarProducto(db, pid, patch) == Err(NotFound)
    ensures ActualizarProducto(db, pid, patch).Ok? ==>
              var r := ActualizarProducto(db, pid, patch).value;
              && r.id == pid
              && r.db == db.(productos := db.productos[pid := PatchProducto(db.productos[pid], patch).value])
              && r.db.ordenItems == db.ordenItems
              && Valid(r.db)
  {
    if ActualizarProducto(db, pid, patch).Ok? {
      PatchProductoSpec(db.productos[pid], patch);
    }
  }

  /** The patched service row, or the failure, as for a product. */
  function PatchServicio(s: Servicio, patch: ServicioPatch): Response<Servicio>
  {
    if patch.categoria.Value? then Err(NotAnEntity("categoria"))
    else
      var descripcion := Assign(patch.descripcion, s.descripcion);
      var costo := Assign(patch.costo, s.costo);
      var precio := Assign(patch.precio, s.precio);
      if descripcion.None? then Err(NotNullViolation("servicios.descripcion"))
      else if costo.None? then Err(NotNullViolation("servicios.costo"))
      else if precio.None? then Err(NotNullViolation("servicios.precio"))
      else
        Ok(s.(descripcion := descripcion.value,
              categoriaId := if patch.categoria.Null? then None else s.categoriaId,
              costo := costo.value, precio := precio.value,
              imagen := AssignNullable(patch.imagen, s.imagen)))
  }

  /** `actualizar_servicio`. */
  function ActualizarServicio(db: Db, sid: Id, patch: ServicioPatch): Response<Step> {
    if sid !in db.servicios then Err(NotFound)
    else
      var s :- PatchServicio(db.servicios[sid], patch);
      Ok(Step(db.(servicios := db.servicios[sid := s]), sid))
  }

  lemma PatchServicioSpec(s: Servicio, patch: ServicioPatch)
    ensures PatchServicio(s, patch).Ok? <==>
              !patch.categoria.Value? && !patch.descripcion.Null? && !patch.costo.Null? && !patch.precio.Null?
    ensures PatchServicio(s, patch).Err? ==> Status(PatchServicio(s, patch).error) == 500
    ensures PatchServicio(s, patch).Ok? ==>
              var n := PatchServicio(s, patch).value;
              && (patch.categoria.Absent? ==> n.categoriaId == s.categoriaId)
              && (patch.categoria.Null? ==> n.categoriaId.None?)
              && (patch.descripcion.Absent? ==> n.descripcion == s.descripcion)
              && (patch.descripcion.Value? ==> n.descripcion == patch.descripcion.value)
              && (patch.costo.Absent? ==> n.costo == s.costo)
              && (patch.costo.Value? ==> n.costo == patch.costo.value)
              && (patch.precio.Absent? ==> n.precio == s.precio)
              && (patch.precio.Value? ==> n.precio == patch.precio.value)
              && (patch.imagen.Absent? ==> n.imagen == s.imagen)
              && (patch.imagen.Present() ==> n.imagen == patch.imagen.Get())
  {
  }

  lemma PatchServicioIdempotent(s: Servicio, patch: ServicioPatch)
    requires PatchServicio(s, patch).Ok?
    ensures PatchServicio(PatchServicio(s, patch).value, patch) == PatchServicio(s, patch)
  {
    PatchServicioSpec(s, patch);
    PatchServicioSpec(PatchServicio(s, patch).value, patch);
  }

  lemma ActualizarServicioOk(db: Db, sid: Id, patch: ServicioPatch)
    requires Valid(db)
    ensures ActualizarServicio(db, sid, patch).Err? <==>
              sid !in db.servicios || PatchServicio(db.servicios[sid], patch).Err?
    ensures sid !in db.servicios ==> ActualizarServicio(db, sid, patch) == Err(NotFound)
    ensures ActualizarServicio(db, sid, patch).Ok? ==>
              var r := ActualizarServicio(db, sid, patch).value;
              && r.id == sid
              && r.db == db.(servicios := db.servicios[sid := PatchServicio(db.servicios[sid], patch).value])
              && r.db.ordenItems == db.ordenItems
              && Valid(r.db)
  {
    if ActualizarServicio(db, sid, patch).Ok? {
      PatchServicioSpec(db.servicios[sid], patch);
    }
  }
}

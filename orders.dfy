/**
 * Order intake as functions over a pending session: client and employee
 * resolution (by id, or find-or-create), the per-item rules, order creation,
 * the sparse order patch with replace-all-items semantics, and order
 * deletion. A handler's result is `Ok` with the session it would commit, or
 * `Err`; the store commits the session only on `Ok`.
 */
module Orders {
  import opened Wrappers
  import opened Models
  import opened Api

  // ---------- Inserts (`db.session.add` followed by a flush) ----------

  function AddCliente(db: Db, c: Cliente): Db {
    db.(clientes := db.clientes[db.nextId := c], nextId := db.nextId + 1)
  }

  function AddEmpleada(db: Db, e: Empleada): Db {
    db.(empleadas := db.empleadas[db.nextId := e], nextId := db.nextId + 1)
  }

  function AddOrden(db: Db, o: Orden): Db {
    db.(ordenes := db.ordenes[db.nextId := o], nextId := db.nextId + 1)
  }

  function AddItem(db: Db, it: OrdenItem): Db {
    db.(ordenItems := db.ordenItems[db.nextId := it], nextId := db.nextId + 1)
  }

  // ---------- Client resolution ----------

  predicate TelefonoEs(telefono: string, c: Cliente) {
    c.telefono == telefono
  }

  /** `Cliente.query.filter_by(telefono=telefono).first()`. */
  function ClientePorTelefono(db: Db, telefono: string): Option<Id> {
    FirstMatch(db.clientes, (c: Cliente) => TelefonoEs(telefono, c), 1, db.nextId)
  }

  /**
   * The `cliente` of an order: an existing client by `id`, or else the first
   * client with the given `telefono`, created (with `nombre`) when none has it.
   */
  function ResolveCliente(db: Db, data: Field<PersonaData>): (r: Response<Step>)
    ensures ObjectFalsy(data) ==> r == Err(ClienteRequerido)
    ensures !ObjectFalsy(data) && data.value.id.Present() ==>
              && (r.Ok? <==> data.value.id.Value? && data.value.id.value in db.clientes)
              && (r.Ok? ==> r.value == Step(db, data.value.id.value))
              && (r.Err? ==> r.error == ClienteNoExiste)
    ensures !ObjectFalsy(data) && !data.value.id.Present() ==>
              && (r.Ok? <==> TruthyStr(data.value.nombre) && TruthyStr(data.value.telefono))
              && (r.Err? ==> r.error == ClienteIncompleto)
    ensures r.Ok? ==> r.value.id in r.value.db.clientes
    ensures r.Ok? ==> r.value.db == db || r.value == Step(AddCliente(db, r.value.db.clientes[r.value.id]), db.nextId)
  {
    if ObjectFalsy(data) then Err(ClienteRequerido)
    else
      var c := data.value;
      if c.id.Present() then
        if c.id.Value? && c.id.value in db.clientes then Ok(Step(db, c.id.value)) else Err(ClienteNoExiste)
      else if !TruthyStr(c.nombre) || !TruthyStr(c.telefono) then Err(ClienteIncompleto)
      else
        match ClientePorTelefono(db, c.telefono.value)
        case Some(k) => Ok(Step(db, k))
        case None => Ok(Step(AddCliente(db, Cliente(c.nombre.value, c.telefono.value)), db.nextId))
  }

  /**
   * Find-or-create by phone: a client that already has the phone is reused
   * as it is (its name is not compared or changed), and exactly one client,
   * with the request's name and phone, is added only when no client has it.
   */
  lemma ResolveClientePorTelefono(db: Db, data: Field<PersonaData>, nombre: string, telefono: string)
    requires Valid(db)
    requires data.Value? && data.value.id.Absent?
    requires data.value.nombre == Value(nombre) && data.value.telefono == Value(telefono)
    requires nombre != "" && telefono != ""
    ensures var r := ResolveCliente(db, data);
      && r.Ok?
      && ((exists k :: k in db.clientes && TelefonoEs(telefono, db.clientes[k])) ==>
            r.value.db == db && r.value.db.clientes[r.value.id].telefono == telefono)
      && ((forall k :: k in db.clientes ==> !TelefonoEs(telefono, db.clientes[k])) ==>
            && r.value.id == db.nextId && db.nextId !in db.clientes
            && r.value.db == AddCliente(db, Cliente(nombre, telefono)))
  {
    var r := ResolveCliente(db, data);
    if exists k :: k in db.clientes && TelefonoEs(telefono, db.clientes[k]) {
      var k :| k in db.clientes && TelefonoEs(telefono, db.clientes[k]);
      assert 1 <= k < db.nextId;
      assert ClientePorTelefono(db, telefono).Some?;
    }
  }

  // ---------- Employee resolution ----------

  /** The employee filter: `nombre`, and also `telefono` when one is given. */
  predicate EmpleadaCoincide(nombre: string, telefono: Field<string>, e: Empleada) {
    e.nombre == nombre && (TruthyStr(telefono) ==> e.telefono == Some(telefono.value))
  }

  function EmpleadaPorDatos(db: Db, nombre: string, telefono: Field<string>): Option<Id> {
    FirstMatch(db.empleadas, (e: Empleada) => EmpleadaCoincide(nombre, telefono, e), 1, db.nextId)
  }

  /**
   * The `empleada` of an order: an existing employee by `id`, or else the
   * first employee matching `nombre` (and `telefono` when given), created
   * when none matches.
   */
  function ResolveEmpleada(db: Db, data: Field<PersonaData>, now: Timestamp): (r: Response<Step>)
    ensures ObjectFalsy(data) ==> r == Err(EmpleadaRequerida)
    ensures !ObjectFalsy(data) && data.value.id.Present() ==>
              && (r.Ok? <==> data.value.id.Value? && data.value.id.value in db.empleadas)
              && (r.Ok? ==> r.value == Step(db, data.value.id.value))
              && (r.Err? ==> r.error == EmpleadaNoExiste)
    ensures !ObjectFalsy(data) && !data.value.id.Present() ==>
              && (r.Ok? <==> TruthyStr(data.value.nombre))
              && (r.Err? ==> r.error == EmpleadaSinNombre)
    ensures r.Ok? ==> r.value.id in r.value.db.empleadas
    ensures r.Ok? ==> r.value.db == db || r.value == Step(AddEmpleada(db, r.value.db.empleadas[r.value.id]), db.nextId)
  {
    if ObjectFalsy(data) then Err(EmpleadaRequerida)
    else
      var e := data.value;
      if e.id.Present() then
        if e.id.Value? && e.id.value in db.empleadas then Ok(Step(db, e.id.value)) else Err(EmpleadaNoExiste)
      else if !TruthyStr(e.nombre) then Err(EmpleadaSinNombre)
      else
        match EmpleadaPorDatos(db, e.nombre.value, e.telefono)
        case Some(k) => Ok(Step(db, k))
        case None =>
          var nueva := Empleada(e.nombre.value, e.telefono.Get(), DEFAULT_ACTIVO, now);
          Ok(Step(AddEmpleada(db, nueva), db.nextId))
  }

  /**
   * Find-or-create by name (and phone when given): a matching employee is
   * reused, and a new one, active and with the request's name and phone, is
   * created only when nothing matches.
   */
  lemma ResolveEmpleadaPorDatos(db: Db, data: Field<PersonaData>, nombre: string, now: Timestamp)
    requires Valid(db)
    requires data.Value? && data.value.id.Absent?
    requires data.value.nombre == Value(nombre) && nombre != ""
    ensures var r := ResolveEmpleada(db, data, now);
      && r.Ok?
      && ((exists k :: k in db.empleadas && EmpleadaCoincide(nombre, data.value.telefono, db.empleadas[k])) ==>
            r.value.db == db && EmpleadaCoincide(nombre, data.value.telefono, db.empleadas[r.value.id]))
      && ((forall k :: k in db.empleadas ==> !EmpleadaCoincide(nombre, data.value.telefono, db.empleadas[k])) ==>
            && r.value.id == db.nextId && db.nextId !in db.empleadas
            && r.value.db == AddEmpleada(db, Empleada(nombre, data.value.telefono.Get(), DEFAULT_ACTIVO, now)))
  {
    var tel := data.value.telefono;
    if exists k :: k in db.empleadas && EmpleadaCoincide(nombre, tel, db.empleadas[k]) {
      var k :| k in db.empleadas && EmpleadaCoincide(nombre, tel, db.empleadas[k]);
      assert 1 <= k < db.nextId;
      assert EmpleadaPorDatos(db, nombre, tel).Some?;
    }
  }

  // ---------- Items ----------

  /** `item_data.get("cantidad", 1)`; a null is left out of the INSERT, so the column default applies. */
  function CantidadOf(d: ItemData): int {
    if d.cantidad.Value? then d.cantidad.value else DEFAULT_ITEM_CANTIDAD
  }

  /**
   * When an item is accepted: a known tag, a unit price, and the reference
   * the tag calls for naming an existing row. `requireId` is the creation
   * handler's extra `if not producto_id` test.
   */
  predicate ItemAccepted(productos: map<Id, Producto>, servicios: map<Id, Servicio>, d: ItemData, requireId: bool) {
    && d.precioUnitario.Value?
    && (|| (d.tipo == Value(TIPO_PRODUCTO) && d.productoId.Value? && d.productoId.value in productos
            && (requireId ==> d.productoId.value != 0))
        || (d.tipo == Value(TIPO_SERVICIO) && d.servicioId.Value? && d.servicioId.value in servicios
            && (requireId ==> d.servicioId.value != 0)))
  }

  /** One pass of the item loop: validate an item and build its row. */
  function ValidateItem(productos: map<Id, Producto>, servicios: map<Id, Servicio>, oid: Id, d: ItemData, requireId: bool)
    : (r: Response<OrdenItem>)
    ensures r.Ok? <==> ItemAccepted(productos, servicios, d, requireId)
    // the stored row: the request's tag, only the matching reference, the request's price
    ensures r.Ok? ==> && ItemTagged(r.value)
                      && r.value.ordenId == oid
                      && d.tipo == Value(r.value.tipo)
                      && (r.value.tipo == TIPO_PRODUCTO ==> r.value.productoId == d.productoId.Get() && r.value.productoId.value in productos)
                      && (r.value.tipo == TIPO_SERVICIO ==> r.value.servicioId == d.servicioId.Get() && r.value.servicioId.value in servicios)
                      && r.value.precioUnitario == d.precioUnitario.value
                      && r.value.cantidad == (if d.cantidad.Value? then d.cantidad.value else 1)
    // the errors, in the order the handler tests them
    ensures d.tipo != Value(TIPO_PRODUCTO) && d.tipo != Value(TIPO_SERVICIO) ==> r == Err(TipoInvalido)
    ensures (d.tipo == Value(TIPO_PRODUCTO) || d.tipo == Value(TIPO_SERVICIO)) && !d.precioUnitario.Value? ==>
              r == Err(PrecioRequerido)
    ensures d.tipo == Value(TIPO_PRODUCTO) && d.precioUnitario.Value? && requireId && !TruthyId(d.productoId) ==>
              r == Err(ProductoIdRequerido)
    ensures d.tipo == Value(TIPO_SERVICIO) && d.precioUnitario.Value? && requireId && !TruthyId(d.servicioId) ==>
              r == Err(ServicioIdRequerido)
    ensures d.tipo == Value(TIPO_PRODUCTO) && d.precioUnitario.Value? && (requireId ==> TruthyId(d.productoId))
            && !(d.productoId.Value? && d.productoId.value in productos) ==>
              r == Err(ProductoNoExiste(d.productoId.Get()))
    ensures d.tipo == Value(TIPO_SERVICIO) && d.precioUnitario.Value? && (requireId ==> TruthyId(d.servicioId))
            && !(d.servicioId.Value? && d.servicioId.value in servicios) ==>
              r == Err(ServicioNoExiste(d.servicioId.Get()))
  {
    if d.tipo != Value(TIPO_PRODUCTO) && d.tipo != Value(TIPO_SERVICIO) then Err(TipoInvalido)
    else if !d.precioUnitario.Value? then Err(PrecioRequerido)
    else if d.tipo.value == TIPO_PRODUCTO then
      if requireId && !TruthyId(d.productoId) then Err(ProductoIdRequerido)
      else if !(d.productoId.Value? && d.productoId.value in productos) then Err(ProductoNoExiste(d.productoId.Get()))
      else Ok(OrdenItem(oid, TIPO_PRODUCTO, Some(d.productoId.value), None, CantidadOf(d), d.precioUnitario.value))
    else
      if requireId && !TruthyId(d.servicioId) then Err(ServicioIdRequerido)
      else if !(d.servicioId.Value? && d.servicioId.value in servicios) then Err(ServicioNoExiste(d.servicioId.Get()))
      else Ok(OrdenItem(oid, TIPO_SERVICIO, None, Some(d.servicioId.value), CantidadOf(d), d.precioUnitario.value))
  }

  /** The item loop: validate and add the items one by one, stopping at the first one rejected. */
  function AddItems(s: Db, oid: Id, items: seq<ItemData>, requireId: bool): Response<Db>
    decreases |items|
  {
    if items == [] then Ok(s)
    else
      var it :- ValidateItem(s.productos, s.servicios, oid, items[0], requireId);
      AddItems(AddItem(s, it), oid, items[1..], requireId)
  }

  /** The loop succeeds exactly when every item is accepted. */
  lemma {:induction false} AddItemsOk(s: Db, oid: Id, items: seq<ItemData>, requireId: bool)
    ensures AddItems(s, oid, items, requireId).Ok? <==>
              forall j :: 0 <= j < |items| ==> ItemAccepted(s.productos, s.servicios, items[j], requireId)
    decreases |items|
  {
    if items != [] {
      var v := ValidateItem(s.productos, s.servicios, oid, items[0], requireId);
      if v.Ok? {
        AddItemsOk(AddItem(s, v.value), oid, items[1..], requireId);
        assert forall j :: 1 <= j < |items| ==> items[j] == items[1..][j - 1];
      }
    }
  }

  /** A rejected loop reports the error of the first item it rejects. */
  lemma {:induction false} AddItemsFirstError(s: Db, oid: Id, items: seq<ItemData>, requireId: bool)
    requires AddItems(s, oid, items, requireId).Err?
    ensures exists j :: && 0 <= j < |items|
                        && (forall i :: 0 <= i < j ==> ItemAccepted(s.productos, s.servicios, items[i], requireId))
                        && ValidateItem(s.productos, s.servicios, oid, items[j], requireId)
                             == Err(AddItems(s, oid, items, requireId).error)
    decreases |items|
  {
    var v := ValidateItem(s.productos, s.servicios, oid, items[0], requireId);
    if v.Err? {
      assert 0 < |items|;
    } else {
      var t := AddItem(s, v.value);
      AddItemsFirstError(t, oid, items[1..], requireId);
      var j :| && 0 <= j < |items[1..]|
               && (forall i :: 0 <= i < j ==> ItemAccepted(t.productos, t.servicios, items[1..][i], requireId))
               && ValidateItem(t.productos, t.servicios, oid, items[1..][j], requireId)
                    == Err(AddItems(t, oid, items[1..], requireId).error);
      assert forall i :: 1 <= i < j + 1 ==> items[i] == items[1..][i - 1];
      assert items[j + 1] == items[1..][j];
    }
  }

  /**
   * A successful loop adds one row per input item, at consecutive fresh
   * keys, each the row `ValidateItem` builds for that input; nothing else
   * changes, and the order ends up with exactly |items| more items.
   */
  lemma {:induction false} AddItemsEffect(s: Db, oid: Id, items: seq<ItemData>, requireId: bool)
    requires 1 <= s.nextId && KeysIn(s.ordenItems, s.nextId)
    requires AddItems(s, oid, items, requireId).Ok?
    ensures var t := AddItems(s, oid, items, requireId).value;
      && t == s.(ordenItems := t.ordenItems, nextId := s.nextId + |items|)
      && (forall k :: k in s.ordenItems ==> k in t.ordenItems && t.ordenItems[k] == s.ordenItems[k])
      && (forall k :: k in t.ordenItems ==> k in s.ordenItems || s.nextId <= k < s.nextId + |items|)
      && (forall j :: 0 <= j < |items| ==>
            && ValidateItem(s.productos, s.servicios, oid, items[j], requireId).Ok?
            && s.nextId + j in t.ordenItems
            && t.ordenItems[s.nextId + j] == ValidateItem(s.productos, s.servicios, oid, items[j], requireId).value)
      && KeysIn(t.ordenItems, t.nextId)
      && |ItemIdsOf(t.ordenItems, oid)| == |ItemIdsOf(s.ordenItems, oid)| + |items|
    decreases |items|
  {
    if items != [] {
      var it := ValidateItem(s.productos, s.servicios, oid, items[0], requireId).value;
      var s1 := AddItem(s, it);
      AddItemsEffect(s1, oid, items[1..], requireId);
      assert s.nextId !in s.ordenItems;
      assert ItemIdsOf(s1.ordenItems, oid) == ItemIdsOf(s.ordenItems, oid) + {s.nextId};
      forall j | 0 <= j < |items|
        ensures && ValidateItem(s.productos, s.servicios, oid, items[j], requireId).Ok?
                && s.nextId + j in AddItems(s, oid, items, requireId).value.ordenItems
                && AddItems(s, oid, items, requireId).value.ordenItems[s.nextId + j]
                     == ValidateItem(s.productos, s.servicios, oid, items[j], requireId).value
      {
        if j > 0 {
          assert items[j] == items[1..][j - 1];
        }
      }
    } else {
      assert s.(ordenItems := s.ordenItems, nextId := s.nextId) == s;
    }
  }

  /** Items built for an order that exists keep the database valid. */
  lemma {:induction false} AddItemsValid(s: Db, oid: Id, items: seq<ItemData>, requireId: bool)
    requires Valid(s) && oid in s.ordenes
    requires AddItems(s, oid, items, requireId).Ok?
    ensures Valid(AddItems(s, oid, items, requireId).value)
    decreases |items|
  {
    if items != [] {
      var it := ValidateItem(s.productos, s.servicios, oid, items[0], requireId).value;
      var s1 := AddItem(s, it);
      assert Valid(s1) by {
        assert ItemRefs(s1, it);
        assert forall k :: k in s1.ordenItems ==> k == s.nextId || k in s.ordenItems;
      }
      AddItemsValid(s1, oid, items[1..], requireId);
    }
  }

  // ---------- Order creation ----------

  /** Some order other than `oid` has the same `codigo` (the unique constraint fails at the flush). */
  predicate CodigoRepetido(ordenes: map<Id, Orden>, oid: Id)
    requires oid in ordenes
  {
    exists k :: k in ordenes && k != oid && ordenes[k].codigo == ordenes[oid].codigo
  }

  /**
   * Steps 1 and 2 of `crear_orden`: resolve the client and the employee,
   * then add the order header and flush it.
   */
  function CrearOrdenHeader(db: Db, req: OrdenRequest, env: Env): Response<Step> {
    var c :- ResolveCliente(db, req.cliente);
    var e :- ResolveEmpleada(c.db, req.empleada, env.now);
    if !TruthyStr(req.codigo) then Err(CodigoRequerido)
    else
      var fecha := if TruthyStr(req.fecha) then ParseIsoDatetime(req.fecha.Get(), env) else env.now;
      var oid := e.db.nextId;
      var s := AddOrden(e.db, Orden(req.codigo.value, fecha, c.id, e.id));
      if CodigoRepetido(s.ordenes, oid) then Err(UniqueViolation("ordenes.codigo"))
      else Ok(Step(s, oid))
  }

  /** `crear_orden`. On success, the session to commit and the new order's key. */
  function CrearOrden(db: Db, req: OrdenRequest, env: Env): Response<Step> {
    var h :- CrearOrdenHeader(db, req, env);
    if !req.items.Value? || req.items.value == [] then Err(ItemsRequeridos)
    else
      var t :- AddItems(h.db, h.id, req.items.value, true);
      Ok(Step(t, h.id))
  }

  /** The request-level rejections, in the order the handler tests them. */
  lemma CrearOrdenRejects(db: Db, req: OrdenRequest, env: Env)
    ensures ObjectFalsy(req.cliente) ==> CrearOrden(db, req, env) == Err(ClienteRequerido)
    ensures !ObjectFalsy(req.cliente) && req.cliente.value.id.Present()
            && !(req.cliente.value.id.Value? && req.cliente.value.id.value in db.clientes) ==>
              CrearOrden(db, req, env) == Err(ClienteNoExiste)
    ensures !ObjectFalsy(req.cliente) && req.cliente.value.id.Absent?
            && !(TruthyStr(req.cliente.value.nombre) && TruthyStr(req.cliente.value.telefono)) ==>
              CrearOrden(db, req, env) == Err(ClienteIncompleto)
    ensures ResolveCliente(db, req.cliente).Ok? && ObjectFalsy(req.empleada) ==>
              CrearOrden(db, req, env) == Err(EmpleadaRequerida)
    ensures ResolveCliente(db, req.cliente).Ok? && !TruthyStr(req.codigo)
            && ResolveEmpleada(ResolveCliente(db, req.cliente).value.db, req.empleada, env.now).Ok? ==>
              CrearOrden(db, req, env) == Err(CodigoRequerido)
    ensures CrearOrdenHeader(db, req, env).Ok? && !(req.items.Value? && req.items.value != []) ==>
              CrearOrden(db, req, env) == Err(ItemsRequeridos)
  {
  }

  lemma AddOrdenValid(db: Db, o: Orden)
    requires Valid(db)
    requires OrdenRefs(db, o)
    requires !CodigoRepetido(AddOrden(db, o).ordenes, db.nextId)
    ensures Valid(AddOrden(db, o))
  {
    var s := AddOrden(db, o);
    assert UniqueCodigos(s.ordenes) by {
      forall a, b | a in s.ordenes && b in s.ordenes && s.ordenes[a].codigo == s.ordenes[b].codigo
        ensures a == b
      {
      }
    }
  }

  lemma AddClienteValid(db: Db, c: Cliente)
    requires Valid(db)
    ensures Valid(AddCliente(db, c))
  {
  }

  lemma AddEmpleadaValid(db: Db, e: Empleada)
    requires Valid(db)
    ensures Valid(AddEmpleada(db, e))
  {
  }

  /** Resolving the client adds at most the one new client, and keeps the database valid. */
  lemma ResolveClienteValid(db: Db, data: Field<PersonaData>)
    requires Valid(db)
    requires ResolveCliente(db, data).Ok?
    ensures var c := ResolveCliente(db, data).value;
      && Valid(c.db)
      && c.db == db.(clientes := c.db.clientes, nextId := c.db.nextId)
      && db.nextId <= c.db.nextId
      && (forall k :: k in db.clientes ==> k in c.db.clientes && c.db.clientes[k] == db.clientes[k])
      && c.db.clientes.Keys - db.clientes.Keys <= {db.nextId}
  {
    var c := ResolveCliente(db, data).value;
    if c.db != db {
      AddClienteValid(db, c.db.clientes[c.id]);
    }
  }

  /** Resolving the employee adds at most the one new employee, and keeps the database valid. */
  lemma ResolveEmpleadaValid(db: Db, data: Field<PersonaData>, now: Timestamp)
    requires Valid(db)
    requires ResolveEmpleada(db, data, now).Ok?
    ensures var e := ResolveEmpleada(db, data, now).value;
      && Valid(e.db)
      && e.db == db.(empleadas := e.db.empleadas, nextId := e.db.nextId)
      && db.nextId <= e.db.nextId
      && (forall k :: k in db.empleadas ==> k in e.db.empleadas && e.db.empleadas[k] == db.empleadas[k])
      && e.db.empleadas.Keys - db.empleadas.Keys <= {db.nextId}
  {
    var e := ResolveEmpleada(db, data, now).value;
    if e.db != db {
      AddEmpleadaValid(db, e.db.empleadas[e.id]);
    }
  }

  lemma AtMostOne(a: set<Id>, x: Id)
    requires a <= {x}
    ensures |a| <= 1
  {
    if a != {} {
      assert a == {x};
    }
  }

  /**
   * The header step adds one order with the request's `codigo`, the sent
   * `fecha` (the current time when none is sent), the resolved client and
   * the resolved employee, and at most one client and one employee; the
   * order has no items yet, the catalogue and the users are untouched, and
   * the database stays valid.
   */
  lemma CrearOrdenHeaderOk(db: Db, req: OrdenRequest, env: Env)
    requires Valid(db)
    requires CrearOrdenHeader(db, req, env).Ok?
    ensures var h := CrearOrdenHeader(db, req, env).value;
      && TruthyStr(req.codigo)
      && h.id !in db.ordenes && h.id in h.db.ordenes
      && h.db.ordenes == db.ordenes[h.id := h.db.ordenes[h.id]]
      && ResolveCliente(db, req.cliente).Ok?
      && var c := ResolveCliente(db, req.cliente).value;
      && ResolveEmpleada(c.db, req.empleada, env.now).Ok?
      && h.db.ordenes[h.id] == Orden(req.codigo.value,
                                     if TruthyStr(req.fecha) then ParseIsoDatetime(req.fecha.Get(), env) else env.now,
                                     c.id, ResolveEmpleada(c.db, req.empleada, env.now).value.id)
      && h.db.ordenItems == db.ordenItems
      && h.db.categoriasProductos == db.categoriasProductos && h.db.marcasProductos == db.marcasProductos
      && h.db.categoriasServicios == db.categoriasServicios
      && ItemIdsOf(h.db.ordenItems, h.id) == {}
      && h.db.productos == db.productos && h.db.servicios == db.servicios && h.db.usuarios == db.usuarios
      && (forall k :: k in db.clientes ==> k in h.db.clientes && h.db.clientes[k] == db.clientes[k])
      && |h.db.clientes.Keys - db.clientes.Keys| <= 1
      && (forall k :: k in db.empleadas ==> k in h.db.empleadas && h.db.empleadas[k] == db.empleadas[k])
      && |h.db.empleadas.Keys - db.empleadas.Keys| <= 1
      && Valid(h.db)
  {
    var c := ResolveCliente(db, req.cliente).value;
    ResolveClienteValid(db, req.cliente);
    var e := ResolveEmpleada(c.db, req.empleada, env.now).value;
    ResolveEmpleadaValid(c.db, req.empleada, env.now);
    var fecha := if TruthyStr(req.fecha) then ParseIsoDatetime(req.fecha.Get(), env) else env.now;
    var o := Orden(req.codigo.value, fecha, c.id, e.id);
    var s := AddOrden(e.db, o);
    assert CrearOrdenHeader(db, req, env) == Ok(Step(s, e.db.nextId));
    AddOrdenValid(e.db, o);
    assert db.nextId <= e.db.nextId;
    assert s.clientes == c.db.clientes && s.empleadas == e.db.empleadas;
    AtMostOne(s.clientes.Keys - db.clientes.Keys, db.nextId);
    AtMostOne(s.empleadas.Keys - db.empleadas.Keys, c.db.nextId);
    forall k | k in s.ordenItems
      ensures s.ordenItems[k].ordenId != e.db.nextId
    {
      assert ItemRefs(db, db.ordenItems[k]);
    }
    NoItemsOf(s.ordenItems, e.db.nextId);
  }

  /**
   * A successful creation: the order from the header step, with one item
   * per input item, each accepted by the item rules; every earlier row
   * stays, and the database stays valid.
   */
  lemma CrearOrdenOk(db: Db, req: OrdenRequest, env: Env)
    requires Valid(db)
    requires CrearOrden(db, req, env).Ok?
    ensures var r := CrearOrden(db, req, env).value;
      var h := CrearOrdenHeader(db, req, env).value;
      && r.id == h.id
      && req.items.Value? && |req.items.value| > 0
      && r.db == h.db.(ordenItems := r.db.ordenItems, nextId := r.db.nextId)
      && r.db.ordenes[r.id] == h.db.ordenes[h.id]
      && |ItemIdsOf(r.db.ordenItems, r.id)| == |req.items.value|
      && (forall j :: 0 <= j < |req.items.value| ==> ItemAccepted(db.productos, db.servicios, req.items.value[j], true))
      && (forall k :: k in db.ordenItems ==> k in r.db.ordenItems && r.db.ordenItems[k] == db.ordenItems[k])
      && Valid(r.db)
  {
    CrearOrdenHeaderOk(db, req, env);
    var h := CrearOrdenHeader(db, req, env).value;
    AddItemsEffect(h.db, h.id, req.items.value, true);
    AddItemsValid(h.db, h.id, req.items.value, true);
    AddItemsOk(h.db, h.id, req.items.value, true);
  }

  /**
   * The item rows a loop over `items` leaves for order `oid`: the rows
   * built from the inputs at keys `base, base + 1, …`, and otherwise only
   * rows that were there before.
   */
  ghost predicate ItemsBuilt(before: map<Id, OrdenItem>, after: map<Id, OrdenItem>,
                             productos: map<Id, Producto>, servicios: map<Id, Servicio>,
                             oid: Id, base: Id, items: seq<ItemData>, requireId: bool)
  {
    && RowsFromItems(after, productos, servicios, oid, base, items, requireId)
    && (forall k :: k in after ==> k in before || base <= k < base + |items|)
  }

  /** Input `j` passed the item rules and is, at key `base + j`, the row `ValidateItem` builds for it. */
  ghost predicate RowsFromItems(after: map<Id, OrdenItem>, productos: map<Id, Producto>, servicios: map<Id, Servicio>,
                                oid: Id, base: Id, items: seq<ItemData>, requireId: bool)
  {
    forall j :: 0 <= j < |items| ==>
      && ValidateItem(productos, servicios, oid, items[j], requireId).Ok?
      && base + j in after
      && after[base + j] == ValidateItem(productos, servicios, oid, items[j], requireId).value
  }

  /**
   * The items of a new order: input `j` becomes the row the item rules
   * build for it, at the `j`-th key after the header step; no other item
   * row is new.
   */
  lemma CrearOrdenItems(db: Db, req: OrdenRequest, env: Env)
    requires Valid(db)
    requires CrearOrden(db, req, env).Ok?
    ensures CrearOrdenHeader(db, req, env).Ok? && req.items.Value?
    ensures var r := CrearOrden(db, req, env).value;
      ItemsBuilt(db.ordenItems, r.db.ordenItems, db.productos, db.servicios, r.id,
                 CrearOrdenHeader(db, req, env).value.db.nextId, req.items.value, true)
  {
    var h := CrearOrdenHeader(db, req, env).value;
    CrearOrdenHeaderFrame(db, req, env);
    var t := AddItems(h.db, h.id, req.items.value, true).value;
    assert CrearOrden(db, req, env).value == Step(t, h.id);
    AddItemsBuilt(h.db, h.id, req.items.value, true);
  }

  /** Rows that were there before stay "there before" for a larger table. */
  lemma ItemsBuiltWider(before: map<Id, OrdenItem>, wider: map<Id, OrdenItem>, after: map<Id, OrdenItem>,
                        productos: map<Id, Producto>, servicios: map<Id, Servicio>,
                        oid: Id, base: Id, items: seq<ItemData>, requireId: bool)
    requires before.Keys <= wider.Keys
    requires ItemsBuilt(before, after, productos, servicios, oid, base, items, requireId)
    ensures ItemsBuilt(wider, after, productos, servicios, oid, base, items, requireId)
  {
  }

  lemma AddItemsBuilt(s: Db, oid: Id, items: seq<ItemData>, requireId: bool)
    requires 1 <= s.nextId && KeysIn(s.ordenItems, s.nextId)
    requires AddItems(s, oid, items, requireId).Ok?
    ensures ItemsBuilt(s.ordenItems, AddItems(s, oid, items, requireId).value.ordenItems,
                       s.productos, s.servicios, oid, s.nextId, items, requireId)
  {
    AddItemsEffect(s, oid, items, requireId);
  }

  /** What the item step needs of the header step: the catalogue and the items are as before. */
  lemma CrearOrdenHeaderFrame(db: Db, req: OrdenRequest, env: Env)
    requires Valid(db)
    requires CrearOrdenHeader(db, req, env).Ok?
    ensures var h := CrearOrdenHeader(db, req, env).value;
      && h.db.productos == db.productos && h.db.servicios == db.servicios && h.db.ordenItems == db.ordenItems
      && 1 <= h.db.nextId && KeysIn(h.db.ordenItems, h.db.nextId)
  {
    CrearOrdenHeaderOk(db, req, env);
  }

  /** A failed creation reports an error and leaves nothing to commit. */
  lemma CrearOrdenAtomic(db: Db, req: OrdenRequest, env: Env)
    requires Valid(db)
    requires CrearOrdenHeader(db, req, env).Ok? && req.items.Value? && req.items.value != []
    requires exists j :: 0 <= j < |req.items.value| && !ItemAccepted(db.productos, db.servicios, req.items.value[j], true)
    ensures CrearOrden(db, req, env).Err?
  {
    CrearOrdenHeaderOk(db, req, env);
    var h := CrearOrdenHeader(db, req, env).value;
    AddItemsOk(h.db, h.id, req.items.value, true);
  }

  // ---------- Order update ----------

  /** The `cliente_id` of a patch: unchanged when absent, else an existing client. */
  function PatchCliente(db: Db, clienteId: Field<Id>, current: Id): Response<Id> {
    if clienteId.Absent? then Ok(current)
    else if clienteId.Value? && clienteId.value in db.clientes then Ok(clienteId.value)
    else Err(ClienteIdInvalido)
  }

  /** What the database says when the patched header is flushed. */
  function HeaderViolation(s: Db, oid: Id, patch: OrdenPatch): Option<Error>
    requires oid in s.ordenes
  {
    if patch.codigo.Null? then Some(NotNullViolation("ordenes.codigo"))
    else if CodigoRepetido(s.ordenes, oid) then Some(UniqueViolation("ordenes.codigo"))
    else None
  }

  /** The order header after the sparse patch of `codigo` and `fecha`. */
  function PatchHeader(o: Orden, patch: OrdenPatch, env: Env): Orden {
    var codigo := if patch.codigo.Value? then patch.codigo.value else o.codigo;
    var fecha := if patch.fecha.Present() then ParseIsoDatetime(patch.fecha.Get(), env) else o.fecha;
    o.(codigo := codigo, fecha := fecha)
  }

  /** The order header patched in the session, before anything is flushed. */
  function PatchOrden(db: Db, oid: Id, patch: OrdenPatch, env: Env): Response<Db>
    requires oid in db.ordenes
  {
    var o := PatchHeader(db.ordenes[oid], patch, env);
    var clienteId :- PatchCliente(db, patch.clienteId, o.clienteId);
    Ok(db.(ordenes := db.ordenes[oid := o.(clienteId := clienteId)]))
  }

  /** `actualizar_orden`. */
  function ActualizarOrden(db: Db, oid: Id, patch: OrdenPatch, env: Env): Response<Step> {
    if oid !in db.ordenes then Err(NotFound)
    else
      var s :- PatchOrden(db, oid, patch, env);
      if patch.items.Absent? then
        match HeaderViolation(s, oid, patch)
        case Some(e) => Err(e)
        case None => Ok(Step(s, oid))
      else
        var cleared := s.(ordenItems := ItemsWithout(s.ordenItems, oid));
        match HeaderViolation(cleared, oid, patch)
        case Some(e) => Err(e)
        case None =>
          if patch.items.Null? then Err(NotIterable("items"))
          else
            var t :- AddItems(cleared, oid, patch.items.value, false);
            Ok(Step(t, oid))
  }

  /**
   * The patched header replaces only that order's row, and the database
   * stays valid when the flush accepts the header.
   */
  lemma PatchOrdenValid(db: Db, oid: Id, patch: OrdenPatch, env: Env)
    requires Valid(db) && oid in db.ordenes
    requires PatchOrden(db, oid, patch, env).Ok?
    requires HeaderViolation(PatchOrden(db, oid, patch, env).value, oid, patch).None?
    ensures var s := PatchOrden(db, oid, patch, env).value;
      && oid in s.ordenes
      && s == db.(ordenes := db.ordenes[oid := s.ordenes[oid]])
      && s.ordenes[oid].empleadaId == db.ordenes[oid].empleadaId
      && Valid(s)
  {
    var s := PatchOrden(db, oid, patch, env).value;
    assert UniqueCodigos(s.ordenes) by {
      forall a, b | a in s.ordenes && b in s.ordenes && s.ordenes[a].codigo == s.ordenes[b].codigo
        ensures a == b
      {
      }
    }
    assert forall k :: k in s.ordenItems ==> ItemRefs(s, s.ordenItems[k]);
  }

  /**
   * The patched header: `codigo` and `cliente_id` change only when given
   * (and are never set to null), `fecha` only when its key is present (to
   * the parsed text), the employee never; no other row changes, and the
   * database stays valid when the flush accepts the header.
   */
  lemma PatchOrdenOk(db: Db, oid: Id, patch: OrdenPatch, env: Env)
    requires Valid(db) && oid in db.ordenes
    requires PatchOrden(db, oid, patch, env).Ok?
    requires HeaderViolation(PatchOrden(db, oid, patch, env).value, oid, patch).None?
    ensures var s := PatchOrden(db, oid, patch, env).value;
      && oid in s.ordenes
      && s == db.(ordenes := db.ordenes[oid := s.ordenes[oid]])
      && var (o, n) := (db.ordenes[oid], s.ordenes[oid]);
      && !patch.codigo.Null?
      && n.codigo == (if patch.codigo.Value? then patch.codigo.value else o.codigo)
      && n.fecha == (if patch.fecha.Present() then ParseIsoDatetime(patch.fecha.Get(), env) else o.fecha)
      && !patch.clienteId.Null?
      && n.clienteId == (if patch.clienteId.Value? then patch.clienteId.value else o.clienteId)
      && n.empleadaId == o.empleadaId
      && Valid(s)
  {
    PatchOrdenValid(db, oid, patch, env);
  }

  /**
   * A successful update: the header of `PatchOrdenOk`; the items are
   * untouched when `items` is absent, and otherwise the order's old items
   * are gone, it has exactly one item per input, and every other order's
   * items stay. No other table changes and the database stays valid.
   */
  lemma ActualizarOrdenOk(db: Db, oid: Id, patch: OrdenPatch, env: Env)
    requires Valid(db)
    requires ActualizarOrden(db, oid, patch, env).Ok?
    ensures oid in db.ordenes && PatchOrden(db, oid, patch, env).Ok?
    ensures var r := ActualizarOrden(db, oid, patch, env).value;
      var s := PatchOrden(db, oid, patch, env).value;
      && r.id == oid
      && r.db == s.(ordenItems := r.db.ordenItems, nextId := r.db.nextId)
      && (patch.items.Absent? ==> r.db == s)
      && (patch.items.Present() ==>
            && patch.items.Value?
            && |ItemIdsOf(r.db.ordenItems, oid)| == |patch.items.value|
            && (forall k :: k in db.ordenItems && db.ordenItems[k].ordenId != oid ==>
                  k in r.db.ordenItems && r.db.ordenItems[k] == db.ordenItems[k])
            && (forall k :: k in db.ordenItems && db.ordenItems[k].ordenId == oid ==> k !in r.db.ordenItems))
      && Valid(r.db)
  {
    var s := PatchOrden(db, oid, patch, env).value;
    if patch.items.Absent? {
      PatchOrdenValid(db, oid, patch, env);
    } else {
      var cleared := s.(ordenItems := ItemsWithout(s.ordenItems, oid));
      assert HeaderViolation(s, oid, patch) == HeaderViolation(cleared, oid, patch);
      PatchOrdenValid(db, oid, patch, env);
      assert Valid(cleared);
      assert ItemIdsOf(cleared.ordenItems, oid) == {};
      AddItemsEffect(cleared, oid, patch.items.value, false);
      AddItemsValid(cleared, oid, patch.items.value, false);
      var t := AddItems(cleared, oid, patch.items.value, false).value;
      forall k | k in db.ordenItems && db.ordenItems[k].ordenId == oid
        ensures k !in t.ordenItems
      {
        assert k < cleared.nextId;
      }
    }
  }

  /**
   * The new items of an update: every input passed the item rules of a
   * creation except the non-zero id check, input `j` becomes the row
   * those rules build for it at key `db.nextId + j`, and no other item row
   * is new.
   */
  lemma ActualizarOrdenItems(db: Db, oid: Id, patch: OrdenPatch, env: Env)
    requires Valid(db)
    requires ActualizarOrden(db, oid, patch, env).Ok? && patch.items.Present()
    ensures patch.items.Value?
    ensures var r := ActualizarOrden(db, oid, patch, env).value;
      var items := patch.items.value;
      && (forall j :: 0 <= j < |items| ==> ItemAccepted(db.productos, db.servicios, items[j], false))
      && ItemsBuilt(db.ordenItems, r.db.ordenItems, db.productos, db.servicios, oid, db.nextId, items, false)
  {
    var s := PatchOrden(db, oid, patch, env).value;
    var cleared := s.(ordenItems := ItemsWithout(s.ordenItems, oid));
    assert HeaderViolation(s, oid, patch) == HeaderViolation(cleared, oid, patch);
    PatchOrdenValid(db, oid, patch, env);
    var t := AddItems(cleared, oid, patch.items.value, false).value;
    assert ActualizarOrden(db, oid, patch, env).value == Step(t, oid);
    assert cleared.productos == db.productos && cleared.servicios == db.servicios && cleared.nextId == db.nextId;
    assert cleared.ordenItems.Keys <= db.ordenItems.Keys;
    AddItemsBuilt(cleared, oid, patch.items.value, false);
    ItemsBuiltWider(cleared.ordenItems, db.ordenItems, t.ordenItems, db.productos, db.servicios, oid, db.nextId, patch.items.value, false);
  }

  /** The update answers 404 exactly for an unknown order; every other failure has another status. */
  lemma ActualizarOrdenNotFound(db: Db, oid: Id, patch: OrdenPatch, env: Env)
    ensures var r := ActualizarOrden(db, oid, patch, env);
      (r.Err? && Status(r.error) == 404) <==> oid !in db.ordenes
  {
    var r := ActualizarOrden(db, oid, patch, env);
    if oid in db.ordenes && r.Err? && PatchOrden(db, oid, patch, env).Ok? && patch.items.Value? {
      var s := PatchOrden(db, oid, patch, env).value;
      var cleared := s.(ordenItems := ItemsWithout(s.ordenItems, oid));
      if HeaderViolation(cleared, oid, patch).None? {
        AddItemsFirstError(cleared, oid, patch.items.value, false);
      }
    }
  }

  /** An unknown `cliente_id` fails, whatever else the patch holds. */
  lemma ActualizarOrdenClienteInvalido(db: Db, oid: Id, patch: OrdenPatch, env: Env)
    requires oid in db.ordenes
    requires patch.clienteId.Present() && !(patch.clienteId.Value? && patch.clienteId.value in db.clientes)
    ensures ActualizarOrden(db, oid, patch, env) == Err(ClienteIdInvalido)
  {
  }

  /** Replacing the items with an empty list leaves the order with no items. */
  lemma ActualizarOrdenSinItems(db: Db, oid: Id, patch: OrdenPatch, env: Env)
    requires patch.items == Value([])
    requires ActualizarOrden(db, oid, patch, env).Ok?
    ensures ItemIdsOf(ActualizarOrden(db, oid, patch, env).value.db.ordenItems, oid) == {}
  {
  }

  // ---------- Order deletion ----------

  /** `eliminar_orden`. */
  function EliminarOrden(db: Db, oid: Id): (r: Response<Step>)
    ensures r.Ok? <==> oid in db.ordenes
    ensures r.Err? ==> r.error == NotFound
    ensures r.Ok? ==> r.value.db == DeleteOrden(db, oid)
  {
    if oid !in db.ordenes then Err(NotFound) else Ok(Step(DeleteOrden(db, oid), oid))
  }
}

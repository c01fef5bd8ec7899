/**
 * The application's database as an object: one map field per table and the
 * key counter. Each handler is a method that builds the pending session
 * step by step (the item loops included) and commits it with one
 * assignment of the fields, or returns the error and leaves the fields as
 * they were. Each method is tied to the handler's function of the state
 * before the call, whose properties the other modules prove.
 */
module App {
  import opened Wrappers
  import opened Models
  import opened Api
  import opened Orders
  import opened Users
  import opened Catalog

  /** What the store holds after a handler: the session on success, the old state on an error. */
  ghost predicate Commits(spec: Response<Step>, r: Response<Id>, before: Db, after: Db) {
    if spec.Ok? then r == Ok(spec.value.id) && after == spec.value.db
    else r == Err(spec.error) && after == before
  }

  class Store {
    var clientes: map<Id, Cliente>
    var empleadas: map<Id, Empleada>
    var categoriasProductos: map<Id, Clasificacion>
    var marcasProductos: map<Id, Clasificacion>
    var categoriasServicios: map<Id, Clasificacion>
    var productos: map<Id, Producto>
    var servicios: map<Id, Servicio>
    var ordenes: map<Id, Orden>
    var ordenItems: map<Id, OrdenItem>
    var usuarios: map<Id, Usuario>
    var nextId: Id

    /** The database the fields hold. */
    function Snapshot(): Db
      reads this
    {
      Db(clientes, empleadas, categoriasProductos, marcasProductos, categoriasServicios,
         productos, servicios, ordenes, ordenItems, usuarios, nextId)
    }

    ghost predicate Valid()
      reads this
    {
      Models.Valid(Snapshot())
    }

    /** An empty database. */
    constructor ()
      ensures Snapshot() == EmptyDb() && Valid()
    {
      clientes, empleadas := map[], map[];
      categoriasProductos, marcasProductos, categoriasServicios := map[], map[], map[];
      productos, servicios, ordenes, ordenItems, usuarios := map[], map[], map[], map[], map[];
      nextId := 1;
      EmptyDbValid();
    }

    /** `db.session.commit()`: the pending session becomes the database. */
    method Commit(s: Db)
      modifies this
      ensures Snapshot() == s
    {
      clientes, empleadas := s.clientes, s.empleadas;
      categoriasProductos, marcasProductos, categoriasServicios := s.categoriasProductos, s.marcasProductos, s.categoriasServicios;
      productos, servicios, ordenes, ordenItems, usuarios := s.productos, s.servicios, s.ordenes, s.ordenItems, s.usuarios;
      nextId := s.nextId;
    }

    /**
     * The item loop: validate each item and add its row to the session,
     * stopping at the first one rejected.
     */
    method AddItemsLoop(s0: Db, oid: Id, items: seq<ItemData>, requireId: bool) returns (r: Response<Db>)
      ensures r == AddItems(s0, oid, items, requireId)
    {
      var s := s0;
      var i := 0;
      while i < |items|
        invariant 0 <= i <= |items|
        invariant AddItems(s, oid, items[i..], requireId) == AddItems(s0, oid, items, requireId)
      {
        assert items[i..][0] == items[i] && items[i..][1..] == items[i + 1..];
        var v := ValidateItem(s.productos, s.servicios, oid, items[i], requireId);
        if v.Err? {
          return Err(v.error);
        }
        s := AddItem(s, v.value);
        i := i + 1;
      }
      assert items[i..] == [];
      r := Ok(s);
    }

    /** `POST /ordenes`. */
    method CrearOrden(req: OrdenRequest, env: Env) returns (r: Response<Id>)
      requires Valid()
      modifies this
      ensures Valid()
      ensures Commits(Orders.CrearOrden(old(Snapshot()), req, env), r, old(Snapshot()), Snapshot())
    {
      var s0 := Snapshot();
      var h := CrearOrdenHeader(s0, req, env);
      if h.Err? {
        return Err(h.error);
      }
      if !req.items.Value? || req.items.value == [] {
        return Err(ItemsRequeridos);
      }
      var t := AddItemsLoop(h.value.db, h.value.id, req.items.value, true);
      if t.Err? {
        return Err(t.error);
      }
      CrearOrdenOk(s0, req, env);
      Commit(t.value);
      r := Ok(h.value.id);
    }

    /**
     * The delete loop of `PUT /ordenes/<id>`: every item of order `oid` is
     * deleted from the session, scanning the keys in increasing order.
     */
    method DeleteItemsLoop(items0: map<Id, OrdenItem>, oid: Id, hi: Id) returns (items: map<Id, OrdenItem>)
      requires KeysIn(items0, hi)
      ensures items == ItemsWithout(items0, oid)
    {
      items := items0;
      var k := 1;
      while k < hi
        invariant forall j :: j in items <==> j in items0 && (j >= k || items0[j].ordenId != oid)
        invariant forall j :: j in items ==> items[j] == items0[j]
      {
        if k in items && items[k].ordenId == oid {
          items := items - {k};
        }
        k := k + 1;
      }
      assert forall j :: j in items <==> j in ItemsWithout(items0, oid);
      assert forall j :: j in items ==> items[j] == ItemsWithout(items0, oid)[j];
    }

    /** `PUT /ordenes/<id>`. */
    method ActualizarOrden(oid: Id, patch: OrdenPatch, env: Env) returns (r: Response<Id>)
      requires Valid()
      modifies this
      ensures Valid()
      ensures Commits(Orders.ActualizarOrden(old(Snapshot()), oid, patch, env), r, old(Snapshot()), Snapshot())
    {
      var s0 := Snapshot();
      if oid !in s0.ordenes {
        return Err(NotFound);
      }
      var p := PatchOrden(s0, oid, patch, env);
      if p.Err? {
        return Err(p.error);
      }
      var s := p.value;
      if patch.items.Absent? {
        var violation := HeaderViolation(s, oid, patch);
        if violation.Some? {
          return Err(violation.value);
        }
        ActualizarOrdenOk(s0, oid, patch, env);
        Commit(s);
        return Ok(oid);
      }
      assert s.ordenItems == s0.ordenItems && s.nextId == s0.nextId;
      var remaining := DeleteItemsLoop(s.ordenItems, oid, s.nextId);
      var cleared := s.(ordenItems := remaining);
      var violation := HeaderViolation(cleared, oid, patch);
      if violation.Some? {
        return Err(violation.value);
      }
      if patch.items.Null? {
        return Err(NotIterable("items"));
      }
      var t := AddItemsLoop(cleared, oid, patch.items.value, false);
      if t.Err? {
        return Err(t.error);
      }
      ActualizarOrdenOk(s0, oid, patch, env);
      Commit(t.value);
      r := Ok(oid);
    }

    /** `DELETE /ordenes/<id>`: the order and, by the cascade, its items. */
    method EliminarOrden(oid: Id) returns (r: Response<Id>)
      requires Valid()
      modifies this
      ensures Valid()
      ensures Commits(Orders.EliminarOrden(old(Snapshot()), oid), r, old(Snapshot()), Snapshot())
    {
      if oid !in ordenes {
        return Err(NotFound);
      }
      DeleteOrdenValid(Snapshot(), oid);
      ordenes, ordenItems := ordenes - {oid}, ItemsWithout(ordenItems, oid);
      r := Ok(oid);
    }

    /** `POST /usuarios`. */
    method CrearUsuario(req: UsuarioRequest, env: Env) returns (r: Response<UsuarioView>)
      requires Valid()
      modifies this
      ensures Valid()
      ensures var spec := Users.CrearUsuario(old(Snapshot()), req, env);
        if spec.Ok? then r == Ok(ViewUsuario(spec.value.db, spec.value.id)) && Snapshot() == spec.value.db
        else r == Err(spec.error) && Snapshot() == old(Snapshot())
    {
      var spec := Users.CrearUsuario(Snapshot(), req, env);
      if spec.Err? {
        return Err(spec.error);
      }
      CrearUsuarioValid(Snapshot(), req, env);
      usuarios, nextId := spec.value.db.usuarios, spec.value.db.nextId;
      r := Ok(ViewUsuario(spec.value.db, spec.value.id));
    }

    /** `PUT /usuarios/<id>`: the fields of that one user are assigned in place. */
    method ActualizarUsuario(uid: Id, req: UsuarioRequest, env: Env) returns (r: Response<UsuarioView>)
      requires Valid()
      modifies this
      ensures Valid()
      ensures var spec := Users.ActualizarUsuario(old(Snapshot()), uid, req, env);
        if spec.Ok? then r == Ok(ViewUsuario(spec.value.db, spec.value.id)) && Snapshot() == spec.value.db
        else r == Err(spec.error) && Snapshot() == old(Snapshot())
    {
      var spec := Users.ActualizarUsuario(Snapshot(), uid, req, env);
      if spec.Err? {
        return Err(spec.error);
      }
      ActualizarUsuarioOk(Snapshot(), uid, req, env);
      ActualizarUsuarioValid(Snapshot(), uid, req, env);
      usuarios := usuarios[uid := spec.value.db.usuarios[uid]];
      r := Ok(ViewUsuario(spec.value.db, uid));
    }

    /** `POST /auth/login`: reads the users and changes nothing. */
    method Login(req: LoginRequest) returns (r: Response<LoginView>)
      requires Valid()
      ensures r == Users.Login(Snapshot(), req)
      ensures TruthyStr(req.username) && TruthyStr(req.password) ==>
                (r.Ok? <==> exists k :: k in usuarios && usuarios[k].username == req.username.value
                                        && CheckPassword(usuarios[k], req.password.value))
      ensures r.Ok? ==> TruthyStr(req.username) && TruthyStr(req.password) && r.value.id in usuarios && usuarios[r.value.id].username == req.username.value
                        && r.value.username == req.username.value && r.value.isAdmin == usuarios[r.value.id].isAdmin
                        && CheckPassword(usuarios[r.value.id], req.password.value)
      ensures r.Err? ==> r.error == (if TruthyStr(req.username) && TruthyStr(req.password) then CredencialesInvalidas
                                     else CredencialesRequeridas)
    {
      r := Users.Login(Snapshot(), req);
      if TruthyStr(req.username) && TruthyStr(req.password) {
        LoginSpec(Snapshot(), req);
      }
    }

    /** `POST /productos`. */
    method CrearProducto(req: ProductoRequest) returns (r: Response<Id>)
      requires Valid()
      modifies this
      ensures Valid()
      ensures Commits(Catalog.CrearProducto(old(Snapshot()), req), r, old(Snapshot()), Snapshot())
    {
      var spec := Catalog.CrearProducto(Snapshot(), req);
      if spec.Err? {
        return Err(spec.error);
      }
      CrearProductoOk(Snapshot(), req);
      productos, nextId := spec.value.db.productos, spec.value.db.nextId;
      r := Ok(spec.value.id);
    }

    /** `PUT /productos/<id>`: the fields of that one product are assigned in place. */
    method ActualizarProducto(pid: Id, patch: ProductoPatch) returns (r: Response<Id>)
      requires Valid()
      modifies this
      ensures Valid()
      ensures Commits(Catalog.ActualizarProducto(old(Snapshot()), pid, patch), r, old(Snapshot()), Snapshot())
    {
      if pid !in productos {
        return Err(NotFound);
      }
      var p := PatchProducto(productos[pid], patch);
      if p.Err? {
        return Err(p.error);
      }
      ActualizarProductoOk(Snapshot(), pid, patch);
      productos := productos[pid := p.value];
      r := Ok(pid);
    }

    /** `PUT /servicios/<id>`: the fields of that one service are assigned in place. */
    method ActualizarServicio(sid: Id, patch: ServicioPatch) returns (r: Response<Id>)
      requires Valid()
      modifies this
      ensures Valid()
      ensures Commits(Catalog.ActualizarServicio(old(Snapshot()), sid, patch), r, old(Snapshot()), Snapshot())
    {
      if sid !in servicios {
        return Err(NotFound);
      }
      var s := PatchServicio(servicios[sid], patch);
      if s.Err? {
        return Err(s.error);
      }
      ActualizarServicioOk(Snapshot(), sid, patch);
      servicios := servicios[sid := s.value];
      r := Ok(sid);
    }
  }
}

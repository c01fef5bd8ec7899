/**
 * The persistence schema: one record type per table, the database as a value
 * holding one map per table, and the constraints the schema declares
 * (primary keys, unique columns, non-nullable foreign keys), together with the
 * invariant the writing code has to keep for order items (the tag matches the
 * one reference that is set).
 */
module Models {
  import opened Wrappers

  /** Primary keys are positive integers handed out by the database. */
  type Id = int
  /** A `DateTime` column; dates are opaque here. */
  type Timestamp = int
  /** A `Numeric(10, 2)` amount, written in cents. */
  type Money = int

  const TIPO_PRODUCTO: string := "producto"
  const TIPO_SERVICIO: string := "servicio"

  // Column defaults.
  const DEFAULT_ITEM_CANTIDAD: int := 1
  const DEFAULT_PRODUCTO_CANTIDAD: int := 0
  const DEFAULT_IS_ADMIN: bool := false
  const DEFAULT_ACTIVO: bool := true

  datatype Cliente = Cliente(nombre: string, telefono: string)

  datatype Empleada = Empleada(nombre: string, telefono: Option<string>, activo: bool, creadoEn: Timestamp)

  /** The common shape of `CategoriaProducto`, `MarcaProducto` and `CategoriaServicio`. */
  datatype Clasificacion = Clasificacion(nombre: string, descripcion: Option<string>, activo: bool, creadoEn: Timestamp)

  datatype Producto = Producto(
    marcaId: Option<Id>,
    descripcion: string,
    categoriaId: Option<Id>,
    costo: Money,
    precio: Money,
    cantidad: int,
    imagen: Option<string>)

  datatype Servicio = Servicio(
    descripcion: string,
    categoriaId: Option<Id>,
    costo: Money,
    precio: Money,
    imagen: Option<string>)

  datatype Orden = Orden(codigo: string, fecha: Timestamp, clienteId: Id, empleadaId: Id)

  /** One line of an order: a tag and two nullable references, one of which is set. */
  datatype OrdenItem = OrdenItem(
    ordenId: Id,
    tipo: string,
    productoId: Option<Id>,
    servicioId: Option<Id>,
    cantidad: int,
    precioUnitario: Money)

  /** A salted password hash. The hash is modelled as an injective tag of salt and password. */
  datatype PasswordHash = PasswordHash(salt: nat, secret: string)

  datatype Usuario = Usuario(username: string, passwordHash: PasswordHash, isAdmin: bool, creadoEn: Timestamp)

  /** The contents of the database: one map per table, and the next primary key to hand out. */
  datatype Db = Db(
    clientes: map<Id, Cliente>,
    empleadas: map<Id, Empleada>,
    categoriasProductos: map<Id, Clasificacion>,
    marcasProductos: map<Id, Clasificacion>,
    categoriasServicios: map<Id, Clasificacion>,
    productos: map<Id, Producto>,
    servicios: map<Id, Servicio>,
    ordenes: map<Id, Orden>,
    ordenItems: map<Id, OrdenItem>,
    usuarios: map<Id, Usuario>,
    nextId: Id)

  function EmptyDb(): Db {
    Db(map[], map[], map[], map[], map[], map[], map[], map[], map[], map[], 1)
  }

  // ---------- Passwords ----------

  function GeneratePasswordHash(password: string, salt: nat): PasswordHash {
    PasswordHash(salt, password)
  }

  predicate CheckPasswordHash(h: PasswordHash, password: string) {
    h.secret == password
  }

  /** `Usuario.check_password`. */
  predicate CheckPassword(u: Usuario, password: string) {
    CheckPasswordHash(u.passwordHash, password)
  }

  /** `Usuario.set_password`: replaces the stored hash, and nothing else. */
  function SetPassword(u: Usuario, password: string, salt: nat): (r: Usuario)
    ensures CheckPassword(r, password)
    ensures forall q :: CheckPassword(r, q) ==> q == password
    ensures r.username == u.username && r.isAdmin == u.isAdmin && r.creadoEn == u.creadoEn
  {
    u.(passwordHash := GeneratePasswordHash(password, salt))
  }

  // ---------- Schema constraints ----------

  ghost predicate KeysIn<T>(m: map<Id, T>, next: Id) {
    forall k :: k in m ==> 1 <= k < next
  }

  /** Every primary key is positive and below the next key to hand out. */
  ghost predicate KeysFresh(db: Db) {
    && 1 <= db.nextId
    && KeysIn(db.clientes, db.nextId)
    && KeysIn(db.empleadas, db.nextId)
    && KeysIn(db.categoriasProductos, db.nextId)
    && KeysIn(db.marcasProductos, db.nextId)
    && KeysIn(db.categoriasServicios, db.nextId)
    && KeysIn(db.productos, db.nextId)
    && KeysIn(db.servicios, db.nextId)
    && KeysIn(db.ordenes, db.nextId)
    && KeysIn(db.ordenItems, db.nextId)
    && KeysIn(db.usuarios, db.nextId)
  }

  ghost predicate UniqueNombres(m: map<Id, Clasificacion>) {
    forall a, b :: a in m && b in m && m[a].nombre == m[b].nombre ==> a == b
  }

  ghost predicate UniqueUsernames(m: map<Id, Usuario>) {
    forall a, b :: a in m && b in m && m[a].username == m[b].username ==> a == b
  }

  ghost predicate UniqueCodigos(m: map<Id, Orden>) {
    forall a, b :: a in m && b in m && m[a].codigo == m[b].codigo ==> a == b
  }

  /** The `unique=True` columns. */
  ghost predicate UniqueColumns(db: Db) {
    && UniqueNombres(db.categoriasProductos)
    && UniqueNombres(db.marcasProductos)
    && UniqueNombres(db.categoriasServicios)
    && UniqueUsernames(db.usuarios)
    && UniqueCodigos(db.ordenes)
  }

  /** The tag names the one reference that is set; the other is null. */
  predicate ItemTagged(it: OrdenItem) {
    || (it.tipo == TIPO_PRODUCTO && it.productoId.Some? && it.servicioId.None?)
    || (it.tipo == TIPO_SERVICIO && it.productoId.None? && it.servicioId.Some?)
  }

  ghost predicate ProductoRefs(db: Db, p: Producto) {
    && (p.marcaId.Some? ==> p.marcaId.value in db.marcasProductos)
    && (p.categoriaId.Some? ==> p.categoriaId.value in db.categoriasProductos)
  }

  ghost predicate ServicioRefs(db: Db, s: Servicio) {
    s.categoriaId.Some? ==> s.categoriaId.value in db.categoriasServicios
  }

  /** An order's client and employee are required (non-nullable foreign keys). */
  ghost predicate OrdenRefs(db: Db, o: Orden) {
    o.clienteId in db.clientes && o.empleadaId in db.empleadas
  }

  ghost predicate ItemRefs(db: Db, it: OrdenItem) {
    && it.ordenId in db.ordenes
    && (it.productoId.Some? ==> it.productoId.value in db.productos)
    && (it.servicioId.Some? ==> it.servicioId.value in db.servicios)
  }

  /** Every foreign key that is set refers to an existing row. */
  ghost predicate ForeignKeys(db: Db) {
    && (forall k :: k in db.productos ==> ProductoRefs(db, db.productos[k]))
    && (forall k :: k in db.servicios ==> ServicioRefs(db, db.servicios[k]))
    && (forall k :: k in db.ordenes ==> OrdenRefs(db, db.ordenes[k]))
    && (forall k :: k in db.ordenItems ==> ItemRefs(db, db.ordenItems[k]))
  }

  ghost predicate ItemsTagged(db: Db) {
    forall k :: k in db.ordenItems ==> ItemTagged(db.ordenItems[k])
  }

  /**
   * The schema's constraints, with every item pointing at the row its tag
   * names. Deleting a product or a service (not part of this model) nulls
   * the reference of its items and so leaves states outside `Valid`.
   */
  ghost predicate Valid(db: Db) {
    KeysFresh(db) && UniqueColumns(db) && ForeignKeys(db) && ItemsTagged(db)
  }

  lemma EmptyDbValid()
    ensures Valid(EmptyDb())
  {
  }

  // ---------- Queries ----------

  /**
   * `query.filter_by(...).first()`: the lowest key in [lo, hi) whose row
   * satisfies `p`, or None when no row in that range does.
   */
  function FirstMatch<T>(m: map<Id, T>, p: T -> bool, lo: Id, hi: Id): (r: Option<Id>)
    decreases hi - lo
    ensures r.Some? ==> lo <= r.value < hi && r.value in m && p(m[r.value])
    ensures r.Some? ==> forall k :: lo <= k < r.value && k in m ==> !p(m[k])
    ensures r.None? ==> forall k :: lo <= k < hi && k in m ==> !p(m[k])
  {
    if lo >= hi then None
    else if lo in m && p(m[lo]) then Some(lo)
    else FirstMatch(m, p, lo + 1, hi)
  }

  /** The keys of the items that belong to order `oid`. */
  function ItemIdsOf(items: map<Id, OrdenItem>, oid: Id): set<Id> {
    set k | k in items && items[k].ordenId == oid
  }

  lemma NoItemsOf(items: map<Id, OrdenItem>, oid: Id)
    requires forall k :: k in items ==> items[k].ordenId != oid
    ensures ItemIdsOf(items, oid) == {}
  {
    assert forall k :: k in ItemIdsOf(items, oid) <==> k in {};
  }

  // ---------- Cascade delete ----------

  /** The items table without the items of order `oid`. */
  function ItemsWithout(items: map<Id, OrdenItem>, oid: Id): (r: map<Id, OrdenItem>)
    ensures r.Keys == items.Keys - ItemIdsOf(items, oid)
    ensures forall k :: k in r ==> r[k] == items[k]
  {
    map k | k in items && items[k].ordenId != oid :: items[k]
  }

  /**
   * Deleting an order deletes its items (`cascade="all, delete-orphan"`);
   * every other row stays.
   */
  function DeleteOrden(db: Db, oid: Id): (r: Db)
    ensures r.ordenes.Keys == db.ordenes.Keys - {oid}
    ensures forall k :: k in r.ordenes ==> r.ordenes[k] == db.ordenes[k]
    ensures ItemIdsOf(r.ordenItems, oid) == {}
    ensures r.ordenItems.Keys == db.ordenItems.Keys - ItemIdsOf(db.ordenItems, oid)
    ensures forall k :: k in r.ordenItems ==> r.ordenItems[k] == db.ordenItems[k]
    ensures forall k :: k in db.ordenItems && db.ordenItems[k].ordenId != oid ==>
              k in r.ordenItems && r.ordenItems[k] == db.ordenItems[k]
    ensures r == db.(ordenes := r.ordenes, ordenItems := r.ordenItems)
  {
    db.(ordenes := db.ordenes - {oid}, ordenItems := ItemsWithout(db.ordenItems, oid))
  }

  lemma DeleteOrdenValid(db: Db, oid: Id)
    requires Valid(db)
    ensures Valid(DeleteOrden(db, oid))
  {
    var r := DeleteOrden(db, oid);
    forall k | k in r.ordenItems
      ensures ItemRefs(r, r.ordenItems[k])
    {
      assert k !in ItemIdsOf(db.ordenItems, oid);
    }
  }
}

# Order intake and account rules of a retail and service back office

This project models the write side of a small Flask/SQLAlchemy back
office that records sales and service orders ("órdenes"). An order has a client, an
employee, a unique code and a list of items. Each item is a product or a
service, sold at a unit price fixed when the order is taken. The back office
also keeps user accounts with hashed passwords, and a product and service
catalogue. The model proves the rules those handlers enforce:

- how the client and the employee of an order are found or created;
- which items are accepted;
- that a failed request commits nothing;
- how a sparse patch changes an order, a user, a product or a service;
- that login gives one answer for every kind of bad credential;
- that every write keeps the schema's constraints.

Layout:

- `wrappers.dfy`: `Option` and a failure-compatible `Result`.
- `models.dfy`: the schema. It has one record per table and the database `Db`
  as one map per table plus the next key. `Valid` says that keys are fresh,
  unique columns are unique, foreign keys point to rows that exist, and
  every item is tagged. It also holds password hashing, the `.first()`
  query, and the cascade on order deletion.
- `api.dfy`: the request bodies, the errors, and `Step` (a pending session with the key of the row a handler is about). A key that is absent, set
  to `null` or set to a value is kept apart (`Field`). The file also gives
  each error's message text and HTTP status, and the environment: the
  clock, the ISO-8601 parser and the salt.
- `orders.dfy`, `users.dfy`, `catalog.dfy`: each handler as a function from
  the database to `Ok(session to commit)` or `Err(error)`, with the lemmas
  about it.
- `store.dfy`: the database as a `Store` object, with one map field per
  table. Each handler is a method on it that runs the source's loops (the
  item loop, the delete loop) and commits by assigning the fields. On an
  error it changes nothing. Each method is proved equal to its handler
  function and to keep `Valid`.

Some behaviour comes from the ORM and the database rather than from the
handlers. The model writes it out as follows:

- A column whose new row holds `None` is left out of the INSERT, so the
  column default applies. A `null` item `cantidad` is stored as 1, a `null`
  `is_admin` as false, and a `null` product `cantidad` as 0.
- Setting a non-nullable column to `None` fails at the commit
  (`NotNullViolation`).
- A duplicate `codigo` fails at the first flush after it (`UniqueViolation`).
- Python raising (a missing key, iterating over `null`, a plain value
  assigned to a relationship attribute) is a server error.

Every server error discards the session.

Quantities are not checked to be positive, because the handlers store any
`cantidad` they are sent. The model follows the handlers here.

## Model

The functions without a contract of their own, such as `Models.Valid` (the
schema constraints of models.py) and `Api.ParseIsoDatetime` (app.py:176-188),
are specified by the lemma rows that cite them.

| member | source | states |
|---|---|---|
| Models.SetPassword | models.py:203-209 | after `set_password(p)`, `check_password` accepts `p` and no other password; username, admin flag and creation time are kept |
| Models.FirstMatch | app.py:287 | `.first()`: the lowest key in range whose row matches; when there is none, no row in range matches |
| Models.ItemsWithout | models.py:147-151 | the item table minus exactly the items of the order; every remaining row is unchanged |
| Models.DeleteOrden | models.py:147-151 | deleting an order removes it and all its items (delete-orphan cascade); the item table keeps exactly the other orders' items, unchanged, and gains none; other orders and every other table stay |
| Models.DeleteOrdenValid | models.py:147-151 | the cascade leaves no item pointing at a deleted order, so the database stays valid |
| Models.EmptyDbValid | models.py:9-220 | the empty database satisfies every schema constraint |
| Api.StatusMessage | app.py:403 | a failure's body is the generic server-error page exactly for the 500 errors (the failures the handlers do not catch) and the not-found page exactly for 404; every 400 and 401 answer carries the handler's own text |
| Api.ReplaceZ | app.py:185 | the text after `replace("Z", "+00:00")` has no `Z`, and text without `Z` is unchanged |
| Api.ReplaceZConcat | app.py:185 | the replacement of a text is the replacement of its pieces, joined in the same order |
| Api.ReplaceZChar | app.py:185 | each `Z` becomes `+00:00` and every other character stays as it is; with `ReplaceZConcat` this fixes the whole result |
| Api.ParseIsoDatetimeUtc | app.py:176-188 | a time written with the `Z` suffix is read as the same time written with `+00:00` |
| Api.NatToStringValue | app.py:377 | the id in the "producto … no existe" and "servicio … no existe" texts is the decimal numeral of the id |
| Orders.ResolveCliente | app.py:268-291 | a missing or empty `cliente` fails; an `id` must name an existing client; without `id`, `nombre` and `telefono` are both required; success names a client of the resulting session, which is the old one or the old one plus that single new client |
| Orders.ResolveClientePorTelefono | app.py:280-291 | a client already having the phone is reused and nothing is added; otherwise exactly one client with the request's name and phone is added at a fresh key |
| Orders.ResolveClienteValid | app.py:287-291 | client resolution adds at most the one new client, keeps every other row and keeps the database valid |
| Orders.ResolveEmpleada | app.py:294-322 | a missing `empleada` fails; an `id` must exist; otherwise `nombre` is required; the result is the old session or the old one plus one new employee |
| Orders.ResolveEmpleadaPorDatos | app.py:305-322 | the match is on `nombre`, and on `telefono` only when one is given; a new active employee with the request's name and phone is created only when nothing matches |
| Orders.ResolveEmpleadaValid | app.py:317-322 | employee resolution adds at most the one new employee and keeps the database valid |
| Orders.ValidateItem | app.py:345-385 | an item is accepted exactly when its tag is "producto" or "servicio", it has a price, and the matching reference names an existing row (and is non-zero on creation); each rejection has its own error, in the handler's order; the stored row has the request's tag, only the matching reference, the request's price (not the catalogue price) and `cantidad` 1 by default |
| Orders.AddItemsOk | app.py:345-387 | the item loop succeeds exactly when every item is accepted |
| Orders.AddItemsFirstError | app.py:345-387 | a failed loop reports the error of the first rejected item, all items before it being accepted |
| Orders.AddItemsEffect | app.py:345-387 | a successful loop adds one row per input item, at consecutive fresh keys, each the row built from that item; every earlier row stays; the order gains exactly as many items as there were inputs |
| Orders.AddItemsValid | app.py:364-387 | items built for an existing order keep the database valid: tagged, with references to existing rows |
| Orders.CrearOrdenRejects | app.py:265-343 | the request-level rejections of `crear_orden`, in order: no client, unknown client id, incomplete client, no employee, no `codigo`, no items |
| Orders.AddOrdenValid | app.py:331-338 | adding an order whose client and employee exist and whose code is new keeps the database valid |
| Orders.CrearOrdenHeaderOk | app.py:267-338 | the header step adds one order whose row holds the request's `codigo`, the parsed `fecha` (the current time when none is sent), the resolved client and the resolved employee; the order has no items; at most one new client and one new employee; the catalogue, classification and user tables are unchanged; the database stays valid |
| Orders.CrearOrdenOk | app.py:242-391 | a successful creation is that header, with the same order row, plus exactly one item per input item, every input item being accepted; earlier items stay and the database stays valid |
| Orders.CrearOrdenItems | app.py:345-387 | input item `j` of a new order becomes, at the `j`-th fresh key, the row the item rules build for it; no other item row is new |
| Orders.CrearOrdenAtomic | app.py:345-389 | one rejected item makes the whole creation fail, so no client, employee, order or item is committed |
| Orders.PatchOrdenValid | app.py:406-420 | the patched header replaces only that order's row, keeps its employee, and keeps the database valid |
| Orders.PatchOrdenOk | app.py:406-420 | `codigo` and `cliente_id` change only when given and are never nulled, `fecha` only when its key is present (to the parsed text), the employee never; no other row changes and the database stays valid |
| Orders.ActualizarOrdenOk | app.py:393-469 | items are untouched when `items` is absent; otherwise every old item of the order is deleted, the order gets exactly one item per input, other orders' items stay; the database stays valid |
| Orders.ActualizarOrdenItems | app.py:423-466 | every input item of an update passed the creation's item rules except the non-zero id check; input `j` becomes, at the `j`-th fresh key, the row those rules build; no other item row is new |
| Orders.ActualizarOrdenNotFound | app.py:403 | the update answers 404 exactly when the order does not exist; every other failure has another status |
| Orders.ActualizarOrdenClienteInvalido | app.py:416-419 | an unknown `cliente_id` fails whatever else the patch holds |
| Orders.ActualizarOrdenSinItems | app.py:423-430 | replacing the items with an empty list leaves the order with no items |
| Orders.EliminarOrden | app.py:471-476 | deletion succeeds exactly for an existing order (404 otherwise) and commits the cascade delete |
| Users.UsuarioPorUsernameFinds | app.py:533 | the username query finds a user exactly when some user has that username, and the one found has it |
| Users.CrearUsuario | app.py:511-550 | both `username` and `password` are required; the only other error is a taken username; the new user has the username, the password, `is_admin` false unless `true` is sent, and the current time |
| Users.CrearUsuarioUnico | app.py:532-534 | with credentials given, creation fails exactly when the username is taken, with "username ya existe" |
| Users.CrearUsuarioValid | models.py:197 | creation keeps usernames unique and the database valid |
| Users.ActualizarUsuario | app.py:552-588 | a successful update is about the existing user it was asked for |
| Users.ActualizarUsuarioRejects | app.py:564-573 | an unknown user is 404; a sent username is rejected with "username ya existe" exactly when another user holds it, so resending one's own username is never rejected; a null username fails at the commit |
| Users.ActualizarUsuarioOk | app.py:567-581 | only that user changes: the username when one is given; the password only for a non-empty one (the old hash is kept otherwise); `is_admin` when the key is present, null meaning false; the creation time never |
| Users.ActualizarUsuarioValid | app.py:567-581 | the update keeps usernames unique and the database valid |
| Users.Login | app.py:601-631 | missing credentials give 400; every other failure is "credenciales inválidas"; success returns only id, username and admin flag of a user whose password matches |
| Users.LoginSpec | app.py:619-631 | with credentials given, login succeeds exactly when the user with that username has that password, and returns that user; an unknown user and a wrong password get the same 401 error |
| Users.CrearThenLogin | app.py:622-624 | a user just created logs in with the username and password it was created with |
| Users.ActualizarThenLogin | app.py:575-576 | after an update with a non-empty password, the user logs in with the new password and not with any other |
| Catalog.CrearProductoOk | app.py:56-72 | creation needs every key; it succeeds only with a null brand and category and with description and prices set; `cantidad` is 0 when the key is absent or null (the column default); every failure is a server error; the database stays valid |
| Catalog.PatchProductoSpec | app.py:79-89 | each product field changes only when its key is present, to the value sent; a null on a non-nullable column fails; a brand or category can only be cleared |
| Catalog.PatchProductoIdempotent | app.py:79-89 | sending the same product patch twice is the same as sending it once |
| Catalog.PatchProductoEmpty | app.py:79-89 | a product patch with no keys changes nothing |
| Catalog.ActualizarProductoOk | app.py:75-92 | the update fails exactly for an unknown product or a rejected patch; otherwise only that product changes, order items keep their sold prices, and the database stays valid |
| Catalog.PatchServicioSpec | app.py:154-162 | each service field changes only when its key is present; nulls on non-nullable columns fail; the category can only be cleared |
| Catalog.PatchServicioIdempotent | app.py:154-162 | sending the same service patch twice is the same as sending it once |
| Catalog.ActualizarServicioOk | app.py:150-166 | only that service changes, order items are untouched, and the database stays valid |
| App.Store.Commit | app.py:389 | after the commit the store holds exactly the session |
| App.Store.AddItemsLoop | app.py:345-387 | the item loop computes the item step of `Orders.AddItems` |
| App.Store.CrearOrden | app.py:242-391 | `POST /ordenes` commits the session of `Orders.CrearOrden` on success and changes nothing on an error; the store stays valid |
| App.Store.DeleteItemsLoop | app.py:425-427 | the delete loop removes exactly the items of the order |
| App.Store.ActualizarOrden | app.py:393-469 | `PUT /ordenes/<id>` commits the session of `Orders.ActualizarOrden` or changes nothing; the store stays valid |
| App.Store.EliminarOrden | app.py:471-476 | `DELETE /ordenes/<id>` commits the cascade delete or changes nothing; the store stays valid |
| App.Store.CrearUsuario | app.py:511-550 | `POST /usuarios` commits the new user and answers with its view, or changes nothing; the store stays valid |
| App.Store.ActualizarUsuario | app.py:552-588 | `PUT /usuarios/<id>` assigns that user's fields or changes nothing; the store stays valid |
| App.Store.Login | app.py:601-631 | login reads the store and answers `Users.Login` of its state: success exactly when a user has the username and the password, and it returns that user's id, username and admin flag; failures are 400 for missing credentials and 401 otherwise |
| App.Store.CrearProducto | app.py:55-72 | `POST /productos` commits the new product or changes nothing; the store stays valid |
| App.Store.ActualizarProducto | app.py:74-92 | `PUT /productos/<id>` assigns that product's fields or changes nothing; the store stays valid |
| App.Store.ActualizarServicio | app.py:149-166 | `PUT /servicios/<id>` assigns that service's fields or changes nothing; the store stays valid |

## Left out

- HTTP plumbing (routing, `jsonify`, `get_or_404`) is not modelled. Results are `Ok`/`Err` values; the error's text and status are functions of the error.
- The serialisers are not modelled: `orden_to_dict` and the list and get handlers of orders, products, services and users. They read relationship objects and convert to floats. The order handlers return the order's key instead of its dictionary.
- `datetime.fromisoformat` and the clock are parameters, in the environment `Env`, and dates are opaque integers. `parse_iso_datetime` itself (the empty-text case, the `Z` replacement and the fallback to the current time) is modelled.
- Prices are integer cents. The `Numeric` and `Float` columns and the float conversions are not modelled.
- A request body that is not a JSON object is not modelled, and neither is a value of an unexpected JSON type. For example, an `empleada` sent as a plain string makes the handler raise. Every field has the type the handler expects.
- `bool(data["is_admin"])` is modelled only for booleans and `null`.
- Brand and category are modelled only as far as the handlers can run: `null` is accepted (no reference) and any other value is a server error. As written, the handlers assign the raw JSON value to a relationship attribute.
- The `empleada` assignment of `actualizar_orden` (app.py:412-413) is not modelled. It assigns the raw JSON value to the relationship.
- These endpoints are not part of this model: `crear_servicio`, the product, service and user deletions, and the client, employee, brand and category endpoints.
- Concurrent requests, and races between two find-or-create calls, are not modelled. The store is sequential.
- Constraint errors are reported at the explicit flush and commit points. An autoflush triggered by a query could report them earlier, for instance `Cliente.query.get` in `actualizar_orden` with a null `codigo` pending. The request still fails with nothing committed, but which error is named may differ.
- Models.FirstMatch: `.first()` has no `ORDER BY`. The model takes the lowest key, and the database may return another matching row.
- Models.GeneratePasswordHash: the hash is an injective tag of salt and password. One-wayness is not modelled, and the random salt is a parameter.
- Models.SetPassword is modelled on the user record's value rather than as an in-place change of an object.
- App.Store.DeleteItemsLoop scans the item keys in increasing order instead of walking the order's item list. The deletions are the same in any order.
- The parsed `fecha` is the environment parser's value. What `datetime.fromisoformat` accepts is not modelled.
- `Valid` assumes that no product and no service has ever been deleted. Such a deletion nulls the `producto_id` or `servicio_id` of its items (models.py:178-179) and leaves an item whose tag names no row.
- app.py:20 misses the closing parenthesis of `jsonify(...)`, so the file as given does not parse. The model describes the evident intent: that route is unchanged and the rest of the file runs as written.
- Every table draws its keys from one counter `nextId`, while the database numbers each table on its own. The keys the handlers return (for example app.py:72) are therefore fresh but not the program's numbers.
- Integer columns are unbounded in the model. The database's integer width is not modelled, so a `cantidad` (models.py:96, models.py:185) too large for the column is stored here, while the database rejects it at the flush.
- The `String(n)` length limits of the columns are not modelled, for example `Orden.codigo` String(20) at models.py:135. A longer text would fail at the database.
- Store methods that compute a session through the handler functions state it as a whole. The find-or-create lookups and the flushes between steps are no separate steps of the object.

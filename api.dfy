/**
 * What the handlers receive and return: JSON payloads as typed records whose
 * fields remember whether the key was absent, null or set; the errors the
 * handlers report with their messages and status codes; and the environment
 * (clock, ISO-8601 parser, password salt) the handlers consult.
 */
module Api {
  import opened Wrappers
  import opened Models

  /** A key of a JSON object: missing, present with `null`, or present with a value. */
  datatype Field<+T> = Absent | Null | Value(value: T) {
    /** `key in data` */
    predicate Present() { !Absent? }

    /** `data.get(key)` */
    function Get(): Option<T> {
      if Value? then Some(value) else None
    }
  }

  /** Truthiness of a text value: present, not null and not empty. */
  predicate TruthyStr(f: Field<string>) {
    f.Value? && f.value != ""
  }

  /** Truthiness of a numeric id: present, not null and not zero. */
  predicate TruthyId(f: Field<Id>) {
    f.Value? && f.value != 0
  }

  /**
   * The `cliente` and `empleada` objects of an order request. `otherKeys`
   * records whether the object has keys besides these three.
   */
  datatype PersonaData = PersonaData(id: Field<Id>, nombre: Field<string>, telefono: Field<string>, otherKeys: bool)

  /** `not data.get(key)` for an object: missing, null or `{}`. */
  predicate ObjectFalsy(f: Field<PersonaData>) {
    || !f.Value?
    || (f.value.id.Absent? && f.value.nombre.Absent? && f.value.telefono.Absent? && !f.value.otherKeys)
  }

  datatype ItemData = ItemData(
    tipo: Field<string>,
    productoId: Field<Id>,
    servicioId: Field<Id>,
    cantidad: Field<int>,
    precioUnitario: Field<Money>)

  /** The body of `POST /ordenes`. */
  datatype OrdenRequest = OrdenRequest(
    cliente: Field<PersonaData>,
    empleada: Field<PersonaData>,
    codigo: Field<string>,
    fecha: Field<string>,
    items: Field<seq<ItemData>>)

  /** The body of `PUT /ordenes/<id>`. */
  datatype OrdenPatch = OrdenPatch(
    codigo: Field<string>,
    fecha: Field<string>,
    clienteId: Field<Id>,
    items: Field<seq<ItemData>>)

  /** The body of `POST /usuarios` and of `PUT /usuarios/<id>`. */
  datatype UsuarioRequest = UsuarioRequest(username: Field<string>, password: Field<string>, isAdmin: Field<bool>)

  datatype LoginRequest = LoginRequest(username: Field<string>, password: Field<string>)

  /**
   * The body of `POST /productos`. `marca` and `categoria` stand for any
   * JSON value the client sends for the relationship attributes.
   */
  datatype ProductoRequest = ProductoRequest(
    marca: Field<string>,
    descripcion: Field<string>,
    categoria: Field<string>,
    costo: Field<Money>,
    precio: Field<Money>,
    cantidad: Field<int>,
    imagen: Field<string>)

  /** The body of `PUT /productos/<id>`. */
  datatype ProductoPatch = ProductoPatch(
    marca: Field<string>,
    descripcion: Field<string>,
    categoria: Field<string>,
    costo: Field<Money>,
    precio: Field<Money>,
    cantidad: Field<int>,
    imagen: Field<string>)

  /** The body of `PUT /servicios/<id>`. */
  datatype ServicioPatch = ServicioPatch(
    descripcion: Field<string>,
    categoria: Field<string>,
    costo: Field<Money>,
    precio: Field<Money>,
    imagen: Field<string>)

  /** What a handler reports instead of a result. Nothing it did is committed. */
  datatype Error =
    | ClienteRequerido
    | ClienteNoExiste
    | ClienteIncompleto
    | EmpleadaRequerida
    | EmpleadaNoExiste
    | EmpleadaSinNombre
    | CodigoRequerido
    | ItemsRequeridos
    | TipoInvalido
    | PrecioRequerido
    | ProductoIdRequerido
    | ServicioIdRequerido
    | ProductoNoExiste(productoId: Option<Id>)
    | ServicioNoExiste(servicioId: Option<Id>)
    | ClienteIdInvalido
    | CredencialesRequeridas
    | UsernameExiste
    | CredencialesInvalidas
    | NotFound
      // Failures the handlers do not catch: the database rejects the flush or
      // commit, or Python raises; the request ends with a server error and the
      // session is discarded.
    | UniqueViolation(column: string)
    | NotNullViolation(column: string)
    | MissingKey(key: string)
    | NotIterable(key: string)
      // a plain JSON value assigned to a relationship attribute
    | NotAnEntity(key: string)

  type Response<T> = Result<T, Error>

  /** A pending session and the key of the row the handler is about. */
  datatype Step = Step(db: Db, id: Id)

  function NatToString(n: nat): (s: string)
    ensures |s| >= 1
    ensures forall i :: 0 <= i < |s| ==> '0' <= s[i] <= '9'
  {
    var d := ['0' + (n % 10) as char];
    if n < 10 then d else NatToString(n / 10) + d
  }

  /** The number a string of decimal digits denotes. */
  function DigitsValue(s: string): int
    requires forall i :: 0 <= i < |s| ==> '0' <= s[i] <= '9'
  {
    if s == [] then 0 else 10 * DigitsValue(s[..|s| - 1]) + (s[|s| - 1] - '0') as int
  }

  /** `NatToString` writes the decimal numeral of `n`. */
  lemma {:induction false} NatToStringValue(n: nat)
    ensures DigitsValue(NatToString(n)) == n
    decreases n
  {
    var s := NatToString(n);
    assert s[..|s| - 1] == (if n < 10 then [] else NatToString(n / 10));
    if n >= 10 {
      NatToStringValue(n / 10);
    }
  }

  /** Python's `f"{value}"` for an optional integer. */
  function IdText(id: Option<Id>): string {
    match id
    case None => "None"
    case Some(n) => if n < 0 then "-" + NatToString(-n) else NatToString(n)
  }

  /**
   * The text of the answer: the `error` text of the JSON body for the
   * errors the handlers report, and for 404 and 500 a name that stands for
   * the framework's not-found and server-error pages.
   */
  function Message(e: Error): string {
    match e
    case ClienteRequerido => "cliente es requerido"
    case ClienteNoExiste => "cliente con ese id no existe"
    case ClienteIncompleto => "cliente requiere nombre y telefono"
    case EmpleadaRequerida => "empleada es requerida"
    case EmpleadaNoExiste => "empleada con ese id no existe"
    case EmpleadaSinNombre => "empleada requiere al menos nombre"
    case CodigoRequerido => "codigo de orden es requerido"
    case ItemsRequeridos => "debe incluir al menos un item en 'items'"
    case TipoInvalido => "tipo de item debe ser 'producto' o 'servicio'"
    case PrecioRequerido => "precio_unitario es requerido en cada item"
    case ProductoIdRequerido => "producto_id es requerido cuando tipo='producto'"
    case ServicioIdRequerido => "servicio_id es requerido cuando tipo='servicio'"
    case ProductoNoExiste(id) => "producto " + IdText(id) + " no existe"
    case ServicioNoExiste(id) => "servicio " + IdText(id) + " no existe"
    case ClienteIdInvalido => "cliente_id no v\U{E1}lido"
    case CredencialesRequeridas => "username y password son requeridos"
    case UsernameExiste => "username ya existe"
    case CredencialesInvalidas => "credenciales inv\U{E1}lidas"
    case NotFound => "Not Found"
    case UniqueViolation(_) => "Internal Server Error"
    case NotNullViolation(_) => "Internal Server Error"
    case MissingKey(_) => "Internal Server Error"
    case NotIterable(_) => "Internal Server Error"
    case NotAnEntity(_) => "Internal Server Error"
  }

  /** The HTTP status of an error response. */
  function Status(e: Error): int {
    match e
    case CredencialesInvalidas => 401
    case NotFound => 404
    case UniqueViolation(_) => 500
    case NotNullViolation(_) => 500
    case MissingKey(_) => 500
    case NotIterable(_) => 500
    case NotAnEntity(_) => 500
    case _ => 400
  }

  /**
   * The text of a failure agrees with its status: the name standing for the
   * server-error page exactly for the 500 errors, the one standing for the
   * not-found page exactly for 404, and the handler's own text for the 400
   * and 401 answers.
   */
  lemma StatusMessage(e: Error)
    ensures Status(e) == 500 <==> Message(e) == "Internal Server Error"
    ensures Status(e) == 404 <==> Message(e) == "Not Found"
  {
    // the two messages built at run time start with a letter neither page starts with
    match e
    case ProductoNoExiste(_) => assert Message(e)[0] == 'p';
    case ServicioNoExiste(_) => assert Message(e)[0] == 's';
    case _ =>
  }

  // ---------- Dates ----------

  /**
   * The clock, the ISO-8601 parser (`datetime.fromisoformat`, None where it
   * raises) and the salt the password hash draws: everything a handler takes
   * from outside the request and the database.
   */
  datatype Env = Env(now: Timestamp, fromIso: string -> Option<Timestamp>, salt: nat)

  /** `value.replace("Z", "+00:00")`. */
  function ReplaceZ(s: string): (r: string)
    ensures forall i :: 0 <= i < |r| ==> r[i] != 'Z'
    ensures (forall i :: 0 <= i < |s| ==> s[i] != 'Z') ==> r == s
  {
    if s == [] then []
    else (if s[0] == 'Z' then "+00:00" else [s[0]]) + ReplaceZ(s[1..])
  }

  /** The replacement works character by character: text splits into pieces replaced separately. */
  lemma {:induction false} ReplaceZConcat(a: string, b: string)
    ensures ReplaceZ(a + b) == ReplaceZ(a) + ReplaceZ(b)
    decreases |a|
  {
    if a == [] {
      assert a + b == b;
    } else {
      var head := if a[0] == 'Z' then "+00:00" else [a[0]];
      assert (a + b)[0] == a[0] && (a + b)[1..] == a[1..] + b;
      ReplaceZConcat(a[1..], b);
      calc {
        ReplaceZ(a + b);
        head + ReplaceZ(a[1..] + b);
        head + (ReplaceZ(a[1..]) + ReplaceZ(b));
        (head + ReplaceZ(a[1..])) + ReplaceZ(b);
        ReplaceZ(a) + ReplaceZ(b);
      }
    }
  }

  /** Each `Z` becomes `+00:00` and every other character stays as it is. */
  lemma ReplaceZChar(c: char)
    ensures ReplaceZ([c]) == (if c == 'Z' then "+00:00" else [c])
  {
    assert [c][1..] == [];
  }

  /** `parse_iso_datetime`: the parsed value, or the current time when the text is empty or does not parse. */
  function ParseIsoDatetime(value: Option<string>, env: Env): Timestamp {
    if value.None? || value.value == "" then env.now
    else
      match env.fromIso(ReplaceZ(value.value))
      case Some(t) => t
      case None => env.now
  }

  /**
   * A UTC time written with the `Z` suffix is read as the same time written
   * with `+00:00`, whatever the parser does with the text.
   */
  lemma ParseIsoDatetimeUtc(a: string, env: Env)
    ensures ParseIsoDatetime(Some(a + "Z"), env) == ParseIsoDatetime(Some(a + "+00:00"), env)
  {
    ReplaceZConcat(a, "Z");
    ReplaceZChar('Z');
    ReplaceZConcat(a, "+00:00");
  }
}

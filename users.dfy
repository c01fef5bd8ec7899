/**
 * User accounts: creation with required credentials and a unique username,
 * the sparse update (collision check only for a changed username, re-hash
 * only for a non-empty password, `is_admin` coerced to a boolean), and
 * login with one generic failure for an unknown user and a wrong password.
 */
module Users {
  import opened Wrappers
  import opened Models
  import opened Api

  function AddUsuario(db: Db, u: Usuario): Db {
    db.(usuarios := db.usuarios[db.nextId := u], nextId := db.nextId + 1)
  }

  predicate UsernameEs(username: string, u: Usuario) {
    u.username == username
  }

  /** `Usuario.query.filter_by(username=username).first()`. */
  function UsuarioPorUsername(db: Db, username: string): Option<Id> {
    FirstMatch(db.usuarios, (u: Usuario) => UsernameEs(username, u), 1, db.nextId)
  }

  /** Some user has this username. */
  ghost predicate UsernameTomado(db: Db, username: string) {
    exists k :: k in db.usuarios && db.usuarios[k].username == username
  }

  /** On a valid database the query finds a user exactly when one has the username. */
  lemma UsuarioPorUsernameFinds(db: Db, username: string)
    requires KeysIn(db.usuarios, db.nextId)
    ensures UsuarioPorUsername(db, username).Some? <==> UsernameTomado(db, username)
    ensures UsuarioPorUsername(db, username).Some? ==>
              db.usuarios[UsuarioPorUsername(db, username).value].username == username
  {
    if UsernameTomado(db, username) {
      var k :| k in db.usuarios && db.usuarios[k].username == username;
      assert 1 <= k < db.nextId;
      assert UsernameEs(username, db.usuarios[k]);
    }
  }

  /** The body of a user response: the row without its password hash. */
  datatype UsuarioView = UsuarioView(id: Id, username: string, isAdmin: bool, creadoEn: Timestamp)

  /** The body of a successful login. */
  datatype LoginView = LoginView(id: Id, username: string, isAdmin: bool)

  function ViewUsuario(db: Db, id: Id): UsuarioView
    requires id in db.usuarios
  {
    var u := db.usuarios[id];
    UsuarioView(id, u.username, u.isAdmin, u.creadoEn)
  }

  // ---------- Creation ----------

  /** `crear_usuario`. On success, the session to commit and the new user's key. */
  function CrearUsuario(db: Db, req: UsuarioRequest, env: Env): (r: Response<Step>)
    ensures !TruthyStr(req.username) || !TruthyStr(req.password) ==> r == Err(CredencialesRequeridas)
    ensures r.Err? ==> r.error == CredencialesRequeridas || r.error == UsernameExiste
    ensures r.Ok? ==>
              && r.value.id == db.nextId && db.nextId in r.value.db.usuarios
              && r.value.db == AddUsuario(db, r.value.db.usuarios[db.nextId])
              && var u := r.value.db.usuarios[db.nextId];
              && u.username == req.username.value
              && CheckPassword(u, req.password.value)
              && u.isAdmin == (req.isAdmin.Value? && req.isAdmin.value)
              && u.creadoEn == env.now
  {
    if !TruthyStr(req.username) || !TruthyStr(req.password) then Err(CredencialesRequeridas)
    else if UsuarioPorUsername(db, req.username.value).Some? then Err(UsernameExiste)
    else
      // `data.get("is_admin", False)`; a null is left out of the INSERT and the column default applies
      var isAdmin := if req.isAdmin.Value? then req.isAdmin.value else DEFAULT_IS_ADMIN;
      var u := Usuario(req.username.value, GeneratePasswordHash(req.password.value, env.salt), isAdmin, env.now);
      Ok(Step(AddUsuario(db, u), db.nextId))
  }

  /**
   * With credentials given, creation fails exactly when the username is
   * taken, and then with "username ya existe".
   */
  lemma CrearUsuarioUnico(db: Db, req: UsuarioRequest, env: Env)
    requires Valid(db)
    requires TruthyStr(req.username) && TruthyStr(req.password)
    ensures CrearUsuario(db, req, env).Err? <==> UsernameTomado(db, req.username.value)
    ensures CrearUsuario(db, req, env).Err? ==> CrearUsuario(db, req, env).error == UsernameExiste
  {
    UsuarioPorUsernameFinds(db, req.username.value);
  }

  lemma CrearUsuarioValid(db: Db, req: UsuarioRequest, env: Env)
    requires Valid(db)
    requires CrearUsuario(db, req, env).Ok?
    ensures Valid(CrearUsuario(db, req, env).value.db)
  {
    UsuarioPorUsernameFinds(db, req.username.value);
    var s := CrearUsuario(db, req, env).value.db;
    assert UniqueUsernames(s.usuarios) by {
      forall a, b | a in s.usuarios && b in s.usuarios && s.usuarios[a].username == s.usuarios[b].username
        ensures a == b
      {
      }
    }
  }

  // ---------- Update ----------

  /**
   * The `username` step of `actualizar_usuario`: `Some` new value, `None`
   * for a null, or the collision error. Only a value that differs from the
   * current one is looked up.
   */
  function PatchUsername(db: Db, current: string, username: Field<string>): Response<Option<string>> {
    if username.Absent? || username == Value(current) then Ok(Some(current))
    else if username.Value? && UsuarioPorUsername(db, username.value).Some? then Err(UsernameExiste)
    else Ok(username.Get())
  }

  /** `actualizar_usuario`. */
  function ActualizarUsuario(db: Db, uid: Id, req: UsuarioRequest, env: Env): (r: Response<Step>)
    ensures r.Ok? ==> r.value.id == uid && uid in db.usuarios && uid in r.value.db.usuarios
  {
    if uid !in db.usuarios then Err(NotFound)
    else
      var u := db.usuarios[uid];
      var username :- PatchUsername(db, u.username, req.username);
      var withPassword := if TruthyStr(req.password) then SetPassword(u, req.password.value, env.salt) else u;
      // `bool(data["is_admin"])`
      var isAdmin := if req.isAdmin.Present() then req.isAdmin.Value? && req.isAdmin.value else u.isAdmin;
      match username
      case None => Err(NotNullViolation("usuarios.username"))
      case Some(name) =>
        Ok(Step(db.(usuarios := db.usuarios[uid := withPassword.(username := name, isAdmin := isAdmin)]), uid))
  }

  /**
   * The update's rejections: an unknown user; a username that another user
   * holds (so resending one's own username is never rejected); a null
   * username.
   */
  lemma ActualizarUsuarioRejects(db: Db, uid: Id, req: UsuarioRequest, env: Env)
    requires Valid(db)
    ensures uid !in db.usuarios ==> ActualizarUsuario(db, uid, req, env) == Err(NotFound)
    ensures uid in db.usuarios && req.username.Value? ==>
              (ActualizarUsuario(db, uid, req, env) == Err(UsernameExiste) <==>
                 exists k :: k in db.usuarios && k != uid && db.usuarios[k].username == req.username.value)
    ensures uid in db.usuarios && req.username.Null? ==>
              ActualizarUsuario(db, uid, req, env) == Err(NotNullViolation("usuarios.username"))
  {
    if uid in db.usuarios && req.username.Value? {
      UsuarioPorUsernameFinds(db, req.username.value);
    }
  }

  /**
   * A successful update changes only that user: the username when a new
   * one is given, the password only when a non-empty one is given,
   * `is_admin` when the key is present (null meaning false); the creation
   * time never.
   */
  lemma ActualizarUsuarioOk(db: Db, uid: Id, req: UsuarioRequest, env: Env)
    requires ActualizarUsuario(db, uid, req, env).Ok?
    ensures var r := ActualizarUsuario(db, uid, req, env).value;
      && uid in db.usuarios && r.id == uid && uid in r.db.usuarios
      && r.db == db.(usuarios := db.usuarios[uid := r.db.usuarios[uid]])
      && var (u, n) := (db.usuarios[uid], r.db.usuarios[uid]);
      && n.username == (if req.username.Value? then req.username.value else u.username)
      && (TruthyStr(req.password) ==> CheckPassword(n, req.password.value))
      && (!TruthyStr(req.password) ==> n.passwordHash == u.passwordHash)
      && n.isAdmin == (if req.isAdmin.Present() then req.isAdmin == Value(true) else u.isAdmin)
      && n.creadoEn == u.creadoEn
  {
  }

  lemma ActualizarUsuarioValid(db: Db, uid: Id, req: UsuarioRequest, env: Env)
    requires Valid(db)
    requires ActualizarUsuario(db, uid, req, env).Ok?
    ensures Valid(ActualizarUsuario(db, uid, req, env).value.db)
  {
    ActualizarUsuarioOk(db, uid, req, env);
    if req.username.Value? {
      UsuarioPorUsernameFinds(db, req.username.value);
    }
    var s := ActualizarUsuario(db, uid, req, env).value.db;
    assert UniqueUsernames(s.usuarios) by {
      forall a, b | a in s.usuarios && b in s.usuarios && s.usuarios[a].username == s.usuarios[b].username
        ensures a == b
      {
      }
    }
  }

  // ---------- Login ----------

  /** `login`. */
  function Login(db: Db, req: LoginRequest): (r: Response<LoginView>)
    ensures !TruthyStr(req.username) || !TruthyStr(req.password) ==> r == Err(CredencialesRequeridas)
    ensures r.Err? ==> r.error == CredencialesRequeridas || r.error == CredencialesInvalidas
    ensures r.Ok? ==> && r.value.id in db.usuarios
                      && r.value == LoginView(r.value.id, req.username.value, db.usuarios[r.value.id].isAdmin)
                      && CheckPassword(db.usuarios[r.value.id], req.password.value)
  {
    if !TruthyStr(req.username) || !TruthyStr(req.password) then Err(CredencialesRequeridas)
    else
      match UsuarioPorUsername(db, req.username.value)
      case None => Err(CredencialesInvalidas)
      case Some(k) =>
        var u := db.usuarios[k];
        if !CheckPassword(u, req.password.value) then Err(CredencialesInvalidas)
        else Ok(LoginView(k, u.username, u.isAdmin))
  }

  /**
   * With credentials given, login succeeds exactly when the user with that
   * username has that password, and returns that user; an unknown username
   * and a wrong password give the same 401 error.
   */
  lemma LoginSpec(db: Db, req: LoginRequest)
    requires Valid(db)
    requires TruthyStr(req.username) && TruthyStr(req.password)
    ensures Login(db, req).Ok? <==>
              exists k :: k in db.usuarios && db.usuarios[k].username == req.username.value
                          && CheckPassword(db.usuarios[k], req.password.value)
    ensures forall k :: k in db.usuarios && db.usuarios[k].username == req.username.value ==>
              (Login(db, req).Ok? <==> CheckPassword(db.usuarios[k], req.password.value))
              && (Login(db, req).Ok? ==> Login(db, req).value.id == k)
    ensures Login(db, req).Err? ==> Login(db, req).error == CredencialesInvalidas && Status(Login(db, req).error) == 401
  {
    UsuarioPorUsernameFinds(db, req.username.value);
  }

  /** A user just created can log in with the username and password it was created with. */
  lemma CrearThenLogin(db: Db, req: UsuarioRequest, env: Env)
    requires Valid(db)
    requires CrearUsuario(db, req, env).Ok?
    ensures var r := CrearUsuario(db, req, env).value;
      Login(r.db, LoginRequest(req.username, req.password))
        == Ok(LoginView(r.id, req.username.value, r.db.usuarios[r.id].isAdmin))
  {
    CrearUsuarioValid(db, req, env);
    var r := CrearUsuario(db, req, env).value;
    LoginSpec(r.db, LoginRequest(req.username, req.password));
  }

  /** After an update with a non-empty password, the user logs in with the new password and not the old one. */
  lemma ActualizarThenLogin(db: Db, uid: Id, req: UsuarioRequest, env: Env, previous: string)
    requires Valid(db)
    requires ActualizarUsuario(db, uid, req, env).Ok?
    requires TruthyStr(req.password) && previous != req.password.value
    ensures var r := ActualizarUsuario(db, uid, req, env).value;
      var name := Value(r.db.usuarios[uid].username);
      && uid in r.db.usuarios
      && (r.db.usuarios[uid].username != "" ==>
            Login(r.db, LoginRequest(name, req.password)) == Ok(LoginView(uid, name.value, r.db.usuarios[uid].isAdmin)))
      && Login(r.db, LoginRequest(name, Value(previous))).Err?
  {
    ActualizarUsuarioOk(db, uid, req, env);
    ActualizarUsuarioValid(db, uid, req, env);
    var r := ActualizarUsuario(db, uid, req, env).value;
    var name := Value(r.db.usuarios[uid].username);
    if r.db.usuarios[uid].username != "" {
      LoginSpec(r.db, LoginRequest(name, req.password));
    }
    if previous != "" && r.db.usuarios[uid].username != "" {
      LoginSpec(r.db, LoginRequest(name, Value(previous)));
    }
  }
}

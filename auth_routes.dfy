/** The session endpoints: `POST /login` checks an email and password against
    the account table, stamps the account's last login, and answers with a
    token, the account's record and its role's permissions; `GET /me` answers
    with the caller's account; `POST /logout` only acknowledges. */
module AuthRoutes {
  import opened Values
  import opened Ordering
  import opened Models
  import opened Store
  import opened Decorators
  import opened UsuariosRoutes

  const CredentialsRequired: string := "Correo y contraseña son requeridos"
  const BadCredentials: string := "Credenciales inválidas"
  const LoggedOut: string := "Sesión cerrada exitosamente"

  // ---------------------------------------------------------------------------
  // Finding the account
  // ---------------------------------------------------------------------------

  /** Ids of the accounts with this email (`filter_by(correo_electronico=...)`). */
  function AccountsWithEmail(accesos: map<int, Acceso>, email: string): set<int> {
    set k | k in accesos && accesos[k].correoElectronico == email
  }

  /** `.first()` of that query: the account with the least id, if any. */
  function FirstAccount(accesos: map<int, Acceso>, email: string): (r: Option<int>)
    ensures r.None? <==> !EmailTaken(accesos, email)
    ensures r.Some? ==> r.value in accesos && accesos[r.value].correoElectronico == email
    ensures r.Some? ==> forall k :: k in AccountsWithEmail(accesos, email) ==> r.value <= k
  {
    if !EmailTaken(accesos, email) then None
    else
      var ids := Ascending(AccountsWithEmail(accesos, email));
      var k0 :| k0 in accesos && accesos[k0].correoElectronico == email;
      assert k0 in ids;
      assert forall k :: k in AccountsWithEmail(accesos, email) ==> ids[0] <= k by {
        forall k | k in AccountsWithEmail(accesos, email)
          ensures ids[0] <= k
        {
          assert k in ids;
          var j :| 0 <= j < |ids| && ids[j] == k;
          assert j == 0 || ids[0] < ids[j];
        }
      }
      Some(ids[0])
  }

  /** Emails are unique, so the account found is the only one with it. */
  lemma FirstAccountIsTheAccount(accesos: map<int, Acceso>, email: string, k: int)
    requires EmailsUnique(accesos)
    requires k in accesos && accesos[k].correoElectronico == email
    ensures FirstAccount(accesos, email) == Some(k)
  {
    assert EmailTaken(accesos, email);
    var r := FirstAccount(accesos, email).value;
    assert accesos[r].correoElectronico == accesos[k].correoElectronico;
  }

  // ---------------------------------------------------------------------------
  // The role's permissions
  // ---------------------------------------------------------------------------

  /** Ids of the permission rows of a role (`filter_by(rol_id=...)`), in the
      order `.all()` returns them, which the model takes to be id order. */
  function RolePermisoIds(permisos: map<int, Permiso>, rolId: Option<int>): (r: seq<int>)
    ensures forall i :: 0 <= i < |r| ==> r[i] in permisos && permisos[r[i]].rolId == rolId
    ensures forall k :: k in permisos && permisos[k].rolId == rolId ==> k in r
    ensures StrictlyIncreasing(r)
  {
    Ascending(set k | k in permisos && permisos[k].rolId == rolId)
  }

  /** `{p.modulo: p.to_dict() for p in permisos}` over the rows `ids`, taken
      in order: a module's entry is set by each of its rows in turn. */
  function PermisosFold(permisos: map<int, Permiso>, ids: seq<int>): map<string, Json>
    requires forall i :: 0 <= i < |ids| ==> ids[i] in permisos
  {
    if ids == [] then map[]
    else
      var last := ids[|ids| - 1];
      PermisosFold(permisos, ids[..|ids| - 1])[permisos[last].modulo := JObject(PermisoToDict(last, permisos[last]))]
  }

  /** The comprehension as the loop it is. */
  method BuildPermisos(permisos: map<int, Permiso>, ids: seq<int>) returns (d: map<string, Json>)
    requires forall i :: 0 <= i < |ids| ==> ids[i] in permisos
    ensures d == PermisosFold(permisos, ids)
  {
    d := map[];
    var i := 0;
    while i < |ids|
      invariant 0 <= i <= |ids|
      invariant d == PermisosFold(permisos, ids[..i])
    {
      assert ids[..i + 1][..i] == ids[..i];
      d := d[permisos[ids[i]].modulo := JObject(PermisoToDict(ids[i], permisos[ids[i]]))];
      i := i + 1;
    }
    assert ids[..i] == ids;
  }

  /** The permissions a login reports for a role. */
  function PermisosOf(permisos: map<int, Permiso>, rolId: Option<int>): map<string, Json> {
    PermisosFold(permisos, RolePermisoIds(permisos, rolId))
  }

  /** The dictionary has an entry for exactly the modules the rows name. */
  lemma {:induction false} PermisosFoldKeys(permisos: map<int, Permiso>, ids: seq<int>, m: string)
    requires forall i :: 0 <= i < |ids| ==> ids[i] in permisos
    ensures m in PermisosFold(permisos, ids) <==> exists i :: 0 <= i < |ids| && permisos[ids[i]].modulo == m
  {
    if ids != [] {
      var n := |ids| - 1;
      var front := ids[..n];
      PermisosFoldKeys(permisos, front, m);
      if exists i :: 0 <= i < |front| && permisos[front[i]].modulo == m {
        var i :| 0 <= i < |front| && permisos[front[i]].modulo == m;
        assert permisos[ids[i]].modulo == m;
      }
      if exists i :: 0 <= i < |ids| && permisos[ids[i]].modulo == m {
        var i :| 0 <= i < |ids| && permisos[ids[i]].modulo == m;
        if i < n {
          assert permisos[front[i]].modulo == m;
        }
      }
    }
  }

  /** A module's entry is the record of its last row: a later row for the
      same module overwrites an earlier one. */
  lemma {:induction false} PermisosFoldLastWins(permisos: map<int, Permiso>, ids: seq<int>, m: string)
    requires forall i :: 0 <= i < |ids| ==> ids[i] in permisos
    requires m in PermisosFold(permisos, ids)
    ensures exists i :: 0 <= i < |ids| && permisos[ids[i]].modulo == m &&
                        PermisosFold(permisos, ids)[m] == JObject(PermisoToDict(ids[i], permisos[ids[i]])) &&
                        forall j :: i < j < |ids| ==> permisos[ids[j]].modulo != m
  {
    var n := |ids| - 1;
    var front := ids[..n];
    if permisos[ids[n]].modulo == m {
      assert PermisosFold(permisos, ids)[m] == JObject(PermisoToDict(ids[n], permisos[ids[n]]));
    } else {
      assert m in PermisosFold(permisos, front);
      PermisosFoldLastWins(permisos, front, m);
      var i :| 0 <= i < |front| && permisos[front[i]].modulo == m &&
               PermisosFold(permisos, front)[m] == JObject(PermisoToDict(front[i], permisos[front[i]])) &&
               forall j :: i < j < |front| ==> permisos[front[j]].modulo != m;
      assert ids[i] == front[i];
      forall j | i < j < |ids|
        ensures permisos[ids[j]].modulo != m
      {
        if j < n {
          assert ids[j] == front[j];
        }
      }
    }
  }

  /** A role's report names exactly the modules it has a row for; when the
      role has one row per module, each entry is that row's record. */
  lemma PermisosOfRole(permisos: map<int, Permiso>, rolId: Option<int>, m: string)
    requires OneRowPerModule(permisos)
    ensures m in PermisosOf(permisos, rolId) <==> MatchingPermisos(permisos, rolId, m) != {}
    ensures forall k :: k in MatchingPermisos(permisos, rolId, m) ==>
              PermisosOf(permisos, rolId)[m] == JObject(PermisoToDict(k, permisos[k]))
  {
    var ids := RolePermisoIds(permisos, rolId);
    PermisosFoldKeys(permisos, ids, m);
    if MatchingPermisos(permisos, rolId, m) != {} {
      var k :| k in MatchingPermisos(permisos, rolId, m);
      assert k in ids;
    }
    if m in PermisosOf(permisos, rolId) {
      PermisosFoldLastWins(permisos, ids, m);
      var i :| 0 <= i < |ids| && permisos[ids[i]].modulo == m &&
               PermisosOf(permisos, rolId)[m] == JObject(PermisoToDict(ids[i], permisos[ids[i]]));
      assert ids[i] in MatchingPermisos(permisos, rolId, m);
    }
  }

  /** A permission record carries each capability under its own name. */
  lemma CapabilityInRecord(id: int, p: Permiso, tipo: Flag)
    ensures FlagName(tipo) in PermisoToDict(id, p) && PermisoToDict(id, p)[FlagName(tipo)] == BoolJson(Flagged(p, tipo))
    ensures PermisoToDict(id, p)[FlagName(tipo)] == JBool(true) <==> Capability(p, tipo)
  {
  }

  /** With one row per role and module, what a login reports is what the
      decorator enforces: the role's entry for a module shows a capability
      set exactly when the decorator lets the account through. */
  lemma PermisosOfAgreesWithGate(accesos: map<int, Acceso>, permisos: map<int, Permiso>, caller: int,
                                 m: string, tipo: Flag)
    requires OneRowPerModule(permisos)
    requires caller in accesos
    ensures var d := PermisosOf(permisos, accesos[caller].rolId);
            Gate(accesos, permisos, caller, m, tipo).Allow? <==>
              m in d && d[m].JObject? && FlagName(tipo) in d[m].fields && d[m].fields[FlagName(tipo)] == JBool(true)
  {
    var rol := accesos[caller].rolId;
    PermisosOfRole(permisos, rol, m);
    var first := FirstPermiso(permisos, rol, m);
    if first.Some? {
      assert first.value in MatchingPermisos(permisos, rol, m);
      CapabilityInRecord(first.value, permisos[first.value], tipo);
    }
  }

  // ---------------------------------------------------------------------------
  // POST /login
  // ---------------------------------------------------------------------------

  /** The 200 body of a login. */
  function LoginBody(token: string, usuario: map<string, Json>, permisos: map<string, Json>): (j: Json)
    ensures j.JObject? && j.fields.Keys == {"token", "usuario", "permisos"}
    ensures j.fields["token"] == JStr(token) && j.fields["usuario"] == JObject(usuario) &&
            j.fields["permisos"] == JObject(permisos)
  {
    JObject(map["token" := JStr(token), "usuario" := JObject(usuario), "permisos" := JObject(permisos)])
  }

  /** What `login` answers and stores, given the tables before it, bcrypt's
      check, the token `create_access_token` makes for an account id, and
      the clock. A value the code cannot use as text fails with a 500. */
  function LoginResult(cat: Catalogs, permisos: map<int, Permiso>, t: Tables, data: map<string, Json>,
                       crypto: Crypto, issueToken: int -> string, now: DateTime): Outcome
  {
    var correo, password := Get(data, "correo_electronico"), Get(data, "password");
    if !Truthy(correo) || !Truthy(password) then Outcome(Response(400, ErrorBody(CredentialsRequired)), t)
    else if !SqlText(correo) then Outcome(InternalError(), t)
    else
      var found := FirstAccount(t.accesos, correo.s);
      if found.None? then Outcome(Response(401, ErrorBody(BadCredentials)), t)
      else if !password.JStr? then Outcome(InternalError(), t)
      else if !crypto.checkpw(password.s, t.accesos[found.value].contrasenaHash) then
        Outcome(Response(401, ErrorBody(BadCredentials)), t)
      else
        var id := found.value;
        var a := t.accesos[id].(ultimoAcceso := Some(now));
        Outcome(Response(200, LoginBody(issueToken(id), AccesoToDict(id, a, cat, false), PermisosOf(permisos, a.rolId))),
                t.(accesos := t.accesos[id := a]))
  }

  /** `POST /login`. */
  method Login(db: Db, data: map<string, Json>, crypto: Crypto, issueToken: int -> string, now: DateTime)
    returns (r: Response)
    requires db.Valid()
    modifies db
    ensures db.Valid()
    ensures Outcome(r, db.Snapshot()) == LoginResult(db.catalogs, db.permisos, old(db.Snapshot()), data, crypto, issueToken, now)
  {
    var correo, password := Get(data, "correo_electronico"), Get(data, "password");
    if !Truthy(correo) || !Truthy(password) {
      return Response(400, ErrorBody(CredentialsRequired));
    }
    if !SqlText(correo) {
      return InternalError();
    }
    var found := FirstAccount(db.accesos, correo.s);
    if found.None? {
      return Response(401, ErrorBody(BadCredentials));
    }
    if !password.JStr? {
      return InternalError();
    }
    var id := found.value;
    if !crypto.checkpw(password.s, db.accesos[id].contrasenaHash) {
      return Response(401, ErrorBody(BadCredentials));
    }
    db.StampUltimoAcceso(id, now);
    var d := BuildPermisos(db.permisos, RolePermisoIds(db.permisos, db.accesos[id].rolId));
    r := Response(200, LoginBody(issueToken(id), AccesoToDict(id, db.accesos[id], db.catalogs, false), d));
  }

  /** `login` answers 200, 400, 401 or 500, and only a 200 changes a table. */
  lemma LoginStatuses(cat: Catalogs, permisos: map<int, Permiso>, t: Tables, data: map<string, Json>,
                      crypto: Crypto, issueToken: int -> string, now: DateTime)
    ensures var o := LoginResult(cat, permisos, t, data, crypto, issueToken, now);
            o.response.status in {200, 400, 401, 500} &&
            (o.response.status != 200 ==> o.tables == t) &&
            (o.response.status == 500 ==> o.response == InternalError())
  {
  }

  /** An unknown email and a wrong password get the same answer, so the
      answer does not tell which emails have an account. */
  lemma LoginRefusals(cat: Catalogs, permisos: map<int, Permiso>, t: Tables, data: map<string, Json>,
                      crypto: Crypto, issueToken: int -> string, now: DateTime)
    ensures var o := LoginResult(cat, permisos, t, data, crypto, issueToken, now);
            var correo, password := Get(data, "correo_electronico"), Get(data, "password");
            (!Truthy(correo) || !Truthy(password) ==> o.response == Response(400, ErrorBody(CredentialsRequired))) &&
            (Truthy(password) && SqlText(correo) && correo.s != "" && !EmailTaken(t.accesos, correo.s) ==>
               o.response == Response(401, ErrorBody(BadCredentials))) &&
            (SqlText(correo) && correo.s != "" && password.JStr? && password.s != "" &&
             FirstAccount(t.accesos, correo.s).Some? &&
             !crypto.checkpw(password.s, t.accesos[FirstAccount(t.accesos, correo.s).value].contrasenaHash) ==>
               o.response == Response(401, ErrorBody(BadCredentials)))
  {
  }

  /** A login succeeds exactly when email and password are text that is not
      empty, an account has that email, and bcrypt accepts the password
      against that account's hash. */
  lemma LoginSucceedsIff(cat: Catalogs, permisos: map<int, Permiso>, t: Tables, data: map<string, Json>,
                         crypto: Crypto, issueToken: int -> string, now: DateTime)
    requires Consistent(cat, t)
    ensures var correo, password := Get(data, "correo_electronico"), Get(data, "password");
            LoginResult(cat, permisos, t, data, crypto, issueToken, now).response.status == 200 <==>
              SqlText(correo) && correo.s != "" && password.JStr? && password.s != "" &&
              exists k :: k in t.accesos && t.accesos[k].correoElectronico == correo.s &&
                          crypto.checkpw(password.s, t.accesos[k].contrasenaHash)
  {
    var correo, password := Get(data, "correo_electronico"), Get(data, "password");
    if SqlText(correo) && EmailTaken(t.accesos, correo.s) {
      var k :| k in t.accesos && t.accesos[k].correoElectronico == correo.s;
      FirstAccountIsTheAccount(t.accesos, correo.s, k);
    }
  }

  /** A successful login stamps the account's last login with the clock and
      changes nothing else; it answers with the token for that account, the
      stamped record without its hash, and the role's permissions. */
  lemma LoginStamps(cat: Catalogs, permisos: map<int, Permiso>, t: Tables, data: map<string, Json>,
                    crypto: Crypto, issueToken: int -> string, now: DateTime)
    requires LoginResult(cat, permisos, t, data, crypto, issueToken, now).response.status == 200
    ensures var o, email := LoginResult(cat, permisos, t, data, crypto, issueToken, now), data["correo_electronico"].s;
            var id := FirstAccount(t.accesos, email).value;
            id in t.accesos && t.accesos[id].correoElectronico == email &&
            o.tables == t.(accesos := t.accesos[id := t.accesos[id].(ultimoAcceso := Some(now))]) &&
            o.response.body.fields["token"] == JStr(issueToken(id)) &&
            o.response.body.fields["usuario"] == JObject(AccesoToDict(id, o.tables.accesos[id], cat, false)) &&
            "contrasena_hash" !in o.response.body.fields["usuario"].fields &&
            o.response.body.fields["permisos"] == JObject(PermisosOf(permisos, t.accesos[id].rolId))
  {
    var email := data["correo_electronico"].s;
    var id := FirstAccount(t.accesos, email).value;
    AccesoToDictKeys(id, t.accesos[id].(ultimoAcceso := Some(now)), cat, false);
  }

  /** `login` keeps the tables consistent. */
  lemma LoginKeepsConsistent(cat: Catalogs, permisos: map<int, Permiso>, t: Tables, data: map<string, Json>,
                             crypto: Crypto, issueToken: int -> string, now: DateTime)
    requires Consistent(cat, t)
    ensures Consistent(cat, LoginResult(cat, permisos, t, data, crypto, issueToken, now).tables)
  {
    if LoginResult(cat, permisos, t, data, crypto, issueToken, now).response.status == 200 {
      var id := FirstAccount(t.accesos, data["correo_electronico"].s).value;
      StampUltimoAccesoKeeps(cat, t, id, now);
    }
  }

  /** An account made by `create_acceso` can log in with the email and
      password it was made with, as long as bcrypt accepts its own hashes
      and neither is empty text, and the token is for the new account. */
  lemma CreatedAccountCanLogIn(cat: Catalogs, permisos: map<int, Permiso>, t: Tables, caller: int,
                               data: map<string, Json>, crypto: Crypto, salt: string, now: DateTime,
                               issueToken: int -> string, later: DateTime)
    requires Consistent(cat, t) && ChecksOwnHashes(crypto)
    requires CreateAccesoResult(cat, permisos, t, caller, data, crypto, salt, now).response.status == 201
    requires data["correo_electronico"] != JStr("") && data["password"] != JStr("")
    ensures var t2 := CreateAccesoResult(cat, permisos, t, caller, data, crypto, salt, now).tables;
            var login := map["correo_electronico" := data["correo_electronico"], "password" := data["password"]];
            var o := LoginResult(cat, permisos, t2, login, crypto, issueToken, later);
            o.response.status == 200 && o.response.body.fields["token"] == JStr(issueToken(t.nextAcceso))
  {
    var t2 := CreateAccesoResult(cat, permisos, t, caller, data, crypto, salt, now).tables;
    CreateAccesoStores(cat, permisos, t, caller, data, crypto, salt, now);
    CreateAccesoKeepsConsistent(cat, permisos, t, caller, data, crypto, salt, now);
    var id, email, password := t.nextAcceso, data["correo_electronico"].s, data["password"].s;
    FirstAccountIsTheAccount(t2.accesos, email, id);
    assert crypto.checkpw(password, crypto.hashpw(password, salt));
  }

  /** An account made with an empty password can never log in: `login`
      refuses an empty password before it looks for the account. */
  lemma EmptyPasswordLocksOut(cat: Catalogs, permisos: map<int, Permiso>, t: Tables, data: map<string, Json>,
                              crypto: Crypto, issueToken: int -> string, now: DateTime)
    requires Get(data, "password") == JStr("")
    ensures LoginResult(cat, permisos, t, data, crypto, issueToken, now).response ==
            Response(400, ErrorBody(CredentialsRequired))
  {
  }

  // ---------------------------------------------------------------------------
  // GET /me and POST /logout
  // ---------------------------------------------------------------------------

  /** `GET /me`: the caller's account without its hash, or 404 when the
      token's account no longer exists. */
  function GetCurrentUser(db: Db, caller: int): (r: Response)
    reads db
    ensures r.status == 200 || r == Response(404, ErrorBody("Usuario no encontrado"))
    ensures r.status == 200 <==> caller in db.accesos
    ensures caller in db.accesos ==>
              r.body == JObject(AccesoToDict(caller, db.accesos[caller], db.catalogs, false)) &&
              "contrasena_hash" !in r.body.fields &&
              r.body.fields["id_acceso"] == JInt(caller) &&
              r.body.fields["correo_electronico"] == JStr(db.accesos[caller].correoElectronico)
  {
    if caller in db.accesos then
      AccesoToDictKeys(caller, db.accesos[caller], db.catalogs, false);
      AccesoToDictFields(caller, db.accesos[caller], db.catalogs, false);
      Response(200, JObject(AccesoToDict(caller, db.accesos[caller], db.catalogs, false)))
    else Response(404, ErrorBody("Usuario no encontrado"))
  }

  /** After a login, `/me` with the login's account answers with the same
      record the login did. */
  lemma LoginThenMe(db: Db, permisos: map<int, Permiso>, t: Tables, data: map<string, Json>,
                    crypto: Crypto, issueToken: int -> string, now: DateTime)
    requires LoginResult(db.catalogs, permisos, t, data, crypto, issueToken, now).response.status == 200
    requires db.accesos == LoginResult(db.catalogs, permisos, t, data, crypto, issueToken, now).tables.accesos
    ensures var id := FirstAccount(t.accesos, data["correo_electronico"].s).value;
            var r := GetCurrentUser(db, id);
            r.status == 200 &&
            r.body == LoginResult(db.catalogs, permisos, t, data, crypto, issueToken, now).response.body.fields["usuario"] &&
            "contrasena_hash" !in r.body.fields
  {
    LoginStamps(db.catalogs, permisos, t, data, crypto, issueToken, now);
  }

  /** `POST /logout`: the server keeps no session, so it only answers. */
  function Logout(): (r: Response)
    ensures r.status == 200 && r.body.JObject? && r.body.fields.Keys == {"mensaje"}
  {
    Response(200, MessageBody(LoggedOut))
  }
}

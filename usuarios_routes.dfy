/** The people and account endpoints: responsible people (`/responsables`),
    who can hold assets, and login accounts (`/accesos`). */
module UsuariosRoutes {
  import opened Values
  import opened Ordering
  import opened Models
  import opened Store
  import opened Decorators
  import opened Requests

  /** The permission module these endpoints are guarded by. */
  const Modulo: string := "usuarios"

  const NameRequired: string := "Nombre es requerido"
  const NominaExists: string := "Número de nómina ya existe"
  const EmailRegistered: string := "El correo ya está registrado"

  // ---------------------------------------------------------------------------
  // GET /responsables
  // ---------------------------------------------------------------------------

  /** The records of the people `ids`, as `to_dict()` writes them. */
  function UsuarioRecords(ids: seq<int>, usuarios: map<int, Usuario>, cat: Catalogs): (r: seq<map<string, Json>>)
    requires forall i :: 0 <= i < |ids| ==> ids[i] in usuarios
    ensures |r| == |ids|
    ensures forall i :: 0 <= i < |ids| ==> r[i] == UsuarioToDict(ids[i], usuarios[ids[i]], cat)
  {
    seq(|ids|, i requires 0 <= i < |ids| => UsuarioToDict(ids[i], usuarios[ids[i]], cat))
  }

  /** `GET /responsables`: every person, in id order. The route has no
      permission check: any logged-in caller gets the list. */
  function GetResponsables(db: Db): (r: Response)
    reads db
    ensures r.status == 200 && r.body.JArray? && |r.body.items| == |db.usuarios|
  {
    Response(200, Records(UsuarioRecords(Ascending(db.usuarios.Keys), db.usuarios, db.catalogs)))
  }

  /** Every person is in the list. */
  lemma GetResponsablesListsEveryone(db: Db, k: int)
    requires k in db.usuarios
    ensures var items := GetResponsables(db).body.items;
            exists i :: 0 <= i < |items| && items[i] == JObject(UsuarioToDict(k, db.usuarios[k], db.catalogs))
  {
    var ids := Ascending(db.usuarios.Keys);
    assert k in ids;
    var i :| 0 <= i < |ids| && ids[i] == k;
    assert GetResponsables(db).body.items[i] == JObject(UsuarioToDict(k, db.usuarios[k], db.catalogs));
  }

  /** The list is in id order: record `i` is the person with the `i`-th
      smallest id. */
  lemma GetResponsablesInIdOrder(db: Db, i: int, j: int)
    requires 0 <= i < j < |GetResponsables(db).body.items|
    ensures var ids, items := Ascending(db.usuarios.Keys), GetResponsables(db).body.items;
            ids[i] in db.usuarios && ids[j] in db.usuarios && ids[i] < ids[j] &&
            items[i] == JObject(UsuarioToDict(ids[i], db.usuarios[ids[i]], db.catalogs)) &&
            items[j] == JObject(UsuarioToDict(ids[j], db.usuarios[ids[j]], db.catalogs))
  {
  }

  // ---------------------------------------------------------------------------
  // POST /responsables
  // ---------------------------------------------------------------------------

  /** The row `Usuario(...)` builds, or `None` when the database would refuse
      one of its values (a wrong type, text longer than its column, or a name
      that is not text). */
  function NewUsuario(data: map<string, Json>, now: DateTime): (r: Option<Usuario>)
    ensures r.Some? <==>
              FitsVarchar(Get(data, "nombre_usuario"), NombreUsuarioWidth) &&
              VarcharColumn(Get(data, "numero_nomina"), NominaWidth).Stored? &&
              VarcharColumn(Get(data, "puesto"), PuestoWidth).Stored? && IntColumn(Get(data, "area_id")).Stored?
    ensures r.Some? ==> JStr(r.value.nombreUsuario) == Get(data, "nombre_usuario") &&
                        TextJson(r.value.numeroNomina) == Get(data, "numero_nomina") &&
                        TextJson(r.value.puesto) == Get(data, "puesto") &&
                        IntJson(r.value.areaId) == Get(data, "area_id") &&
                        r.value.fechaCreacion == Some(now)
  {
    var nombre, nomina := Get(data, "nombre_usuario"), VarcharColumn(Get(data, "numero_nomina"), NominaWidth);
    var puesto, area := VarcharColumn(Get(data, "puesto"), PuestoWidth), IntColumn(Get(data, "area_id"));
    if FitsVarchar(nombre, NombreUsuarioWidth) && nomina.Stored? && puesto.Stored? && area.Stored? then
      VarcharColumnRoundTrip(Get(data, "numero_nomina"), NominaWidth);
      VarcharColumnRoundTrip(Get(data, "puesto"), PuestoWidth);
      IntColumnRoundTrip(Get(data, "area_id"));
      Some(Usuario(nomina.value, nombre.s, puesto.value, area.value, Some(now)))
    else None
  }

  /** What `create_responsable` answers and stores, given the tables before it. */
  function CreateResponsableResult(cat: Catalogs, permisos: map<int, Permiso>, t: Tables, caller: int,
                                   data: map<string, Json>, now: DateTime): Outcome
  {
    var g := Gate(t.accesos, permisos, caller, Modulo, PuedeCrear);
    var nomina := Get(data, "numero_nomina");
    if g.Deny? then Outcome(DenyResponse(g), t)
    else if !Truthy(Get(data, "nombre_usuario")) then Outcome(Response(400, ErrorBody(NameRequired)), t)
    else if Truthy(nomina) && !SqlText(nomina) then Outcome(InternalError(), t)
    else if Truthy(nomina) && NominaTaken(t.usuarios, Some(nomina.s)) then Outcome(Response(400, ErrorBody(NominaExists)), t)
    else
      var u := NewUsuario(data, now);
      if u.None? || !UsuarioRefsOk(cat, u.value) || NominaTaken(t.usuarios, u.value.numeroNomina) then
        Outcome(InternalError(), t)
      else
        var id := t.nextUsuario;
        Outcome(Response(201, RecordBody("Usuario responsable creado", "usuario", UsuarioToDict(id, u.value, cat))),
                t.(usuarios := t.usuarios[id := u.value], nextUsuario := id + 1))
  }

  /** `POST /responsables`. */
  method CreateResponsable(db: Db, caller: int, data: map<string, Json>, now: DateTime) returns (r: Response)
    requires db.Valid()
    modifies db
    ensures db.Valid()
    ensures Outcome(r, db.Snapshot()) == CreateResponsableResult(db.catalogs, db.permisos, old(db.Snapshot()), caller, data, now)
  {
    var g := Gate(db.accesos, db.permisos, caller, Modulo, PuedeCrear);
    if g.Deny? {
      return DenyResponse(g);
    }
    if !Truthy(Get(data, "nombre_usuario")) {
      return Response(400, ErrorBody(NameRequired));
    }
    var nomina := Get(data, "numero_nomina");
    if Truthy(nomina) {
      if !SqlText(nomina) {
        return InternalError();
      }
      if NominaTaken(db.usuarios, Some(nomina.s)) {
        return Response(400, ErrorBody(NominaExists));
      }
    }
    var u := NewUsuario(data, now);
    if u.None? || !UsuarioRefsOk(db.catalogs, u.value) || NominaTaken(db.usuarios, u.value.numeroNomina) {
      return InternalError();
    }
    var id := db.InsertUsuario(u.value);
    r := Response(201, RecordBody("Usuario responsable creado", "usuario", UsuarioToDict(id, u.value, db.catalogs)));
  }

  /** `create_responsable` answers with one of its five statuses; every
      refusal and every failure leaves the tables as they were. */
  lemma CreateResponsableStatuses(cat: Catalogs, permisos: map<int, Permiso>, t: Tables, caller: int,
                                  data: map<string, Json>, now: DateTime)
    ensures var o := CreateResponsableResult(cat, permisos, t, caller, data, now);
            o.response.status in {201, 400, 403, 404, 500} &&
            (o.response.status != 201 ==> o.tables == t) &&
            (o.response.status == 500 ==> o.response == InternalError())
  {
  }

  /** The refusals before the `try`: the decorator's, then an empty or absent
      name, then a payroll number another person has. */
  lemma CreateResponsableRefusals(cat: Catalogs, permisos: map<int, Permiso>, t: Tables, caller: int,
                                  data: map<string, Json>, now: DateTime)
    ensures var o := CreateResponsableResult(cat, permisos, t, caller, data, now);
            var g := Gate(t.accesos, permisos, caller, Modulo, PuedeCrear);
            (g.Deny? ==> o.response == DenyResponse(g)) &&
            (g.Allow? && !Truthy(Get(data, "nombre_usuario")) ==> o.response == Response(400, ErrorBody(NameRequired))) &&
            (g.Allow? && Truthy(Get(data, "nombre_usuario")) && SqlText(Get(data, "numero_nomina")) &&
             Get(data, "numero_nomina").s != "" && NominaTaken(t.usuarios, Some(Get(data, "numero_nomina").s)) ==>
               o.response == Response(400, ErrorBody(NominaExists)))
  {
  }

  /** A person is created exactly when the caller may create, the name is
      text that is not empty, the payroll number is new, and the database
      accepts every value. */
  lemma CreateResponsableSucceedsIff(cat: Catalogs, permisos: map<int, Permiso>, t: Tables, caller: int,
                                     data: map<string, Json>, now: DateTime)
    ensures CreateResponsableResult(cat, permisos, t, caller, data, now).response.status == 201 <==>
              Gate(t.accesos, permisos, caller, Modulo, PuedeCrear).Allow? &&
              Get(data, "nombre_usuario").JStr? && Get(data, "nombre_usuario").s != "" &&
              NewUsuario(data, now).Some? && UsuarioRefsOk(cat, NewUsuario(data, now).value) &&
              !NominaTaken(t.usuarios, NewUsuario(data, now).value.numeroNomina)
  {
  }

  /** A created person gets the next id and holds the body's values, and the
      answer shows that row; no other table changes. */
  lemma CreateResponsableStores(cat: Catalogs, permisos: map<int, Permiso>, t: Tables, caller: int,
                                data: map<string, Json>, now: DateTime)
    requires Consistent(cat, t)
    requires CreateResponsableResult(cat, permisos, t, caller, data, now).response.status == 201
    ensures var o, id := CreateResponsableResult(cat, permisos, t, caller, data, now), t.nextUsuario;
            id !in t.usuarios && NewUsuario(data, now).Some? &&
            o.tables == t.(usuarios := t.usuarios[id := NewUsuario(data, now).value], nextUsuario := id + 1) &&
            JStr(o.tables.usuarios[id].nombreUsuario) == data["nombre_usuario"] &&
            o.response.body == RecordBody("Usuario responsable creado", "usuario",
                                          UsuarioToDict(id, o.tables.usuarios[id], cat))
  {
  }

  /** `create_responsable` keeps the tables consistent. */
  lemma CreateResponsableKeepsConsistent(cat: Catalogs, permisos: map<int, Permiso>, t: Tables, caller: int,
                                         data: map<string, Json>, now: DateTime)
    requires Consistent(cat, t)
    ensures Consistent(cat, CreateResponsableResult(cat, permisos, t, caller, data, now).tables)
  {
    if CreateResponsableResult(cat, permisos, t, caller, data, now).response.status == 201 {
      InsertUsuarioKeeps(cat, t, NewUsuario(data, now).value);
    }
  }

  // ---------------------------------------------------------------------------
  // GET /accesos
  // ---------------------------------------------------------------------------

  /** The records of the accounts `ids`, as `to_dict()` writes them: without
      the password hash. */
  function AccesoRecords(ids: seq<int>, accesos: map<int, Acceso>, cat: Catalogs): (r: seq<map<string, Json>>)
    requires forall i :: 0 <= i < |ids| ==> ids[i] in accesos
    ensures |r| == |ids|
    ensures forall i :: 0 <= i < |ids| ==> r[i] == AccesoToDict(ids[i], accesos[ids[i]], cat, false)
  {
    seq(|ids|, i requires 0 <= i < |ids| => AccesoToDict(ids[i], accesos[ids[i]], cat, false))
  }

  /** `GET /accesos`: every account, in id order. */
  function GetAccesos(db: Db, caller: int): (r: Response)
    reads db
    ensures var g := Gate(db.accesos, db.permisos, caller, Modulo, PuedeLeer);
            g.Deny? ==> r == DenyResponse(g)
    ensures Gate(db.accesos, db.permisos, caller, Modulo, PuedeLeer).Allow? ==>
              r.status == 200 && r.body.JArray? && |r.body.items| == |db.accesos|
  {
    var g := Gate(db.accesos, db.permisos, caller, Modulo, PuedeLeer);
    if g.Deny? then DenyResponse(g)
    else Response(200, Records(AccesoRecords(Ascending(db.accesos.Keys), db.accesos, db.catalogs)))
  }

  /** The account list never shows a password hash; each record is the
      account with the `i`-th smallest id. */
  lemma GetAccesosHidesHashes(db: Db, caller: int, i: int)
    requires Gate(db.accesos, db.permisos, caller, Modulo, PuedeLeer).Allow?
    requires 0 <= i < |GetAccesos(db, caller).body.items|
    ensures var item, k := GetAccesos(db, caller).body.items[i], Ascending(db.accesos.Keys)[i];
            k in db.accesos && item == JObject(AccesoToDict(k, db.accesos[k], db.catalogs, false)) &&
            "contrasena_hash" !in item.fields
  {
    var k := Ascending(db.accesos.Keys)[i];
    AccesoToDictKeys(k, db.accesos[k], db.catalogs, false);
  }

  // ---------------------------------------------------------------------------
  // POST /accesos
  // ---------------------------------------------------------------------------

  const RequiredAcceso: seq<string> := ["nombre_usuario", "correo_electronico", "password", "rol_id"]

  /** The 400 answer of `create_acceso` to a missing field: `<field> es requerido`. */
  function FieldRequired(field: string): Response {
    Response(400, ErrorBody(field + " es requerido"))
  }

  /** The row `Acceso(...)` builds around the password hash, or `None` when
      the database would refuse one of its values (a name or email that is
      not text or is longer than its column, a hash longer than its column,
      or an id that is not a number). */
  function NewAcceso(data: map<string, Json>, hash: string, now: DateTime): (r: Option<Acceso>)
    ensures r.Some? <==>
              FitsVarchar(Get(data, "nombre_usuario"), NombreUsuarioWidth) &&
              FitsVarchar(Get(data, "correo_electronico"), CorreoWidth) && |hash| <= HashWidth &&
              IntColumn(Get(data, "rol_id")).Stored? && IntColumn(Get(data, "area_id")).Stored?
    ensures r.Some? ==> JStr(r.value.nombreUsuario) == Get(data, "nombre_usuario") &&
                        JStr(r.value.correoElectronico) == Get(data, "correo_electronico") &&
                        IntJson(r.value.rolId) == Get(data, "rol_id") && IntJson(r.value.areaId) == Get(data, "area_id")
    ensures r.Some? ==> r.value.contrasenaHash == hash && r.value.ultimoAcceso.None? &&
                        r.value.fechaRegistro == Some(now.day) && r.value.fechaCreacion == Some(now)
  {
    var nombre, correo := Get(data, "nombre_usuario"), Get(data, "correo_electronico");
    var rol, area := IntColumn(Get(data, "rol_id")), IntColumn(Get(data, "area_id"));
    if FitsVarchar(nombre, NombreUsuarioWidth) && FitsVarchar(correo, CorreoWidth) && |hash| <= HashWidth &&
       rol.Stored? && area.Stored?
    then
      IntColumnRoundTrip(Get(data, "rol_id"));
      IntColumnRoundTrip(Get(data, "area_id"));
      Some(Acceso(nombre.s, area.value, correo.s, hash, rol.value, None, Some(FechaRegistroDefault(now)), Some(now)))
    else None
  }

  /** What `create_acceso` answers and stores, given the tables before it,
      the bcrypt calls and the salt `gensalt()` returns. */
  function CreateAccesoResult(cat: Catalogs, permisos: map<int, Permiso>, t: Tables, caller: int,
                              data: map<string, Json>, crypto: Crypto, salt: string, now: DateTime): Outcome
  {
    var g := Gate(t.accesos, permisos, caller, Modulo, PuedeCrear);
    if g.Deny? then Outcome(DenyResponse(g), t)
    else if FirstMissing(data, RequiredAcceso).Some? then Outcome(FieldRequired(FirstMissing(data, RequiredAcceso).value), t)
    else if SqlText(data["correo_electronico"]) && EmailTaken(t.accesos, data["correo_electronico"].s) then
      Outcome(Response(400, ErrorBody(EmailRegistered)), t)
    else if !data["password"].JStr? then Outcome(InternalError(), t)
    else
      var a := NewAcceso(data, crypto.hashpw(data["password"].s, salt), now);
      if a.None? || !AccesoRefsOk(cat, a.value) then Outcome(InternalError(), t)
      else
        var id := t.nextAcceso;
        Outcome(Response(201, RecordBody("Acceso creado exitosamente", "acceso", AccesoToDict(id, a.value, cat, false))),
                t.(accesos := t.accesos[id := a.value], nextAcceso := id + 1))
  }

  /** `POST /accesos`. */
  method CreateAcceso(db: Db, caller: int, data: map<string, Json>, crypto: Crypto, salt: string, now: DateTime)
    returns (r: Response)
    requires db.Valid()
    modifies db
    ensures db.Valid()
    ensures Outcome(r, db.Snapshot()) ==
            CreateAccesoResult(db.catalogs, db.permisos, old(db.Snapshot()), caller, data, crypto, salt, now)
  {
    var g := Gate(db.accesos, db.permisos, caller, Modulo, PuedeCrear);
    if g.Deny? {
      return DenyResponse(g);
    }
    var missing := FindMissing(data, RequiredAcceso);
    if missing.Some? {
      return FieldRequired(missing.value);
    }
    var correo := data["correo_electronico"];
    if SqlText(correo) && EmailTaken(db.accesos, correo.s) {
      return Response(400, ErrorBody(EmailRegistered));
    }
    var password := data["password"];
    if !password.JStr? {
      return InternalError();
    }
    var a := NewAcceso(data, crypto.hashpw(password.s, salt), now);
    if a.None? || !AccesoRefsOk(db.catalogs, a.value) {
      return InternalError();
    }
    var id := db.InsertAcceso(a.value);
    r := Response(201, RecordBody("Acceso creado exitosamente", "acceso", AccesoToDict(id, a.value, db.catalogs, false)));
  }

  /** `create_acceso` answers with one of its five statuses; every refusal
      and every failure leaves the tables as they were. */
  lemma CreateAccesoStatuses(cat: Catalogs, permisos: map<int, Permiso>, t: Tables, caller: int,
                             data: map<string, Json>, crypto: Crypto, salt: string, now: DateTime)
    ensures var o := CreateAccesoResult(cat, permisos, t, caller, data, crypto, salt, now);
            o.response.status in {201, 400, 403, 404, 500} &&
            (o.response.status != 201 ==> o.tables == t) &&
            (o.response.status == 500 ==> o.response == InternalError())
  {
  }

  /** The refusals before the `try`: the decorator's, then the first missing
      field in the route's order, then an email another account has. */
  lemma CreateAccesoRefusals(cat: Catalogs, permisos: map<int, Permiso>, t: Tables, caller: int,
                             data: map<string, Json>, crypto: Crypto, salt: string, now: DateTime)
    ensures var o := CreateAccesoResult(cat, permisos, t, caller, data, crypto, salt, now);
            var g := Gate(t.accesos, permisos, caller, Modulo, PuedeCrear);
            (g.Deny? ==> o.response == DenyResponse(g)) &&
            (g.Allow? && FirstMissing(data, RequiredAcceso).Some? ==>
               o.response == FieldRequired(FirstMissing(data, RequiredAcceso).value)) &&
            (g.Allow? && FirstMissing(data, RequiredAcceso).None? && SqlText(data["correo_electronico"]) &&
             EmailTaken(t.accesos, data["correo_electronico"].s) ==>
               o.response == Response(400, ErrorBody(EmailRegistered)))
  {
  }

  /** An account is created exactly when the caller may create, the four
      fields are there, the email is new, and the password, names and ids
      are values the code and the database accept. */
  lemma CreateAccesoSucceedsIff(cat: Catalogs, permisos: map<int, Permiso>, t: Tables, caller: int,
                                data: map<string, Json>, crypto: Crypto, salt: string, now: DateTime)
    ensures CreateAccesoResult(cat, permisos, t, caller, data, crypto, salt, now).response.status == 201 <==>
              Gate(t.accesos, permisos, caller, Modulo, PuedeCrear).Allow? &&
              (forall i :: 0 <= i < |RequiredAcceso| ==> RequiredAcceso[i] in data) &&
              SqlText(data["correo_electronico"]) && !EmailTaken(t.accesos, data["correo_electronico"].s) &&
              data["password"].JStr? &&
              NewAcceso(data, crypto.hashpw(data["password"].s, salt), now).Some? &&
              AccesoRefsOk(cat, NewAcceso(data, crypto.hashpw(data["password"].s, salt), now).value)
  {
  }

  /** A created account gets the next id, stores the hash of the password
      (never the password), has not logged in yet, and is registered on the
      day of the insert; no other table changes. */
  lemma CreateAccesoStores(cat: Catalogs, permisos: map<int, Permiso>, t: Tables, caller: int,
                           data: map<string, Json>, crypto: Crypto, salt: string, now: DateTime)
    requires Consistent(cat, t)
    requires CreateAccesoResult(cat, permisos, t, caller, data, crypto, salt, now).response.status == 201
    ensures var o, id := CreateAccesoResult(cat, permisos, t, caller, data, crypto, salt, now), t.nextAcceso;
            id !in t.accesos && id in o.tables.accesos &&
            o.tables == t.(accesos := o.tables.accesos, nextAcceso := id + 1) &&
            o.tables.accesos == t.accesos[id := o.tables.accesos[id]] &&
            var a := o.tables.accesos[id];
            JStr(a.correoElectronico) == data["correo_electronico"] &&
            a.contrasenaHash == crypto.hashpw(data["password"].s, salt) &&
            a.ultimoAcceso.None? && a.fechaRegistro == Some(now.day) && IntJson(a.rolId) == data["rol_id"]
  {
  }

  /** The 201 answer shows the stored account without its password hash. */
  lemma CreateAccesoAnswerHidesHash(cat: Catalogs, permisos: map<int, Permiso>, t: Tables, caller: int,
                                    data: map<string, Json>, crypto: Crypto, salt: string, now: DateTime)
    requires CreateAccesoResult(cat, permisos, t, caller, data, crypto, salt, now).response.status == 201
    ensures var o, id := CreateAccesoResult(cat, permisos, t, caller, data, crypto, salt, now), t.nextAcceso;
            id in o.tables.accesos &&
            o.response.body == RecordBody("Acceso creado exitosamente", "acceso",
                                          AccesoToDict(id, o.tables.accesos[id], cat, false)) &&
            "contrasena_hash" !in o.response.body.fields["acceso"].fields
  {
    var a := NewAcceso(data, crypto.hashpw(data["password"].s, salt), now).value;
    var id := t.nextAcceso;
    assert CreateAccesoResult(cat, permisos, t, caller, data, crypto, salt, now) ==
           Outcome(Response(201, RecordBody("Acceso creado exitosamente", "acceso", AccesoToDict(id, a, cat, false))),
                   t.(accesos := t.accesos[id := a], nextAcceso := id + 1));
    AccesoToDictKeys(id, a, cat, false);
  }

  /** `create_acceso` keeps the tables consistent. */
  lemma CreateAccesoKeepsConsistent(cat: Catalogs, permisos: map<int, Permiso>, t: Tables, caller: int,
                                    data: map<string, Json>, crypto: Crypto, salt: string, now: DateTime)
    requires Consistent(cat, t)
    ensures Consistent(cat, CreateAccesoResult(cat, permisos, t, caller, data, crypto, salt, now).tables)
  {
    if CreateAccesoResult(cat, permisos, t, caller, data, crypto, salt, now).response.status == 201 {
      InsertAccesoKeeps(cat, t, NewAcceso(data, crypto.hashpw(data["password"].s, salt), now).value);
    }
  }
}

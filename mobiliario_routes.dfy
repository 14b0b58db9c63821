/** The furniture endpoints (`/mobiliario`): listing with filters, search and
    pagination, reading one piece, and the create, update and delete writes,
    each all-or-nothing. */
module MobiliarioRoutes {
  import opened Values
  import opened Ordering
  import opened Pagination
  import opened Models
  import opened Store
  import opened Decorators
  import opened Requests

  /** The permission module these endpoints are guarded by. */
  const Modulo: string := "mobiliario"

  const NotFound: string := "Mobiliario no encontrado"

  // ---------------------------------------------------------------------------
  // Listing
  // ---------------------------------------------------------------------------

  /** The query string of `GET /mobiliario`, already decoded: `type=int`
      arguments that are absent or not numbers are `None`. */
  datatype MuebleQuery = MuebleQuery(
    tipoMobiliarioId: Option<int>,
    estadoId: Option<int>,
    usuarioId: Option<int>,
    search: string,
    page: Option<int>,
    perPage: Option<int>)

  /** The search matches the brand or the model. */
  predicate MuebleSearchOk(m: Mobiliario, search: string) {
    search == "" || ContainsIgnoringCase(m.marca, search) || ContainsIgnoringCase(m.modelo, search)
  }

  predicate MuebleMatches(m: Mobiliario, q: MuebleQuery) {
    FilterOk(q.tipoMobiliarioId, m.tipoMobiliarioId) && FilterOk(q.estadoId, m.estadoId) &&
    FilterOk(q.usuarioId, m.usuarioAsignadoId) && MuebleSearchOk(m, q.search)
  }

  function MatchingMuebles(mobiliario: map<int, Mobiliario>, q: MuebleQuery): set<int> {
    set k | k in mobiliario && MuebleMatches(mobiliario[k], q)
  }

  /** The ids the filtered query returns, `ORDER BY id_mueble DESC`. */
  function QueryMobiliario(mobiliario: map<int, Mobiliario>, q: MuebleQuery): (ids: seq<int>)
    ensures forall i :: 0 <= i < |ids| ==> ids[i] in mobiliario && MuebleMatches(mobiliario[ids[i]], q)
    ensures forall k :: k in mobiliario && MuebleMatches(mobiliario[k], q) ==> k in ids
    ensures StrictlyDecreasing(ids)
  {
    Descending(MatchingMuebles(mobiliario, q))
  }

  function MobiliarioPage(mobiliario: map<int, Mobiliario>, q: MuebleQuery): Page<int> {
    Paginate(QueryMobiliario(mobiliario, q), PageArg(q.page), PerPageArg(q.perPage))
  }

  /** Every listed piece passes every supplied non-zero filter. */
  lemma ListedPassFilters(mobiliario: map<int, Mobiliario>, q: MuebleQuery, i: int)
    requires 0 <= i < |MobiliarioPage(mobiliario, q).items|
    ensures var k := MobiliarioPage(mobiliario, q).items[i];
            k in mobiliario &&
            (q.tipoMobiliarioId.Some? && q.tipoMobiliarioId.value != 0 ==>
               mobiliario[k].tipoMobiliarioId == q.tipoMobiliarioId) &&
            (q.estadoId.Some? && q.estadoId.value != 0 ==> mobiliario[k].estadoId == q.estadoId) &&
            (q.usuarioId.Some? && q.usuarioId.value != 0 ==> mobiliario[k].usuarioAsignadoId == q.usuarioId)
  {
    var ids := QueryMobiliario(mobiliario, q);
    var o := Offset(PageArg(q.page), PerPageArg(q.perPage));
    assert MobiliarioPage(mobiliario, q).items[i] == ids[o + i];
  }

  /** With a search text, every listed piece contains it, ignoring case, in
      its brand or its model. */
  lemma ListedMatchSearch(mobiliario: map<int, Mobiliario>, q: MuebleQuery, i: int)
    requires q.search != ""
    requires 0 <= i < |MobiliarioPage(mobiliario, q).items|
    ensures var m := mobiliario[MobiliarioPage(mobiliario, q).items[i]];
            ContainsIgnoringCase(m.marca, q.search) || ContainsIgnoringCase(m.modelo, q.search)
  {
    ListedPassFilters(mobiliario, q, i);
    var ids := QueryMobiliario(mobiliario, q);
    var o := Offset(PageArg(q.page), PerPageArg(q.perPage));
    assert MobiliarioPage(mobiliario, q).items[i] == ids[o + i];
  }

  /** A page lists newer pieces first. */
  lemma ListedNewestFirst(mobiliario: map<int, Mobiliario>, q: MuebleQuery, i: int, j: int)
    requires 0 <= i < j < |MobiliarioPage(mobiliario, q).items|
    ensures MobiliarioPage(mobiliario, q).items[i] > MobiliarioPage(mobiliario, q).items[j]
  {
    PageKeepsOrder(QueryMobiliario(mobiliario, q), PageArg(q.page), PerPageArg(q.perPage), i, j);
  }

  /** Every matching piece is on some page. */
  lemma MatchListedSomewhere(mobiliario: map<int, Mobiliario>, q: MuebleQuery, k: int)
    requires k in mobiliario && MuebleMatches(mobiliario[k], q)
    ensures exists page, i :: page >= 1 && 0 <= i < |Paginate(QueryMobiliario(mobiliario, q), page, PerPageArg(q.perPage)).items| &&
                              Paginate(QueryMobiliario(mobiliario, q), page, PerPageArg(q.perPage)).items[i] == k
  {
    var ids := QueryMobiliario(mobiliario, q);
    var n :| 0 <= n < |ids| && ids[n] == k;
    RowOnSomePage(ids, PerPageArg(q.perPage), n);
  }

  /** `total` counts every matching piece, whatever the page, and `pages`
      is that count divided by the page size, rounded up. */
  lemma TotalCountsMatches(mobiliario: map<int, Mobiliario>, q: MuebleQuery)
    ensures MobiliarioPage(mobiliario, q).total == |MatchingMuebles(mobiliario, q)|
    ensures MobiliarioPage(mobiliario, q).pages == PageCount(|MatchingMuebles(mobiliario, q)|, PageSize(PerPageArg(q.perPage)))
  {
  }

  // ---------------------------------------------------------------------------
  // The read endpoints
  // ---------------------------------------------------------------------------

  /** The records of a page of furniture, as `to_dict()` writes them. */
  function MuebleRecords(ids: seq<int>, mobiliario: map<int, Mobiliario>, cat: Catalogs,
                         usuarios: map<int, Usuario>): (r: seq<map<string, Json>>)
    requires forall i :: 0 <= i < |ids| ==> ids[i] in mobiliario
    ensures |r| == |ids|
    ensures forall i :: 0 <= i < |ids| ==> r[i] == MobiliarioToDict(ids[i], mobiliario[ids[i]], cat, usuarios)
  {
    seq(|ids|, i requires 0 <= i < |ids| => MobiliarioToDict(ids[i], mobiliario[ids[i]], cat, usuarios))
  }

  /** The database can run the listing's query: the search text holds no
      NUL, and the page's LIMIT and OFFSET fit in a `bigint`. */
  predicate MuebleQueryRuns(q: MuebleQuery) {
    StorableText(q.search) && PageFitsBigint(PageArg(q.page), PerPageArg(q.perPage))
  }

  /** `GET /mobiliario`: the requested page of the filtered, searched list,
      newest first, with the number of matches and of pages; a query the
      database cannot run fails with a 500. */
  function GetMobiliario(db: Db, caller: int, q: MuebleQuery): (r: Response)
    reads db
    ensures var g := Gate(db.accesos, db.permisos, caller, Modulo, PuedeLeer);
            g.Deny? ==> r == DenyResponse(g)
    ensures Gate(db.accesos, db.permisos, caller, Modulo, PuedeLeer).Allow? && !MuebleQueryRuns(q) ==>
              r == InternalError()
    ensures Gate(db.accesos, db.permisos, caller, Modulo, PuedeLeer).Allow? && MuebleQueryRuns(q) ==>
              var p := MobiliarioPage(db.mobiliario, q);
              r == Response(200, ListBody("mobiliario", Records(MuebleRecords(p.items, db.mobiliario, db.catalogs, db.usuarios)),
                                          |MatchingMuebles(db.mobiliario, q)|, p.pages, PageArg(q.page)))
  {
    var g := Gate(db.accesos, db.permisos, caller, Modulo, PuedeLeer);
    if g.Deny? then DenyResponse(g)
    else if !MuebleQueryRuns(q) then InternalError()
    else
      var p := MobiliarioPage(db.mobiliario, q);
      Response(200, ListBody("mobiliario", Records(MuebleRecords(p.items, db.mobiliario, db.catalogs, db.usuarios)),
                             p.total, p.pages, PageArg(q.page)))
  }

  /** `GET /mobiliario/<id>`: the piece's record, or 404. */
  function GetMobiliarioById(db: Db, caller: int, id: int): (r: Response)
    reads db
    ensures var g := Gate(db.accesos, db.permisos, caller, Modulo, PuedeLeer);
            g.Deny? ==> r == DenyResponse(g)
    ensures Gate(db.accesos, db.permisos, caller, Modulo, PuedeLeer).Allow? ==>
              if id in db.mobiliario then
                r.status == 200 && r.body == JObject(MobiliarioToDict(id, db.mobiliario[id], db.catalogs, db.usuarios))
              else r == Response(404, ErrorBody(NotFound))
  {
    var g := Gate(db.accesos, db.permisos, caller, Modulo, PuedeLeer);
    if g.Deny? then DenyResponse(g)
    else if id !in db.mobiliario then Response(404, ErrorBody(NotFound))
    else Response(200, JObject(MobiliarioToDict(id, db.mobiliario[id], db.catalogs, db.usuarios)))
  }

  // ---------------------------------------------------------------------------
  // Building and patching a row from a request body
  // ---------------------------------------------------------------------------

  /** The row `Mobiliario(...)` builds for `create_mobiliario`, or `None` when
      the database would refuse one of its values (a wrong type, or text
      longer than its column). */
  function NewMueble(data: map<string, Json>, caller: int, now: DateTime): (r: Option<Mobiliario>)
    ensures r.Some? <==>
              IntColumn(Get(data, "tipo_mobiliario_id")).Stored? && IntColumn(Get(data, "estado_id")).Stored? &&
              IntColumn(Get(data, "usuario_asignado_id")).Stored? &&
              VarcharColumn(Get(data, "marca"), AssetTextWidth).Stored? &&
              VarcharColumn(Get(data, "modelo"), AssetTextWidth).Stored? &&
              VarcharColumn(Get(data, "color"), ColorWidth).Stored? && TextColumn(Get(data, "caracteristicas")).Stored? &&
              TextColumn(Get(data, "observaciones")).Stored? && DateColumn(Get(data, "fecha_asignacion")).Stored? &&
              SucursalColumn(data).Stored?
    ensures r.Some? ==> IntJson(r.value.tipoMobiliarioId) == Get(data, "tipo_mobiliario_id") &&
                        IntJson(r.value.estadoId) == Get(data, "estado_id") &&
                        IntJson(r.value.usuarioAsignadoId) == Get(data, "usuario_asignado_id")
    ensures r.Some? ==> TextJson(r.value.marca) == Get(data, "marca") && TextJson(r.value.modelo) == Get(data, "modelo") &&
                        TextJson(r.value.color) == Get(data, "color") &&
                        TextJson(r.value.caracteristicas) == Get(data, "caracteristicas") &&
                        TextJson(r.value.observaciones) == Get(data, "observaciones") &&
                        DateJson(r.value.fechaAsignacion) == Get(data, "fecha_asignacion")
    ensures r.Some? ==> r.value.sucursalNombre == SucursalColumn(data).value
    ensures r.Some? ==> r.value.creadoPor == Some(caller) && r.value.modificadoPor == Some(caller) &&
                        r.value.fechaCreacion == Some(now) && r.value.fechaModificacion == Some(now)
  {
    var tipo, estado, asignado := IntColumn(Get(data, "tipo_mobiliario_id")), IntColumn(Get(data, "estado_id")),
                                  IntColumn(Get(data, "usuario_asignado_id"));
    var marca, modelo := VarcharColumn(Get(data, "marca"), AssetTextWidth), VarcharColumn(Get(data, "modelo"), AssetTextWidth);
    var color := VarcharColumn(Get(data, "color"), ColorWidth);
    var caract, obs := TextColumn(Get(data, "caracteristicas")), TextColumn(Get(data, "observaciones"));
    var fecha, sucursal := DateColumn(Get(data, "fecha_asignacion")), SucursalColumn(data);
    if tipo.Stored? && estado.Stored? && asignado.Stored? && marca.Stored? && modelo.Stored? && color.Stored? &&
       caract.Stored? && obs.Stored? && fecha.Stored? && sucursal.Stored?
    then
      IntColumnRoundTrip(Get(data, "tipo_mobiliario_id"));
      IntColumnRoundTrip(Get(data, "estado_id"));
      IntColumnRoundTrip(Get(data, "usuario_asignado_id"));
      VarcharColumnRoundTrip(Get(data, "marca"), AssetTextWidth);
      VarcharColumnRoundTrip(Get(data, "modelo"), AssetTextWidth);
      VarcharColumnRoundTrip(Get(data, "color"), ColorWidth);
      TextColumnRoundTrip(Get(data, "caracteristicas"));
      TextColumnRoundTrip(Get(data, "observaciones"));
      DateColumnRoundTrip(Get(data, "fecha_asignacion"));
      Some(Mobiliario(tipo.value, marca.value, modelo.value, color.value, caract.value, obs.value, estado.value,
                      asignado.value, fecha.value, sucursal.value, Some(caller), Some(now), Some(caller), Some(now)))
    else None
  }

  /** The columns `update_mobiliario` copies from the body when their key is
      present, in the order of its loop. */
  const Updatable: seq<string> :=
    ["tipo_mobiliario_id", "marca", "modelo", "color", "caracteristicas",
     "observaciones", "estado_id", "usuario_asignado_id", "fecha_asignacion"]

  const IntKeys: set<string> := {"tipo_mobiliario_id", "estado_id", "usuario_asignado_id"}

  /** The value of an updatable column, as the body would carry it. */
  function MuebleColumn(m: Mobiliario, key: string): Json {
    if key == "tipo_mobiliario_id" then IntJson(m.tipoMobiliarioId)
    else if key == "marca" then TextJson(m.marca)
    else if key == "modelo" then TextJson(m.modelo)
    else if key == "color" then TextJson(m.color)
    else if key == "caracteristicas" then TextJson(m.caracteristicas)
    else if key == "observaciones" then TextJson(m.observaciones)
    else if key == "estado_id" then IntJson(m.estadoId)
    else if key == "usuario_asignado_id" then IntJson(m.usuarioAsignadoId)
    else if key == "fecha_asignacion" then DateJson(m.fechaAsignacion)
    else JNull
  }

  /** The columns `update_mobiliario` never copies from the body. */
  predicate SameFixedColumns(a: Mobiliario, b: Mobiliario) {
    a.sucursalNombre == b.sucursalNombre && a.creadoPor == b.creadoPor && a.fechaCreacion == b.fechaCreacion &&
    a.modificadoPor == b.modificadoPor && a.fechaModificacion == b.fechaModificacion
  }

  /** The database accepts the value a body gives for a column: a number or
      NULL for the ids, a date or NULL for `fecha_asignacion`, text of at most
      the column's width or NULL for `marca`, `modelo` and `color`, and any
      text or NULL for the two `Text` columns. */
  predicate Accepts(key: string, v: Json) {
    if key in IntKeys then IntColumn(v).Stored?
    else if key == "fecha_asignacion" then DateColumn(v).Stored?
    else if key == "marca" || key == "modelo" then VarcharColumn(v, AssetTextWidth).Stored?
    else if key == "color" then VarcharColumn(v, ColorWidth).Stored?
    else TextColumn(v).Stored?
  }

  /** `setattr(mueble, key, v)`, or `None` when the database would refuse `v`
      for that column. */
  function SetMuebleColumn(m: Mobiliario, key: string, v: Json): (r: Option<Mobiliario>)
    requires key in Updatable
    ensures r.None? <==> !Accepts(key, v)
    ensures r.Some? ==> MuebleColumn(r.value, key) == v && SameFixedColumns(r.value, m)
    ensures r.Some? ==> forall k :: k != key ==> MuebleColumn(r.value, k) == MuebleColumn(m, k)
  {
    if key in IntKeys then
      var c := IntColumn(v);
      if c.Rejected? then None
      else
        IntColumnRoundTrip(v);
        if key == "tipo_mobiliario_id" then Some(m.(tipoMobiliarioId := c.value))
        else if key == "estado_id" then Some(m.(estadoId := c.value))
        else Some(m.(usuarioAsignadoId := c.value))
    else if key == "fecha_asignacion" then
      var c := DateColumn(v);
      if c.Rejected? then None
      else
        DateColumnRoundTrip(v);
        Some(m.(fechaAsignacion := c.value))
    else if key == "marca" || key == "modelo" then
      var c := VarcharColumn(v, AssetTextWidth);
      if c.Rejected? then None
      else
        VarcharColumnRoundTrip(v, AssetTextWidth);
        if key == "marca" then Some(m.(marca := c.value)) else Some(m.(modelo := c.value))
    else if key == "color" then
      var c := VarcharColumn(v, ColorWidth);
      if c.Rejected? then None
      else
        VarcharColumnRoundTrip(v, ColorWidth);
        Some(m.(color := c.value))
    else
      var c := TextColumn(v);
      if c.Rejected? then None
      else
        TextColumnRoundTrip(v);
        if key == "caracteristicas" then Some(m.(caracteristicas := c.value))
        else Some(m.(observaciones := c.value))
  }

  /** The loop `for key in keys: if key in data: setattr(mueble, key, data[key])`
      as a value: the piece after the first `|keys|` steps. */
  function PatchMueble(m: Mobiliario, data: map<string, Json>, keys: seq<string>): Option<Mobiliario>
    requires forall i :: 0 <= i < |keys| ==> keys[i] in Updatable
    decreases |keys|
  {
    if keys == [] then Some(m)
    else
      var last := keys[|keys| - 1];
      var prev := PatchMueble(m, data, keys[..|keys| - 1]);
      if prev.None? then None
      else if last in data then SetMuebleColumn(prev.value, last, data[last])
      else prev
  }

  /** Patching succeeds exactly when every present value fits its column. */
  lemma {:induction false} PatchMuebleSucceeds(m: Mobiliario, data: map<string, Json>, keys: seq<string>)
    requires forall i :: 0 <= i < |keys| ==> keys[i] in Updatable
    ensures PatchMueble(m, data, keys).Some? <==>
              forall i :: 0 <= i < |keys| && keys[i] in data ==> Accepts(keys[i], data[keys[i]])
    decreases |keys|
  {
    if keys != [] {
      var n := |keys| - 1;
      var init := keys[..n];
      PatchMuebleSucceeds(m, data, init);
      assert forall i :: 0 <= i < n ==> init[i] == keys[i];
    }
  }

  /** After a successful patch each column holds the body's value if its
      key is present and its old value otherwise, and no other column
      changes. */
  lemma {:induction false} PatchMuebleValues(m: Mobiliario, data: map<string, Json>, keys: seq<string>)
    requires forall i :: 0 <= i < |keys| ==> keys[i] in Updatable
    requires PatchMueble(m, data, keys).Some?
    ensures SameFixedColumns(PatchMueble(m, data, keys).value, m)
    ensures forall k :: MuebleColumn(PatchMueble(m, data, keys).value, k) ==
                        if k in keys && k in data then data[k] else MuebleColumn(m, k)
    decreases |keys|
  {
    if keys != [] {
      var n := |keys| - 1;
      var init, last := keys[..n], keys[n];
      assert forall i :: 0 <= i < n ==> init[i] == keys[i];
      PatchMuebleValues(m, data, init);
      var r := PatchMueble(m, data, keys).value;
      forall k
        ensures MuebleColumn(r, k) == if k in keys && k in data then data[k] else MuebleColumn(m, k)
      {
        assert k in keys <==> k in init || k == last;
      }
    }
  }

  /** The route's loop over `Updatable`. The database refuses a value of the
      wrong type only at commit; the loop stops at the first one, which ends
      the same way. */
  method ApplyUpdates(m: Mobiliario, data: map<string, Json>) returns (r: Option<Mobiliario>)
    ensures r == PatchMueble(m, data, Updatable)
  {
    var current := m;
    var i := 0;
    while i < |Updatable|
      invariant 0 <= i <= |Updatable|
      invariant PatchMueble(m, data, Updatable[..i]) == Some(current)
    {
      var key := Updatable[i];
      assert Updatable[..i + 1][..i] == Updatable[..i];
      if key in data {
        var next := SetMuebleColumn(current, key, data[key]);
        if next.None? {
          PatchMuebleStaysFailed(m, data, Updatable, i + 1);
          return None;
        }
        current := next.value;
      }
      i := i + 1;
    }
    assert Updatable[..i] == Updatable;
    return Some(current);
  }

  /** Once a step of the patch fails, the whole patch fails. */
  lemma {:induction false} PatchMuebleStaysFailed(m: Mobiliario, data: map<string, Json>, keys: seq<string>, n: nat)
    requires forall i :: 0 <= i < |keys| ==> keys[i] in Updatable
    requires n <= |keys|
    requires PatchMueble(m, data, keys[..n]).None?
    ensures PatchMueble(m, data, keys).None?
    decreases |keys| - n
  {
    if n < |keys| {
      assert keys[..n + 1][..n] == keys[..n];
      PatchMuebleStaysFailed(m, data, keys, n + 1);
    } else {
      assert keys[..n] == keys;
    }
  }

  /** Who modified a row is not one of the columns a body can set. */
  lemma MuebleColumnIgnoresAuthor(x: Mobiliario, author: Option<int>)
    ensures forall k :: MuebleColumn(x.(modificadoPor := author), k) == MuebleColumn(x, k)
  {
  }

  /** The piece after `update_mobiliario`'s loop and `modificado_por = user_id`. */
  function UpdatedMueble(m: Mobiliario, data: map<string, Json>, caller: int): (r: Option<Mobiliario>)
    ensures r.Some? <==> forall i :: 0 <= i < |Updatable| && Updatable[i] in data ==> Accepts(Updatable[i], data[Updatable[i]])
    ensures r.Some? ==> r.value.modificadoPor == Some(caller)
    ensures r.Some? ==> r.value.sucursalNombre == m.sucursalNombre && r.value.creadoPor == m.creadoPor &&
                        r.value.fechaCreacion == m.fechaCreacion && r.value.fechaModificacion == m.fechaModificacion
    ensures r.Some? ==> forall k :: MuebleColumn(r.value, k) == if k in Updatable && k in data then data[k] else MuebleColumn(m, k)
  {
    PatchMuebleSucceeds(m, data, Updatable);
    var p := PatchMueble(m, data, Updatable);
    if p.None? then None
    else
      PatchMuebleValues(m, data, Updatable);
      MuebleColumnIgnoresAuthor(p.value, Some(caller));
      Some(p.value.(modificadoPor := Some(caller)))
  }

  // ---------------------------------------------------------------------------
  // POST /mobiliario
  // ---------------------------------------------------------------------------

  const RequiredCreate: seq<string> := ["tipo_mobiliario_id", "estado_id"]

  /** What `create_mobiliario` answers and stores, given the tables before it. */
  function CreateMobiliarioResult(cat: Catalogs, permisos: map<int, Permiso>, t: Tables, caller: int,
                                  data: map<string, Json>, now: DateTime): Outcome
  {
    var g := Gate(t.accesos, permisos, caller, Modulo, PuedeCrear);
    if g.Deny? then Outcome(DenyResponse(g), t)
    else if FirstMissing(data, RequiredCreate).Some? then
      Outcome(MissingField(FirstMissing(data, RequiredCreate).value), t)
    else
      var m := NewMueble(data, caller, now);
      if m.None? || !MobiliarioRefsOk(cat, t.usuarios, t.accesos, m.value) then Outcome(InternalError(), t)
      else
        var id := t.nextMueble;
        Outcome(Response(201, RecordBody("Mobiliario creado exitosamente", "mobiliario",
                                         MobiliarioToDict(id, m.value, cat, t.usuarios))),
                t.(mobiliario := t.mobiliario[id := m.value], nextMueble := id + 1))
  }

  /** `POST /mobiliario`. */
  method CreateMobiliario(db: Db, caller: int, data: map<string, Json>, now: DateTime) returns (r: Response)
    requires db.Valid()
    modifies db
    ensures db.Valid()
    ensures Outcome(r, db.Snapshot()) == CreateMobiliarioResult(db.catalogs, db.permisos, old(db.Snapshot()), caller, data, now)
  {
    var g := Gate(db.accesos, db.permisos, caller, Modulo, PuedeCrear);
    if g.Deny? {
      return DenyResponse(g);
    }
    var missing := FindMissing(data, RequiredCreate);
    if missing.Some? {
      return MissingField(missing.value);
    }
    var m := NewMueble(data, caller, now);
    if m.None? || !MobiliarioRefsOk(db.catalogs, db.usuarios, db.accesos, m.value) {
      return InternalError();
    }
    var id := db.InsertMueble(m.value);
    r := Response(201, RecordBody("Mobiliario creado exitosamente", "mobiliario",
                                  MobiliarioToDict(id, m.value, db.catalogs, db.usuarios)));
  }

  /** `create_mobiliario` answers with one of its five statuses; every
      refusal and every failure leaves the tables as they were. */
  lemma CreateMobiliarioStatuses(cat: Catalogs, permisos: map<int, Permiso>, t: Tables, caller: int,
                                 data: map<string, Json>, now: DateTime)
    ensures var o := CreateMobiliarioResult(cat, permisos, t, caller, data, now);
            o.response.status in {201, 400, 403, 404, 500} &&
            (o.response.status != 201 ==> o.tables == t) &&
            (o.response.status == 500 ==> o.response == InternalError())
  {
  }

  /** The refusals before the `try`: the decorator's, then the first missing
      field in the route's order. */
  lemma CreateMobiliarioRefusals(cat: Catalogs, permisos: map<int, Permiso>, t: Tables, caller: int,
                                 data: map<string, Json>, now: DateTime)
    ensures var o := CreateMobiliarioResult(cat, permisos, t, caller, data, now);
            var g := Gate(t.accesos, permisos, caller, Modulo, PuedeCrear);
            (g.Deny? ==> o.response == DenyResponse(g)) &&
            (g.Allow? && "tipo_mobiliario_id" !in data ==>
               o.response == MissingField("tipo_mobiliario_id")) &&
            (g.Allow? && "tipo_mobiliario_id" in data && "estado_id" !in data ==>
               o.response == MissingField("estado_id"))
  {
    assert RequiredCreate[1..] == ["estado_id"] && RequiredCreate[1..][1..] == [];
    if "tipo_mobiliario_id" !in data {
      assert FirstMissing(data, RequiredCreate) == Some("tipo_mobiliario_id");
    } else if "estado_id" !in data {
      assert FirstMissing(data, RequiredCreate[1..]) == Some("estado_id");
    }
  }

  /** A piece is created exactly when the caller may create, both required
      fields are there, and the database accepts every value. */
  lemma CreateMobiliarioSucceedsIff(cat: Catalogs, permisos: map<int, Permiso>, t: Tables, caller: int,
                                    data: map<string, Json>, now: DateTime)
    ensures CreateMobiliarioResult(cat, permisos, t, caller, data, now).response.status == 201 <==>
              Gate(t.accesos, permisos, caller, Modulo, PuedeCrear).Allow? &&
              "tipo_mobiliario_id" in data && "estado_id" in data &&
              NewMueble(data, caller, now).Some? &&
              MobiliarioRefsOk(cat, t.usuarios, t.accesos, NewMueble(data, caller, now).value)
  {
    assert RequiredCreate[0] == "tipo_mobiliario_id" && RequiredCreate[1] == "estado_id";
  }

  /** A created piece gets the next id, holds the body's values, the branch
      default when the body names none, and the caller as its creator and
      last modifier; the answer shows that row. */
  lemma CreateMobiliarioStores(cat: Catalogs, permisos: map<int, Permiso>, t: Tables, caller: int,
                               data: map<string, Json>, now: DateTime)
    requires Consistent(cat, t)
    requires CreateMobiliarioResult(cat, permisos, t, caller, data, now).response.status == 201
    ensures var o, id := CreateMobiliarioResult(cat, permisos, t, caller, data, now), t.nextMueble;
            id !in t.mobiliario &&
            o.tables.mobiliario == t.mobiliario[id := NewMueble(data, caller, now).value] &&
            o.tables.nextMueble == id + 1 &&
            o.tables.mobiliario[id].creadoPor == Some(caller) && o.tables.mobiliario[id].modificadoPor == Some(caller) &&
            ("sucursal_nombre" !in data ==> o.tables.mobiliario[id].sucursalNombre == Some(DefaultSucursal)) &&
            o.response.body == RecordBody("Mobiliario creado exitosamente", "mobiliario",
                                          MobiliarioToDict(id, o.tables.mobiliario[id], cat, o.tables.usuarios))
  {
  }

  /** Creating a piece touches no other row and no other table. */
  lemma CreateMobiliarioLeavesOthers(cat: Catalogs, permisos: map<int, Permiso>, t: Tables, caller: int,
                                     data: map<string, Json>, now: DateTime)
    requires Consistent(cat, t)
    ensures var o := CreateMobiliarioResult(cat, permisos, t, caller, data, now);
            o.tables == t.(mobiliario := o.tables.mobiliario, nextMueble := o.tables.nextMueble) &&
            forall k :: k in t.mobiliario ==> k in o.tables.mobiliario && o.tables.mobiliario[k] == t.mobiliario[k]
  {
  }

  /** `create_mobiliario` keeps the tables consistent. */
  lemma CreateMobiliarioKeepsConsistent(cat: Catalogs, permisos: map<int, Permiso>, t: Tables, caller: int,
                                        data: map<string, Json>, now: DateTime)
    requires Consistent(cat, t)
    ensures Consistent(cat, CreateMobiliarioResult(cat, permisos, t, caller, data, now).tables)
  {
    var o := CreateMobiliarioResult(cat, permisos, t, caller, data, now);
    if o.response.status == 201 {
      InsertMuebleKeeps(cat, t, NewMueble(data, caller, now).value);
    }
  }

  // ---------------------------------------------------------------------------
  // PUT /mobiliario/<id>
  // ---------------------------------------------------------------------------

  /** What `update_mobiliario` answers and stores, given the tables before it. */
  function UpdateMobiliarioResult(cat: Catalogs, permisos: map<int, Permiso>, t: Tables, caller: int, id: int,
                                  data: map<string, Json>): Outcome
  {
    var g := Gate(t.accesos, permisos, caller, Modulo, PuedeActualizar);
    if g.Deny? then Outcome(DenyResponse(g), t)
    else if id !in t.mobiliario then Outcome(Response(404, ErrorBody(NotFound)), t)
    else
      var m := UpdatedMueble(t.mobiliario[id], data, caller);
      if m.None? || !MobiliarioRefsOk(cat, t.usuarios, t.accesos, m.value) then Outcome(InternalError(), t)
      else
        Outcome(Response(200, RecordBody("Mobiliario actualizado exitosamente", "mobiliario",
                                         MobiliarioToDict(id, m.value, cat, t.usuarios))),
                t.(mobiliario := t.mobiliario[id := m.value]))
  }

  /** `PUT /mobiliario/<id>`. */
  method UpdateMobiliario(db: Db, caller: int, id: int, data: map<string, Json>) returns (r: Response)
    requires db.Valid()
    modifies db
    ensures db.Valid()
    ensures Outcome(r, db.Snapshot()) == UpdateMobiliarioResult(db.catalogs, db.permisos, old(db.Snapshot()), caller, id, data)
  {
    var g := Gate(db.accesos, db.permisos, caller, Modulo, PuedeActualizar);
    if g.Deny? {
      return DenyResponse(g);
    }
    if id !in db.mobiliario {
      return Response(404, ErrorBody(NotFound));
    }
    var patched := ApplyUpdates(db.mobiliario[id], data);
    if patched.None? {
      return InternalError();
    }
    var m := patched.value.(modificadoPor := Some(caller));
    assert UpdatedMueble(db.mobiliario[id], data, caller) == Some(m);
    if !MobiliarioRefsOk(db.catalogs, db.usuarios, db.accesos, m) {
      return InternalError();
    }
    db.ReplaceMueble(id, m);
    r := Response(200, RecordBody("Mobiliario actualizado exitosamente", "mobiliario",
                                  MobiliarioToDict(id, m, db.catalogs, db.usuarios)));
  }

  /** `update_mobiliario` answers with one of its four statuses; every
      refusal and every failure leaves the tables as they were. */
  lemma UpdateMobiliarioStatuses(cat: Catalogs, permisos: map<int, Permiso>, t: Tables, caller: int, id: int,
                                 data: map<string, Json>)
    ensures var o := UpdateMobiliarioResult(cat, permisos, t, caller, id, data);
            o.response.status in {200, 403, 404, 500} &&
            (o.response.status != 200 ==> o.tables == t) &&
            (o.response.status == 500 ==> o.response == InternalError())
  {
  }

  /** The decorator answers first, then a missing piece is a 404. */
  lemma UpdateMobiliarioRefusals(cat: Catalogs, permisos: map<int, Permiso>, t: Tables, caller: int, id: int,
                                 data: map<string, Json>)
    ensures var o := UpdateMobiliarioResult(cat, permisos, t, caller, id, data);
            var g := Gate(t.accesos, permisos, caller, Modulo, PuedeActualizar);
            (g.Deny? ==> o.response == DenyResponse(g)) &&
            (g.Allow? && id !in t.mobiliario ==> o.response == Response(404, ErrorBody(NotFound)))
  {
  }

  /** A piece is updated exactly when the caller may update, it exists, and
      the database accepts every value the body gives for the nine columns. */
  lemma UpdateMobiliarioSucceedsIff(cat: Catalogs, permisos: map<int, Permiso>, t: Tables, caller: int, id: int,
                                    data: map<string, Json>)
    ensures UpdateMobiliarioResult(cat, permisos, t, caller, id, data).response.status == 200 <==>
              Gate(t.accesos, permisos, caller, Modulo, PuedeActualizar).Allow? && id in t.mobiliario &&
              (forall i :: 0 <= i < |Updatable| && Updatable[i] in data ==> Accepts(Updatable[i], data[Updatable[i]])) &&
              MobiliarioRefsOk(cat, t.usuarios, t.accesos, UpdatedMueble(t.mobiliario[id], data, caller).value)
  {
  }

  /** A successful update writes the body's value into each of the nine
      columns whose key it holds, keeps every other column (the branch, the
      creator and both timestamps) and records the caller as the last
      modifier; every other piece and table is as it was, and the answer
      shows the stored row. */
  lemma UpdateMobiliarioStores(cat: Catalogs, permisos: map<int, Permiso>, t: Tables, caller: int, id: int,
                               data: map<string, Json>)
    requires UpdateMobiliarioResult(cat, permisos, t, caller, id, data).response.status == 200
    ensures var o := UpdateMobiliarioResult(cat, permisos, t, caller, id, data);
            id in t.mobiliario && id in o.tables.mobiliario &&
            var before, after := t.mobiliario[id], o.tables.mobiliario[id];
            (forall k :: k in Updatable ==> MuebleColumn(after, k) == if k in data then data[k] else MuebleColumn(before, k)) &&
            after.modificadoPor == Some(caller) && after.sucursalNombre == before.sucursalNombre &&
            after.creadoPor == before.creadoPor && after.fechaCreacion == before.fechaCreacion &&
            after.fechaModificacion == before.fechaModificacion &&
            o.tables == t.(mobiliario := t.mobiliario[id := after]) &&
            o.response.body == RecordBody("Mobiliario actualizado exitosamente", "mobiliario",
                                          MobiliarioToDict(id, after, cat, o.tables.usuarios))
  {
  }

  /** A body that holds none of the keys leaves the piece as it is. */
  lemma {:induction false} PatchMuebleNoKeys(m: Mobiliario, data: map<string, Json>, keys: seq<string>)
    requires forall i :: 0 <= i < |keys| ==> keys[i] in Updatable && keys[i] !in data
    ensures PatchMueble(m, data, keys) == Some(m)
    decreases |keys|
  {
    if keys != [] {
      PatchMuebleNoKeys(m, data, keys[..|keys| - 1]);
    }
  }

  /** A body without any of the nine keys changes only `modificado_por`. */
  lemma UpdateMobiliarioEmptyBody(cat: Catalogs, permisos: map<int, Permiso>, t: Tables, caller: int, id: int,
                                  data: map<string, Json>)
    requires Consistent(cat, t)
    requires id in t.mobiliario
    requires Gate(t.accesos, permisos, caller, Modulo, PuedeActualizar).Allow?
    requires forall i :: 0 <= i < |Updatable| ==> Updatable[i] !in data
    ensures var o := UpdateMobiliarioResult(cat, permisos, t, caller, id, data);
            o.response.status == 200 &&
            o.tables.mobiliario == t.mobiliario[id := t.mobiliario[id].(modificadoPor := Some(caller))]
  {
    PatchMuebleNoKeys(t.mobiliario[id], data, Updatable);
  }

  /** `update_mobiliario` keeps the tables consistent. */
  lemma UpdateMobiliarioKeepsConsistent(cat: Catalogs, permisos: map<int, Permiso>, t: Tables, caller: int, id: int,
                                        data: map<string, Json>)
    requires Consistent(cat, t)
    ensures Consistent(cat, UpdateMobiliarioResult(cat, permisos, t, caller, id, data).tables)
  {
    var o := UpdateMobiliarioResult(cat, permisos, t, caller, id, data);
    if o.response.status == 200 {
      ReplaceMuebleKeeps(cat, t, id, UpdatedMueble(t.mobiliario[id], data, caller).value);
    }
  }

  // ---------------------------------------------------------------------------
  // DELETE /mobiliario/<id>
  // ---------------------------------------------------------------------------

  /** What `delete_mobiliario` answers and leaves, given the tables before it. */
  function DeleteMobiliarioResult(permisos: map<int, Permiso>, t: Tables, caller: int, id: int): Outcome {
    var g := Gate(t.accesos, permisos, caller, Modulo, PuedeEliminar);
    if g.Deny? then Outcome(DenyResponse(g), t)
    else if id !in t.mobiliario then Outcome(Response(404, ErrorBody(NotFound)), t)
    else Outcome(Response(200, MessageBody("Mobiliario eliminado exitosamente")), t.(mobiliario := t.mobiliario - {id}))
  }

  /** `DELETE /mobiliario/<id>`. */
  method DeleteMobiliario(db: Db, caller: int, id: int) returns (r: Response)
    requires db.Valid()
    modifies db
    ensures db.Valid()
    ensures Outcome(r, db.Snapshot()) == DeleteMobiliarioResult(db.permisos, old(db.Snapshot()), caller, id)
  {
    var g := Gate(db.accesos, db.permisos, caller, Modulo, PuedeEliminar);
    if g.Deny? {
      return DenyResponse(g);
    }
    if id !in db.mobiliario {
      return Response(404, ErrorBody(NotFound));
    }
    db.DeleteMueble(id);
    r := Response(200, MessageBody("Mobiliario eliminado exitosamente"));
  }

  /** A deletion removes exactly the piece: it is answered with 200 exactly
      when the caller may delete and the piece exists, and afterwards the
      piece is gone and every other piece and table is as it was. */
  lemma DeleteMobiliarioRemoves(permisos: map<int, Permiso>, t: Tables, caller: int, id: int)
    ensures var o := DeleteMobiliarioResult(permisos, t, caller, id);
            (o.response.status == 200 <==>
               Gate(t.accesos, permisos, caller, Modulo, PuedeEliminar).Allow? && id in t.mobiliario) &&
            (o.response.status == 200 ==> id !in o.tables.mobiliario) &&
            (o.response.status != 200 ==> o.tables == t)
    ensures var o := DeleteMobiliarioResult(permisos, t, caller, id);
            o.tables == t.(mobiliario := o.tables.mobiliario) &&
            forall k :: k in t.mobiliario && k != id ==> k in o.tables.mobiliario && o.tables.mobiliario[k] == t.mobiliario[k]
  {
  }
}

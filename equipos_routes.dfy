/** The computing-asset endpoints (`/equipos`): listing with filters, search
    and pagination, reading one asset with its specifications, and the
    create, update and delete writes, each all-or-nothing. */
module EquiposRoutes {
  import opened Values
  import opened Ordering
  import opened Pagination
  import opened Models
  import opened Store
  import opened Decorators
  import opened Requests

  /** The permission module these endpoints are guarded by. */
  const Modulo: string := "computo"

  const NotFound: string := "Equipo no encontrado"
  const SerialExists: string := "El número de serie ya existe"

  // ---------------------------------------------------------------------------
  // Listing
  // ---------------------------------------------------------------------------

  /** The query string of `GET /equipos`, already decoded: `type=int`
      arguments that are absent or not numbers are `None`. */
  datatype EquipoQuery = EquipoQuery(
    tipoActivoId: Option<int>,
    estadoId: Option<int>,
    usuarioId: Option<int>,
    search: string,
    page: Option<int>,
    perPage: Option<int>)

  /** The search matches the name, the brand or the serial number. */
  predicate EquipoSearchOk(e: EquipoComputo, search: string) {
    search == "" ||
    ContainsIgnoringCase(Some(e.nombreActivo), search) ||
    ContainsIgnoringCase(e.marca, search) ||
    ContainsIgnoringCase(e.numeroSerie, search)
  }

  predicate EquipoMatches(e: EquipoComputo, q: EquipoQuery) {
    FilterOk(q.tipoActivoId, e.tipoActivoId) && FilterOk(q.estadoId, e.estadoId) &&
    FilterOk(q.usuarioId, e.usuarioAsignadoId) && EquipoSearchOk(e, q.search)
  }

  function MatchingEquipos(equipos: map<int, EquipoComputo>, q: EquipoQuery): set<int> {
    set k | k in equipos && EquipoMatches(equipos[k], q)
  }

  /** The ids the filtered query returns, `ORDER BY id_activo DESC`. */
  function QueryEquipos(equipos: map<int, EquipoComputo>, q: EquipoQuery): (ids: seq<int>)
    ensures forall i :: 0 <= i < |ids| ==> ids[i] in equipos && EquipoMatches(equipos[ids[i]], q)
    ensures forall k :: k in equipos && EquipoMatches(equipos[k], q) ==> k in ids
    ensures StrictlyDecreasing(ids)
  {
    Descending(MatchingEquipos(equipos, q))
  }

  function EquiposPage(equipos: map<int, EquipoComputo>, q: EquipoQuery): Page<int> {
    Paginate(QueryEquipos(equipos, q), PageArg(q.page), PerPageArg(q.perPage))
  }

  /** Every listed asset passes every supplied non-zero filter. */
  lemma ListedPassFilters(equipos: map<int, EquipoComputo>, q: EquipoQuery, i: int)
    requires 0 <= i < |EquiposPage(equipos, q).items|
    ensures var k := EquiposPage(equipos, q).items[i];
            k in equipos &&
            (q.tipoActivoId.Some? && q.tipoActivoId.value != 0 ==> equipos[k].tipoActivoId == q.tipoActivoId) &&
            (q.estadoId.Some? && q.estadoId.value != 0 ==> equipos[k].estadoId == q.estadoId) &&
            (q.usuarioId.Some? && q.usuarioId.value != 0 ==> equipos[k].usuarioAsignadoId == q.usuarioId)
  {
    var ids := QueryEquipos(equipos, q);
    var p := EquiposPage(equipos, q);
    var o := Offset(PageArg(q.page), PerPageArg(q.perPage));
    assert p.items[i] == ids[o + i];
  }

  /** With a search text, every listed asset contains it, ignoring case, in
      its name, brand or serial number. */
  lemma ListedMatchSearch(equipos: map<int, EquipoComputo>, q: EquipoQuery, i: int)
    requires q.search != ""
    requires 0 <= i < |EquiposPage(equipos, q).items|
    ensures var e := equipos[EquiposPage(equipos, q).items[i]];
            ContainsIgnoringCase(Some(e.nombreActivo), q.search) ||
            ContainsIgnoringCase(e.marca, q.search) ||
            ContainsIgnoringCase(e.numeroSerie, q.search)
  {
    ListedPassFilters(equipos, q, i);
    var ids := QueryEquipos(equipos, q);
    var o := Offset(PageArg(q.page), PerPageArg(q.perPage));
    assert EquiposPage(equipos, q).items[i] == ids[o + i];
  }

  /** A page lists newer assets first. */
  lemma ListedNewestFirst(equipos: map<int, EquipoComputo>, q: EquipoQuery, i: int, j: int)
    requires 0 <= i < j < |EquiposPage(equipos, q).items|
    ensures EquiposPage(equipos, q).items[i] > EquiposPage(equipos, q).items[j]
  {
    PageKeepsOrder(QueryEquipos(equipos, q), PageArg(q.page), PerPageArg(q.perPage), i, j);
  }

  /** `total` counts every matching asset, whatever the page, and `pages`
      is that count divided by the page size, rounded up. */
  lemma TotalCountsMatches(equipos: map<int, EquipoComputo>, q: EquipoQuery)
    ensures EquiposPage(equipos, q).total == |MatchingEquipos(equipos, q)|
    ensures EquiposPage(equipos, q).pages == PageCount(|MatchingEquipos(equipos, q)|, PageSize(PerPageArg(q.perPage)))
  {
  }

  /** A filter argument of 0 is the same as leaving it out. */
  lemma ZeroFilterIgnored(equipos: map<int, EquipoComputo>, q: EquipoQuery)
    ensures QueryEquipos(equipos, q.(tipoActivoId := Some(0))) == QueryEquipos(equipos, q.(tipoActivoId := None))
    ensures QueryEquipos(equipos, q.(estadoId := Some(0))) == QueryEquipos(equipos, q.(estadoId := None))
    ensures QueryEquipos(equipos, q.(usuarioId := Some(0))) == QueryEquipos(equipos, q.(usuarioId := None))
  {
    assert forall e :: EquipoMatches(e, q.(tipoActivoId := Some(0))) == EquipoMatches(e, q.(tipoActivoId := None));
    assert MatchingEquipos(equipos, q.(tipoActivoId := Some(0))) == MatchingEquipos(equipos, q.(tipoActivoId := None));
    assert forall e :: EquipoMatches(e, q.(estadoId := Some(0))) == EquipoMatches(e, q.(estadoId := None));
    assert MatchingEquipos(equipos, q.(estadoId := Some(0))) == MatchingEquipos(equipos, q.(estadoId := None));
    assert forall e :: EquipoMatches(e, q.(usuarioId := Some(0))) == EquipoMatches(e, q.(usuarioId := None));
    assert MatchingEquipos(equipos, q.(usuarioId := Some(0))) == MatchingEquipos(equipos, q.(usuarioId := None));
  }

  // ---------------------------------------------------------------------------
  // Building and patching a row from a request body
  // ---------------------------------------------------------------------------

  /** The row `EquipoComputo(...)` builds for `create_equipo`, or `None` when
      the database would refuse one of its values (a wrong type, text longer
      than its column, or NULL in `nombre_activo`). */
  function NewEquipo(data: map<string, Json>, caller: int, now: DateTime): (r: Option<EquipoComputo>)
    ensures r.Some? <==>
              FitsVarchar(Get(data, "nombre_activo"), AssetTextWidth) &&
              IntColumn(Get(data, "tipo_activo_id")).Stored? && IntColumn(Get(data, "estado_id")).Stored? &&
              IntColumn(Get(data, "usuario_asignado_id")).Stored? &&
              VarcharColumn(Get(data, "marca"), AssetTextWidth).Stored? &&
              VarcharColumn(Get(data, "modelo"), AssetTextWidth).Stored? &&
              VarcharColumn(Get(data, "numero_serie"), AssetTextWidth).Stored? &&
              TextColumn(Get(data, "observaciones")).Stored? &&
              SucursalColumn(data).Stored?
    ensures r.Some? ==> JStr(r.value.nombreActivo) == Get(data, "nombre_activo")
    ensures r.Some? ==> IntJson(r.value.tipoActivoId) == Get(data, "tipo_activo_id") &&
                        IntJson(r.value.estadoId) == Get(data, "estado_id") &&
                        IntJson(r.value.usuarioAsignadoId) == Get(data, "usuario_asignado_id")
    ensures r.Some? ==> TextJson(r.value.marca) == Get(data, "marca") && TextJson(r.value.modelo) == Get(data, "modelo") &&
                        TextJson(r.value.numeroSerie) == Get(data, "numero_serie") &&
                        TextJson(r.value.observaciones) == Get(data, "observaciones")
    ensures r.Some? ==> r.value.sucursalNombre == SucursalColumn(data).value
    ensures r.Some? ==> r.value.creadoPor == Some(caller) && r.value.modificadoPor == Some(caller)
    ensures r.Some? ==> r.value.fechaRegistro == Some(now.day) &&
                        r.value.fechaCreacion == Some(now) && r.value.fechaModificacion == Some(now)
  {
    var nombre := Get(data, "nombre_activo");
    var tipo, estado, asignado := IntColumn(Get(data, "tipo_activo_id")), IntColumn(Get(data, "estado_id")),
                                  IntColumn(Get(data, "usuario_asignado_id"));
    var marca, modelo := VarcharColumn(Get(data, "marca"), AssetTextWidth), VarcharColumn(Get(data, "modelo"), AssetTextWidth);
    var serie, obs := VarcharColumn(Get(data, "numero_serie"), AssetTextWidth), TextColumn(Get(data, "observaciones"));
    var sucursal := SucursalColumn(data);
    if FitsVarchar(nombre, AssetTextWidth) && tipo.Stored? && estado.Stored? && asignado.Stored? && marca.Stored? && modelo.Stored? &&
       serie.Stored? && obs.Stored? && sucursal.Stored?
    then
      IntColumnRoundTrip(Get(data, "tipo_activo_id"));
      IntColumnRoundTrip(Get(data, "estado_id"));
      IntColumnRoundTrip(Get(data, "usuario_asignado_id"));
      VarcharColumnRoundTrip(Get(data, "marca"), AssetTextWidth);
      VarcharColumnRoundTrip(Get(data, "modelo"), AssetTextWidth);
      VarcharColumnRoundTrip(Get(data, "numero_serie"), AssetTextWidth);
      TextColumnRoundTrip(Get(data, "observaciones"));
      Some(EquipoComputo(tipo.value, nombre.s, marca.value, modelo.value, serie.value, estado.value,
                         Some(FechaRegistroDefault(now)), obs.value, asignado.value, sucursal.value,
                         Some(caller), Some(now), Some(caller), Some(now)))
    else None
  }

  /** The columns `update_equipo` copies from the body when their key is present. */
  const Updatable: seq<string> :=
    ["tipo_activo_id", "nombre_activo", "marca", "modelo", "numero_serie", "estado_id",
     "observaciones", "usuario_asignado_id"]

  /** The value of an updatable column, as the body would carry it. */
  function EquipoColumn(e: EquipoComputo, key: string): Json {
    if key == "tipo_activo_id" then IntJson(e.tipoActivoId)
    else if key == "nombre_activo" then JStr(e.nombreActivo)
    else if key == "marca" then TextJson(e.marca)
    else if key == "modelo" then TextJson(e.modelo)
    else if key == "numero_serie" then TextJson(e.numeroSerie)
    else if key == "estado_id" then IntJson(e.estadoId)
    else if key == "observaciones" then TextJson(e.observaciones)
    else if key == "usuario_asignado_id" then IntJson(e.usuarioAsignadoId)
    else JNull
  }

  /** The columns `update_equipo` never writes. */
  predicate SameFixedColumns(a: EquipoComputo, b: EquipoComputo) {
    a.fechaRegistro == b.fechaRegistro && a.sucursalNombre == b.sucursalNombre &&
    a.creadoPor == b.creadoPor && a.fechaCreacion == b.fechaCreacion &&
    a.modificadoPor == b.modificadoPor && a.fechaModificacion == b.fechaModificacion
  }

  /** The database accepts the value a body gives for an updatable column:
      a number or NULL for the ids, text of at most the column's width (and
      not NULL for `nombre_activo`) for the `String(50)` columns, any text
      or NULL for `observaciones`. */
  predicate Accepts(key: string, v: Json) {
    if key == "nombre_activo" then FitsVarchar(v, AssetTextWidth)
    else if key in {"tipo_activo_id", "estado_id", "usuario_asignado_id"} then IntColumn(v).Stored?
    else if key == "observaciones" then TextColumn(v).Stored?
    else VarcharColumn(v, AssetTextWidth).Stored?
  }

  /** `equipo.<key> = v`, or `None` when the database would refuse `v` for that column. */
  function SetEquipoColumn(e: EquipoComputo, key: string, v: Json): (r: Option<EquipoComputo>)
    requires key in Updatable
    ensures r.Some? ==> EquipoColumn(r.value, key) == v && SameFixedColumns(r.value, e)
    ensures r.Some? ==> forall k :: k != key ==> EquipoColumn(r.value, k) == EquipoColumn(e, k)
    ensures r.None? <==> !Accepts(key, v)
  {
    if key == "nombre_activo" then
      if FitsVarchar(v, AssetTextWidth) then Some(e.(nombreActivo := v.s)) else None
    else if key in {"tipo_activo_id", "estado_id", "usuario_asignado_id"} then
      var c := IntColumn(v);
      if c.Rejected? then None
      else
        IntColumnRoundTrip(v);
        if key == "tipo_activo_id" then Some(e.(tipoActivoId := c.value))
        else if key == "estado_id" then Some(e.(estadoId := c.value))
        else Some(e.(usuarioAsignadoId := c.value))
    else if key == "observaciones" then
      var c := TextColumn(v);
      if c.Rejected? then None
      else
        TextColumnRoundTrip(v);
        Some(e.(observaciones := c.value))
    else
      var c := VarcharColumn(v, AssetTextWidth);
      if c.Rejected? then None
      else
        VarcharColumnRoundTrip(v, AssetTextWidth);
        if key == "marca" then Some(e.(marca := c.value))
        else if key == "modelo" then Some(e.(modelo := c.value))
        else Some(e.(numeroSerie := c.value))
  }

  /** The `if key in data: equipo.<key> = data[key]` statements for `keys`, in order. */
  function PatchEquipo(e: EquipoComputo, data: map<string, Json>, keys: seq<string>): Option<EquipoComputo>
    requires forall i :: 0 <= i < |keys| ==> keys[i] in Updatable
    decreases |keys|
  {
    if keys == [] then Some(e)
    else
      var last := keys[|keys| - 1];
      var prev := PatchEquipo(e, data, keys[..|keys| - 1]);
      if prev.None? then None
      else if last in data then SetEquipoColumn(prev.value, last, data[last])
      else prev
  }


  /** Patching succeeds exactly when every present value fits its column. */
  lemma {:induction false} PatchEquipoSucceeds(e: EquipoComputo, data: map<string, Json>, keys: seq<string>)
    requires forall i :: 0 <= i < |keys| ==> keys[i] in Updatable
    ensures PatchEquipo(e, data, keys).Some? <==>
              forall i :: 0 <= i < |keys| && keys[i] in data ==> Accepts(keys[i], data[keys[i]])
    decreases |keys|
  {
    if keys != [] {
      var n := |keys| - 1;
      var init := keys[..n];
      PatchEquipoSucceeds(e, data, init);
      assert forall i :: 0 <= i < n ==> init[i] == keys[i];
    }
  }

  /** After a successful patch each column holds the body's value if its
      key is present and its old value otherwise, and no other column
      changes. */
  lemma {:induction false} PatchEquipoValues(e: EquipoComputo, data: map<string, Json>, keys: seq<string>)
    requires forall i :: 0 <= i < |keys| ==> keys[i] in Updatable
    requires PatchEquipo(e, data, keys).Some?
    ensures SameFixedColumns(PatchEquipo(e, data, keys).value, e)
    ensures forall k :: EquipoColumn(PatchEquipo(e, data, keys).value, k) ==
                        if k in keys && k in data then data[k] else EquipoColumn(e, k)
    decreases |keys|
  {
    if keys != [] {
      var n := |keys| - 1;
      var init, last := keys[..n], keys[n];
      assert forall i :: 0 <= i < n ==> init[i] == keys[i];
      PatchEquipoValues(e, data, init);
      var prev := PatchEquipo(e, data, init).value;
      var r := PatchEquipo(e, data, keys).value;
      forall k
        ensures EquipoColumn(r, k) == if k in keys && k in data then data[k] else EquipoColumn(e, k)
      {
        assert k in keys <==> k in init || k == last;
      }
    }
  }

  /** Who modified a row is not one of the columns a body can set. */
  lemma EquipoColumnIgnoresAuthor(x: EquipoComputo, author: Option<int>)
    ensures forall k :: EquipoColumn(x.(modificadoPor := author), k) == EquipoColumn(x, k)
  {
  }

  /** The patch for `update_equipo`'s eight columns. */
  function UpdatedEquipo(e: EquipoComputo, data: map<string, Json>, caller: int): (r: Option<EquipoComputo>)
    ensures r.Some? <==> forall i :: 0 <= i < |Updatable| && Updatable[i] in data ==> Accepts(Updatable[i], data[Updatable[i]])
    ensures r.Some? ==> r.value.modificadoPor == Some(caller)
    ensures r.Some? ==> r.value.sucursalNombre == e.sucursalNombre && r.value.creadoPor == e.creadoPor &&
                        r.value.fechaRegistro == e.fechaRegistro && r.value.fechaCreacion == e.fechaCreacion &&
                        r.value.fechaModificacion == e.fechaModificacion
    ensures r.Some? ==> forall k :: EquipoColumn(r.value, k) == if k in Updatable && k in data then data[k] else EquipoColumn(e, k)
  {
    PatchEquipoSucceeds(e, data, Updatable);
    var p := PatchEquipo(e, data, Updatable);
    if p.None? then None
    else
      PatchEquipoValues(e, data, Updatable);
      EquipoColumnIgnoresAuthor(p.value, Some(caller));
      Some(p.value.(modificadoPor := Some(caller)))
  }

  // ---------------------------------------------------------------------------
  // The `especificaciones` list of a body
  // ---------------------------------------------------------------------------

  /** `for spec in value` as far as the route gets: a list gives its items,
      an empty text or object gives nothing, and any other value fails (it
      is not iterable, or its items are not objects). */
  function Elements(v: Json): (r: Option<seq<Json>>)
    ensures v.JArray? ==> r == Some(v.items)
    ensures r.Some? && !v.JArray? ==> r.value == [] && !Truthy(v)
  {
    match v
    case JArray(xs) => Some(xs)
    case JStr(s) => if s == "" then Some([]) else None
    case JObject(m) => if m == map[] then Some([]) else None
    case _ => None
  }

  /** `spec['nombre_especificacion']`, `spec['valor_especificacion']`: both
      keys must be present and hold text that fits its `String(100)` column
      for the row to be stored. */
  function SpecFromJson(v: Json): (r: Option<SpecInput>)
    ensures r.Some? <==> v.JObject? && "nombre_especificacion" in v.fields && "valor_especificacion" in v.fields &&
                         FitsVarchar(v.fields["nombre_especificacion"], SpecTextWidth) &&
                         FitsVarchar(v.fields["valor_especificacion"], SpecTextWidth)
    ensures r.Some? ==> JStr(r.value.nombre) == v.fields["nombre_especificacion"] &&
                        JStr(r.value.valor) == v.fields["valor_especificacion"]
  {
    if v.JObject? && "nombre_especificacion" in v.fields && "valor_especificacion" in v.fields &&
       FitsVarchar(v.fields["nombre_especificacion"], SpecTextWidth) &&
       FitsVarchar(v.fields["valor_especificacion"], SpecTextWidth)
    then Some(SpecInput(v.fields["nombre_especificacion"].s, v.fields["valor_especificacion"].s))
    else None
  }

  /** Every item of the list, parsed; `None` if one of them is malformed. */
  function ParseSpecs(xs: seq<Json>): (r: Option<seq<SpecInput>>)
    ensures r.Some? <==> forall i :: 0 <= i < |xs| ==> SpecFromJson(xs[i]).Some?
    ensures r.Some? ==> |r.value| == |xs| && forall i :: 0 <= i < |xs| ==> SpecFromJson(xs[i]) == Some(r.value[i])
    decreases |xs|
  {
    if xs == [] then Some([])
    else
      var n := |xs| - 1;
      var init, last := ParseSpecs(xs[..n]), SpecFromJson(xs[n]);
      assert forall i :: 0 <= i < n ==> xs[..n][i] == xs[i];
      if init.None? || last.None? then None else Some(init.value + [last.value])
  }

  /** The items of a body's `especificaciones` value, parsed; `None` when
      iterating it or reading one of its items fails. */
  function SpecList(v: Json): (r: Option<seq<SpecInput>>)
    ensures v.JArray? ==> r == ParseSpecs(v.items)
    ensures r.Some? && !v.JArray? ==> r.value == []
  {
    var xs := Elements(v);
    if xs.None? then None else ParseSpecs(xs.value)
  }

  /** The specifications `create_equipo` stores: none unless the key is
      present and its value truthy. */
  function CreateSpecs(data: map<string, Json>): (r: Option<seq<SpecInput>>)
    ensures !("especificaciones" in data && Truthy(data["especificaciones"])) ==> r == Some([])
    ensures "especificaciones" in data && Truthy(data["especificaciones"]) ==> r == SpecList(data["especificaciones"])
  {
    if "especificaciones" in data && Truthy(data["especificaciones"]) then SpecList(data["especificaciones"])
    else Some([])
  }

  // ---------------------------------------------------------------------------
  // Staging a specification list
  // ---------------------------------------------------------------------------

  /** The `for orden, spec in enumerate(value, start=1)` loop: each item is
      read and a row with the next `orden` is added to the session. The rows
      reach the table together at commit; when the value cannot be iterated
      or an item is malformed the loop stops and nothing is stored. */
  method StageSpecs(equipoId: int, v: Json, now: DateTime) returns (rows: Option<seq<Especificacion>>)
    ensures SpecList(v).None? ==> rows.None?
    ensures SpecList(v).Some? ==> rows == Some(Enumerated(equipoId, SpecList(v).value, now))
  {
    var xs := Elements(v);
    if xs.None? {
      return None;
    }
    ghost var items: seq<SpecInput> := [];
    var staged: seq<Especificacion> := [];
    var i := 0;
    while i < |xs.value|
      invariant 0 <= i <= |xs.value| && |items| == i
      invariant forall j :: 0 <= j < i ==> SpecFromJson(xs.value[j]) == Some(items[j])
      invariant staged == Enumerated(equipoId, items, now)
    {
      var spec := SpecFromJson(xs.value[i]);
      if spec.None? {
        return None;
      }
      staged := staged + [SpecRow(equipoId, spec.value, i + 1, now)];
      items := items + [spec.value];
      i := i + 1;
    }
    assert ParseSpecs(xs.value).value == items;
    return Some(staged);
  }

  // ---------------------------------------------------------------------------
  // The read endpoints
  // ---------------------------------------------------------------------------

  /** The records of a page of assets, as `to_dict()` writes them. */
  function EquipoRecords(ids: seq<int>, equipos: map<int, EquipoComputo>, cat: Catalogs,
                         usuarios: map<int, Usuario>): (r: seq<map<string, Json>>)
    requires forall i :: 0 <= i < |ids| ==> ids[i] in equipos
    ensures |r| == |ids|
    ensures forall i :: 0 <= i < |ids| ==> r[i] == EquipoToDict(ids[i], equipos[ids[i]], cat, usuarios, [], false)
  {
    seq(|ids|, i requires 0 <= i < |ids| => EquipoToDict(ids[i], equipos[ids[i]], cat, usuarios, [], false))
  }

  /** The database can run the listing's query: the search text holds no
      NUL, and the page's LIMIT and OFFSET fit in a `bigint`. */
  predicate EquipoQueryRuns(q: EquipoQuery) {
    StorableText(q.search) && PageFitsBigint(PageArg(q.page), PerPageArg(q.perPage))
  }

  /** `GET /equipos`: the requested page of the filtered, searched list,
      newest first, with the number of matches and of pages; a query the
      database cannot run fails with a 500. */
  function GetEquipos(db: Db, caller: int, q: EquipoQuery): (r: Response)
    reads db
    ensures var g := Gate(db.accesos, db.permisos, caller, Modulo, PuedeLeer);
            g.Deny? ==> r == DenyResponse(g)
    ensures Gate(db.accesos, db.permisos, caller, Modulo, PuedeLeer).Allow? && !EquipoQueryRuns(q) ==>
              r == InternalError()
    ensures Gate(db.accesos, db.permisos, caller, Modulo, PuedeLeer).Allow? && EquipoQueryRuns(q) ==>
              var p := EquiposPage(db.equipos, q);
              r == Response(200, ListBody("equipos", Records(EquipoRecords(p.items, db.equipos, db.catalogs, db.usuarios)),
                                          |MatchingEquipos(db.equipos, q)|, p.pages, PageArg(q.page)))
  {
    var g := Gate(db.accesos, db.permisos, caller, Modulo, PuedeLeer);
    if g.Deny? then DenyResponse(g)
    else if !EquipoQueryRuns(q) then InternalError()
    else
      var p := EquiposPage(db.equipos, q);
      Response(200, ListBody("equipos", Records(EquipoRecords(p.items, db.equipos, db.catalogs, db.usuarios)),
                             p.total, p.pages, PageArg(q.page)))
  }

  /** `GET /equipos/<id>`: the asset with its specifications, or 404. */
  function GetEquipo(db: Db, caller: int, id: int): (r: Response)
    reads db
    ensures var g := Gate(db.accesos, db.permisos, caller, Modulo, PuedeLeer);
            g.Deny? ==> r == DenyResponse(g)
    ensures Gate(db.accesos, db.permisos, caller, Modulo, PuedeLeer).Allow? ==>
              if id in db.equipos then
                r.status == 200 && r.body == JObject(EquipoToDict(id, db.equipos[id], db.catalogs, db.usuarios,
                                                                  SpecsOf(db.especificaciones, id), true))
              else r == Response(404, ErrorBody(NotFound))
  {
    var g := Gate(db.accesos, db.permisos, caller, Modulo, PuedeLeer);
    if g.Deny? then DenyResponse(g)
    else if id !in db.equipos then Response(404, ErrorBody(NotFound))
    else Response(200, JObject(EquipoToDict(id, db.equipos[id], db.catalogs, db.usuarios,
                                            SpecsOf(db.especificaciones, id), true)))
  }

  /** The specifications `GET /equipos/<id>` lists carry `orden` 1, 2, ...
      in the order they are listed. */
  lemma GetEquipoNumbered(db: Db, id: int, i: int)
    requires db.Valid()
    requires id in db.equipos
    requires 0 <= i < |SpecsOf(db.especificaciones, id)|
    ensures SpecsOf(db.especificaciones, id)[i].1.orden == i + 1
  {
    assert Numbered(db.especificaciones, id);
  }

  // ---------------------------------------------------------------------------
  // POST /equipos
  // ---------------------------------------------------------------------------

  const RequiredCreate: seq<string> := ["nombre_activo", "tipo_activo_id", "estado_id"]

  /** A serial number is already stored on some asset. */
  predicate SerialInUse(equipos: map<int, EquipoComputo>, serial: string) {
    exists k :: k in equipos && equipos[k].numeroSerie == Some(serial)
  }

  /** The tables after asset `e` is stored under the next id with `rows`. */
  function WithNewEquipo(t: Tables, e: EquipoComputo, rows: seq<Especificacion>): Tables {
    t.(equipos := t.equipos[t.nextEquipo := e], nextEquipo := t.nextEquipo + 1,
       especificaciones := t.especificaciones + RowsFrom(t.nextEspecificacion, rows),
       nextEspecificacion := t.nextEspecificacion + |rows|)
  }

  /** What `create_equipo` answers and stores, given the tables before it. */
  function CreateEquipoResult(cat: Catalogs, permisos: map<int, Permiso>, t: Tables, caller: int,
                              data: map<string, Json>, now: DateTime): Outcome
  {
    var g := Gate(t.accesos, permisos, caller, Modulo, PuedeCrear);
    var serial := Get(data, "numero_serie");
    if g.Deny? then Outcome(DenyResponse(g), t)
    else if FirstMissing(data, RequiredCreate).Some? then
      Outcome(MissingField(FirstMissing(data, RequiredCreate).value), t)
    else if Truthy(serial) && !SqlText(serial) then Outcome(InternalError(), t)
    else if Truthy(serial) && SerialInUse(t.equipos, serial.s) then Outcome(Response(400, ErrorBody(SerialExists)), t)
    else
      var e := NewEquipo(data, caller, now);
      var items := CreateSpecs(data);
      if e.None? || !EquipoRefsOk(cat, t.usuarios, t.accesos, e.value) ||
         SerialTaken(t.equipos, t.nextEquipo, e.value.numeroSerie) || items.None?
      then Outcome(InternalError(), t)
      else
        var id := t.nextEquipo;
        var t' := WithNewEquipo(t, e.value, Enumerated(id, items.value, now));
        Outcome(Response(201, RecordBody("Equipo creado exitosamente", "equipo",
                                         EquipoToDict(id, e.value, cat, t'.usuarios, SpecsOf(t'.especificaciones, id), true))),
                t')
  }

  /** `POST /equipos`. */
  method CreateEquipo(db: Db, caller: int, data: map<string, Json>, now: DateTime) returns (r: Response)
    requires db.Valid()
    modifies db
    ensures db.Valid()
    ensures Outcome(r, db.Snapshot()) == CreateEquipoResult(db.catalogs, db.permisos, old(db.Snapshot()), caller, data, now)
  {
    var g := Gate(db.accesos, db.permisos, caller, Modulo, PuedeCrear);
    if g.Deny? {
      return DenyResponse(g);
    }
    var missing := FindMissing(data, RequiredCreate);
    if missing.Some? {
      return MissingField(missing.value);
    }
    var serial := Get(data, "numero_serie");
    if Truthy(serial) {
      if !SqlText(serial) {
        return InternalError();
      }
      if SerialInUse(db.equipos, serial.s) {
        return Response(400, ErrorBody(SerialExists));
      }
    }
    var e := NewEquipo(data, caller, now);
    if e.None? || !EquipoRefsOk(db.catalogs, db.usuarios, db.accesos, e.value) ||
       SerialTaken(db.equipos, db.nextEquipo, e.value.numeroSerie) {
      return InternalError();
    }
    var id := InsertWithSpecs(db, e.value, data, now);
    if id.None? {
      return InternalError();
    }
    r := Response(201, RecordBody("Equipo creado exitosamente", "equipo",
                                  EquipoToDict(id.value, e.value, db.catalogs, db.usuarios,
                                               SpecsOf(db.especificaciones, id.value), true)));
  }

  /** The `try` block of `create_equipo`: the row is flushed to get its id,
      the body's specifications are added, and the whole is committed, or
      rolled back when an item is malformed. */
  method InsertWithSpecs(db: Db, e: EquipoComputo, data: map<string, Json>, now: DateTime) returns (id: Option<int>)
    requires db.Valid()
    requires EquipoRefsOk(db.catalogs, db.usuarios, db.accesos, e)
    requires !SerialTaken(db.equipos, db.nextEquipo, e.numeroSerie)
    modifies db
    ensures db.Valid()
    ensures CreateSpecs(data).None? ==> id.None? && db.Snapshot() == old(db.Snapshot())
    ensures CreateSpecs(data).Some? ==>
              id == Some(old(db.nextEquipo)) &&
              db.Snapshot() == WithNewEquipo(old(db.Snapshot()), e, Enumerated(id.value, CreateSpecs(data).value, now))
  {
    var saved := db.Snapshot();
    var newId := db.InsertEquipo(e);
    if "especificaciones" in data && Truthy(data["especificaciones"]) {
      var ok := AddSpecsOrRollback(db, saved, newId, data["especificaciones"], now);
      if !ok {
        return None;
      }
    } else {
      assert saved.especificaciones + RowsFrom(saved.nextEspecificacion, []) == saved.especificaciones;
    }
    return Some(newId);
  }

  /** `create_equipo` answers with one of its five statuses; every refusal
      and every failure leaves the tables as they were, and every failure
      inside the `try` is a 500. */
  lemma CreateEquipoStatuses(cat: Catalogs, permisos: map<int, Permiso>, t: Tables, caller: int,
                             data: map<string, Json>, now: DateTime)
    ensures var o := CreateEquipoResult(cat, permisos, t, caller, data, now);
            o.response.status in {201, 400, 403, 404, 500} &&
            (o.response.status != 201 ==> o.tables == t) &&
            (o.response.status == 500 ==> o.response == InternalError())
  {
  }

  /** The refusals before the `try`: the decorator's, then a missing field
      (the first one in the route's order), then a serial number in use. */
  lemma CreateEquipoRefusals(cat: Catalogs, permisos: map<int, Permiso>, t: Tables, caller: int,
                             data: map<string, Json>, now: DateTime)
    ensures var o := CreateEquipoResult(cat, permisos, t, caller, data, now);
            var g := Gate(t.accesos, permisos, caller, Modulo, PuedeCrear);
            (g.Deny? ==> o.response == DenyResponse(g)) &&
            (g.Allow? && FirstMissing(data, RequiredCreate).Some? ==>
               o.response == MissingField(FirstMissing(data, RequiredCreate).value)) &&
            (g.Allow? && FirstMissing(data, RequiredCreate).None? && SqlText(Get(data, "numero_serie")) &&
             Get(data, "numero_serie").s != "" && SerialInUse(t.equipos, Get(data, "numero_serie").s) ==>
               o.response == Response(400, ErrorBody(SerialExists)))
  {
  }

  /** An asset is created exactly when the caller may create, the required
      fields are there, the serial number is new, the database accepts
      every column, and every listed specification is well formed. */
  lemma CreateEquipoSucceedsIff(cat: Catalogs, permisos: map<int, Permiso>, t: Tables, caller: int,
                                data: map<string, Json>, now: DateTime)
    ensures CreateEquipoResult(cat, permisos, t, caller, data, now).response.status == 201 <==>
              Gate(t.accesos, permisos, caller, Modulo, PuedeCrear).Allow? &&
              (forall i :: 0 <= i < |RequiredCreate| ==> RequiredCreate[i] in data) &&
              !(Truthy(Get(data, "numero_serie")) &&
                (!SqlText(Get(data, "numero_serie")) || SerialInUse(t.equipos, Get(data, "numero_serie").s))) &&
              NewEquipo(data, caller, now).Some? &&
              EquipoRefsOk(cat, t.usuarios, t.accesos, NewEquipo(data, caller, now).value) &&
              !SerialTaken(t.equipos, t.nextEquipo, NewEquipo(data, caller, now).value.numeroSerie) &&
              CreateSpecs(data).Some?
  {
  }

  /** A created asset gets the next id and holds the body's values, and the
      body's specifications are stored after every row already there. */
  lemma CreateEquipoStores(cat: Catalogs, permisos: map<int, Permiso>, t: Tables, caller: int,
                           data: map<string, Json>, now: DateTime)
    requires CreateEquipoResult(cat, permisos, t, caller, data, now).response.status == 201
    ensures var o, id := CreateEquipoResult(cat, permisos, t, caller, data, now), t.nextEquipo;
            NewEquipo(data, caller, now).Some? && CreateSpecs(data).Some? &&
            o.tables == WithNewEquipo(t, NewEquipo(data, caller, now).value, Enumerated(id, CreateSpecs(data).value, now)) &&
            o.tables.equipos == t.equipos[id := NewEquipo(data, caller, now).value]
  {
  }

  /** The created asset's list is the body's specifications in order,
      numbered from 1, under fresh specification ids. */
  lemma CreateEquipoListsSpecs(cat: Catalogs, permisos: map<int, Permiso>, t: Tables, caller: int,
                               data: map<string, Json>, now: DateTime)
    requires Consistent(cat, t)
    requires CreateEquipoResult(cat, permisos, t, caller, data, now).response.status == 201
    ensures t.nextEquipo !in t.equipos && CreateSpecs(data).Some?
    ensures SpecsOf(CreateEquipoResult(cat, permisos, t, caller, data, now).tables.especificaciones, t.nextEquipo) ==
              Listed(t.nextEspecificacion, Enumerated(t.nextEquipo, CreateSpecs(data).value, now))
  {
    CreateEquipoStores(cat, permisos, t, caller, data, now);
    var id, e := t.nextEquipo, NewEquipo(data, caller, now).value;
    var rows := Enumerated(id, CreateSpecs(data).value, now);
    SpecTableNewEquipo(t.especificaciones, t.nextEspecificacion, t.equipos, id, e);
    SpecsOfInsert(t.especificaciones, t.nextEspecificacion, id, rows);
    assert [] + Listed(t.nextEspecificacion, rows) == Listed(t.nextEspecificacion, rows);
  }

  /** The 201 answer shows the stored asset with the list just stored. */
  lemma CreateEquipoAnswerShowsRow(cat: Catalogs, permisos: map<int, Permiso>, t: Tables, caller: int,
                                   data: map<string, Json>, now: DateTime)
    requires CreateEquipoResult(cat, permisos, t, caller, data, now).response.status == 201
    ensures var o, id := CreateEquipoResult(cat, permisos, t, caller, data, now), t.nextEquipo;
            o.response.body == RecordBody("Equipo creado exitosamente", "equipo",
                                          EquipoToDict(id, o.tables.equipos[id], cat, t.usuarios,
                                                       SpecsOf(o.tables.especificaciones, id), true))
  {
  }

  /** Creating an asset touches no other asset's list and no other table. */
  lemma CreateEquipoLeavesOthers(cat: Catalogs, permisos: map<int, Permiso>, t: Tables, caller: int,
                                 data: map<string, Json>, now: DateTime)
    requires Consistent(cat, t)
    ensures var o := CreateEquipoResult(cat, permisos, t, caller, data, now);
            o.tables.accesos == t.accesos && o.tables.usuarios == t.usuarios && o.tables.mobiliario == t.mobiliario &&
            forall other :: other != t.nextEquipo ==>
              SpecsOf(o.tables.especificaciones, other) == SpecsOf(t.especificaciones, other)
  {
    var o := CreateEquipoResult(cat, permisos, t, caller, data, now);
    if o.response.status == 201 {
      var rows := Enumerated(t.nextEquipo, CreateSpecs(data).value, now);
      forall other | other != t.nextEquipo
        ensures SpecsOf(t.especificaciones + RowsFrom(t.nextEspecificacion, rows), other) == SpecsOf(t.especificaciones, other)
      {
        SpecsOfInsertOther(t.especificaciones, t.nextEspecificacion, t.nextEquipo, rows, other);
      }
    }
  }

  /** `create_equipo` keeps the tables consistent. */
  lemma CreateEquipoKeepsConsistent(cat: Catalogs, permisos: map<int, Permiso>, t: Tables, caller: int,
                                    data: map<string, Json>, now: DateTime)
    requires Consistent(cat, t)
    ensures Consistent(cat, CreateEquipoResult(cat, permisos, t, caller, data, now).tables)
  {
    var o := CreateEquipoResult(cat, permisos, t, caller, data, now);
    if o.response.status == 201 {
      CreateEquipoStores(cat, permisos, t, caller, data, now);
      var id, e := t.nextEquipo, NewEquipo(data, caller, now).value;
      var rows := Enumerated(id, CreateSpecs(data).value, now);
      InsertEquipoKeeps(cat, t, e);
      var t1 := t.(equipos := t.equipos[id := e], nextEquipo := id + 1);
      InsertSpecsKeeps(cat, t1, id, rows);
    }
  }

  // ---------------------------------------------------------------------------
  // PUT /equipos/<id>
  // ---------------------------------------------------------------------------

  /** `data['numero_serie'] != equipo.numero_serie`: a body value differs from
      the stored serial unless it is the same text. */
  predicate SerialChanged(v: Json, current: Option<string>) {
    !(v.JStr? && current == Some(v.s))
  }

  /** The serial check `update_equipo` makes before its `try`: `None` when it
      lets the update go on, else its answer. */
  function UpdateSerialCheck(equipos: map<int, EquipoComputo>, id: int, data: map<string, Json>): (r: Option<Response>)
    requires id in equipos
    ensures r.Some? ==> r.value == InternalError() || r.value == Response(400, ErrorBody(SerialExists))
    ensures r.Some? <==> Truthy(Get(data, "numero_serie")) && SerialChanged(Get(data, "numero_serie"), equipos[id].numeroSerie) &&
                         (!SqlText(Get(data, "numero_serie")) || SerialInUse(equipos, Get(data, "numero_serie").s))
  {
    var serial := Get(data, "numero_serie");
    if Truthy(serial) && SerialChanged(serial, equipos[id].numeroSerie) then
      if !SqlText(serial) then Some(InternalError())
      else if SerialInUse(equipos, serial.s) then Some(Response(400, ErrorBody(SerialExists)))
      else None
    else None
  }

  /** The tables after asset `id` is replaced by `e` and, when the body lists
      specifications, its old ones are replaced by `rows`. */
  function WithUpdatedEquipo(t: Tables, id: int, e: EquipoComputo, rows: Option<seq<Especificacion>>): Tables {
    var t1 := t.(equipos := t.equipos[id := e]);
    if rows.None? then t1
    else t1.(especificaciones := (t.especificaciones - SpecIdsOf(t.especificaciones, id)) +
                                 RowsFrom(t.nextEspecificacion, rows.value),
             nextEspecificacion := t.nextEspecificacion + |rows.value|)
  }

  /** The specifications `update_equipo` writes: `None` when the body has no
      `especificaciones` key, and the parsed list when it has. */
  function UpdateSpecs(data: map<string, Json>): Option<Option<seq<SpecInput>>> {
    if "especificaciones" in data then Some(SpecList(data["especificaciones"])) else None
  }

  /** What `update_equipo` answers and stores, given the tables before it. */
  function UpdateEquipoResult(cat: Catalogs, permisos: map<int, Permiso>, t: Tables, caller: int, id: int,
                              data: map<string, Json>, now: DateTime): Outcome
  {
    var g := Gate(t.accesos, permisos, caller, Modulo, PuedeActualizar);
    if g.Deny? then Outcome(DenyResponse(g), t)
    else if id !in t.equipos then Outcome(Response(404, ErrorBody(NotFound)), t)
    else if UpdateSerialCheck(t.equipos, id, data).Some? then Outcome(UpdateSerialCheck(t.equipos, id, data).value, t)
    else
      var e := UpdatedEquipo(t.equipos[id], data, caller);
      var specs := UpdateSpecs(data);
      if e.None? || !EquipoRefsOk(cat, t.usuarios, t.accesos, e.value) ||
         SerialTaken(t.equipos, id, e.value.numeroSerie) || (specs.Some? && specs.value.None?)
      then Outcome(InternalError(), t)
      else
        var rows := if specs.Some? then Some(Enumerated(id, specs.value.value, now)) else None;
        var t' := WithUpdatedEquipo(t, id, e.value, rows);
        Outcome(Response(200, RecordBody("Equipo actualizado exitosamente", "equipo",
                                         EquipoToDict(id, e.value, cat, t'.usuarios, SpecsOf(t'.especificaciones, id), true))),
                t')
  }

  /** `PUT /equipos/<id>`. */
  method UpdateEquipo(db: Db, caller: int, id: int, data: map<string, Json>, now: DateTime) returns (r: Response)
    requires db.Valid()
    modifies db
    ensures db.Valid()
    ensures Outcome(r, db.Snapshot()) == UpdateEquipoResult(db.catalogs, db.permisos, old(db.Snapshot()), caller, id, data, now)
  {
    var g := Gate(db.accesos, db.permisos, caller, Modulo, PuedeActualizar);
    if g.Deny? {
      return DenyResponse(g);
    }
    if id !in db.equipos {
      return Response(404, ErrorBody(NotFound));
    }
    var refused := UpdateSerialCheck(db.equipos, id, data);
    if refused.Some? {
      return refused.value;
    }
    var e := UpdatedEquipo(db.equipos[id], data, caller);
    if e.None? || !EquipoRefsOk(db.catalogs, db.usuarios, db.accesos, e.value) ||
       SerialTaken(db.equipos, id, e.value.numeroSerie) {
      return InternalError();
    }
    var ok := ReplaceWithSpecs(db, id, e.value, data, now);
    if !ok {
      return InternalError();
    }
    r := Response(200, RecordBody("Equipo actualizado exitosamente", "equipo",
                                  EquipoToDict(id, e.value, db.catalogs, db.usuarios, SpecsOf(db.especificaciones, id), true)));
  }

  /** The `try` block of `update_equipo`: the columns are written, the old
      specifications deleted and the new ones added when the body lists
      them, and the whole is committed, or rolled back when an item is
      malformed. */
  method ReplaceWithSpecs(db: Db, id: int, e: EquipoComputo, data: map<string, Json>, now: DateTime) returns (ok: bool)
    requires db.Valid()
    requires id in db.equipos
    requires EquipoRefsOk(db.catalogs, db.usuarios, db.accesos, e)
    requires !SerialTaken(db.equipos, id, e.numeroSerie)
    modifies db
    ensures db.Valid()
    ensures ok <==> !(UpdateSpecs(data).Some? && UpdateSpecs(data).value.None?)
    ensures !ok ==> db.Snapshot() == old(db.Snapshot())
    ensures ok ==> db.Snapshot() == WithUpdatedEquipo(old(db.Snapshot()), id, e,
                                      if UpdateSpecs(data).Some? then Some(Enumerated(id, UpdateSpecs(data).value.value, now))
                                      else None)
  {
    var saved := db.Snapshot();
    db.ReplaceEquipo(id, e);
    if "especificaciones" in data {
      db.DeleteSpecsOf(id);
      ok := AddSpecsOrRollback(db, saved, id, data["especificaciones"], now);
      if !ok {
        return false;
      }
    }
    return true;
  }

  /** The specification loop of both writes, then the commit: the staged rows
      are stored after the asset's (empty) list, or, when the value cannot be
      iterated or an item is malformed, the session is rolled back to `saved`. */
  method AddSpecsOrRollback(db: Db, saved: Tables, id: int, v: Json, now: DateTime) returns (ok: bool)
    requires db.Valid() && Consistent(db.catalogs, saved)
    requires id in db.equipos && SpecsOf(db.especificaciones, id) == []
    modifies db
    ensures db.Valid()
    ensures ok <==> SpecList(v).Some?
    ensures !ok ==> db.Snapshot() == saved
    ensures ok ==> var rows := Enumerated(id, SpecList(v).value, now);
                   db.Snapshot() == old(db.Snapshot()).(
                     especificaciones := old(db.especificaciones) + RowsFrom(old(db.nextEspecificacion), rows),
                     nextEspecificacion := old(db.nextEspecificacion) + |rows|)
  {
    var rows := StageSpecs(id, v, now);
    if rows.None? {
      db.Restore(saved);
      return false;
    }
    db.InsertSpecs(id, rows.value);
    return true;
  }

  /** `update_equipo` answers with one of its five statuses; every refusal
      and every failure leaves the tables as they were. */
  lemma UpdateEquipoStatuses(cat: Catalogs, permisos: map<int, Permiso>, t: Tables, caller: int, id: int,
                             data: map<string, Json>, now: DateTime)
    ensures var o := UpdateEquipoResult(cat, permisos, t, caller, id, data, now);
            o.response.status in {200, 400, 403, 404, 500} &&
            (o.response.status != 200 ==> o.tables == t) &&
            (o.response.status == 500 ==> o.response == InternalError())
  {
  }

  /** The decorator answers first, then a missing asset is a 404. */
  lemma UpdateEquipoRefusals(cat: Catalogs, permisos: map<int, Permiso>, t: Tables, caller: int, id: int,
                             data: map<string, Json>, now: DateTime)
    ensures var o := UpdateEquipoResult(cat, permisos, t, caller, id, data, now);
            var g := Gate(t.accesos, permisos, caller, Modulo, PuedeActualizar);
            (g.Deny? ==> o.response == DenyResponse(g)) &&
            (g.Allow? && id !in t.equipos ==> o.response == Response(404, ErrorBody(NotFound)))
  {
  }

  /** An asset is updated exactly when the caller may update, the asset
      exists, a changed serial number is free, the database accepts every
      value given, and a given specification list is well formed. */
  lemma UpdateEquipoSucceedsIff(cat: Catalogs, permisos: map<int, Permiso>, t: Tables, caller: int, id: int,
                                data: map<string, Json>, now: DateTime)
    ensures UpdateEquipoResult(cat, permisos, t, caller, id, data, now).response.status == 200 <==>
              Gate(t.accesos, permisos, caller, Modulo, PuedeActualizar).Allow? && id in t.equipos &&
              !(Truthy(Get(data, "numero_serie")) && SerialChanged(Get(data, "numero_serie"), t.equipos[id].numeroSerie) &&
                (!SqlText(Get(data, "numero_serie")) || SerialInUse(t.equipos, Get(data, "numero_serie").s))) &&
              UpdatedEquipo(t.equipos[id], data, caller).Some? &&
              EquipoRefsOk(cat, t.usuarios, t.accesos, UpdatedEquipo(t.equipos[id], data, caller).value) &&
              !SerialTaken(t.equipos, id, UpdatedEquipo(t.equipos[id], data, caller).value.numeroSerie) &&
              ("especificaciones" in data ==> SpecList(data["especificaciones"]).Some?)
  {
  }

  /** The specification rows a successful update writes, when the body lists
      them. */
  function UpdateRows(data: map<string, Json>, id: int, now: DateTime): Option<seq<Especificacion>>
    requires UpdateSpecs(data).Some? ==> UpdateSpecs(data).value.Some?
  {
    if UpdateSpecs(data).Some? then Some(Enumerated(id, UpdateSpecs(data).value.value, now)) else None
  }

  /** A successful update stores the asset's new columns and, when the body
      lists specifications, replaces its rows; a body that does not list them
      changes nothing but the asset's columns. */
  lemma UpdateEquipoStores(cat: Catalogs, permisos: map<int, Permiso>, t: Tables, caller: int, id: int,
                           data: map<string, Json>, now: DateTime)
    requires UpdateEquipoResult(cat, permisos, t, caller, id, data, now).response.status == 200
    ensures var o := UpdateEquipoResult(cat, permisos, t, caller, id, data, now);
            id in t.equipos && UpdatedEquipo(t.equipos[id], data, caller).Some? &&
            (UpdateSpecs(data).Some? ==> UpdateSpecs(data).value.Some?) &&
            o.tables == WithUpdatedEquipo(t, id, UpdatedEquipo(t.equipos[id], data, caller).value, UpdateRows(data, id, now)) &&
            o.tables.equipos == t.equipos[id := UpdatedEquipo(t.equipos[id], data, caller).value] &&
            ("especificaciones" !in data ==> o.tables == t.(equipos := o.tables.equipos))
  {
  }

  /** A body that lists specifications replaces the asset's list by exactly
      those, in order, numbered from 1; a body without the key keeps the
      list as it was. */
  lemma UpdateEquipoReplacesSpecs(cat: Catalogs, permisos: map<int, Permiso>, t: Tables, caller: int, id: int,
                                  data: map<string, Json>, now: DateTime)
    requires Consistent(cat, t)
    requires UpdateEquipoResult(cat, permisos, t, caller, id, data, now).response.status == 200
    ensures "especificaciones" in data ==> SpecList(data["especificaciones"]).Some?
    ensures "especificaciones" in data ==>
              SpecsOf(UpdateEquipoResult(cat, permisos, t, caller, id, data, now).tables.especificaciones, id) ==
              Listed(t.nextEspecificacion, Enumerated(id, SpecList(data["especificaciones"]).value, now))
    ensures "especificaciones" !in data ==>
              SpecsOf(UpdateEquipoResult(cat, permisos, t, caller, id, data, now).tables.especificaciones, id) ==
              SpecsOf(t.especificaciones, id)
  {
    UpdateEquipoStores(cat, permisos, t, caller, id, data, now);
    if "especificaciones" !in data {
      return;
    }
    var rows := Enumerated(id, SpecList(data["especificaciones"]).value, now);
    var cleared := t.especificaciones - SpecIdsOf(t.especificaciones, id);
    SpecsOfRemove(t.especificaciones, id, id);
    SpecsOfInsert(cleared, t.nextEspecificacion, id, rows);
    assert [] + Listed(t.nextEspecificacion, rows) == Listed(t.nextEspecificacion, rows);
  }

  /** Updating an asset leaves every other asset's list as it was. */
  lemma UpdateEquipoLeavesOthers(cat: Catalogs, permisos: map<int, Permiso>, t: Tables, caller: int, id: int,
                                 data: map<string, Json>, now: DateTime)
    requires Consistent(cat, t)
    ensures var o := UpdateEquipoResult(cat, permisos, t, caller, id, data, now);
            o.tables.accesos == t.accesos && o.tables.usuarios == t.usuarios && o.tables.mobiliario == t.mobiliario &&
            forall other :: other != id ==>
              SpecsOf(o.tables.especificaciones, other) == SpecsOf(t.especificaciones, other)
  {
    var o := UpdateEquipoResult(cat, permisos, t, caller, id, data, now);
    if o.response.status == 200 && "especificaciones" in data {
      var rows := Enumerated(id, SpecList(data["especificaciones"]).value, now);
      var cleared := t.especificaciones - SpecIdsOf(t.especificaciones, id);
      forall other | other != id
        ensures SpecsOf(cleared + RowsFrom(t.nextEspecificacion, rows), other) == SpecsOf(t.especificaciones, other)
      {
        SpecsOfInsertOther(cleared, t.nextEspecificacion, id, rows, other);
        SpecsOfRemove(t.especificaciones, id, other);
      }
    }
  }

  /** `update_equipo` keeps the tables consistent. */
  lemma UpdateEquipoKeepsConsistent(cat: Catalogs, permisos: map<int, Permiso>, t: Tables, caller: int, id: int,
                                    data: map<string, Json>, now: DateTime)
    requires Consistent(cat, t)
    ensures Consistent(cat, UpdateEquipoResult(cat, permisos, t, caller, id, data, now).tables)
  {
    var o := UpdateEquipoResult(cat, permisos, t, caller, id, data, now);
    if o.response.status == 200 {
      UpdateEquipoStores(cat, permisos, t, caller, id, data, now);
      var e := UpdatedEquipo(t.equipos[id], data, caller).value;
      ReplaceEquipoKeeps(cat, t, id, e);
      var t1 := t.(equipos := t.equipos[id := e]);
      if "especificaciones" in data {
        var rows := Enumerated(id, SpecList(data["especificaciones"]).value, now);
        DeleteSpecsKeeps(cat, t1, id);
        var t2 := t1.(especificaciones := t1.especificaciones - SpecIdsOf(t1.especificaciones, id));
        InsertSpecsKeeps(cat, t2, id, rows);
      }
    }
  }

  // ---------------------------------------------------------------------------
  // DELETE /equipos/<id>
  // ---------------------------------------------------------------------------

  /** What `delete_equipo` answers and leaves, given the tables before it:
      the asset goes, and its specifications with it. */
  function DeleteEquipoResult(permisos: map<int, Permiso>, t: Tables, caller: int, id: int): Outcome {
    var g := Gate(t.accesos, permisos, caller, Modulo, PuedeEliminar);
    if g.Deny? then Outcome(DenyResponse(g), t)
    else if id !in t.equipos then Outcome(Response(404, ErrorBody(NotFound)), t)
    else Outcome(Response(200, MessageBody("Equipo eliminado exitosamente")),
                 t.(equipos := t.equipos - {id},
                    especificaciones := t.especificaciones - SpecIdsOf(t.especificaciones, id)))
  }

  /** `DELETE /equipos/<id>`. */
  method DeleteEquipo(db: Db, caller: int, id: int) returns (r: Response)
    requires db.Valid()
    modifies db
    ensures db.Valid()
    ensures Outcome(r, db.Snapshot()) == DeleteEquipoResult(db.permisos, old(db.Snapshot()), caller, id)
  {
    var g := Gate(db.accesos, db.permisos, caller, Modulo, PuedeEliminar);
    if g.Deny? {
      return DenyResponse(g);
    }
    if id !in db.equipos {
      return Response(404, ErrorBody(NotFound));
    }
    db.DeleteEquipo(id);
    r := Response(200, MessageBody("Equipo eliminado exitosamente"));
  }

  /** A deletion is answered with 200 exactly when the caller may delete
      and the asset exists; the asset is then gone, no specification refers
      to it any more, and every other asset and its list is as it was. A
      denial or a 404 leaves the tables as they were. */
  lemma DeleteEquipoRemoves(permisos: map<int, Permiso>, t: Tables, caller: int, id: int)
    ensures var o := DeleteEquipoResult(permisos, t, caller, id);
            (o.response.status == 200 <==>
               Gate(t.accesos, permisos, caller, Modulo, PuedeEliminar).Allow? && id in t.equipos) &&
            (o.response.status != 200 ==> o.tables == t)
    ensures var o := DeleteEquipoResult(permisos, t, caller, id);
            o.response.status == 200 ==>
              id !in o.tables.equipos &&
              (forall k :: k in o.tables.especificaciones ==> o.tables.especificaciones[k].equipoId != id) &&
              (forall k :: k in t.equipos && k != id ==> k in o.tables.equipos && o.tables.equipos[k] == t.equipos[k]) &&
              (forall other :: other != id ==>
                 SpecsOf(o.tables.especificaciones, other) == SpecsOf(t.especificaciones, other))
  {
    forall other | other != id
      ensures SpecsOf(t.especificaciones - SpecIdsOf(t.especificaciones, id), other) == SpecsOf(t.especificaciones, other)
    {
      SpecsOfRemove(t.especificaciones, id, other);
    }
  }
}

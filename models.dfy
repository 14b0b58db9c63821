/** The rows of the inventory schema, their column defaults and their `to_dict`
    serialisers. A row's primary key is the key of its table (see module
    Store), so the records below carry every column except the id. */
module Models {
  import opened Values

  // ---------------------------------------------------------------------------
  // Catalogs (read-only reference tables)
  // ---------------------------------------------------------------------------

  datatype CatArea = CatArea(nombreArea: string, descripcion: Option<string>)
  datatype CatTipoActivo = CatTipoActivo(nombreTipo: string, descripcion: Option<string>)
  datatype CatEstado = CatEstado(nombreEstado: string, descripcion: Option<string>, colorHex: Option<string>)
  datatype CatTipoMobiliario = CatTipoMobiliario(nombreTipo: string, descripcion: Option<string>)
  datatype CatRol = CatRol(nombreRol: string, descripcion: Option<string>, nivelAcceso: Option<int>)

  /** The five catalog tables, keyed by id. */
  datatype Catalogs = Catalogs(
    areas: map<int, CatArea>,
    tiposActivo: map<int, CatTipoActivo>,
    estados: map<int, CatEstado>,
    tiposMobiliario: map<int, CatTipoMobiliario>,
    roles: map<int, CatRol>)

  // ---------------------------------------------------------------------------
  // Declared widths of the `String(n)` columns the routes write
  // ---------------------------------------------------------------------------

  /** `usuario.numero_nomina`. */
  const NominaWidth: nat := 10
  /** `usuario.nombre_usuario` and `acceso.nombre_usuario`. */
  const NombreUsuarioWidth: nat := 100
  /** `usuario.puesto`. */
  const PuestoWidth: nat := 80
  /** `acceso.correo_electronico`. */
  const CorreoWidth: nat := 100
  /** `acceso.contrasena_hash`. */
  const HashWidth: nat := 255
  /** `nombre_activo`, `marca`, `modelo`, `numero_serie` and `sucursal_nombre` of
      a computing asset; `marca`, `modelo` and `sucursal_nombre` of furniture. */
  const AssetTextWidth: nat := 50
  /** `mobiliario.color`. */
  const ColorWidth: nat := 20
  /** `nombre_especificacion` and `valor_especificacion`. */
  const SpecTextWidth: nat := 100

  // ---------------------------------------------------------------------------
  // People, accounts and permissions
  // ---------------------------------------------------------------------------

  /** A responsible person (table `usuario`): can hold assets, cannot log in. */
  datatype Usuario = Usuario(
    numeroNomina: Option<string>,
    nombreUsuario: string,
    puesto: Option<string>,
    areaId: Option<int>,
    fechaCreacion: Option<DateTime>)

  /** A login account (table `acceso`). */
  datatype Acceso = Acceso(
    nombreUsuario: string,
    areaId: Option<int>,
    correoElectronico: string,
    contrasenaHash: string,
    rolId: Option<int>,
    ultimoAcceso: Option<DateTime>,
    fechaRegistro: Option<Date>,
    fechaCreacion: Option<DateTime>)

  /** The two bcrypt calls the account routes make, passed in as values:
      `hashpw(password, salt)` and `checkpw(password, hash)`. */
  datatype Crypto = Crypto(hashpw: (string, string) -> string, checkpw: (string, string) -> bool)

  /** What bcrypt promises: a password is accepted against any hash made of it. */
  ghost predicate ChecksOwnHashes(c: Crypto) {
    forall password, salt :: c.checkpw(password, c.hashpw(password, salt))
  }

  /** The capability flags of one role on one module (table `permisos`).
      The flag columns are nullable: `None` is SQL NULL. */
  datatype Permiso = Permiso(
    rolId: Option<int>,
    modulo: string,
    puedeCrear: Option<bool>,
    puedeLeer: Option<bool>,
    puedeActualizar: Option<bool>,
    puedeEliminar: Option<bool>,
    puedeExportar: Option<bool>)

  /** A permission row built with only its role and module gets the column
      defaults: reading is allowed, everything else is not. */
  function NewPermiso(rolId: Option<int>, modulo: string): (p: Permiso)
    ensures p.rolId == rolId && p.modulo == modulo
    ensures p.puedeLeer == Some(true)
    ensures p.puedeCrear == p.puedeActualizar == p.puedeEliminar == p.puedeExportar == Some(false)
  {
    Permiso(rolId, modulo, Some(false), Some(true), Some(false), Some(false), Some(false))
  }

  // ---------------------------------------------------------------------------
  // Assets
  // ---------------------------------------------------------------------------

  /** Branch name both asset tables default to. */
  const DefaultSucursal: string := "Tulancingo"

  /** What `sucursal_nombre` becomes on insert: the request's text when it
      fits the column and holds no NUL, and the column default when the key
      is absent or null. */
  function SucursalColumn(data: map<string, Json>): (c: Column<string>)
    ensures c.Stored? ==> c.value.Some?
    ensures Get(data, "sucursal_nombre") == JNull ==> c == Stored(Some(DefaultSucursal))
    ensures Get(data, "sucursal_nombre").JStr? ==>
              c == if |Get(data, "sucursal_nombre").s| <= AssetTextWidth && StorableText(Get(data, "sucursal_nombre").s)
                   then Stored(Some(Get(data, "sucursal_nombre").s)) else Rejected
    ensures !Get(data, "sucursal_nombre").JNull? && !Get(data, "sucursal_nombre").JStr? ==> c.Rejected?
  {
    match Get(data, "sucursal_nombre")
    case JNull => Stored(Some(DefaultSucursal))
    case JStr(s) => if |s| <= AssetTextWidth && StorableText(s) then Stored(Some(s)) else Rejected
    case _ => Rejected
  }

  /** A computing asset (table `equipos_computo`). */
  datatype EquipoComputo = EquipoComputo(
    tipoActivoId: Option<int>,
    nombreActivo: string,
    marca: Option<string>,
    modelo: Option<string>,
    numeroSerie: Option<string>,
    estadoId: Option<int>,
    fechaRegistro: Option<Date>,
    observaciones: Option<string>,
    usuarioAsignadoId: Option<int>,
    sucursalNombre: Option<string>,
    creadoPor: Option<int>,
    fechaCreacion: Option<DateTime>,
    modificadoPor: Option<int>,
    fechaModificacion: Option<DateTime>)

  /** One specification line of a computing asset (table `especificaciones_equipo`). */
  datatype Especificacion = Especificacion(
    equipoId: int,
    nombreEspecificacion: string,
    valorEspecificacion: string,
    orden: int,
    fechaCreacion: Option<DateTime>)

  /** A piece of furniture (table `mobiliario`). */
  datatype Mobiliario = Mobiliario(
    tipoMobiliarioId: Option<int>,
    marca: Option<string>,
    modelo: Option<string>,
    color: Option<string>,
    caracteristicas: Option<string>,
    observaciones: Option<string>,
    estadoId: Option<int>,
    usuarioAsignadoId: Option<int>,
    fechaAsignacion: Option<Date>,
    sucursalNombre: Option<string>,
    creadoPor: Option<int>,
    fechaCreacion: Option<DateTime>,
    modificadoPor: Option<int>,
    fechaModificacion: Option<DateTime>)

  // ---------------------------------------------------------------------------
  // Registration date default
  // ---------------------------------------------------------------------------

  /** `fecha_registro` as declared: `default=datetime.utcnow().date` evaluates
      `utcnow()` once, when the model class is defined, and keeps the bound
      `date` method, so every insert gets the date the process started. */
  function FechaRegistroAsWritten(processStart: DateTime, now: DateTime): Date {
    processStart.day
  }

  /** A server started on one day and inserting a row on the next stamps the
      row with the earlier day. */
  lemma FechaRegistroAsWrittenIsStale()
    ensures var start := DateTime(Date("2025-03-01"), "08:00:00");
            var now := DateTime(Date("2025-03-02"), "09:30:00");
            FechaRegistroAsWritten(start, now) != now.day
  {
  }

  /** `fecha_registro` as intended: the date of the insert. */
  function FechaRegistroDefault(now: DateTime): Date {
    now.day
  }

  // ---------------------------------------------------------------------------
  // to_dict serialisers
  // ---------------------------------------------------------------------------

  const UsuarioKeys: set<string> :=
    {"id_usuario", "numero_nomina", "nombre_usuario", "puesto", "area_id", "area"}

  const AccesoKeys: set<string> :=
    {"id_acceso", "nombre_usuario", "correo_electronico", "area_id", "area", "rol_id", "rol",
     "nivel_acceso", "ultimo_acceso", "fecha_registro"}

  const PermisoKeys: set<string> :=
    {"id_permiso", "rol_id", "modulo", "puede_crear", "puede_leer", "puede_actualizar",
     "puede_eliminar", "puede_exportar"}

  const EquipoKeys: set<string> :=
    {"id_activo", "tipo_activo_id", "tipo_activo", "nombre_activo", "marca", "modelo",
     "numero_serie", "estado_id", "estado", "color_estado", "fecha_registro", "observaciones",
     "usuario_asignado_id", "responsable", "sucursal_nombre", "fecha_creacion",
     "fecha_modificacion"}

  const EspecificacionKeys: set<string> :=
    {"id_especificacion", "equipo_id", "nombre_especificacion", "valor_especificacion", "orden"}

  const MobiliarioKeys: set<string> :=
    {"id_mueble", "tipo_mobiliario_id", "tipo_mobiliario", "marca", "modelo", "color",
     "caracteristicas", "observaciones", "estado_id", "estado", "color_estado",
     "usuario_asignado_id", "responsable", "fecha_asignacion", "sucursal_nombre",
     "fecha_creacion", "fecha_modificacion"}

  // Names that the relationships `area`, `rol`, `tipo_activo`, `estado`,
  // `tipo_mobiliario` and `usuario_asignado` resolve to; JSON null when the
  // foreign key is NULL or names no row.

  function AreaName(cat: Catalogs, id: Option<int>): (n: Json)
    ensures n == JNull <==> id.None? || id.value !in cat.areas
  {
    if id.Some? && id.value in cat.areas then JStr(cat.areas[id.value].nombreArea) else JNull
  }

  function RolName(cat: Catalogs, id: Option<int>): (n: Json)
    ensures n == JNull <==> id.None? || id.value !in cat.roles
  {
    if id.Some? && id.value in cat.roles then JStr(cat.roles[id.value].nombreRol) else JNull
  }

  function RolLevel(cat: Catalogs, id: Option<int>): Json {
    if id.Some? && id.value in cat.roles then IntJson(cat.roles[id.value].nivelAcceso) else JNull
  }

  function TipoActivoName(cat: Catalogs, id: Option<int>): (n: Json)
    ensures n == JNull <==> id.None? || id.value !in cat.tiposActivo
  {
    if id.Some? && id.value in cat.tiposActivo then JStr(cat.tiposActivo[id.value].nombreTipo) else JNull
  }

  function TipoMobiliarioName(cat: Catalogs, id: Option<int>): (n: Json)
    ensures n == JNull <==> id.None? || id.value !in cat.tiposMobiliario
  {
    if id.Some? && id.value in cat.tiposMobiliario then JStr(cat.tiposMobiliario[id.value].nombreTipo) else JNull
  }

  function EstadoName(cat: Catalogs, id: Option<int>): (n: Json)
    ensures n == JNull <==> id.None? || id.value !in cat.estados
  {
    if id.Some? && id.value in cat.estados then JStr(cat.estados[id.value].nombreEstado) else JNull
  }

  function EstadoColor(cat: Catalogs, id: Option<int>): Json {
    if id.Some? && id.value in cat.estados then TextJson(cat.estados[id.value].colorHex) else JNull
  }

  function ResponsableName(usuarios: map<int, Usuario>, id: Option<int>): (n: Json)
    ensures n == JNull <==> id.None? || id.value !in usuarios
  {
    if id.Some? && id.value in usuarios then JStr(usuarios[id.value].nombreUsuario) else JNull
  }

  /** `Usuario.to_dict()`. */
  function UsuarioToDict(id: int, u: Usuario, cat: Catalogs): map<string, Json> {
    map[
      "id_usuario" := JInt(id),
      "numero_nomina" := TextJson(u.numeroNomina),
      "nombre_usuario" := JStr(u.nombreUsuario),
      "puesto" := TextJson(u.puesto),
      "area_id" := IntJson(u.areaId),
      "area" := AreaName(cat, u.areaId)]
  }

  /** A person's record has the six keys of `Usuario.to_dict()`; `area` is
      null exactly when the person has no area that exists. */
  lemma UsuarioToDictShape(id: int, u: Usuario, cat: Catalogs)
    ensures var d := UsuarioToDict(id, u, cat);
            d.Keys == UsuarioKeys &&
            d["id_usuario"] == JInt(id) && d["nombre_usuario"] == JStr(u.nombreUsuario) &&
            d["numero_nomina"] == TextJson(u.numeroNomina) &&
            (d["area"] == JNull <==> u.areaId.None? || u.areaId.value !in cat.areas)
  {
  }

  /** `Acceso.to_dict(include_password)`. */
  function AccesoToDict(id: int, a: Acceso, cat: Catalogs, includePassword: bool): map<string, Json> {
    var data := map[
      "id_acceso" := JInt(id),
      "nombre_usuario" := JStr(a.nombreUsuario),
      "correo_electronico" := JStr(a.correoElectronico),
      "area_id" := IntJson(a.areaId),
      "area" := AreaName(cat, a.areaId),
      "rol_id" := IntJson(a.rolId),
      "rol" := RolName(cat, a.rolId),
      "nivel_acceso" := RolLevel(cat, a.rolId),
      "ultimo_acceso" := DateTimeJson(a.ultimoAcceso),
      "fecha_registro" := DateJson(a.fechaRegistro)];
    if includePassword then data["contrasena_hash" := JStr(a.contrasenaHash)] else data
  }

  /** The password hash is in an account's record exactly when it is asked
      for; the other keys are always the same ten. */
  lemma AccesoToDictKeys(id: int, a: Acceso, cat: Catalogs, includePassword: bool)
    ensures AccesoToDict(id, a, cat, includePassword).Keys ==
            AccesoKeys + (if includePassword then {"contrasena_hash"} else {})
    ensures "contrasena_hash" in AccesoToDict(id, a, cat, includePassword) <==> includePassword
  {
    assert "contrasena_hash" !in AccesoKeys;
  }

  /** What an account's record holds: its id, email and hash as stored, and
      null for a role or area that does not exist. */
  lemma AccesoToDictFields(id: int, a: Acceso, cat: Catalogs, includePassword: bool)
    ensures var d := AccesoToDict(id, a, cat, includePassword);
            d["id_acceso"] == JInt(id) && d["correo_electronico"] == JStr(a.correoElectronico) &&
            d["nombre_usuario"] == JStr(a.nombreUsuario) && d["ultimo_acceso"] == DateTimeJson(a.ultimoAcceso) &&
            (includePassword ==> d["contrasena_hash"] == JStr(a.contrasenaHash)) &&
            (d["rol"] == JNull <==> a.rolId.None? || a.rolId.value !in cat.roles) &&
            (d["area"] == JNull <==> a.areaId.None? || a.areaId.value !in cat.areas)
  {
  }

  /** `Permiso.to_dict()`. */
  function PermisoToDict(id: int, p: Permiso): map<string, Json> {
    map[
      "id_permiso" := JInt(id),
      "rol_id" := IntJson(p.rolId),
      "modulo" := JStr(p.modulo),
      "puede_crear" := BoolJson(p.puedeCrear),
      "puede_leer" := BoolJson(p.puedeLeer),
      "puede_actualizar" := BoolJson(p.puedeActualizar),
      "puede_eliminar" := BoolJson(p.puedeEliminar),
      "puede_exportar" := BoolJson(p.puedeExportar)]
  }

  /** A permission row's record carries every flag under its column name. */
  lemma PermisoToDictShape(id: int, p: Permiso)
    ensures var d := PermisoToDict(id, p);
            d.Keys == PermisoKeys && d["modulo"] == JStr(p.modulo) &&
            d["puede_crear"] == BoolJson(p.puedeCrear) && d["puede_leer"] == BoolJson(p.puedeLeer) &&
            d["puede_actualizar"] == BoolJson(p.puedeActualizar) && d["puede_eliminar"] == BoolJson(p.puedeEliminar) &&
            d["puede_exportar"] == BoolJson(p.puedeExportar)
  {
  }

  /** `EspecificacionEquipo.to_dict()`. */
  function EspecificacionToDict(id: int, s: Especificacion): map<string, Json> {
    map[
      "id_especificacion" := JInt(id),
      "equipo_id" := JInt(s.equipoId),
      "nombre_especificacion" := JStr(s.nombreEspecificacion),
      "valor_especificacion" := JStr(s.valorEspecificacion),
      "orden" := JInt(s.orden)]
  }

  /** A specification's record carries its id, asset, name, value and place. */
  lemma EspecificacionToDictShape(id: int, s: Especificacion)
    ensures var d := EspecificacionToDict(id, s);
            d.Keys == EspecificacionKeys &&
            d["id_especificacion"] == JInt(id) && d["equipo_id"] == JInt(s.equipoId) &&
            d["nombre_especificacion"] == JStr(s.nombreEspecificacion) &&
            d["valor_especificacion"] == JStr(s.valorEspecificacion) && d["orden"] == JInt(s.orden)
  {
  }

  /** The `especificaciones` list: one serialised row per specification, in order. */
  function EspecificacionesJson(specs: seq<(int, Especificacion)>): (j: Json)
    ensures j.JArray? && |j.items| == |specs|
    ensures forall i :: 0 <= i < |specs| ==>
              j.items[i] == JObject(EspecificacionToDict(specs[i].0, specs[i].1))
  {
    JArray(seq(|specs|, i requires 0 <= i < |specs| => JObject(EspecificacionToDict(specs[i].0, specs[i].1))))
  }

  /** The columns of a computing asset, under their JSON names. */
  function EquipoColumns(id: int, e: EquipoComputo, cat: Catalogs, usuarios: map<int, Usuario>): map<string, Json> {
    map[
      "tipo_activo_id" := IntJson(e.tipoActivoId),
      "nombre_activo" := JStr(e.nombreActivo),
      "marca" := TextJson(e.marca),
      "modelo" := TextJson(e.modelo),
      "estado_id" := IntJson(e.estadoId),
      "color_estado" := EstadoColor(cat, e.estadoId),
      "fecha_registro" := DateJson(e.fechaRegistro),
      "observaciones" := TextJson(e.observaciones),
      "usuario_asignado_id" := IntJson(e.usuarioAsignadoId),
      "sucursal_nombre" := TextJson(e.sucursalNombre),
      "fecha_creacion" := DateTimeJson(e.fechaCreacion),
      "fecha_modificacion" := DateTimeJson(e.fechaModificacion),
      "id_activo" := JInt(id),
      "numero_serie" := TextJson(e.numeroSerie),
      "tipo_activo" := TipoActivoName(cat, e.tipoActivoId),
      "estado" := EstadoName(cat, e.estadoId),
      "responsable" := ResponsableName(usuarios, e.usuarioAsignadoId)]
  }

  /** `EquipoComputo.to_dict(include_specs)`: `specs` is the asset's
      `especificaciones` relationship. The audit columns `creado_por` and
      `modificado_por` are never serialised. */
  function EquipoToDict(id: int, e: EquipoComputo, cat: Catalogs, usuarios: map<int, Usuario>,
                        specs: seq<(int, Especificacion)>, includeSpecs: bool): map<string, Json>
  {
    var data := EquipoColumns(id, e, cat, usuarios);
    if includeSpecs then data["especificaciones" := EspecificacionesJson(specs)] else data
  }

  /** An asset's record has the seventeen column keys, and the
      specification list exactly when it is asked for. */
  lemma EquipoToDictKeys(id: int, e: EquipoComputo, cat: Catalogs, usuarios: map<int, Usuario>,
                         specs: seq<(int, Especificacion)>, includeSpecs: bool)
    ensures EquipoToDict(id, e, cat, usuarios, specs, includeSpecs).Keys ==
            EquipoKeys + (if includeSpecs then {"especificaciones"} else {})
  {
    assert EquipoColumns(id, e, cat, usuarios).Keys == EquipoKeys;
  }

  /** What an asset's record holds: its id and serial number as stored, the
      specification list when asked for, and null for a type, a state or a
      person that does not exist. */
  lemma EquipoToDictFields(id: int, e: EquipoComputo, cat: Catalogs, usuarios: map<int, Usuario>,
                           specs: seq<(int, Especificacion)>, includeSpecs: bool)
    ensures var d := EquipoToDict(id, e, cat, usuarios, specs, includeSpecs);
            d["id_activo"] == JInt(id) && d["nombre_activo"] == JStr(e.nombreActivo) &&
            d["numero_serie"] == TextJson(e.numeroSerie) &&
            (includeSpecs ==> d["especificaciones"] == EspecificacionesJson(specs)) &&
            (d["tipo_activo"] == JNull <==> e.tipoActivoId.None? || e.tipoActivoId.value !in cat.tiposActivo) &&
            (d["estado"] == JNull <==> e.estadoId.None? || e.estadoId.value !in cat.estados) &&
            (d["responsable"] == JNull <==> e.usuarioAsignadoId.None? || e.usuarioAsignadoId.value !in usuarios)
  {
  }

  /** `Mobiliario.to_dict()`. */
  function MobiliarioToDict(id: int, m: Mobiliario, cat: Catalogs, usuarios: map<int, Usuario>): map<string, Json> {
    map[
      "tipo_mobiliario_id" := IntJson(m.tipoMobiliarioId),
      "marca" := TextJson(m.marca),
      "modelo" := TextJson(m.modelo),
      "color" := TextJson(m.color),
      "caracteristicas" := TextJson(m.caracteristicas),
      "observaciones" := TextJson(m.observaciones),
      "estado_id" := IntJson(m.estadoId),
      "color_estado" := EstadoColor(cat, m.estadoId),
      "usuario_asignado_id" := IntJson(m.usuarioAsignadoId),
      "fecha_asignacion" := DateJson(m.fechaAsignacion),
      "sucursal_nombre" := TextJson(m.sucursalNombre),
      "fecha_creacion" := DateTimeJson(m.fechaCreacion),
      "fecha_modificacion" := DateTimeJson(m.fechaModificacion),
      "id_mueble" := JInt(id),
      "tipo_mobiliario" := TipoMobiliarioName(cat, m.tipoMobiliarioId),
      "estado" := EstadoName(cat, m.estadoId),
      "responsable" := ResponsableName(usuarios, m.usuarioAsignadoId)]
  }

  /** A furniture record has the seventeen column keys. */
  lemma MobiliarioToDictKeys(id: int, m: Mobiliario, cat: Catalogs, usuarios: map<int, Usuario>)
    ensures MobiliarioToDict(id, m, cat, usuarios).Keys == MobiliarioKeys
  {
  }

  /** What a furniture record holds: its id and columns as stored, and null
      for a type, a state or a person that does not exist. */
  lemma MobiliarioToDictFields(id: int, m: Mobiliario, cat: Catalogs, usuarios: map<int, Usuario>)
    ensures var d := MobiliarioToDict(id, m, cat, usuarios);
            d["id_mueble"] == JInt(id) && d["marca"] == TextJson(m.marca) && d["modelo"] == TextJson(m.modelo) &&
            d["fecha_asignacion"] == DateJson(m.fechaAsignacion) &&
            (d["tipo_mobiliario"] == JNull <==> m.tipoMobiliarioId.None? || m.tipoMobiliarioId.value !in cat.tiposMobiliario) &&
            (d["estado"] == JNull <==> m.estadoId.None? || m.estadoId.value !in cat.estados) &&
            (d["responsable"] == JNull <==> m.usuarioAsignadoId.None? || m.usuarioAsignadoId.value !in usuarios)
  {
  }
}

/** The database behind the routes: every table is a map from primary key to
    row, every id sequence a counter. `Consistent` collects what the schema's
    constraints and the routes together keep true of the tables. */
module Store {
  import opened Values
  import opened Ordering
  import opened Models

  /** What a write route answers and the tables it leaves behind. */
  datatype Outcome = Outcome(response: Response, tables: Tables)

  /** The writable tables and their id sequences, as one value. */
  datatype Tables = Tables(
    accesos: map<int, Acceso>,
    usuarios: map<int, Usuario>,
    equipos: map<int, EquipoComputo>,
    especificaciones: map<int, Especificacion>,
    mobiliario: map<int, Mobiliario>,
    nextAcceso: int,
    nextUsuario: int,
    nextEquipo: int,
    nextEspecificacion: int,
    nextMueble: int)

  // ---------------------------------------------------------------------------
  // Keys, unique columns and foreign keys
  // ---------------------------------------------------------------------------

  /** Every id of the table was handed out by its sequence. */
  predicate IdsBelow<T>(table: map<int, T>, next: int) {
    1 <= next && forall k :: k in table ==> 1 <= k < next
  }

  /** `numero_serie` is a unique column (NULLs may repeat). */
  predicate SerialsUnique(equipos: map<int, EquipoComputo>) {
    forall i, j :: (i in equipos && j in equipos && equipos[i].numeroSerie.Some? &&
       equipos[i].numeroSerie == equipos[j].numeroSerie) ==> i == j
  }

  /** `correo_electronico` is a unique column. */
  predicate EmailsUnique(accesos: map<int, Acceso>) {
    forall i, j :: (i in accesos && j in accesos &&
       accesos[i].correoElectronico == accesos[j].correoElectronico) ==> i == j
  }

  /** `numero_nomina` is a unique column (NULLs may repeat). */
  predicate NominasUnique(usuarios: map<int, Usuario>) {
    forall i, j :: (i in usuarios && j in usuarios && usuarios[i].numeroNomina.Some? &&
       usuarios[i].numeroNomina == usuarios[j].numeroNomina) ==> i == j
  }

  /** Storing `serial` in row `id` would repeat another row's serial. */
  predicate SerialTaken(equipos: map<int, EquipoComputo>, id: int, serial: Option<string>) {
    serial.Some? && exists k :: k in equipos && k != id && equipos[k].numeroSerie == serial
  }

  predicate EmailTaken(accesos: map<int, Acceso>, email: string) {
    exists k :: k in accesos && accesos[k].correoElectronico == email
  }

  predicate NominaTaken(usuarios: map<int, Usuario>, nomina: Option<string>) {
    nomina.Some? && exists k :: k in usuarios && usuarios[k].numeroNomina == nomina
  }

  /** A nullable foreign key is NULL or names an existing row. */
  predicate RefOk(ref: Option<int>, keys: set<int>) {
    ref.None? || ref.value in keys
  }

  predicate UsuarioRefsOk(cat: Catalogs, u: Usuario) {
    RefOk(u.areaId, cat.areas.Keys)
  }

  predicate AccesoRefsOk(cat: Catalogs, a: Acceso) {
    RefOk(a.areaId, cat.areas.Keys) && RefOk(a.rolId, cat.roles.Keys)
  }

  predicate EquipoRefsOk(cat: Catalogs, usuarios: map<int, Usuario>, accesos: map<int, Acceso>, e: EquipoComputo) {
    RefOk(e.tipoActivoId, cat.tiposActivo.Keys) && RefOk(e.estadoId, cat.estados.Keys) &&
    RefOk(e.usuarioAsignadoId, usuarios.Keys) &&
    RefOk(e.creadoPor, accesos.Keys) && RefOk(e.modificadoPor, accesos.Keys)
  }

  predicate MobiliarioRefsOk(cat: Catalogs, usuarios: map<int, Usuario>, accesos: map<int, Acceso>, m: Mobiliario) {
    RefOk(m.tipoMobiliarioId, cat.tiposMobiliario.Keys) && RefOk(m.estadoId, cat.estados.Keys) &&
    RefOk(m.usuarioAsignadoId, usuarios.Keys) &&
    RefOk(m.creadoPor, accesos.Keys) && RefOk(m.modificadoPor, accesos.Keys)
  }

  // ---------------------------------------------------------------------------
  // The specifications of an asset
  // ---------------------------------------------------------------------------

  /** Ids of the specification rows that belong to asset `equipoId`. */
  function SpecIdsOf(specs: map<int, Especificacion>, equipoId: int): set<int> {
    set k | k in specs && specs[k].equipoId == equipoId
  }

  /** The asset's specification ids, smallest first. */
  function SpecOrder(specs: map<int, Especificacion>, equipoId: int): (ids: seq<int>)
    ensures forall i :: 0 <= i < |ids| ==> ids[i] in specs && specs[ids[i]].equipoId == equipoId
  {
    Ascending(SpecIdsOf(specs, equipoId))
  }

  /** Each id paired with its row. */
  function Pairs(specs: map<int, Especificacion>, ids: seq<int>): (r: seq<(int, Especificacion)>)
    requires forall i :: 0 <= i < |ids| ==> ids[i] in specs
    ensures |r| == |ids|
    ensures forall i :: 0 <= i < |ids| ==> r[i] == (ids[i], specs[ids[i]])
  {
    seq(|ids|, i requires 0 <= i < |ids| => (ids[i], specs[ids[i]]))
  }

  /** The `especificaciones` relationship of an asset: its rows, by id. */
  function SpecsOf(specs: map<int, Especificacion>, equipoId: int): (r: seq<(int, Especificacion)>)
    ensures |r| == |SpecIdsOf(specs, equipoId)|
    ensures forall i :: 0 <= i < |r| ==>
              r[i].0 in specs && r[i].1 == specs[r[i].0] && r[i].1.equipoId == equipoId
    ensures forall i, j :: 0 <= i < j < |r| ==> r[i].0 < r[j].0
  {
    Pairs(specs, SpecOrder(specs, equipoId))
  }

  /** Every row of the asset is in its listing. */
  lemma SpecsOfComplete(specs: map<int, Especificacion>, equipoId: int, k: int)
    requires k in specs && specs[k].equipoId == equipoId
    ensures exists i :: 0 <= i < |SpecsOf(specs, equipoId)| && SpecsOf(specs, equipoId)[i].0 == k
  {
    var ids := SpecOrder(specs, equipoId);
    assert k in SpecIdsOf(specs, equipoId);
    assert k in ids;
    var i :| 0 <= i < |ids| && ids[i] == k;
    assert SpecsOf(specs, equipoId)[i].0 == k;
  }

  /** The rows of an asset carry `orden` 1, 2, ..., N in id order. */
  predicate Numbered(specs: map<int, Especificacion>, equipoId: int) {
    var r := SpecsOf(specs, equipoId);
    forall i :: 0 <= i < |r| ==> r[i].1.orden == i + 1
  }

  /** Every specification belongs to an asset that exists. */
  predicate SpecsOwned(specs: map<int, Especificacion>, equipos: map<int, EquipoComputo>) {
    forall k :: k in specs ==> specs[k].equipoId in equipos
  }

  /** A name/value pair of a request's `especificaciones` list. */
  datatype SpecInput = SpecInput(nombre: string, valor: string)

  /** The row built for the item numbered `orden`. */
  function SpecRow(equipoId: int, item: SpecInput, orden: int, now: DateTime): (s: Especificacion)
    ensures s.equipoId == equipoId && s.orden == orden
    ensures s.nombreEspecificacion == item.nombre && s.valorEspecificacion == item.valor
  {
    Especificacion(equipoId, item.nombre, item.valor, orden, Some(now))
  }

  /** Rows inserted with consecutive ids from `first`, in order. */
  function RowsFrom(first: int, rows: seq<Especificacion>): (m: map<int, Especificacion>)
    ensures forall k :: k in m <==> first <= k < first + |rows|
    ensures forall i :: 0 <= i < |rows| ==> m[first + i] == rows[i]
    decreases |rows|
  {
    if rows == [] then map[]
    else
      var n := |rows| - 1;
      RowsFrom(first, rows[..n])[first + n := rows[n]]
  }

  /** The same rows as their asset's listing reads them: id and row. */
  function Listed(first: int, rows: seq<Especificacion>): (r: seq<(int, Especificacion)>)
    ensures |r| == |rows|
    ensures forall i :: 0 <= i < |rows| ==> r[i] == (first + i, rows[i])
  {
    seq(|rows|, i requires 0 <= i < |rows| => (first + i, rows[i]))
  }

  /** Rows of asset `equipoId` numbered on from the `start` rows it already has. */
  predicate NumberedFrom(rows: seq<Especificacion>, equipoId: int, start: int) {
    forall i :: 0 <= i < |rows| ==> rows[i].equipoId == equipoId && rows[i].orden == start + i + 1
  }

  /** The rows `enumerate(items, start=1)` builds for an asset: item `i`
      becomes the row numbered `i + 1`. */
  function Enumerated(equipoId: int, items: seq<SpecInput>, now: DateTime): (rows: seq<Especificacion>)
    ensures |rows| == |items|
    ensures NumberedFrom(rows, equipoId, 0)
    ensures forall i :: 0 <= i < |items| ==>
              rows[i].nombreEspecificacion == items[i].nombre && rows[i].valorEspecificacion == items[i].valor &&
              rows[i].fechaCreacion == Some(now)
  {
    seq(|items|, i requires 0 <= i < |items| => SpecRow(equipoId, items[i], i + 1, now))
  }

  /** Two tables that agree on an asset's rows list the same specifications for it. */
  lemma SpecsOfFrame(a: map<int, Especificacion>, b: map<int, Especificacion>, e: int)
    requires SpecIdsOf(a, e) == SpecIdsOf(b, e)
    requires forall k :: k in SpecIdsOf(a, e) ==> a[k] == b[k]
    ensures SpecsOf(a, e) == SpecsOf(b, e)
  {
    var ra, rb := SpecsOf(a, e), SpecsOf(b, e);
    forall i | 0 <= i < |ra|
      ensures ra[i] == rb[i]
    {
      assert ra[i].0 in SpecIdsOf(a, e);
    }
  }

  /** Adding a row with a larger id than any other appends it to its asset's
      listing. */
  lemma SpecsOfAppend(specs: map<int, Especificacion>, k: int, row: Especificacion)
    requires forall j :: j in specs ==> j < k
    ensures SpecsOf(specs[k := row], row.equipoId) == SpecsOf(specs, row.equipoId) + [(k, row)]
  {
    var e := row.equipoId;
    var nw := specs[k := row];
    var ids := SpecOrder(specs, e);
    assert SpecIdsOf(nw, e) == SpecIdsOf(specs, e) + {k};
    AscendingAppend(SpecIdsOf(specs, e), k);
    PairsAppend(specs, ids, k, row);
  }

  /** Pairing after adding a row with a new id: the old pairs, then the new row. */
  lemma PairsAppend(specs: map<int, Especificacion>, ids: seq<int>, k: int, row: Especificacion)
    requires forall i :: 0 <= i < |ids| ==> ids[i] in specs
    requires k !in specs
    ensures Pairs(specs[k := row], ids + [k]) == Pairs(specs, ids) + [(k, row)]
  {
    var a, b := Pairs(specs[k := row], ids + [k]), Pairs(specs, ids) + [(k, row)];
    forall i | 0 <= i < |a|
      ensures a[i] == b[i]
    {
      if i < |ids| {
        assert (ids + [k])[i] == ids[i];
      }
    }
  }

  /** Adding a row for one asset leaves every other asset's listing as it was. */
  lemma SpecsOfAppendOther(specs: map<int, Especificacion>, k: int, row: Especificacion, e: int)
    requires k !in specs
    requires row.equipoId != e
    ensures SpecsOf(specs[k := row], e) == SpecsOf(specs, e)
  {
    var nw := specs[k := row];
    assert SpecIdsOf(nw, e) == SpecIdsOf(specs, e);
    SpecsOfFrame(nw, specs, e);
  }

  /** Deleting an asset's rows empties its listing and keeps every other. */
  lemma SpecsOfRemove(specs: map<int, Especificacion>, id: int, e: int)
    ensures SpecsOf(specs - SpecIdsOf(specs, id), e) == if e == id then [] else SpecsOf(specs, e)
  {
    var nw := specs - SpecIdsOf(specs, id);
    if e == id {
      assert SpecIdsOf(nw, e) == {};
    } else {
      assert SpecIdsOf(nw, e) == SpecIdsOf(specs, e);
      SpecsOfFrame(nw, specs, e);
    }
  }

  /** An asset with no rows pointing at it has an empty listing. */
  lemma SpecsOfNone(specs: map<int, Especificacion>, e: int)
    requires forall k :: k in specs ==> specs[k].equipoId != e
    ensures SpecsOf(specs, e) == []
  {
    assert forall k :: k !in SpecIdsOf(specs, e);
    assert SpecIdsOf(specs, e) == {};
  }

  // ---------------------------------------------------------------------------
  // The invariant
  // ---------------------------------------------------------------------------

  /** The specification table: its ids come from its sequence, every row
      belongs to an existing asset, and every asset's rows are numbered 1..N. */
  predicate SpecTableOk(specs: map<int, Especificacion>, next: int, equipos: map<int, EquipoComputo>) {
    IdsBelow(specs, next) && SpecsOwned(specs, equipos) &&
    forall e {:trigger Numbered(specs, e)} :: e in equipos ==> Numbered(specs, e)
  }

  predicate IdsFresh(t: Tables) {
    IdsBelow(t.accesos, t.nextAcceso) && IdsBelow(t.usuarios, t.nextUsuario) &&
    IdsBelow(t.equipos, t.nextEquipo) && IdsBelow(t.mobiliario, t.nextMueble)
  }

  predicate UniqueColumns(t: Tables) {
    EmailsUnique(t.accesos) && NominasUnique(t.usuarios) && SerialsUnique(t.equipos)
  }

  predicate ForeignKeys(cat: Catalogs, t: Tables) {
    (forall k :: k in t.usuarios ==> UsuarioRefsOk(cat, t.usuarios[k])) &&
    (forall k :: k in t.accesos ==> AccesoRefsOk(cat, t.accesos[k])) &&
    (forall k :: k in t.equipos ==> EquipoRefsOk(cat, t.usuarios, t.accesos, t.equipos[k])) &&
    (forall k :: k in t.mobiliario ==> MobiliarioRefsOk(cat, t.usuarios, t.accesos, t.mobiliario[k]))
  }

  /** What the schema's constraints and the routes keep true of the tables. */
  predicate Consistent(cat: Catalogs, t: Tables) {
    IdsFresh(t) && UniqueColumns(t) && ForeignKeys(cat, t) &&
    SpecTableOk(t.especificaciones, t.nextEspecificacion, t.equipos)
  }

  /** The empty database: every sequence starts at 1. */
  lemma EmptyConsistent(cat: Catalogs)
    ensures Consistent(cat, Tables(map[], map[], map[], map[], map[], 1, 1, 1, 1, 1))
  {
  }

  // ---------------------------------------------------------------------------
  // What each write keeps of the specification table
  // ---------------------------------------------------------------------------

  /** Appending the next-numbered row to an asset keeps its rows numbered. */
  lemma NumberedAppend(specs: map<int, Especificacion>, k: int, row: Especificacion)
    requires forall j :: j in specs ==> j < k
    requires Numbered(specs, row.equipoId)
    requires row.orden == |SpecsOf(specs, row.equipoId)| + 1
    ensures Numbered(specs[k := row], row.equipoId)
  {
    SpecsOfAppend(specs, k, row);
  }

  /** A new asset has no specifications, and adding it keeps the table sound. */
  lemma SpecTableNewEquipo(specs: map<int, Especificacion>, next: int, equipos: map<int, EquipoComputo>,
                           id: int, e: EquipoComputo)
    requires SpecTableOk(specs, next, equipos)
    requires id !in equipos
    ensures SpecsOf(specs, id) == []
    ensures SpecTableOk(specs, next, equipos[id := e])
  {
    SpecsOfNone(specs, id);
    forall k | k in equipos[id := e]
      ensures Numbered(specs, k)
    {
      if k != id {
        assert k in equipos;
      }
    }
  }

  /** Rewriting an asset's columns keeps the table sound. */
  lemma SpecTableReplace(specs: map<int, Especificacion>, next: int, equipos: map<int, EquipoComputo>,
                         id: int, e: EquipoComputo)
    requires SpecTableOk(specs, next, equipos)
    requires id in equipos
    ensures SpecTableOk(specs, next, equipos[id := e])
  {
    forall k | k in equipos[id := e]
      ensures Numbered(specs, k)
    {
      assert k in equipos;
    }
  }

  /** Deleting an asset's specifications empties its list and keeps the table sound. */
  lemma SpecTableDeleteSpecs(specs: map<int, Especificacion>, next: int, equipos: map<int, EquipoComputo>, id: int)
    requires SpecTableOk(specs, next, equipos)
    ensures SpecsOf(specs - SpecIdsOf(specs, id), id) == []
    ensures SpecTableOk(specs - SpecIdsOf(specs, id), next, equipos)
  {
    SpecsOfRemove(specs, id, id);
    forall k | k in equipos
      ensures Numbered(specs - SpecIdsOf(specs, id), k)
    {
      assert Numbered(specs, k);
      SpecsOfRemove(specs, id, k);
    }
  }

  /** Deleting an asset and its specifications keeps the table sound. */
  lemma SpecTableDeleteEquipo(specs: map<int, Especificacion>, next: int, equipos: map<int, EquipoComputo>, id: int)
    requires SpecTableOk(specs, next, equipos)
    ensures SpecTableOk(specs - SpecIdsOf(specs, id), next, equipos - {id})
  {
    forall k | k in equipos - {id}
      ensures Numbered(specs - SpecIdsOf(specs, id), k)
    {
      assert Numbered(specs, k);
      SpecsOfRemove(specs, id, k);
    }
  }

  /** Storing the next-numbered row of an existing asset keeps the table
      sound and appends the row to the asset's list. */
  lemma SpecTableAppend(specs: map<int, Especificacion>, next: int, equipos: map<int, EquipoComputo>, row: Especificacion)
    requires SpecTableOk(specs, next, equipos)
    requires row.equipoId in equipos
    requires row.orden == |SpecsOf(specs, row.equipoId)| + 1
    ensures SpecTableOk(specs[next := row], next + 1, equipos)
    ensures SpecsOf(specs[next := row], row.equipoId) == SpecsOf(specs, row.equipoId) + [(next, row)]
  {
    SpecsOfAppend(specs, next, row);
    assert Numbered(specs, row.equipoId);
    NumberedAppend(specs, next, row);
    forall e | e in equipos
      ensures Numbered(specs[next := row], e)
    {
      if e != row.equipoId {
        assert Numbered(specs, e);
        SpecsOfAppendOther(specs, next, row, e);
      }
    }
  }

  /** Rows stored for asset `equipoId` add their ids to its set of rows. */
  lemma SpecIdsOfInsert(specs: map<int, Especificacion>, next: int, equipoId: int, rows: seq<Especificacion>)
    requires forall i :: 0 <= i < |rows| ==> rows[i].equipoId == equipoId
    ensures SpecIdsOf(specs + RowsFrom(next, rows), equipoId) == SpecIdsOf(specs, equipoId) + RowsFrom(next, rows).Keys
  {
    var added := RowsFrom(next, rows);
    forall k | k in added
      ensures added[k].equipoId == equipoId
    {
      assert added[k] == rows[k - next];
    }
  }

  /** Rows stored under ids above every existing one come last in their
      asset's id order, in the order they were stored. */
  lemma SpecOrderInsert(specs: map<int, Especificacion>, next: int, equipoId: int, rows: seq<Especificacion>)
    requires forall j :: j in specs ==> j < next
    requires forall i :: 0 <= i < |rows| ==> rows[i].equipoId == equipoId
    ensures SpecOrder(specs + RowsFrom(next, rows), equipoId) ==
            SpecOrder(specs, equipoId) + Range(next, |rows|)
  {
    SpecIdsOfInsert(specs, next, equipoId, rows);
    AscendingAppendRange(SpecIdsOf(specs, equipoId), RowsFrom(next, rows).Keys, next, |rows|);
  }

  /** Rows stored under ids above every existing one are appended, in order,
      to their asset's listing. */
  lemma SpecsOfInsert(specs: map<int, Especificacion>, next: int, equipoId: int, rows: seq<Especificacion>)
    requires forall j :: j in specs ==> j < next
    requires forall i :: 0 <= i < |rows| ==> rows[i].equipoId == equipoId
    ensures SpecsOf(specs + RowsFrom(next, rows), equipoId) == SpecsOf(specs, equipoId) + Listed(next, rows)
  {
    var nw := specs + RowsFrom(next, rows);
    SpecOrderInsert(specs, next, equipoId, rows);
    var ids, olds := SpecOrder(nw, equipoId), SpecOrder(specs, equipoId);
    var r, want := SpecsOf(nw, equipoId), SpecsOf(specs, equipoId) + Listed(next, rows);
    forall i | 0 <= i < |r|
      ensures r[i] == want[i]
    {
      if i < |olds| {
        assert ids[i] == olds[i];
      } else {
        assert ids[i] == next + (i - |olds|);
      }
    }
  }

  /** Rows stored for one asset leave every other asset's listing as it was. */
  lemma SpecsOfInsertOther(specs: map<int, Especificacion>, next: int, equipoId: int,
                           rows: seq<Especificacion>, e: int)
    requires forall j :: j in specs ==> j < next
    requires forall i :: 0 <= i < |rows| ==> rows[i].equipoId == equipoId
    requires e != equipoId
    ensures SpecsOf(specs + RowsFrom(next, rows), e) == SpecsOf(specs, e)
  {
    var nw := specs + RowsFrom(next, rows);
    forall k | k in RowsFrom(next, rows)
      ensures RowsFrom(next, rows)[k].equipoId == equipoId
    {
      assert RowsFrom(next, rows)[k] == rows[k - next];
    }
    assert SpecIdsOf(nw, e) == SpecIdsOf(specs, e);
    SpecsOfFrame(nw, specs, e);
  }

  /** The asset's list, extended by rows numbered on from it, stays numbered. */
  lemma NumberedExtend(specs: map<int, Especificacion>, nw: map<int, Especificacion>, equipoId: int,
                       first: int, rows: seq<Especificacion>)
    requires Numbered(specs, equipoId)
    requires NumberedFrom(rows, equipoId, |SpecsOf(specs, equipoId)|)
    requires SpecsOf(nw, equipoId) == SpecsOf(specs, equipoId) + Listed(first, rows)
    ensures Numbered(nw, equipoId)
  {
    var old_, r := SpecsOf(specs, equipoId), SpecsOf(nw, equipoId);
    forall i | 0 <= i < |r|
      ensures r[i].1.orden == i + 1
    {
      if i >= |old_| {
        assert r[i] == Listed(first, rows)[i - |old_|];
      } else {
        assert r[i] == old_[i];
      }
    }
  }

  /** Rows of an existing asset stored under the next ids keep the ids below
      the sequence and every row owned. */
  lemma SpecsOwnedInsert(specs: map<int, Especificacion>, next: int, equipos: map<int, EquipoComputo>,
                         equipoId: int, rows: seq<Especificacion>)
    requires IdsBelow(specs, next) && SpecsOwned(specs, equipos)
    requires equipoId in equipos
    requires forall i :: 0 <= i < |rows| ==> rows[i].equipoId == equipoId
    ensures IdsBelow(specs + RowsFrom(next, rows), next + |rows|)
    ensures SpecsOwned(specs + RowsFrom(next, rows), equipos)
  {
    var nw := specs + RowsFrom(next, rows);
    forall k | k in nw
      ensures 1 <= k < next + |rows| && nw[k].equipoId in equipos
    {
      if k !in specs {
        assert nw[k] == rows[k - next];
      }
    }
  }

  /** Storing rows of an existing asset numbered on from its list keeps the
      table sound. */
  lemma SpecTableInsert(specs: map<int, Especificacion>, next: int, equipos: map<int, EquipoComputo>,
                        equipoId: int, rows: seq<Especificacion>)
    requires SpecTableOk(specs, next, equipos)
    requires equipoId in equipos
    requires NumberedFrom(rows, equipoId, |SpecsOf(specs, equipoId)|)
    ensures SpecTableOk(specs + RowsFrom(next, rows), next + |rows|, equipos)
  {
    var nw := specs + RowsFrom(next, rows);
    SpecsOfInsert(specs, next, equipoId, rows);
    SpecsOwnedInsert(specs, next, equipos, equipoId, rows);
    forall e | e in equipos
      ensures Numbered(nw, e)
    {
      assert Numbered(specs, e);
      if e == equipoId {
        NumberedExtend(specs, nw, e, next, rows);
      } else {
        SpecsOfInsertOther(specs, next, equipoId, rows, e);
      }
    }
  }

  // ---------------------------------------------------------------------------
  // What each write keeps of the whole database
  // ---------------------------------------------------------------------------

  /** Inserting an asset that breaks no constraint keeps the tables consistent;
      the new asset has no specifications. */
  lemma InsertEquipoKeeps(cat: Catalogs, t: Tables, e: EquipoComputo)
    requires Consistent(cat, t)
    requires EquipoRefsOk(cat, t.usuarios, t.accesos, e)
    requires !SerialTaken(t.equipos, t.nextEquipo, e.numeroSerie)
    ensures Consistent(cat, t.(equipos := t.equipos[t.nextEquipo := e], nextEquipo := t.nextEquipo + 1))
    ensures SpecsOf(t.especificaciones, t.nextEquipo) == []
  {
    SpecTableNewEquipo(t.especificaciones, t.nextEspecificacion, t.equipos, t.nextEquipo, e);
  }

  /** Rewriting an asset's columns without breaking a constraint keeps the
      tables consistent. */
  lemma ReplaceEquipoKeeps(cat: Catalogs, t: Tables, id: int, e: EquipoComputo)
    requires Consistent(cat, t)
    requires id in t.equipos
    requires EquipoRefsOk(cat, t.usuarios, t.accesos, e)
    requires !SerialTaken(t.equipos, id, e.numeroSerie)
    ensures Consistent(cat, t.(equipos := t.equipos[id := e]))
  {
    SpecTableReplace(t.especificaciones, t.nextEspecificacion, t.equipos, id, e);
  }

  /** Deleting an asset's specifications keeps the tables consistent. */
  lemma DeleteSpecsKeeps(cat: Catalogs, t: Tables, id: int)
    requires Consistent(cat, t)
    ensures Consistent(cat, t.(especificaciones := t.especificaciones - SpecIdsOf(t.especificaciones, id)))
    ensures SpecsOf(t.especificaciones - SpecIdsOf(t.especificaciones, id), id) == []
  {
    SpecTableDeleteSpecs(t.especificaciones, t.nextEspecificacion, t.equipos, id);
    SpecTableKeeps(cat, t, t.especificaciones - SpecIdsOf(t.especificaciones, id), t.nextEspecificacion);
  }

  /** Changing only the specification table keeps the tables consistent when
      the new table is sound. */
  lemma SpecTableKeeps(cat: Catalogs, t: Tables, specs: map<int, Especificacion>, next: int)
    requires Consistent(cat, t)
    requires SpecTableOk(specs, next, t.equipos)
    ensures Consistent(cat, t.(especificaciones := specs, nextEspecificacion := next))
  {
    var t2 := t.(especificaciones := specs, nextEspecificacion := next);
    assert IdsFresh(t2) && UniqueColumns(t2) by {
      assert t2.accesos == t.accesos && t2.usuarios == t.usuarios && t2.equipos == t.equipos;
      assert t2.mobiliario == t.mobiliario;
    }
    assert ForeignKeys(cat, t2) by {
      assert t2.accesos == t.accesos && t2.usuarios == t.usuarios && t2.equipos == t.equipos;
      assert t2.mobiliario == t.mobiliario;
    }
  }

  /** Storing rows of an existing asset keeps the specification table sound. */
  lemma InsertSpecsTable(cat: Catalogs, t: Tables, equipoId: int, rows: seq<Especificacion>)
    requires Consistent(cat, t)
    requires equipoId in t.equipos
    requires NumberedFrom(rows, equipoId, |SpecsOf(t.especificaciones, equipoId)|)
    ensures SpecTableOk(t.especificaciones + RowsFrom(t.nextEspecificacion, rows),
                        t.nextEspecificacion + |rows|, t.equipos)
  {
    SpecTableInsert(t.especificaciones, t.nextEspecificacion, t.equipos, equipoId, rows);
  }

  /** Storing rows of an existing asset keeps the tables consistent. */
  lemma InsertSpecsKeeps(cat: Catalogs, t: Tables, equipoId: int, rows: seq<Especificacion>)
    requires Consistent(cat, t)
    requires equipoId in t.equipos
    requires NumberedFrom(rows, equipoId, |SpecsOf(t.especificaciones, equipoId)|)
    ensures Consistent(cat, t.(especificaciones := t.especificaciones + RowsFrom(t.nextEspecificacion, rows),
                              nextEspecificacion := t.nextEspecificacion + |rows|))
  {
    var t2 := t.(especificaciones := t.especificaciones + RowsFrom(t.nextEspecificacion, rows),
                 nextEspecificacion := t.nextEspecificacion + |rows|);
    InsertSpecsTable(cat, t, equipoId, rows);
    SpecTableKeeps(cat, t, t2.especificaciones, t2.nextEspecificacion);
  }

  /** Deleting an asset together with its specifications (the cascade) keeps
      the tables consistent. */
  lemma DeleteEquipoKeeps(cat: Catalogs, t: Tables, id: int)
    requires Consistent(cat, t)
    ensures Consistent(cat, t.(equipos := t.equipos - {id},
                              especificaciones := t.especificaciones - SpecIdsOf(t.especificaciones, id)))
  {
    SpecTableDeleteEquipo(t.especificaciones, t.nextEspecificacion, t.equipos, id);
  }

  /** Inserting a piece of furniture whose references exist keeps the tables
      consistent. */
  lemma InsertMuebleKeeps(cat: Catalogs, t: Tables, m: Mobiliario)
    requires Consistent(cat, t)
    requires MobiliarioRefsOk(cat, t.usuarios, t.accesos, m)
    ensures Consistent(cat, t.(mobiliario := t.mobiliario[t.nextMueble := m], nextMueble := t.nextMueble + 1))
  {
  }

  /** Rewriting a piece of furniture with existing references keeps the
      tables consistent. */
  lemma ReplaceMuebleKeeps(cat: Catalogs, t: Tables, id: int, m: Mobiliario)
    requires Consistent(cat, t)
    requires id in t.mobiliario
    requires MobiliarioRefsOk(cat, t.usuarios, t.accesos, m)
    ensures Consistent(cat, t.(mobiliario := t.mobiliario[id := m]))
  {
  }

  /** Deleting a piece of furniture keeps the tables consistent: no other
      table refers to furniture. */
  lemma DeleteMuebleKeeps(cat: Catalogs, t: Tables, id: int)
    requires Consistent(cat, t)
    ensures Consistent(cat, t.(mobiliario := t.mobiliario - {id}))
  {
  }

  /** Inserting a person whose area exists and whose payroll number is new
      keeps the tables consistent. */
  lemma InsertUsuarioKeeps(cat: Catalogs, t: Tables, u: Usuario)
    requires Consistent(cat, t)
    requires UsuarioRefsOk(cat, u) && !NominaTaken(t.usuarios, u.numeroNomina)
    ensures Consistent(cat, t.(usuarios := t.usuarios[t.nextUsuario := u], nextUsuario := t.nextUsuario + 1))
  {
  }

  /** Inserting an account whose role and area exist and whose email is new
      keeps the tables consistent. */
  lemma InsertAccesoKeeps(cat: Catalogs, t: Tables, a: Acceso)
    requires Consistent(cat, t)
    requires AccesoRefsOk(cat, a) && !EmailTaken(t.accesos, a.correoElectronico)
    ensures Consistent(cat, t.(accesos := t.accesos[t.nextAcceso := a], nextAcceso := t.nextAcceso + 1))
  {
  }

  /** Stamping an account's last login keeps the tables consistent. */
  lemma StampUltimoAccesoKeeps(cat: Catalogs, t: Tables, id: int, when: DateTime)
    requires Consistent(cat, t)
    requires id in t.accesos
    ensures Consistent(cat, t.(accesos := t.accesos[id := t.accesos[id].(ultimoAcceso := Some(when))]))
  {
  }

  // ---------------------------------------------------------------------------
  // The database object
  // ---------------------------------------------------------------------------

  /** The database session: the catalog and permission tables, which no route
      writes, and the tables the routes change. */
  class Db {
    const catalogs: Catalogs
    const permisos: map<int, Permiso>
    var accesos: map<int, Acceso>
    var usuarios: map<int, Usuario>
    var equipos: map<int, EquipoComputo>
    var especificaciones: map<int, Especificacion>
    var mobiliario: map<int, Mobiliario>
    var nextAcceso: int
    var nextUsuario: int
    var nextEquipo: int
    var nextEspecificacion: int
    var nextMueble: int

    function Snapshot(): Tables
      reads this
    {
      Tables(accesos, usuarios, equipos, especificaciones, mobiliario,
             nextAcceso, nextUsuario, nextEquipo, nextEspecificacion, nextMueble)
    }

    predicate Valid()
      reads this
    {
      Consistent(catalogs, Snapshot())
    }

    constructor (catalogs: Catalogs, permisos: map<int, Permiso>, initial: Tables)
      requires Consistent(catalogs, initial)
      ensures this.catalogs == catalogs && this.permisos == permisos
      ensures Snapshot() == initial && Valid()
    {
      this.catalogs := catalogs;
      this.permisos := permisos;
      accesos, usuarios, equipos := initial.accesos, initial.usuarios, initial.equipos;
      especificaciones, mobiliario := initial.especificaciones, initial.mobiliario;
      nextAcceso, nextUsuario, nextEquipo := initial.nextAcceso, initial.nextUsuario, initial.nextEquipo;
      nextEspecificacion, nextMueble := initial.nextEspecificacion, initial.nextMueble;
    }

    /** `session.rollback()`: the tables return to a state saved before. */
    method Restore(saved: Tables)
      requires Consistent(catalogs, saved)
      modifies this
      ensures Snapshot() == saved && Valid()
    {
      accesos, usuarios, equipos := saved.accesos, saved.usuarios, saved.equipos;
      especificaciones, mobiliario := saved.especificaciones, saved.mobiliario;
      nextAcceso, nextUsuario, nextEquipo := saved.nextAcceso, saved.nextUsuario, saved.nextEquipo;
      nextEspecificacion, nextMueble := saved.nextEspecificacion, saved.nextMueble;
    }

    // --- computing assets -----------------------------------------------------

    /** INSERT INTO equipos_computo: the row gets the next id and no
        specifications yet. */
    method InsertEquipo(e: EquipoComputo) returns (id: int)
      requires Valid()
      requires EquipoRefsOk(catalogs, usuarios, accesos, e)
      requires !SerialTaken(equipos, nextEquipo, e.numeroSerie)
      modifies this
      ensures id == old(nextEquipo) && id !in old(equipos)
      ensures Snapshot() == old(Snapshot()).(equipos := old(equipos)[id := e], nextEquipo := id + 1)
      ensures SpecsOf(especificaciones, id) == []
      ensures Valid()
    {
      InsertEquipoKeeps(catalogs, Snapshot(), e);
      id := nextEquipo;
      equipos := equipos[id := e];
      nextEquipo := nextEquipo + 1;
    }

    /** UPDATE equipos_computo: every column of row `id` is replaced. */
    method ReplaceEquipo(id: int, e: EquipoComputo)
      requires Valid()
      requires id in equipos
      requires EquipoRefsOk(catalogs, usuarios, accesos, e)
      requires !SerialTaken(equipos, id, e.numeroSerie)
      modifies this
      ensures Snapshot() == old(Snapshot()).(equipos := old(equipos)[id := e])
      ensures Valid()
    {
      ReplaceEquipoKeeps(catalogs, Snapshot(), id, e);
      equipos := equipos[id := e];
    }

    /** DELETE FROM especificaciones_equipo WHERE equipo_id = id. */
    method DeleteSpecsOf(id: int)
      requires Valid()
      modifies this
      ensures Snapshot() == old(Snapshot()).(especificaciones := old(especificaciones) - SpecIdsOf(old(especificaciones), id))
      ensures SpecsOf(especificaciones, id) == []
      ensures Valid()
    {
      DeleteSpecsKeeps(catalogs, Snapshot(), id);
      especificaciones := especificaciones - SpecIdsOf(especificaciones, id);
    }

    /** INSERT INTO especificaciones_equipo the rows staged for an asset,
        numbered on from the rows it has. */
    method InsertSpecs(equipoId: int, rows: seq<Especificacion>)
      requires Valid()
      requires equipoId in equipos
      requires NumberedFrom(rows, equipoId, |SpecsOf(especificaciones, equipoId)|)
      modifies this
      ensures Snapshot() == old(Snapshot()).(
                especificaciones := old(especificaciones) + RowsFrom(old(nextEspecificacion), rows),
                nextEspecificacion := old(nextEspecificacion) + |rows|)
      ensures Valid()
    {
      InsertSpecsKeeps(catalogs, Snapshot(), equipoId, rows);
      especificaciones := especificaciones + RowsFrom(nextEspecificacion, rows);
      nextEspecificacion := nextEspecificacion + |rows|;
    }

    /** DELETE FROM equipos_computo: the row and, by the cascade, its
        specifications. */
    method DeleteEquipo(id: int)
      requires Valid()
      requires id in equipos
      modifies this
      ensures Snapshot() == old(Snapshot()).(
                equipos := old(equipos) - {id},
                especificaciones := old(especificaciones) - SpecIdsOf(old(especificaciones), id))
      ensures Valid()
    {
      DeleteEquipoKeeps(catalogs, Snapshot(), id);
      especificaciones := especificaciones - SpecIdsOf(especificaciones, id);
      equipos := equipos - {id};
    }

    // --- furniture --------------------------------------------------------------

    /** INSERT INTO mobiliario. */
    method InsertMueble(m: Mobiliario) returns (id: int)
      requires Valid()
      requires MobiliarioRefsOk(catalogs, usuarios, accesos, m)
      modifies this
      ensures id == old(nextMueble) && id !in old(mobiliario)
      ensures Snapshot() == old(Snapshot()).(mobiliario := old(mobiliario)[id := m], nextMueble := id + 1)
      ensures Valid()
    {
      InsertMuebleKeeps(catalogs, Snapshot(), m);
      id := nextMueble;
      mobiliario := mobiliario[id := m];
      nextMueble := nextMueble + 1;
    }

    /** UPDATE mobiliario: every column of row `id` is replaced. */
    method ReplaceMueble(id: int, m: Mobiliario)
      requires Valid()
      requires id in mobiliario
      requires MobiliarioRefsOk(catalogs, usuarios, accesos, m)
      modifies this
      ensures Snapshot() == old(Snapshot()).(mobiliario := old(mobiliario)[id := m])
      ensures Valid()
    {
      ReplaceMuebleKeeps(catalogs, Snapshot(), id, m);
      mobiliario := mobiliario[id := m];
    }

    /** DELETE FROM mobiliario. */
    method DeleteMueble(id: int)
      requires Valid()
      modifies this
      ensures Snapshot() == old(Snapshot()).(mobiliario := old(mobiliario) - {id})
      ensures Valid()
    {
      DeleteMuebleKeeps(catalogs, Snapshot(), id);
      mobiliario := mobiliario - {id};
    }

    // --- people and accounts ------------------------------------------------------

    /** INSERT INTO usuario. */
    method InsertUsuario(u: Usuario) returns (id: int)
      requires Valid()
      requires UsuarioRefsOk(catalogs, u)
      requires !NominaTaken(usuarios, u.numeroNomina)
      modifies this
      ensures id == old(nextUsuario) && id !in old(usuarios)
      ensures Snapshot() == old(Snapshot()).(usuarios := old(usuarios)[id := u], nextUsuario := id + 1)
      ensures Valid()
    {
      InsertUsuarioKeeps(catalogs, Snapshot(), u);
      id := nextUsuario;
      usuarios := usuarios[id := u];
      nextUsuario := nextUsuario + 1;
    }

    /** INSERT INTO acceso. */
    method InsertAcceso(a: Acceso) returns (id: int)
      requires Valid()
      requires AccesoRefsOk(catalogs, a)
      requires !EmailTaken(accesos, a.correoElectronico)
      modifies this
      ensures id == old(nextAcceso) && id !in old(accesos)
      ensures Snapshot() == old(Snapshot()).(accesos := old(accesos)[id := a], nextAcceso := id + 1)
      ensures Valid()
    {
      InsertAccesoKeeps(catalogs, Snapshot(), a);
      id := nextAcceso;
      accesos := accesos[id := a];
      nextAcceso := nextAcceso + 1;
    }

    /** UPDATE acceso SET ultimo_acceso = when. */
    method StampUltimoAcceso(id: int, when: DateTime)
      requires Valid()
      requires id in accesos
      modifies this
      ensures Snapshot() == old(Snapshot()).(accesos := old(accesos)[id := old(accesos)[id].(ultimoAcceso := Some(when))])
      ensures Valid()
    {
      StampUltimoAccesoKeeps(catalogs, Snapshot(), id, when);
      accesos := accesos[id := accesos[id].(ultimoAcceso := Some(when))];
    }
  }
}

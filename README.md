# Inventory backend: permission gate, asset registries and accounts

This project models the core of a Flask and SQLAlchemy REST backend that
keeps an organisation's inventory of computing equipment (`equipos_computo`,
with their specification lines `especificaciones_equipo`) and furniture
(`mobiliario`), the people who are responsible for assets (`usuario`), and
the login accounts (`acceso`) whose role (`permisos`) decides, per module,
what they may create, read, update, delete or export.

It covers:

- **the permission decorator** `require_permission(modulo, permiso_tipo)`:
  404 for an unknown account, 403 for a role without a row for the module,
  and 403 for a row without the flag (module `Decorators`);
- **the equipment routes**: the filtered, searched and paginated listing
  (newest first), reading one asset with its specifications, creating an
  asset with a numbered specification list, updating it (with a serial
  number re-check and wholesale replacement of the list), and deleting it
  with a cascade (module `EquiposRoutes`);
- **the furniture routes**, with the same five operations (module
  `MobiliarioRoutes`);
- **the people and account routes**: listing and creating responsible
  people and login accounts, with the password stored only as a hash
  (module `UsuariosRoutes`);
- **the session routes**: login, the current account, and logout (module
  `AuthRoutes`);
- **the ORM records**: their columns, their insert defaults and their
  `to_dict()` serialisations (module `Models`).

The database session is a class `Store.Db`. It holds the writable tables as
`map` fields with their id sequences, and the catalogue and permission
tables as constants, since no modelled route writes them. `Db.Valid()`
holds the schema's constraints and one invariant the routes keep:

- every id came from its table's sequence (schema);
- the unique columns (serial number, email, payroll number) do not repeat
  (schema);
- every foreign key names an existing row (schema);
- every asset's specification rows are numbered 1, 2, … in id order (kept
  by the routes, not declared by the schema: `orden` has only `default=1`
  at models/__init__.py:245, and the numbering comes from `enumerate(start=1)`
  in create and update and from the delete cascade). So
  `EquiposRoutes.GetEquipoNumbered` holds for a database that only the
  modelled routes have written.

Each Db method is one step of the session and keeps `Valid()`.

Each write route is written twice:

- as a method over the `Db`, in the route's own order of statements;
- as a function `…Result` that gives the answer and the new tables from
  the old ones.

The method's contract says that it does what the function says. The
lemmas beside the function state what the route promises:

- which statuses it answers with, and that a refusal changes nothing;
- which refusal comes first;
- exactly when it succeeds;
- what it stores;
- that it leaves everything else alone;
- that it keeps the constraints.

A JSON value of the wrong type for its column, text longer than the
declared width of a `String(n)` column, and text holding a NUL character
are refused by the database (PostgreSQL, or psycopg2 before it). The model
answers that case as the route's `except` branch does: with a 500 and a
rollback. A lookup made before the `try` (the serial number, payroll
number or email already in use, the login's email, the listing's search)
fails the same way for a value that is not text or holds a NUL, and is
answered with the same 500.

An update does not stamp `fecha_modificacion`: the column has only an
insert default (models/__init__.py:205, 275), neither update route writes
it, and the model leaves it unchanged.

The decorator reads a role's *first* permission row for a module, while
login reports the *last* one per module (the dict comprehension
overwrites). These agree when a role has one row per module, as
`AuthRoutes.PermisosOfAgreesWithGate` proves. The schema does not enforce
that.

## Model

| member | source | states |
|---|---|---|
| Decorators.FirstPermiso | utils/decorators.py:23-26 | the permission row used is one of the role's rows for the module, the one with the least id, and none exactly when the role has no such row |
| Decorators.Capability | utils/decorators.py:32 | `not getattr(permiso, tipo, False)` lets the route run exactly when the row's flag is TRUE; a FALSE or NULL flag denies |
| Decorators.Gate | utils/decorators.py:13-35 | 404 "Usuario no encontrado" for an unknown caller; 403 "Sin permisos en este módulo" with no row; 403 naming the capability when the flag is off; the route runs exactly when the account exists and its role's first row has the flag |
| Decorators.DenialStatus | utils/decorators.py:19-33 | a denial is a 404 exactly when the account is missing, and a 403 otherwise |
| Decorators.GateAllowsIff | utils/decorators.py:18-35 | with one row per role and module, the route runs exactly when the caller's role has a row for the module with the flag set |
| Decorators.DefaultRowReadsOnly | models/__init__.py:161-165 | a permission row with only its column defaults lets the role read and nothing else |
| Decorators.CapabilityMessageNames | utils/decorators.py:33 | the 403 message is "Sin permiso para " followed by the capability without `puede_` |
| Models.NewPermiso | models/__init__.py:155-165 | a new permission row has `puede_leer` TRUE and the other four flags FALSE |
| Models.SucursalColumn | routes/equipos_routes.py:99 | `sucursal_nombre` is the body's text when it fits `String(50)` and holds no NUL, and is refused otherwise; 'Tulancingo' when the key is absent or null (the ORM leaves the column default in place for NULL) |
| Models.FechaRegistroAsWrittenIsStale | models/__init__.py:130 | as declared, `fecha_registro` is the day the server process started, not the day of the insert |
| Models.UsuarioToDictShape | models/__init__.py:109-117 | a person's record has the six `to_dict()` keys, its id and name as stored, and a null `area` for an area that does not exist |
| Models.AccesoToDictKeys | models/__init__.py:137-152 | an account's record has the ten keys, and the password hash is in it exactly when it is asked for |
| Models.AccesoToDictFields | models/__init__.py:137-152 | the record holds the id, email, name and last login as stored; `rol` and `area` are null exactly when the reference is missing |
| Models.PermisoToDictShape | models/__init__.py:171-181 | a permission record has the eight keys and carries each flag under its column name |
| Models.EspecificacionToDictShape | models/__init__.py:248-255 | a specification record carries its id, asset, name, value and `orden` |
| Models.EquipoToDictKeys | models/__init__.py:213-235 | an asset's record has the seventeen column keys, plus `especificaciones` exactly when it is asked for |
| Models.EquipoToDictFields | models/__init__.py:213-235 | the record holds the asset's id and columns as stored, null names for missing references, and its specification list in order |
| Models.MobiliarioToDictKeys | models/__init__.py:282-301 | a furniture record has the seventeen column keys |
| Models.MobiliarioToDictFields | models/__init__.py:282-301 | the record holds the piece's id and columns as stored, and null names for missing references |
| Values.IntColumnRoundTrip | models/__init__.py:192-205 | an integer column stores a JSON number or null and `to_dict()` gives it back unchanged |
| Values.TextColumnRoundTrip | models/__init__.py:199 | a `Text` column stores a JSON string without NUL, or null, and `to_dict()` gives it back unchanged |
| Values.VarcharColumnRoundTrip | models/__init__.py:194-196 | a `String(n)` column stores a JSON string of at most `n` characters without NUL, or null, and `to_dict()` gives it back unchanged |
| Values.DateColumnRoundTrip | models/__init__.py:270 | a date column stores ISO text without NUL, or null, and `isoformat()` gives it back unchanged |
| Pagination.Paginate | routes/equipos_routes.py:45 | `paginate(error_out=False)`: a page below 1 is page 1, a size below 1 is 20, the page holds the rows from `(page-1)*size` on, at most `size` of them, `total` is the whole count and `pages` its ceiling by `size` |
| Pagination.RowOnItsPage | routes/equipos_routes.py:45 | row `i` of the result is at position `i % size` of page `i / size + 1` |
| Pagination.RowOnSomePage | routes/mobiliario_routes.py:38 | whatever the page size asked, every row of the result is on some page |
| Pagination.PagesDisjoint | routes/equipos_routes.py:45 | no row is on two different pages |
| Pagination.PageKeepsOrder | routes/equipos_routes.py:42-45 | a page keeps the query's descending order |
| Ordering.Ascending | routes/usuarios_routes.py:14 | the ids of a table listed once each, in increasing order: the order `query.all()` is taken to return |
| Ordering.Descending | routes/equipos_routes.py:42 | `ORDER BY id DESC`: each id once, in decreasing order |
| Ordering.AscendingUnique | routes/usuarios_routes.py:14 | the increasing listing of a set is unique |
| Requests.FirstMissing | routes/equipos_routes.py:77-80 | the first required field the body lacks, in the route's order; none exactly when all are there |
| Requests.FindMissing | routes/mobiliario_routes.py:69-72 | the route's loop over the required fields returns what `FirstMissing` specifies |
| Requests.RecordBody | routes/equipos_routes.py:120-123 | a write's answer holds exactly `mensaje` and the record's key, with the message and the record |
| Requests.ListBody | routes/equipos_routes.py:47-52 | a listing's answer holds exactly the records' key, `total`, `pages` and `current_page` |
| Store.SpecsOfComplete | models/__init__.py:211 | every specification row of an asset is in its `especificaciones` list |
| Store.EmptyConsistent | models/__init__.py:188-255 | the empty database, with every sequence at 1, meets every constraint |
| Store.InsertEquipoKeeps | models/__init__.py:191-205 | inserting an asset whose references exist and whose serial is new keeps every constraint |
| Store.ReplaceEquipoKeeps | models/__init__.py:191-205 | rewriting an asset's columns without breaking a constraint keeps every constraint |
| Store.DeleteSpecsKeeps | routes/equipos_routes.py:173 | deleting an asset's specifications keeps every constraint |
| Store.SpecsOfInsert | routes/equipos_routes.py:176-183 | rows stored under ids above every existing one are appended, in order, to their asset's `especificaciones` list |
| Store.SpecTableInsert | routes/equipos_routes.py:176-183 | storing rows of an existing asset, numbered on from its list, keeps every list numbered 1..N and every row owned by an existing asset |
| Store.InsertSpecsKeeps | routes/equipos_routes.py:176-183 | storing rows of an existing asset, numbered on from its list, keeps every constraint |
| Store.DeleteEquipoKeeps | models/__init__.py:211 | deleting an asset together with its specifications (the cascade) keeps every constraint |
| Store.InsertMuebleKeeps | models/__init__.py:261-275 | inserting furniture whose references exist keeps every constraint |
| Store.ReplaceMuebleKeeps | models/__init__.py:261-275 | rewriting furniture with existing references keeps every constraint |
| Store.DeleteMuebleKeeps | routes/mobiliario_routes.py:147 | deleting furniture keeps every constraint: no other table refers to it |
| Store.InsertUsuarioKeeps | models/__init__.py:99-104 | inserting a person whose area exists and whose payroll number is new keeps every constraint |
| Store.InsertAccesoKeeps | models/__init__.py:123-131 | inserting an account whose role and area exist and whose email is new keeps every constraint |
| Store.StampUltimoAccesoKeeps | routes/auth_routes.py:32-33 | stamping an account's last login keeps every constraint |
| Store.Db.InsertEquipo | routes/equipos_routes.py:104-105 | INSERT: the asset gets the next id, has no specifications yet, and nothing else changes |
| Store.Db.ReplaceEquipo | routes/equipos_routes.py:151-168 | UPDATE: the asset's row is replaced, nothing else changes |
| Store.Db.DeleteSpecsOf | routes/equipos_routes.py:173 | DELETE of an asset's specifications: its list is empty, every other list is as it was |
| Store.Db.InsertSpecs | routes/equipos_routes.py:176-185 | INSERT of the staged rows: they get consecutive ids from the sequence, nothing else changes, and every constraint still holds |
| Store.Db.DeleteEquipo | routes/equipos_routes.py:208-209 | DELETE with the cascade: the asset and its specifications are gone, nothing else changes |
| Store.Db.InsertMueble | routes/mobiliario_routes.py:90-91 | INSERT: the piece gets the next id, nothing else changes |
| Store.Db.ReplaceMueble | routes/mobiliario_routes.py:118-124 | UPDATE: the piece's row is replaced, nothing else changes |
| Store.Db.DeleteMueble | routes/mobiliario_routes.py:147-148 | DELETE: the piece is gone, nothing else changes |
| Store.Db.InsertUsuario | routes/usuarios_routes.py:42-43 | INSERT: the person gets the next id, nothing else changes |
| Store.Db.InsertAcceso | routes/usuarios_routes.py:93-94 | INSERT: the account gets the next id, nothing else changes |
| Store.Db.StampUltimoAcceso | routes/auth_routes.py:32-33 | UPDATE: only the account's `ultimo_acceso` changes |
| Store.Db.Restore | routes/equipos_routes.py:126 | `rollback()`: the tables are as they were when saved |
| EquiposRoutes.QueryEquipos | routes/equipos_routes.py:23-42 | the ids the filtered query returns: exactly the matching assets, newest first |
| EquiposRoutes.ListedPassFilters | routes/equipos_routes.py:26-31 | every listed asset passes each type, state and holder filter that is given and is not 0 |
| EquiposRoutes.ListedMatchSearch | routes/equipos_routes.py:32-39 | with a search text, every listed asset contains it, ignoring case, in its name, brand or serial number |
| EquiposRoutes.ListedNewestFirst | routes/equipos_routes.py:42 | within a page, a higher id comes first |
| EquiposRoutes.TotalCountsMatches | routes/equipos_routes.py:49-50 | `total` is the number of matching assets on every page, and `pages` is its ceiling by the page size |
| EquiposRoutes.ZeroFilterIgnored | routes/equipos_routes.py:26-31 | a filter argument of 0 lists the same as leaving it out |
| EquiposRoutes.GetEquipos | routes/equipos_routes.py:9-52 | the decorator's denial; a 500 when the search holds a NUL or the page's LIMIT or OFFSET exceeds a `bigint`; otherwise 200 with the page's records and the arguments' page number |
| EquiposRoutes.GetEquipo | routes/equipos_routes.py:55-65 | the decorator's denial, 404 "Equipo no encontrado", or 200 with the asset's record and its specifications |
| EquiposRoutes.GetEquipoNumbered | routes/equipos_routes.py:65 | the specifications of a stored asset come numbered 1, 2, … in the order listed |
| EquiposRoutes.NewEquipo | routes/equipos_routes.py:90-102 | the asset built holds the body's values, the branch default, and the caller as creator and modifier; none exactly when the database would refuse a value: a wrong type, NULL in `nombre_activo`, text longer than its `String(50)` column, or text holding a NUL |
| EquiposRoutes.PatchEquipoSucceeds | routes/equipos_routes.py:151-166 | the column writes succeed exactly when every present value fits its column, in type and in declared width, and no text holds a NUL |
| EquiposRoutes.PatchEquipoValues | routes/equipos_routes.py:151-166 | after the writes, each column holds the body's value when its key is present and its old value otherwise |
| EquiposRoutes.StageSpecs | routes/equipos_routes.py:108-116 | the `enumerate(start=1)` loop builds row `i` from item `i` with `orden` `i + 1`, and fails on a malformed item |
| EquiposRoutes.CreateEquipo | routes/equipos_routes.py:68-127 | the route answers and stores what `CreateEquipoResult` gives, and keeps `Valid()` |
| EquiposRoutes.InsertWithSpecs | routes/equipos_routes.py:88-118 | the `try` block: the asset and its list are stored, or the tables are rolled back |
| EquiposRoutes.CreateEquipoStatuses | routes/equipos_routes.py:68-127 | the answer is 201, 400, 403, 404 or 500; anything but 201 leaves the tables as they were |
| EquiposRoutes.CreateEquipoRefusals | routes/equipos_routes.py:76-86 | the decorator answers first, then "Campo … es requerido" for the first missing field, then "El número de serie ya existe" for a NUL-free text serial another asset holds |
| EquiposRoutes.CreateEquipoSucceedsIff | routes/equipos_routes.py:68-127 | an asset is created exactly when the caller may create, the fields are there, the serial is NUL-free text that is new (or falsy), and the database accepts every value and specification (type, width, no NUL) |
| EquiposRoutes.CreateEquipoStores | routes/equipos_routes.py:88-118 | the new asset gets the next id and the built row |
| EquiposRoutes.CreateEquipoListsSpecs | routes/equipos_routes.py:107-116 | the new asset's list is the body's specifications, in order, numbered from 1 |
| EquiposRoutes.CreateEquipoAnswerShowsRow | routes/equipos_routes.py:120-123 | the 201 answer shows the stored asset with the list just stored |
| EquiposRoutes.CreateEquipoLeavesOthers | routes/equipos_routes.py:88-118 | no other asset's list and no other table changes |
| EquiposRoutes.CreateEquipoKeepsConsistent | routes/equipos_routes.py:68-127 | the route keeps every constraint |
| EquiposRoutes.UpdateSerialCheck | routes/equipos_routes.py:143-147 | for a truthy serial that differs from the asset's: 400 when it is NUL-free text another asset holds, 500 when it is not text or holds a NUL; no answer (the update goes on) otherwise |
| EquiposRoutes.UpdateEquipo | routes/equipos_routes.py:130-194 | the route answers and stores what `UpdateEquipoResult` gives, and keeps `Valid()` |
| EquiposRoutes.ReplaceWithSpecs | routes/equipos_routes.py:149-185 | the `try` block: the columns are written and the list replaced, or the tables are rolled back |
| EquiposRoutes.UpdateEquipoStatuses | routes/equipos_routes.py:130-194 | the answer is 200, 400, 403, 404 or 500; anything but 200 leaves the tables as they were |
| EquiposRoutes.UpdateEquipoRefusals | routes/equipos_routes.py:136-139 | the decorator answers first, then 404 for a missing asset |
| EquiposRoutes.UpdateEquipoSucceedsIff | routes/equipos_routes.py:130-194 | an update succeeds exactly when the caller may update, the asset exists, the serial check passes, and every value and specification is accepted (type, width, no NUL) |
| EquiposRoutes.UpdateEquipoStores | routes/equipos_routes.py:151-183 | a successful update stores the patched columns, with the caller as modifier; a body without `especificaciones` changes nothing else |
| EquiposRoutes.UpdateEquipoReplacesSpecs | routes/equipos_routes.py:171-183 | after a successful update, a body with `especificaciones` has replaced the list by exactly its items, numbered from 1; without the key the list is as it was |
| EquiposRoutes.UpdateEquipoLeavesOthers | routes/equipos_routes.py:149-185 | every other asset's list is as it was |
| EquiposRoutes.UpdateEquipoKeepsConsistent | routes/equipos_routes.py:130-194 | the route keeps every constraint |
| EquiposRoutes.DeleteEquipo | routes/equipos_routes.py:197-215 | the route answers and leaves what `DeleteEquipoResult` gives, and keeps `Valid()` |
| EquiposRoutes.DeleteEquipoRemoves | routes/equipos_routes.py:202-211 | 200 exactly when the caller may delete and the asset exists; then the asset is gone, no specification refers to it and every other asset and list is as it was; a 404 or a denial changes nothing |
| MobiliarioRoutes.QueryMobiliario | routes/mobiliario_routes.py:21-37 | the ids the filtered query returns: exactly the matching pieces, newest first |
| MobiliarioRoutes.ListedPassFilters | routes/mobiliario_routes.py:23-28 | every listed piece passes each type, state and holder filter that is given and is not 0 |
| MobiliarioRoutes.ListedMatchSearch | routes/mobiliario_routes.py:29-35 | with a search text, every listed piece contains it, ignoring case, in its brand or model |
| MobiliarioRoutes.ListedNewestFirst | routes/mobiliario_routes.py:37 | within a page, a higher id comes first |
| MobiliarioRoutes.MatchListedSomewhere | routes/mobiliario_routes.py:37-38 | every matching piece is on some page |
| MobiliarioRoutes.TotalCountsMatches | routes/mobiliario_routes.py:42-43 | `total` is the number of matching pieces on every page, and `pages` is its ceiling by the page size |
| MobiliarioRoutes.GetMobiliario | routes/mobiliario_routes.py:9-45 | the decorator's denial; a 500 when the search holds a NUL or the page's LIMIT or OFFSET exceeds a `bigint`; otherwise 200 with the page's records |
| MobiliarioRoutes.GetMobiliarioById | routes/mobiliario_routes.py:48-58 | the decorator's denial, 404 "Mobiliario no encontrado", or 200 with the piece's record |
| MobiliarioRoutes.NewMueble | routes/mobiliario_routes.py:75-88 | the piece built holds the body's values, the branch default, and the caller as creator and modifier; none exactly when the database would refuse a value: a wrong type, brand, model or colour text longer than its `String(50)` or `String(20)` column, or text holding a NUL |
| MobiliarioRoutes.PatchMuebleSucceeds | routes/mobiliario_routes.py:118-121 | the `setattr` loop succeeds exactly when every present value fits its column, in type and in declared width, and no text holds a NUL |
| MobiliarioRoutes.PatchMuebleValues | routes/mobiliario_routes.py:118-121 | after the loop, each of the nine columns holds the body's value when its key is present and its old value otherwise |
| MobiliarioRoutes.ApplyUpdates | routes/mobiliario_routes.py:118-121 | the route's loop gives what `PatchMueble` specifies |
| MobiliarioRoutes.PatchMuebleStaysFailed | routes/mobiliario_routes.py:118-124 | once a value is refused, the whole update fails |
| MobiliarioRoutes.CreateMobiliario | routes/mobiliario_routes.py:61-100 | the route answers and stores what `CreateMobiliarioResult` gives, and keeps `Valid()` |
| MobiliarioRoutes.CreateMobiliarioStatuses | routes/mobiliario_routes.py:61-100 | the answer is 201, 400, 403, 404 or 500; anything but 201 leaves the tables as they were |
| MobiliarioRoutes.CreateMobiliarioRefusals | routes/mobiliario_routes.py:69-72 | the decorator answers first, then "Campo … es requerido" for the first missing field |
| MobiliarioRoutes.CreateMobiliarioSucceedsIff | routes/mobiliario_routes.py:61-100 | a piece is created exactly when the caller may create, both fields are there, and the database accepts every value (type, width, no NUL) |
| MobiliarioRoutes.CreateMobiliarioStores | routes/mobiliario_routes.py:74-96 | the new piece gets the next id and the built row, and the answer shows it |
| MobiliarioRoutes.CreateMobiliarioLeavesOthers | routes/mobiliario_routes.py:90-91 | no other row and no other table changes |
| MobiliarioRoutes.CreateMobiliarioKeepsConsistent | routes/mobiliario_routes.py:61-100 | the route keeps every constraint |
| MobiliarioRoutes.UpdateMobiliario | routes/mobiliario_routes.py:103-133 | the route answers and stores what `UpdateMobiliarioResult` gives, and keeps `Valid()` |
| MobiliarioRoutes.UpdateMobiliarioStatuses | routes/mobiliario_routes.py:103-133 | the answer is 200, 403, 404 or 500; anything but 200 leaves the tables as they were |
| MobiliarioRoutes.UpdateMobiliarioRefusals | routes/mobiliario_routes.py:109-112 | the decorator answers first, then 404 for a missing piece |
| MobiliarioRoutes.UpdateMobiliarioSucceedsIff | routes/mobiliario_routes.py:103-133 | an update succeeds exactly when the caller may update, the piece exists, and every value of the nine columns is accepted (type, width, no NUL) |
| MobiliarioRoutes.UpdateMobiliarioStores | routes/mobiliario_routes.py:116-129 | the patched piece is stored with the caller as modifier, and the answer shows it |
| MobiliarioRoutes.UpdateMobiliarioEmptyBody | routes/mobiliario_routes.py:118-123 | a body with none of the nine keys changes only `modificado_por` |
| MobiliarioRoutes.UpdateMobiliarioKeepsConsistent | routes/mobiliario_routes.py:103-133 | the route keeps every constraint |
| MobiliarioRoutes.DeleteMobiliario | routes/mobiliario_routes.py:136-154 | the route answers and leaves what `DeleteMobiliarioResult` gives, and keeps `Valid()` |
| MobiliarioRoutes.DeleteMobiliarioRemoves | routes/mobiliario_routes.py:141-150 | 200 exactly when the caller may delete and the piece exists; afterwards it is gone and nothing else changed |
| UsuariosRoutes.GetResponsables | routes/usuarios_routes.py:10-15 | 200 with one record per person, without a permission check |
| UsuariosRoutes.GetResponsablesListsEveryone | routes/usuarios_routes.py:14-15 | every person's record is in the list |
| UsuariosRoutes.GetResponsablesInIdOrder | routes/usuarios_routes.py:14-15 | record `i` is the person with the `i`-th smallest id |
| UsuariosRoutes.NewUsuario | routes/usuarios_routes.py:35-40 | the person built holds the body's name, payroll number, job and area; none exactly when the database would refuse a value: a wrong type, text longer than `String(100)`, `String(10)` or `String(80)`, or text holding a NUL |
| UsuariosRoutes.CreateResponsable | routes/usuarios_routes.py:18-52 | the route answers and stores what `CreateResponsableResult` gives, and keeps `Valid()` |
| UsuariosRoutes.CreateResponsableStatuses | routes/usuarios_routes.py:18-52 | the answer is 201, 400, 403, 404 or 500; anything but 201 leaves the tables as they were |
| UsuariosRoutes.CreateResponsableRefusals | routes/usuarios_routes.py:25-32 | the decorator answers first, then "Nombre es requerido" for an empty or absent name, then "Número de nómina ya existe" for a NUL-free text payroll number another person holds |
| UsuariosRoutes.CreateResponsableSucceedsIff | routes/usuarios_routes.py:18-52 | a person is created exactly when the caller may create, the name is non-empty text, every value is accepted (type, width, no NUL) and the payroll number is new |
| UsuariosRoutes.CreateResponsableStores | routes/usuarios_routes.py:34-48 | the new person gets the next id and the body's values, and the answer shows that row |
| UsuariosRoutes.CreateResponsableKeepsConsistent | routes/usuarios_routes.py:18-52 | the route keeps every constraint |
| UsuariosRoutes.GetAccesos | routes/usuarios_routes.py:55-61 | the decorator's denial, or 200 with one record per account |
| UsuariosRoutes.GetAccesosHidesHashes | routes/usuarios_routes.py:60-61 | no listed record carries a password hash; record `i` is the account with the `i`-th smallest id |
| UsuariosRoutes.NewAcceso | routes/usuarios_routes.py:85-91 | the account built holds the body's name, email, role and area and the given hash, has not logged in, and is registered on the day of the insert (the corrected default); none exactly when a value is refused: a wrong type, a name, email or hash longer than its column, or a name or email holding a NUL |
| UsuariosRoutes.CreateAcceso | routes/usuarios_routes.py:64-103 | the route answers and stores what `CreateAccesoResult` gives, and keeps `Valid()` |
| UsuariosRoutes.CreateAccesoStatuses | routes/usuarios_routes.py:64-103 | the answer is 201, 400, 403, 404 or 500; anything but 201 leaves the tables as they were |
| UsuariosRoutes.CreateAccesoRefusals | routes/usuarios_routes.py:71-79 | the decorator answers first, then "… es requerido" for the first missing field, then "El correo ya está registrado" for a NUL-free text email another account holds |
| UsuariosRoutes.CreateAccesoSucceedsIff | routes/usuarios_routes.py:64-103 | an account is created exactly when the caller may create, the four fields are there, the email is NUL-free text that is new, and the password and values are accepted |
| UsuariosRoutes.CreateAccesoStores | routes/usuarios_routes.py:81-94 | the new account gets the next id, stores the hash of the password (never the password), has not logged in, and is registered on the day of the insert (the corrected default); no other table changes |
| UsuariosRoutes.CreateAccesoAnswerHidesHash | routes/usuarios_routes.py:96-99 | the 201 answer shows the stored account without its hash |
| UsuariosRoutes.CreateAccesoKeepsConsistent | routes/usuarios_routes.py:64-103 | the route keeps every constraint |
| AuthRoutes.FirstAccount | routes/auth_routes.py:22 | `filter_by(correo).first()`: an account with that email, the one with the least id, and none exactly when no account has it |
| AuthRoutes.FirstAccountIsTheAccount | routes/auth_routes.py:22 | since emails are unique, the account found is the only one with that email |
| AuthRoutes.BuildPermisos | routes/auth_routes.py:36-37 | the dict comprehension's loop gives what `PermisosFold` specifies |
| AuthRoutes.PermisosFoldKeys | routes/auth_routes.py:37 | the permissions dict has an entry for exactly the modules the role's rows name |
| AuthRoutes.PermisosFoldLastWins | routes/auth_routes.py:37 | a module's entry is the record of its last row |
| AuthRoutes.PermisosOfRole | routes/auth_routes.py:36-37 | with one row per module, each entry is the record of the role's row for that module |
| AuthRoutes.PermisosOfAgreesWithGate | routes/auth_routes.py:36-37 | with one row per module, the flags login reports are the ones the decorator enforces |
| AuthRoutes.LoginBody | routes/auth_routes.py:42-46 | the 200 body holds exactly `token`, `usuario` and `permisos` |
| AuthRoutes.Login | routes/auth_routes.py:10-46 | the route answers and stores what `LoginResult` gives, and keeps `Valid()` |
| AuthRoutes.LoginStatuses | routes/auth_routes.py:10-46 | the answer is 200, 400, 401 or 500; only a 200 changes a table |
| AuthRoutes.LoginRefusals | routes/auth_routes.py:18-29 | 400 for an empty or absent email or password; for a NUL-free text email, an unknown email and a wrong password get the same 401 "Credenciales inválidas" |
| AuthRoutes.LoginSucceedsIff | routes/auth_routes.py:10-46 | a login succeeds exactly when email and password are non-empty text, the email holds no NUL, and bcrypt accepts the password against the hash of the account with that email |
| AuthRoutes.LoginStamps | routes/auth_routes.py:31-46 | a login stamps only the account's `ultimo_acceso` with the clock, and answers with the token for that account, the stamped record without its hash, and the role's permissions |
| AuthRoutes.LoginKeepsConsistent | routes/auth_routes.py:31-33 | login keeps every constraint |
| AuthRoutes.CreatedAccountCanLogIn | routes/usuarios_routes.py:83-94 | if bcrypt accepts its own hashes, an account made by `create_acceso` logs in with its email and password, and gets the token for its id |
| AuthRoutes.EmptyPasswordLocksOut | routes/auth_routes.py:18-19 | an empty password is refused with 400, so an account created with one can never log in |
| AuthRoutes.GetCurrentUser | routes/auth_routes.py:49-59 | 200 exactly when the token's account exists, answering with its `to_dict()` record (its id and email, no `contrasena_hash`); 404 "Usuario no encontrado" otherwise |
| AuthRoutes.LoginThenMe | routes/auth_routes.py:44-59 | after a login, `/me` for that account answers with the record the login did, without the hash |
| AuthRoutes.Logout | routes/auth_routes.py:62-66 | always 200 with only a `mensaje`: the server keeps no session to end |

## Left out

- JWT: `jwt_required()` and `get_jwt_identity()` are not modelled. The caller's account id is an input to each route, and the token login issues is a parameter `issueToken`.
- bcrypt is two uninterpreted functions in `Models.Crypto`. The salt `gensalt()` draws is a parameter. `AuthRoutes.CreatedAccountCanLogIn` assumes only that `checkpw` accepts a hash made by `hashpw`. `checkpw` raising on a malformed stored hash is not modelled.
- UsuariosRoutes.CreateAccesoSucceedsIff: treats `hashpw` as total. bcrypt 5.0 and later raise `ValueError` for a password longer than 72 UTF-8 bytes, inside the route's `try` (routes/usuarios_routes.py:83), so the source answers 500 where the lemma counts a success; older bcrypt versions silently truncate such a password. The repository pins no bcrypt version.
- AuthRoutes.LoginSucceedsIff: treats `checkpw` as total. With bcrypt 5.0 or later a password longer than 72 UTF-8 bytes makes `checkpw` raise outside any `try` (routes/auth_routes.py:28), so Flask answers 500 where the lemma (and `AuthRoutes.LoginStatuses`) gives 200 or 401.
- The clock `datetime.utcnow()` is a parameter `now`.
- Query strings are taken as already decoded: a `type=int` argument that is absent or not a number is `None`. Werkzeug's parsing is not modelled.
- A request without a JSON body, where `request.get_json()` gives `None`, is not modelled. Bodies are JSON objects.
- JSON numbers with a fraction or an exponent are not modelled: `Values.Json` has integers only, so a float sent for an integer column is not covered.
- HTTP and JSON encoding are not modelled. Responses are a status code and a JSON value.
- The text of a 500 answer is not modelled. The routes return `str(e)`; the model uses one fixed text.
- Login, the listings and the pre-`try` checks have no `except`. An exception there goes to the error handlers app.py registers through `utils.error_handlers`, which is not part of this model. The model takes their answer to be the same 500 as the routes' handlers.
- Transactions are not modelled beyond the rollback, which restores the saved tables. Isolation, concurrency and flush timing are not modelled either.
- PostgreSQL sequences skip the id of a failed insert. The model's sequences advance only on success.
- `ILIKE '%text%'` is modelled as a case-insensitive substring test on ASCII letters. A `%` or `_` in the search text is not treated as a wildcard.
- Date columns accept any text. The database's date parsing, and its refusal of malformed dates, are not modelled.
- The row order of `query.all()` and of the `especificaciones` relationship is not fixed by the code. The model takes it to be increasing id.
- A value the database would cast, such as the text "5" into an integer column, is modelled as refused.
- Decorators.FirstPermiso: picks the least id, where `.first()` without an `ORDER BY` returns whichever matching row the database hands back first. With one row per role and module, as `Decorators.GateAllowsIff` assumes, the choice does not matter.
- Decorators.Gate: takes only the five flag names the decorator's documentation lists (utils/decorators.py:8-9), as the datatype `Flag`. `getattr` with any other name would read that attribute of the row (`modulo` would grant); every route passes one of the five.
- Values.VarcharColumn: PostgreSQL stores text whose characters beyond the width are all spaces, cut to the width. The model refuses it, so the `…SucceedsIff` lemmas of the six write routes count that input as a failure.
- EquiposRoutes.NewEquipo: `fecha_registro` is the day of the insert, the corrected default of the Findings table, not the day the server process started, which the code as written stores.
- UsuariosRoutes.NewAcceso: `fecha_registro` is the day of the insert, the corrected default, not the process start day the code as written stores.
- UsuariosRoutes.CreateAccesoStores: states the corrected `fecha_registro`, the day of the insert, not the process start day.
- Pagination.Paginate: follows `paginate(error_out=False)` of Flask-SQLAlchemy 3.x, where a size below 1 becomes 20. The repository pins no version; 2.x handles a size below 1 differently.
- Integers are unbounded `int`s, except for the listings' LIMIT and OFFSET, which are checked against PostgreSQL's `bigint` (`Pagination.PageFitsBigint`). The 32-bit range of an `Integer` column matters only for a stored value, and every stored integer from a body is a foreign key that must name an existing row; the model does not bound the ids of those rows.
- The `orden` column default of 1 (models/__init__.py:245) is not modelled on its own. Both routes that insert specifications set `orden` themselves, starting from 1 (`EquiposRoutes.StageSpecs`), so the default never applies.
- `FirstAccount` picks the least id, where `.first()` without an order picks whichever row the database returns. The two agree because emails are unique.
- `HistorialMovimiento` and the catalogue routes are not part of this model. No modelled route writes movement history.
- `app.py` is not part of this model. It covers application setup, blueprint registration and the registration of the error handlers.
- `fecha_creacion` columns with a `datetime.utcnow` default are stamped with `now` on insert. The serialisers of people and accounts do not show them.

## Findings

| source | as written | input that shows it | evidently intended | confidence | as-written member | corrected member |
|---|---|---|---|---|---|---|
| models/__init__.py:130 | `default=datetime.utcnow().date` (also at line 198) calls `utcnow()` once, when the module is imported; the bound method of that one date is the default | a server started on 2025-03-01 that registers an account on 2025-03-02 stores `fecha_registro` 2025-03-01 | `default=lambda: datetime.utcnow().date()`, the date of the insert | not executed | Models.FechaRegistroAsWrittenIsStale | UsuariosRoutes.CreateAccesoStores |

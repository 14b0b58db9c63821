/** The `require_permission(modulo, permiso_tipo)` decorator: before a
    protected route runs, the caller must have an account, and the account's
    role must hold the named capability on the module. */
module Decorators {
  import opened Values
  import opened Ordering
  import opened Models

  /** The decorator either lets the wrapped route run or answers for it. */
  datatype Decision = Allow | Deny(status: int, message: string)

  /** The answer a denial sends: `{'error': message}` with its status. */
  function DenyResponse(d: Decision): (r: Response)
    requires d.Deny?
    ensures r.status == d.status && r.body == ErrorBody(d.message)
  {
    Response(d.status, ErrorBody(d.message))
  }

  /** Ids of the permission rows for a role and module
      (`filter_by(rol_id=..., modulo=...)`; a NULL role matches NULL rows). */
  function MatchingPermisos(permisos: map<int, Permiso>, rolId: Option<int>, modulo: string): set<int> {
    set k | k in permisos && permisos[k].rolId == rolId && permisos[k].modulo == modulo
  }

  /** `.first()` of that query: the row with the least id, if any. */
  function FirstPermiso(permisos: map<int, Permiso>, rolId: Option<int>, modulo: string): (r: Option<int>)
    ensures r.None? <==> MatchingPermisos(permisos, rolId, modulo) == {}
    ensures r.Some? ==> r.value in permisos && permisos[r.value].rolId == rolId && permisos[r.value].modulo == modulo
    ensures r.Some? ==> forall k :: k in MatchingPermisos(permisos, rolId, modulo) ==> r.value <= k
  {
    var ids := Ascending(MatchingPermisos(permisos, rolId, modulo));
    if ids == [] then None
    else
      assert forall k :: k in MatchingPermisos(permisos, rolId, modulo) ==> ids[0] <= k by {
        forall k | k in MatchingPermisos(permisos, rolId, modulo)
          ensures ids[0] <= k
        {
          assert k in ids;
          var j :| 0 <= j < |ids| && ids[j] == k;
          assert j == 0 || ids[0] < ids[j];
        }
      }
      Some(ids[0])
  }

  /** The capability a route asks for: one of the five flag columns the
      decorator's documentation lists for `permiso_tipo`. */
  datatype Flag = PuedeCrear | PuedeLeer | PuedeActualizar | PuedeEliminar | PuedeExportar

  /** The `permiso_tipo` string a route passes for a flag: the column's name. */
  function FlagName(f: Flag): (s: string)
    ensures |s| > 6 && s[..6] == "puede_" && '_' !in s[6..]
  {
    match f
    case PuedeCrear => "puede_crear"
    case PuedeLeer => "puede_leer"
    case PuedeActualizar => "puede_actualizar"
    case PuedeEliminar => "puede_eliminar"
    case PuedeExportar => "puede_exportar"
  }

  /** The row's value for a flag: TRUE, FALSE or NULL. */
  function Flagged(p: Permiso, f: Flag): Option<bool> {
    match f
    case PuedeCrear => p.puedeCrear
    case PuedeLeer => p.puedeLeer
    case PuedeActualizar => p.puedeActualizar
    case PuedeEliminar => p.puedeEliminar
    case PuedeExportar => p.puedeExportar
  }

  /** `getattr(permiso, permiso_tipo, False)` under `if not ...`: the flag
      grants only when it is TRUE; FALSE and NULL (`None`) both deny. */
  function Capability(p: Permiso, f: Flag): (b: bool)
    ensures b <==> Flagged(p, f) == Some(true)
  {
    match Flagged(p, f)
    case Some(v) => v
    case None => false
  }

  /** The message of the third denial: `Sin permiso para ` and the
      capability name without `puede_`. */
  function CapabilityMessage(f: Flag): string {
    "Sin permiso para " + ReplaceAll(FlagName(f), "puede_", "")
  }

  /** The decision of `require_permission(modulo, tipo)` for caller `caller`.
      It only reads the account and permission tables. */
  function Gate(accesos: map<int, Acceso>, permisos: map<int, Permiso>, caller: int,
                modulo: string, tipo: Flag): (d: Decision)
    ensures caller !in accesos ==> d == Deny(404, "Usuario no encontrado")
    ensures caller in accesos && MatchingPermisos(permisos, accesos[caller].rolId, modulo) == {} ==>
              d == Deny(403, "Sin permisos en este módulo")
    ensures caller in accesos && FirstPermiso(permisos, accesos[caller].rolId, modulo).Some? &&
            !Capability(permisos[FirstPermiso(permisos, accesos[caller].rolId, modulo).value], tipo) ==>
              d == Deny(403, CapabilityMessage(tipo))
    ensures d.Allow? <==>
              caller in accesos &&
              FirstPermiso(permisos, accesos[caller].rolId, modulo).Some? &&
              Capability(permisos[FirstPermiso(permisos, accesos[caller].rolId, modulo).value], tipo)
  {
    if caller !in accesos then Deny(404, "Usuario no encontrado")
    else
      var first := FirstPermiso(permisos, accesos[caller].rolId, modulo);
      if first.None? then Deny(403, "Sin permisos en este módulo")
      else if !Capability(permisos[first.value], tipo) then Deny(403, CapabilityMessage(tipo))
      else Allow
  }

  /** Every denial is a 404 (no account) or a 403 (no row, or no flag). */
  lemma DenialStatus(accesos: map<int, Acceso>, permisos: map<int, Permiso>, caller: int, modulo: string, tipo: Flag)
    ensures var d := Gate(accesos, permisos, caller, modulo, tipo);
            d.Deny? ==> (d.status == 404 <==> caller !in accesos) && (d.status == 403 <==> caller in accesos)
  {
  }

  /** The role holds at most one row per module. The schema does not enforce
      this. */
  predicate OneRowPerModule(permisos: map<int, Permiso>) {
    forall i, j ::
      (i in permisos && j in permisos &&
       permisos[i].rolId == permisos[j].rolId && permisos[i].modulo == permisos[j].modulo) ==> i == j
  }

  /** With one row per role and module, the route runs exactly when the
      caller has an account and its role has a row for the module whose flag
      is set. */
  lemma {:induction false} GateAllowsIff(accesos: map<int, Acceso>, permisos: map<int, Permiso>, caller: int,
                                         modulo: string, tipo: Flag)
    requires OneRowPerModule(permisos)
    ensures Gate(accesos, permisos, caller, modulo, tipo).Allow? <==>
              caller in accesos &&
              exists k :: k in permisos && permisos[k].rolId == accesos[caller].rolId &&
                          permisos[k].modulo == modulo && Capability(permisos[k], tipo)
  {
    if caller in accesos {
      var rol := accesos[caller].rolId;
      var first := FirstPermiso(permisos, rol, modulo);
      if exists k :: k in permisos && permisos[k].rolId == rol && permisos[k].modulo == modulo && Capability(permisos[k], tipo) {
        var k :| k in permisos && permisos[k].rolId == rol && permisos[k].modulo == modulo && Capability(permisos[k], tipo);
        assert k in MatchingPermisos(permisos, rol, modulo);
        assert first.value == k;
      }
    }
  }

  /** A role whose row for the module carries only the column defaults may
      read and may do nothing else. */
  lemma DefaultRowReadsOnly(accesos: map<int, Acceso>, caller: int, modulo: string)
    requires caller in accesos
    ensures var permisos := map[1 := NewPermiso(accesos[caller].rolId, modulo)];
            Gate(accesos, permisos, caller, modulo, PuedeLeer).Allow? &&
            Gate(accesos, permisos, caller, modulo, PuedeCrear).Deny? &&
            Gate(accesos, permisos, caller, modulo, PuedeActualizar).Deny? &&
            Gate(accesos, permisos, caller, modulo, PuedeEliminar).Deny? &&
            Gate(accesos, permisos, caller, modulo, PuedeExportar).Deny?
  {
    var permisos := map[1 := NewPermiso(accesos[caller].rolId, modulo)];
    assert MatchingPermisos(permisos, accesos[caller].rolId, modulo) == {1};
  }

  /** The 403 message names the capability without its `puede_` prefix:
      `puede_crear` gives "Sin permiso para crear". */
  lemma CapabilityMessageNames(f: Flag)
    ensures CapabilityMessage(f) == "Sin permiso para " + FlagName(f)[6..]
  {
    var s, name := FlagName(f), FlagName(f)[6..];
    assert s == s[..6] + name;
    NoMatchUnchanged(name, "puede_", "");
  }

  /** Text holding no copy of the pattern's last character is left as it is. */
  lemma {:induction false} NoMatchUnchanged(s: string, pat: string, repl: string)
    requires pat != "" && pat[|pat| - 1] !in s
    ensures ReplaceAll(s, pat, repl) == s
    decreases |s|
  {
    if |s| >= |pat| {
      assert s[..|pat|] != pat by {
        assert s[..|pat|][|pat| - 1] == s[|pat| - 1];
      }
      assert pat[|pat| - 1] !in s[1..] by {
        forall i | 0 <= i < |s[1..]|
          ensures s[1..][i] != pat[|pat| - 1]
        {
          assert s[1..][i] == s[i + 1];
        }
      }
      NoMatchUnchanged(s[1..], pat, repl);
      assert [s[0]] + s[1..] == s;
    }
  }
}

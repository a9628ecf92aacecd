/** An assignment of a user (by alias) to a task with a role and a timestamp:
    a value object checked once, when it is built. */
module Asignaciones {
  import opened Base

  /** `ROLES_VALIDOS`: the only roles an assignment may carry. Membership is
      exact string equality, so case matters. */
  const ROLES_VALIDOS: set<string> := {"programador", "pruebas", "infra"}

  datatype Asignacion = Asignacion(usuarioAlias: string, rol: string, fecha: string)

  /** What every assignment built by `NewAsignacion` satisfies once the clock
      gives a non-empty timestamp. */
  predicate Valida(a: Asignacion)
  {
    a.rol in ROLES_VALIDOS && a.fecha != ""
  }

  /** `Asignacion(usuario_alias, rol, fecha)`: rejects a role outside
      ROLES_VALIDOS, otherwise keeps alias and role verbatim. An empty or
      absent `fecha` (both falsy) is replaced by `now`, the current UTC time
      the caller reads from the clock. */
  function NewAsignacion(usuarioAlias: string, rol: string, fecha: string, now: string): (r: Result<Asignacion>)
    ensures r.Failure? <==> rol != "programador" && rol != "pruebas" && rol != "infra"
    ensures r.Failure? ==> r.error == RolInvalido(rol)
    ensures r.Success? ==> r.value.usuarioAlias == usuarioAlias && r.value.rol == rol
    ensures r.Success? && fecha != "" ==> r.value.fecha == fecha
    ensures r.Success? && fecha == "" ==> r.value.fecha == now
    ensures r.Success? && (fecha != "" || now != "") ==> Valida(r.value)
  {
    if rol !in ROLES_VALIDOS then Failure(RolInvalido(rol))
    else Success(Asignacion(usuarioAlias, rol, if fecha != "" then fecha else now))
  }

  /** The role check compares exact strings: a valid role written with any
      upper-case letter is refused. */
  lemma RolCaseSensitive(alias: string, fecha: string, now: string)
    ensures NewAsignacion(alias, "Programador", fecha, now) == Failure(RolInvalido("Programador"))
    ensures NewAsignacion(alias, "PRUEBAS", fecha, now) == Failure(RolInvalido("PRUEBAS"))
    ensures NewAsignacion(alias, "Infra", fecha, now) == Failure(RolInvalido("Infra"))
  {
  }

  /** `to_dict`: exactly the keys usuario_alias, rol and fecha. */
  function ToDict(a: Asignacion): (d: Dict)
    ensures d.Keys == {"usuario_alias", "rol", "fecha"}
    ensures d["usuario_alias"] == Str(a.usuarioAlias) && d["rol"] == Str(a.rol) && d["fecha"] == Str(a.fecha)
  {
    map["usuario_alias" := Str(a.usuarioAlias), "rol" := Str(a.rol), "fecha" := Str(a.fecha)]
  }

  /** `from_dict`: reads usuario_alias, rol and fecha (a missing key fails
      first, in that order), then builds through `NewAsignacion`, so an
      invalid role fails exactly as construction does. */
  function FromDict(d: Dict, now: string): (r: Result<Asignacion>)
    ensures "usuario_alias" !in d ==> r == Failure(FaltaCampo("usuario_alias"))
    ensures HasStrFields(d, ["usuario_alias"]) && "rol" !in d ==> r == Failure(FaltaCampo("rol"))
    ensures HasStrFields(d, ["usuario_alias", "rol"]) && "fecha" !in d ==> r == Failure(FaltaCampo("fecha"))
    ensures HasStrFields(d, ["usuario_alias", "rol", "fecha"]) && d["rol"].s !in ROLES_VALIDOS
            ==> r == Failure(RolInvalido(d["rol"].s))
    ensures r.Success? <==> HasStrFields(d, ["usuario_alias", "rol", "fecha"]) && d["rol"].s in ROLES_VALIDOS
    ensures r.Success? ==> d["usuario_alias"] == Str(r.value.usuarioAlias) && d["rol"] == Str(r.value.rol)
    ensures r.Success? ==> r.value.rol in ROLES_VALIDOS
    ensures r.Success? ==> "fecha" in d && d["fecha"].Str?
                           && r.value.fecha == (if d["fecha"].s != "" then d["fecha"].s else now)
  {
    var alias :- StrField(d, "usuario_alias");
    var rol :- StrField(d, "rol");
    var fecha :- StrField(d, "fecha");
    NewAsignacion(alias, rol, fecha, now)
  }

  /** A valid assignment survives `to_dict` followed by `from_dict`
      unchanged: alias, role and timestamp are reproduced, the clock is not
      consulted. */
  lemma RoundTrip(a: Asignacion, now: string)
    requires Valida(a)
    ensures FromDict(ToDict(a), now) == Success(a)
  {
  }

  /** A dictionary with all three fields whose role is invalid is refused by
      `from_dict` with the construction error for that role. */
  lemma FromDictRolInvalido(d: Dict, now: string)
    requires HasStrFields(d, ["usuario_alias", "rol", "fecha"])
    requires d["rol"].s !in ROLES_VALIDOS
    ensures FromDict(d, now) == Failure(RolInvalido(d["rol"].s))
  {
  }
}

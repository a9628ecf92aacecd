/** The task aggregate: a three-state machine, a list of assignments and a
    list of dependency ids. The transitions are first stated as functions on
    the task's value (`TareaDatos`); the class `Tarea` then performs them in
    place and is proved to follow those functions. */
module Tareas {
  import opened Base
  import A = Asignaciones

  /** `ESTADOS_VALIDOS`: the three states, compared as exact strings. */
  const ESTADOS_VALIDOS: set<string> := {"pendiente", "en_progreso", "finalizada"}

  /** The value of a task: everything `to_dict` exposes. */
  datatype TareaDatos = TareaDatos(
    id: string,
    nombre: string,
    descripcion: string,
    estado: string,
    asignaciones: seq<A.Asignacion>,
    dependencias: seq<string>)

  predicate NoDuplicates(s: seq<string>)
  {
    forall i, j :: 0 <= i < j < |s| ==> s[i] != s[j]
  }

  /** The dependency invariant: no id twice and never the task's own id. */
  predicate DependenciasValidas(t: TareaDatos)
  {
    NoDuplicates(t.dependencias) && t.id !in t.dependencias
  }

  /** At most one assignment per user alias. */
  predicate UnaPorAlias(s: seq<A.Asignacion>)
  {
    forall i, j :: 0 <= i < j < |s| ==> s[i].usuarioAlias != s[j].usuarioAlias
  }

  /** Some assignment of `s` carries `alias`. */
  predicate Asignado(s: seq<A.Asignacion>, alias: string)
  {
    exists a :: a in s && a.usuarioAlias == alias
  }

  // ---------------------------------------------------------------------
  // Construction

  /** `Tarea(nombre, descripcion, asignaciones, estado, dependencias, task_id)`:
      fails on a state outside ESTADOS_VALIDOS; otherwise a non-empty
      `taskId` becomes the id and an empty or absent one is replaced by
      `uuid`, the freshly generated identifier the caller supplies. */
  function NuevaTarea(nombre: string, descripcion: string, asignaciones: seq<A.Asignacion>,
                      estado: string, dependencias: seq<string>, taskId: string, uuid: string): (r: Result<TareaDatos>)
    ensures r.Failure? <==> estado != "pendiente" && estado != "en_progreso" && estado != "finalizada"
    ensures r.Failure? ==> r.error == EstadoInvalido
    ensures r.Success? ==> r.value.id == (if taskId != "" then taskId else uuid)
    ensures r.Success? ==> r.value.nombre == nombre && r.value.descripcion == descripcion && r.value.estado == estado
    ensures r.Success? ==> r.value.asignaciones == asignaciones && r.value.dependencias == dependencias
  {
    if estado !in ESTADOS_VALIDOS then Failure(EstadoInvalido)
    else Success(TareaDatos(if taskId != "" then taskId else uuid, nombre, descripcion, estado, asignaciones, dependencias))
  }

  /** `Tarea(nombre, descripcion)` with every default: pending, no
      assignments, no dependencies, the generated id. */
  lemma NuevaTareaPorDefecto(nombre: string, descripcion: string, uuid: string)
    ensures NuevaTarea(nombre, descripcion, [], "pendiente", [], "", uuid)
            == Success(TareaDatos(uuid, nombre, descripcion, "pendiente", [], []))
  {
  }

  // ---------------------------------------------------------------------
  // The state machine

  /** `set_estado(nuevo)`: an unknown state fails first; leaving
      "finalizada" for any other state fails next; otherwise only the state
      changes. */
  function WithEstado(t: TareaDatos, nuevo: string): (r: Result<TareaDatos>)
    ensures r.Success? <==> nuevo in ESTADOS_VALIDOS && (t.estado == "finalizada" ==> nuevo == "finalizada")
    ensures nuevo !in ESTADOS_VALIDOS ==> r == Failure(EstadoInvalido)
    ensures nuevo in ESTADOS_VALIDOS && t.estado == "finalizada" && nuevo != "finalizada"
            ==> r == Failure(RetrocesoDesdeFinalizada)
    ensures r.Success? ==> r.value.estado == nuevo && r.value == t.(estado := nuevo)
  {
    if nuevo !in ESTADOS_VALIDOS then Failure(EstadoInvalido)
    else if t.estado == "finalizada" && nuevo != "finalizada" then Failure(RetrocesoDesdeFinalizada)
    else Success(t.(estado := nuevo))
  }

  /** The task after a series of `set_estado` calls, each failed call
      leaving it as it was. */
  function SetEstados(t: TareaDatos, requests: seq<string>): TareaDatos
    decreases |requests|
  {
    if requests == [] then t
    else
      var next := match WithEstado(t, requests[0]) case Success(t') => t' case Failure(_) => t;
      SetEstados(next, requests[1..])
  }

  /** Between "pendiente" and "en_progreso" every move is allowed, both ways. */
  lemma TransicionesAbiertas(t: TareaDatos, nuevo: string)
    requires t.estado in {"pendiente", "en_progreso"}
    requires nuevo in ESTADOS_VALIDOS
    ensures WithEstado(t, nuevo) == Success(t.(estado := nuevo))
  {
  }

  /** "finalizada" is terminal: whatever sequence of states is requested,
      a finished task stays finished. */
  lemma {:induction false} FinalizadaEsTerminal(t: TareaDatos, requests: seq<string>)
    requires t.estado == "finalizada"
    ensures SetEstados(t, requests).estado == "finalizada"
    decreases |requests|
  {
    if requests != [] {
      var next := match WithEstado(t, requests[0]) case Success(t') => t' case Failure(_) => t;
      assert next.estado == "finalizada";
      FinalizadaEsTerminal(next, requests[1..]);
    }
  }

  /** A series of `set_estado` calls touches nothing but the state, and the
      state stays one of ESTADOS_VALIDOS. */
  lemma {:induction false} SetEstadosSoloCambiaEstado(t: TareaDatos, requests: seq<string>)
    requires t.estado in ESTADOS_VALIDOS
    ensures SetEstados(t, requests) == t.(estado := SetEstados(t, requests).estado)
    ensures SetEstados(t, requests).estado in ESTADOS_VALIDOS
    decreases |requests|
  {
    if requests != [] {
      var next := match WithEstado(t, requests[0]) case Success(t') => t' case Failure(_) => t;
      SetEstadosSoloCambiaEstado(next, requests[1..]);
    }
  }

  // ---------------------------------------------------------------------
  // Assignments

  /** `add_asignacion(a)`: appends with no check of any kind. */
  function WithAsignacion(t: TareaDatos, a: A.Asignacion): (r: TareaDatos)
    ensures |r.asignaciones| == |t.asignaciones| + 1
    ensures r.asignaciones[..|t.asignaciones|] == t.asignaciones && r.asignaciones[|t.asignaciones|] == a
    ensures r.(asignaciones := t.asignaciones) == t
  {
    t.(asignaciones := t.asignaciones + [a])
  }

  /** The assignments whose alias differs from `alias`, in their original
      order (the comprehension of `remove_asignacion`). */
  function SinAlias(s: seq<A.Asignacion>, alias: string): (r: seq<A.Asignacion>)
    ensures forall a :: a in r ==> a in s && a.usuarioAlias != alias
    ensures forall a :: a in s && a.usuarioAlias != alias ==> a in r
    ensures !Asignado(s, alias) ==> r == s
    ensures Asignado(s, alias) ==> |r| < |s|
  {
    if s == [] then []
    else (if s[0].usuarioAlias == alias then [] else [s[0]]) + SinAlias(s[1..], alias)
  }

  /** Filtering distributes over concatenation: what remains keeps the
      relative order it had. */
  lemma {:induction false} SinAliasConcat(s1: seq<A.Asignacion>, s2: seq<A.Asignacion>, alias: string)
    ensures SinAlias(s1 + s2, alias) == SinAlias(s1, alias) + SinAlias(s2, alias)
  {
    if s1 == [] {
      assert s1 + s2 == s2;
    } else {
      var head := if s1[0].usuarioAlias == alias then [] else [s1[0]];
      assert (s1 + s2)[0] == s1[0];
      assert (s1 + s2)[1..] == s1[1..] + s2;
      SinAliasConcat(s1[1..], s2, alias);
      calc {
        SinAlias(s1 + s2, alias);
        head + SinAlias(s1[1..] + s2, alias);
        head + (SinAlias(s1[1..], alias) + SinAlias(s2, alias));
        (head + SinAlias(s1[1..], alias)) + SinAlias(s2, alias);
        SinAlias(s1, alias) + SinAlias(s2, alias);
      }
    }
  }

  /** `remove_asignacion(alias)`: fails when no assignment carries the
      alias; otherwise drops every assignment that does. */
  function WithoutAlias(t: TareaDatos, alias: string): (r: Result<TareaDatos>)
    ensures r.Failure? <==> !Asignado(t.asignaciones, alias)
    ensures r.Failure? ==> r.error == UsuarioNoAsignado
    ensures r.Success? ==> !Asignado(r.value.asignaciones, alias)
    ensures r.Success? ==> forall a :: a in t.asignaciones && a.usuarioAlias != alias ==> a in r.value.asignaciones
    ensures r.Success? ==> r.value.asignaciones == SinAlias(t.asignaciones, alias)
    ensures r.Success? ==> r.value.(asignaciones := t.asignaciones) == t
  {
    if !Asignado(t.asignaciones, alias) then Failure(UsuarioNoAsignado)
    else
      var r := t.(asignaciones := SinAlias(t.asignaciones, alias));
      assert !Asignado(r.asignaciones, alias) by {
        forall i | 0 <= i < |r.asignaciones| ensures r.asignaciones[i].usuarioAlias != alias {
          assert r.asignaciones[i] in r.asignaciones;
        }
      }
      Success(r)
  }

  /** The check the HTTP layer makes before adding (src/controller.py): an
      assignment for an alias not yet assigned keeps one assignment per
      alias. */
  lemma GuardedAddKeepsOnePerAlias(t: TareaDatos, a: A.Asignacion)
    requires UnaPorAlias(t.asignaciones)
    requires !Asignado(t.asignaciones, a.usuarioAlias)
    ensures UnaPorAlias(WithAsignacion(t, a).asignaciones)
  {
    var s := WithAsignacion(t, a).asignaciones;
    forall i, j | 0 <= i < j < |s| ensures s[i].usuarioAlias != s[j].usuarioAlias {
      if j == |t.asignaciones| {
        assert s[i] == t.asignaciones[i];
      }
    }
  }

  /** Removing an alias keeps one assignment per alias. */
  lemma {:induction false} SinAliasKeepsOnePerAlias(s: seq<A.Asignacion>, alias: string)
    requires UnaPorAlias(s)
    ensures UnaPorAlias(SinAlias(s, alias))
  {
    if s != [] {
      SinAliasKeepsOnePerAlias(s[1..], alias);
      var head := if s[0].usuarioAlias == alias then [] else [s[0]];
      var r := head + SinAlias(s[1..], alias);
      forall i, j | 0 <= i < j < |r| ensures r[i].usuarioAlias != r[j].usuarioAlias {
        if i < |head| {
          assert r[j] in SinAlias(s[1..], alias);
          assert r[j] in s[1..];
        }
      }
    }
  }

  // ---------------------------------------------------------------------
  // Dependencies

  /** `add_dependency(dep)`: the task's own id fails first, an id already
      listed fails next; otherwise the id is appended. */
  function WithDependency(t: TareaDatos, dep: string): (r: Result<TareaDatos>)
    ensures r.Failure? <==> dep == t.id || dep in t.dependencias
    ensures dep == t.id ==> r == Failure(AutoDependencia)
    ensures dep != t.id && dep in t.dependencias ==> r == Failure(DependenciaExistente)
    ensures r.Success? ==> r.value.dependencias == t.dependencias + [dep]
    ensures r.Success? ==> r.value.(dependencias := t.dependencias) == t
  {
    if dep == t.id then Failure(AutoDependencia)
    else if dep in t.dependencias then Failure(DependenciaExistente)
    else Success(t.(dependencias := t.dependencias + [dep]))
  }

  /** Adding a dependency preserves "no duplicates and not the own id". */
  lemma AddDependencyKeepsInvariant(t: TareaDatos, dep: string)
    requires DependenciasValidas(t)
    ensures WithDependency(t, dep).Success? ==> DependenciasValidas(WithDependency(t, dep).value)
  {
    if WithDependency(t, dep).Success? {
      var s := WithDependency(t, dep).value.dependencias;
      forall i, j | 0 <= i < j < |s| ensures s[i] != s[j] {
        if j == |t.dependencias| {
          assert s[i] == t.dependencias[i];
        }
      }
    }
  }

  /** The position of the first occurrence of `x` (what `list.remove`
      searches for). */
  function FirstIndex(s: seq<string>, x: string): (i: nat)
    requires x in s
    ensures i < |s| && s[i] == x && x !in s[..i]
  {
    if s[0] == x then 0 else 1 + FirstIndex(s[1..], x)
  }

  /** `remove_dependency(dep)`: fails when the id is not listed; otherwise
      removes its first occurrence and keeps the others in order. */
  function WithoutDependency(t: TareaDatos, dep: string): (r: Result<TareaDatos>)
    ensures r.Failure? <==> dep !in t.dependencias
    ensures r.Failure? ==> r.error == DependenciaInexistente
    ensures r.Success? ==> exists i :: 0 <= i < |t.dependencias| && t.dependencias[i] == dep && dep !in t.dependencias[..i]
                                       && r.value.dependencias == t.dependencias[..i] + t.dependencias[i + 1..]
    ensures r.Success? ==> r.value.(dependencias := t.dependencias) == t
  {
    if dep !in t.dependencias then Failure(DependenciaInexistente)
    else
      var i := FirstIndex(t.dependencias, dep);
      Success(t.(dependencias := t.dependencias[..i] + t.dependencias[i + 1..]))
  }

  /** Taking out the entry at position `i` shifts the later entries down
      by one. */
  lemma RemoveAtIndex(s: seq<string>, i: nat)
    requires i < |s|
    ensures |s[..i] + s[i + 1..]| == |s| - 1
    ensures forall k :: 0 <= k < |s| - 1 ==> (s[..i] + s[i + 1..])[k] == if k < i then s[k] else s[k + 1]
  {
  }

  /** Taking out the entry at position `i` keeps every other value. */
  lemma RemoveAtIndexKeeps(s: seq<string>, i: nat)
    requires i < |s|
    ensures forall x :: x != s[i] && x in s ==> x in s[..i] + s[i + 1..]
  {
    var r := s[..i] + s[i + 1..];
    RemoveAtIndex(s, i);
    forall x | x != s[i] && x in s ensures x in r {
      var k :| 0 <= k < |s| && s[k] == x;
      if k < i { assert r[k] == x; } else { assert r[k - 1] == x; }
    }
  }

  /** Taking out an entry of a duplicate-free sequence leaves it
      duplicate-free and without that entry's value. */
  lemma RemoveAtIndexNoDuplicates(s: seq<string>, i: nat)
    requires i < |s|
    requires NoDuplicates(s)
    ensures NoDuplicates(s[..i] + s[i + 1..]) && s[i] !in s[..i] + s[i + 1..]
  {
    var r := s[..i] + s[i + 1..];
    RemoveAtIndex(s, i);
    forall k, l | 0 <= k < l < |r| ensures r[k] != r[l] {
      var k' := if k < i then k else k + 1;
      var l' := if l < i then l else l + 1;
      assert r[k] == s[k'] && r[l] == s[l'] && k' < l';
    }
    forall k | 0 <= k < |r| ensures r[k] != s[i] {
      var k' := if k < i then k else k + 1;
      assert r[k] == s[k'] && k' != i;
    }
  }

  /** Under the dependency invariant, removing an id makes it absent, keeps
      every other id and keeps the invariant. */
  lemma RemoveDependencyKeepsInvariant(t: TareaDatos, dep: string)
    requires DependenciasValidas(t)
    requires dep in t.dependencias
    ensures DependenciasValidas(WithoutDependency(t, dep).value)
    ensures dep !in WithoutDependency(t, dep).value.dependencias
    ensures forall x :: x != dep ==> (x in t.dependencias <==> x in WithoutDependency(t, dep).value.dependencias)
  {
    var s := t.dependencias;
    var i := FirstIndex(s, dep);
    RemoveAtIndexKeeps(s, i);
    RemoveAtIndexNoDuplicates(s, i);
    forall x | x in s[..i] + s[i + 1..] ensures x in s {
      RemoveAtIndex(s, i);
    }
  }

  // ---------------------------------------------------------------------
  // Serialisation

  /** `[a.to_dict() for a in asignaciones]` */
  function EncodeAsignaciones(s: seq<A.Asignacion>): (vs: seq<Value>)
    ensures |vs| == |s|
    ensures forall k :: 0 <= k < |s| ==> vs[k] == Obj(A.ToDict(s[k]))
  {
    if s == [] then [] else [Obj(A.ToDict(s[0]))] + EncodeAsignaciones(s[1..])
  }

  /** The dependency ids as a list of strings. */
  function EncodeIds(s: seq<string>): (vs: seq<Value>)
    ensures |vs| == |s|
    ensures forall k :: 0 <= k < |s| ==> vs[k] == Str(s[k])
  {
    if s == [] then [] else [Str(s[0])] + EncodeIds(s[1..])
  }

  /** `to_dict`: the six keys, the assignments as a nested list of
      dictionaries, the dependencies as a list of ids. */
  function ToDict(t: TareaDatos): (d: Dict)
    ensures d.Keys == {"id", "nombre", "descripcion", "estado", "asignaciones", "dependencias"}
    ensures d["id"] == Str(t.id) && d["nombre"] == Str(t.nombre) && d["descripcion"] == Str(t.descripcion)
    ensures d["estado"] == Str(t.estado)
    ensures d["asignaciones"].Arr? && |d["asignaciones"].items| == |t.asignaciones|
    ensures forall k :: 0 <= k < |t.asignaciones| ==> d["asignaciones"].items[k] == Obj(A.ToDict(t.asignaciones[k]))
    ensures d["dependencias"].Arr? && |d["dependencias"].items| == |t.dependencias|
    ensures forall k :: 0 <= k < |t.dependencias| ==> d["dependencias"].items[k] == Str(t.dependencias[k])
  {
    map["id" := Str(t.id),
        "nombre" := Str(t.nombre),
        "descripcion" := Str(t.descripcion),
        "estado" := Str(t.estado),
        "asignaciones" := Arr(EncodeAsignaciones(t.asignaciones)),
        "dependencias" := Arr(EncodeIds(t.dependencias))]
  }

  /** `[Asignacion.from_dict(a) for a in ...]`: every entry must be a
      dictionary that `from_dict` accepts; entry k becomes assignment k, and
      the first entry refused decides the error. */
  function DecodeAsignaciones(items: seq<Value>, now: string): (r: Result<seq<A.Asignacion>>)
    ensures r.Success? <==> forall k :: 0 <= k < |items| ==> items[k].Obj? && A.FromDict(items[k].fields, now).Success?
    ensures r.Success? ==> |r.value| == |items|
    ensures r.Success? ==> forall k :: 0 <= k < |items| ==> items[k].Obj? && A.FromDict(items[k].fields, now) == Success(r.value[k])
    ensures r.Success? ==> forall a :: a in r.value ==> a.rol in A.ROLES_VALIDOS
    ensures r.Failure? ==> exists k :: 0 <= k < |items|
                                       && (forall j :: 0 <= j < k ==> items[j].Obj? && A.FromDict(items[j].fields, now).Success?)
                                       && if items[k].Obj? then A.FromDict(items[k].fields, now) == Failure(r.error)
                                          else r.error == TipoInvalido("asignaciones")
  {
    DecodeAll(items, (_: nat, v: Value) => if v.Obj? then A.FromDict(v.fields, now) else Failure(TipoInvalido("asignaciones")), 0)
  }

  /** The stored dependency list: every entry must be a string, and entry k
      becomes id k. */
  function DecodeIds(items: seq<Value>): (r: Result<seq<string>>)
    ensures r.Success? <==> forall k :: 0 <= k < |items| ==> items[k].Str?
    ensures r.Success? ==> |r.value| == |items| && forall k :: 0 <= k < |items| ==> items[k] == Str(r.value[k])
    ensures r.Failure? ==> r.error == TipoInvalido("dependencias")
  {
    DecodeAll(items, (_: nat, v: Value) => if v.Str? then Success(v.s) else Failure(TipoInvalido("dependencias")), 0)
  }

  /** `from_dict`: assignments are read first (default: none), then nombre,
      descripcion and id are required, estado defaults to "pendiente" and
      dependencias to none, and the result is built through `NuevaTarea`,
      so an invalid state fails as construction does and an empty id is
      replaced by `uuid`. */
  function FromDict(d: Dict, uuid: string, now: string): (r: Result<TareaDatos>)
    ensures r.Success? <==>
              Get(d, "asignaciones", Arr([])).Arr? && DecodeAsignaciones(Get(d, "asignaciones", Arr([])).items, now).Success?
              && HasStrFields(d, ["nombre", "descripcion", "id"])
              && Get(d, "estado", Str("pendiente")).Str? && Get(d, "estado", Str("pendiente")).s in ESTADOS_VALIDOS
              && Get(d, "dependencias", Arr([])).Arr? && DecodeIds(Get(d, "dependencias", Arr([])).items).Success?
    ensures !Get(d, "asignaciones", Arr([])).Arr? ==> r == Failure(TipoInvalido("asignaciones"))
    ensures (Get(d, "asignaciones", Arr([])).Arr? && DecodeAsignaciones(Get(d, "asignaciones", Arr([])).items, now).Failure?)
            ==> r == Failure(DecodeAsignaciones(Get(d, "asignaciones", Arr([])).items, now).error)
    ensures (Get(d, "asignaciones", Arr([])).Arr? && DecodeAsignaciones(Get(d, "asignaciones", Arr([])).items, now).Success?
             && "nombre" !in d) ==> r == Failure(FaltaCampo("nombre"))
    ensures (Get(d, "asignaciones", Arr([])).Arr? && DecodeAsignaciones(Get(d, "asignaciones", Arr([])).items, now).Success?
             && HasStrFields(d, ["nombre"]) && "descripcion" !in d) ==> r == Failure(FaltaCampo("descripcion"))
    ensures (Get(d, "asignaciones", Arr([])).Arr? && DecodeAsignaciones(Get(d, "asignaciones", Arr([])).items, now).Success?
             && HasStrFields(d, ["nombre", "descripcion"]) && "id" !in d) ==> r == Failure(FaltaCampo("id"))
    ensures (Get(d, "asignaciones", Arr([])).Arr? && DecodeAsignaciones(Get(d, "asignaciones", Arr([])).items, now).Success?
             && HasStrFields(d, ["nombre", "descripcion", "id"])
             && Get(d, "estado", Str("pendiente")).Str? && Get(d, "estado", Str("pendiente")).s !in ESTADOS_VALIDOS
             && Get(d, "dependencias", Arr([])).Arr? && DecodeIds(Get(d, "dependencias", Arr([])).items).Success?)
            ==> r == Failure(EstadoInvalido)
    ensures r.Success? ==> "nombre" in d && d["nombre"] == Str(r.value.nombre)
    ensures r.Success? ==> "descripcion" in d && d["descripcion"] == Str(r.value.descripcion)
    ensures r.Success? ==> "id" in d && d["id"].Str? && r.value.id == (if d["id"].s != "" then d["id"].s else uuid)
    ensures r.Success? ==> Get(d, "estado", Str("pendiente")) == Str(r.value.estado) && r.value.estado in ESTADOS_VALIDOS
    ensures r.Success? ==> Get(d, "asignaciones", Arr([])).Arr?
                           && DecodeAsignaciones(Get(d, "asignaciones", Arr([])).items, now) == Success(r.value.asignaciones)
    ensures r.Success? ==> Get(d, "dependencias", Arr([])).Arr?
                           && DecodeIds(Get(d, "dependencias", Arr([])).items) == Success(r.value.dependencias)
    ensures "estado" !in d && r.Success? ==> r.value.estado == "pendiente"
    ensures "asignaciones" !in d && r.Success? ==> r.value.asignaciones == []
    ensures "dependencias" !in d && r.Success? ==> r.value.dependencias == []
  {
    var asigsV := Get(d, "asignaciones", Arr([]));
    if !asigsV.Arr? then Failure(TipoInvalido("asignaciones"))
    else
      var asignaciones :- DecodeAsignaciones(asigsV.items, now);
      var nombre :- StrField(d, "nombre");
      var descripcion :- StrField(d, "descripcion");
      var estadoV := Get(d, "estado", Str("pendiente"));
      var depsV := Get(d, "dependencias", Arr([]));
      var id :- StrField(d, "id");
      if !estadoV.Str? then Failure(TipoInvalido("estado"))
      else if !depsV.Arr? then Failure(TipoInvalido("dependencias"))
      else
        var dependencias :- DecodeIds(depsV.items);
        NuevaTarea(nombre, descripcion, asignaciones, estadoV.s, dependencias, id, uuid)
  }

  /** What a task built by the domain always satisfies: a non-empty id, a
      valid state and assignments that passed their own check. */
  predicate TareaValida(t: TareaDatos)
  {
    t.id != "" && t.estado in ESTADOS_VALIDOS && forall a :: a in t.asignaciones ==> A.Valida(a)
  }

  /** The nested assignment list reads back as the original assignments. */
  lemma DecodeEncodeAsignaciones(s: seq<A.Asignacion>, now: string)
    requires forall a :: a in s ==> A.Valida(a)
    ensures DecodeAsignaciones(EncodeAsignaciones(s), now) == Success(s)
  {
    forall k | 0 <= k < |s| ensures A.FromDict(A.ToDict(s[k]), now) == Success(s[k]) {
      A.RoundTrip(s[k], now);
    }
    var r := DecodeAsignaciones(EncodeAsignaciones(s), now);
    assert r.Success?;
    assert r.value == s;
  }

  /** The dependency list reads back as the original ids. */
  lemma DecodeEncodeIds(s: seq<string>)
    ensures DecodeIds(EncodeIds(s)) == Success(s)
  {
    var r := DecodeIds(EncodeIds(s));
    assert r.Success?;
    assert r.value == s;
  }

  /** The round-trip law: a task built by the domain is reproduced exactly
      by `from_dict(to_dict(t))`, nested assignments and dependencies
      included, and no fresh id is drawn; hence `to_dict` of the copy equals
      `to_dict(t)`. */
  lemma RoundTrip(t: TareaDatos, uuid: string, now: string)
    requires TareaValida(t)
    ensures FromDict(ToDict(t), uuid, now) == Success(t)
    ensures ToDict(FromDict(ToDict(t), uuid, now).value) == ToDict(t)
  {
    DecodeEncodeAsignaciones(t.asignaciones, now);
    DecodeEncodeIds(t.dependencias);
  }

  /** Missing estado reads as "pendiente" and missing lists as empty. */
  lemma FromDictDefaults(d: Dict, uuid: string, now: string)
    requires HasStrFields(d, ["nombre", "descripcion", "id"])
    requires "estado" !in d && "asignaciones" !in d && "dependencias" !in d
    ensures FromDict(d, uuid, now)
            == Success(TareaDatos(if d["id"].s != "" then d["id"].s else uuid,
                                  d["nombre"].s, d["descripcion"].s, "pendiente", [], []))
  {
  }

  /** `from_dict` does not check the dependency invariant: a stored list
      holding the task's own id twice is accepted as it is. Only the
      mutators above keep the invariant. */
  lemma FromDictAdmiteDependenciasInvalidas(uuid: string, now: string)
    ensures var d := map["nombre" := Str("n"), "descripcion" := Str("d"), "id" := Str("x"),
                         "dependencias" := Arr([Str("x"), Str("x")])];
            FromDict(d, uuid, now).Success? && !DependenciasValidas(FromDict(d, uuid, now).value)
  {
  }

  // ---------------------------------------------------------------------
  // The task object

  /** A task whose state, assignments and dependencies change in place. */
  class Tarea {
    var id: string
    var nombre: string
    var descripcion: string
    var estado: string
    var asignaciones: seq<A.Asignacion>
    var dependencias: seq<string>

    /** The task's current value. */
    function Datos(): TareaDatos
      reads this
    {
      TareaDatos(id, nombre, descripcion, estado, asignaciones, dependencias)
    }

    /** Every task object holds one of the three states. */
    ghost predicate Valid()
      reads this
    {
      estado in ESTADOS_VALIDOS
    }

    /** Builds the object for a value whose state has been checked. */
    constructor (t: TareaDatos)
      requires t.estado in ESTADOS_VALIDOS
      ensures Valid() && Datos() == t
    {
      id := t.id;
      nombre := t.nombre;
      descripcion := t.descripcion;
      estado := t.estado;
      asignaciones := t.asignaciones;
      dependencias := t.dependencias;
    }

    /** `Tarea(...)`: a fresh object when `NuevaTarea` accepts the
        arguments, its error otherwise. */
    static method Crear(nombre: string, descripcion: string, asignaciones: seq<A.Asignacion>,
                        estado: string, dependencias: seq<string>, taskId: string, uuid: string)
      returns (r: Result<Tarea>)
      ensures match NuevaTarea(nombre, descripcion, asignaciones, estado, dependencias, taskId, uuid)
              case Success(t) => r.Success? && fresh(r.value) && r.value.Valid() && r.value.Datos() == t
              case Failure(e) => r == Failure(e)
    {
      if estado !in ESTADOS_VALIDOS {
        return Failure(EstadoInvalido);
      }
      var t := new Tarea(TareaDatos(if taskId != "" then taskId else uuid, nombre, descripcion,
                                    estado, asignaciones, dependencias));
      return Success(t);
    }

    method AddAsignacion(a: A.Asignacion)
      requires Valid()
      modifies this
      ensures Valid()
      ensures Datos() == WithAsignacion(old(Datos()), a)
    {
      asignaciones := asignaciones + [a];
    }

    method SetEstado(nuevo: string) returns (res: Outcome)
      requires Valid()
      modifies this
      ensures Valid()
      ensures match WithEstado(old(Datos()), nuevo)
              case Success(t) => res == Pass && Datos() == t
              case Failure(e) => res == Fail(e) && Datos() == old(Datos())
    {
      if nuevo !in ESTADOS_VALIDOS {
        return Fail(EstadoInvalido);
      }
      if estado == "finalizada" && nuevo != "finalizada" {
        return Fail(RetrocesoDesdeFinalizada);
      }
      estado := nuevo;
      return Pass;
    }

    method AddDependency(dep: string) returns (res: Outcome)
      requires Valid()
      modifies this
      ensures Valid()
      ensures match WithDependency(old(Datos()), dep)
              case Success(t) => res == Pass && Datos() == t
              case Failure(e) => res == Fail(e) && Datos() == old(Datos())
      ensures old(DependenciasValidas(Datos())) ==> DependenciasValidas(Datos())
    {
      if DependenciasValidas(Datos()) {
        AddDependencyKeepsInvariant(Datos(), dep);
      }
      if dep == id {
        return Fail(AutoDependencia);
      }
      if dep in dependencias {
        return Fail(DependenciaExistente);
      }
      dependencias := dependencias + [dep];
      return Pass;
    }

    method RemoveDependency(dep: string) returns (res: Outcome)
      requires Valid()
      modifies this
      ensures Valid()
      ensures match WithoutDependency(old(Datos()), dep)
              case Success(t) => res == Pass && Datos() == t
              case Failure(e) => res == Fail(e) && Datos() == old(Datos())
      ensures old(DependenciasValidas(Datos())) ==> DependenciasValidas(Datos()) && dep !in dependencias
    {
      if dep !in dependencias {
        return Fail(DependenciaInexistente);
      }
      if DependenciasValidas(Datos()) {
        RemoveDependencyKeepsInvariant(Datos(), dep);
      }
      var i := FirstIndex(dependencias, dep);
      dependencias := dependencias[..i] + dependencias[i + 1..];
      return Pass;
    }

    method RemoveAsignacion(alias: string) returns (res: Outcome)
      requires Valid()
      modifies this
      ensures Valid()
      ensures match WithoutAlias(old(Datos()), alias)
              case Success(t) => res == Pass && Datos() == t
              case Failure(e) => res == Fail(e) && Datos() == old(Datos())
    {
      if !Asignado(asignaciones, alias) {
        return Fail(UsuarioNoAsignado);
      }
      asignaciones := SinAlias(asignaciones, alias);
      return Pass;
    }
  }
}

/** Shared vocabulary of the task tracker's domain layer: the dictionary
    values the serialisers produce and consume, the errors the domain raises,
    and the failure-compatible result types that carry them. */
module Base {

  /** A value of the dictionaries that `to_dict` builds and `from_dict` reads
      (the shape of the JSON document the repository persists). Only strings,
      lists and string-keyed objects occur in what the domain writes. */
  datatype Value =
    | Str(s: string)
    | Arr(items: seq<Value>)
    | Obj(fields: Dict)

  type Dict = map<string, Value>

  /** One constructor per exception the domain raises, plus `TipoInvalido`,
      which the model reports where a stored value has the wrong shape. */
  datatype Error =
    | FaltaCampo(campo: string)    // `d[key]` on a missing key (KeyError)
    | TipoInvalido(campo: string)  // a field holds a value of the wrong JSON shape
    | RolInvalido(rol: string)     // "Rol inválido: {rol}"
    | EstadoInvalido               // "Estado inválido"
    | RetrocesoDesdeFinalizada     // leaving "finalizada" for another state
    | AutoDependencia              // a task may not depend on itself
    | DependenciaExistente         // the dependency is already listed
    | DependenciaInexistente       // the dependency to remove is not listed
    | UsuarioNoAsignado            // no assignment carries the alias
    | UsuarioDuplicado             // a user with the same id or email exists

  datatype Result<+T> = Success(value: T) | Failure(error: Error) {
    predicate IsFailure() { Failure? }

    function PropagateFailure<U>(): Result<U>
      requires Failure?
    {
      Failure(error)
    }

    function Extract(): T
      requires Success?
    {
      value
    }
  }

  /** The outcome of a mutator that returns nothing when it succeeds. */
  datatype Outcome = Pass | Fail(error: Error)

  datatype Option<+T> = None | Some(value: T)

  /** `d.get(key, default)` */
  function Get(d: Dict, key: string, default: Value): (v: Value)
    ensures key in d ==> v == d[key]
    ensures key !in d ==> v == default
  {
    if key in d then d[key] else default
  }

  /** Every key of `keys` is present in `d` and holds a string. */
  predicate HasStrFields(d: Dict, keys: seq<string>)
  {
    forall k :: k in keys ==> k in d && d[k].Str?
  }

  /** `d[key]` where the value is used as a string. */
  function StrField(d: Dict, key: string): (r: Result<string>)
    ensures r.Success? <==> key in d && d[key].Str?
    ensures r.Success? ==> d[key] == Str(r.value)
    ensures key !in d ==> r == Failure(FaltaCampo(key))
    ensures key in d && !d[key].Str? ==> r == Failure(TipoInvalido(key))
  {
    if key !in d then Failure(FaltaCampo(key))
    else if !d[key].Str? then Failure(TipoInvalido(key))
    else Success(d[key].s)
  }

  /** A list comprehension `[f(x) for x in items]` whose step may raise:
      `f` is given each item with its position shifted by `k`, and the first
      item it refuses decides the error. */
  function DecodeAll<T>(items: seq<Value>, f: (nat, Value) -> Result<T>, k: nat): (r: Result<seq<T>>)
    ensures r.Success? <==> forall i :: 0 <= i < |items| ==> f(k + i, items[i]).Success?
    ensures r.Success? ==> |r.value| == |items|
    ensures r.Success? ==> forall i :: 0 <= i < |items| ==> f(k + i, items[i]) == Success(r.value[i])
    ensures r.Failure? ==> exists i :: 0 <= i < |items| && f(k + i, items[i]) == Failure(r.error)
                                       && forall j :: 0 <= j < i ==> f(k + j, items[j]).Success?
    decreases |items|
  {
    if items == [] then Success([])
    else
      var x :- f(k, items[0]);
      var rest :- DecodeAll(items[1..], f, k + 1);
      Success([x] + rest)
  }
}

/** The repository: ordered lists of users and tasks held in memory, with the
    persisted store reduced to a snapshot value that every save overwrites
    whole. */
module DataHandling {
  import opened Base
  import U = Usuarios
  import T = Tareas

  /** No two users share an id, and no two share an email. */
  predicate UsuariosUnicos(us: seq<U.Usuario>)
  {
    forall i, j :: 0 <= i < j < |us| ==> us[i].id != us[j].id && us[i].email != us[j].email
  }

  /** Some user of `us` has the id or the email of `u`. */
  predicate Choca(us: seq<U.Usuario>, u: U.Usuario)
  {
    exists v :: v in us && (v.id == u.id || v.email == u.email)
  }

  /** Appending a user that clashes with nobody keeps ids and emails unique. */
  lemma AddUserKeepsUnique(us: seq<U.Usuario>, u: U.Usuario)
    requires UsuariosUnicos(us)
    requires !Choca(us, u)
    ensures UsuariosUnicos(us + [u])
  {
    var s := us + [u];
    forall i, j | 0 <= i < j < |s| ensures s[i].id != s[j].id && s[i].email != s[j].email {
      if j == |us| {
        assert s[i] == us[i] && us[i] in us;
      }
    }
  }

  // ---------------------------------------------------------------------
  // The stored snapshot

  /** `[u.to_dict() for u in self.users]` */
  function EncodeUsuarios(us: seq<U.Usuario>): (vs: seq<Value>)
    ensures |vs| == |us|
    ensures forall k :: 0 <= k < |us| ==> vs[k] == Obj(U.ToDict(us[k]))
  {
    if us == [] then [] else [Obj(U.ToDict(us[0]))] + EncodeUsuarios(us[1..])
  }

  /** `[t.to_dict() for t in self.tasks]` */
  function EncodeTareas(ts: seq<T.TareaDatos>): (vs: seq<Value>)
    ensures |vs| == |ts|
    ensures forall k :: 0 <= k < |ts| ==> vs[k] == Obj(T.ToDict(ts[k]))
  {
    if ts == [] then [] else [Obj(T.ToDict(ts[0]))] + EncodeTareas(ts[1..])
  }

  /** The document `_save` writes: the serialised users and tasks, in
      insertion order, under the keys users and tasks. */
  function Snapshot(us: seq<U.Usuario>, ts: seq<T.TareaDatos>): (d: Dict)
    ensures d.Keys == {"users", "tasks"}
    ensures d["users"].Arr? && |d["users"].items| == |us|
    ensures forall k :: 0 <= k < |us| ==> d["users"].items[k] == Obj(U.ToDict(us[k]))
    ensures d["tasks"].Arr? && |d["tasks"].items| == |ts|
    ensures forall k :: 0 <= k < |ts| ==> d["tasks"].items[k] == Obj(T.ToDict(ts[k]))
  {
    map["users" := Arr(EncodeUsuarios(us)), "tasks" := Arr(EncodeTareas(ts))]
  }

  /** `[Usuario.from_dict(u) for u in ...]`: every entry must be a dictionary
      that `from_dict` accepts; entry k becomes user k, and the first entry
      refused decides the error. */
  function DecodeUsuarios(items: seq<Value>): (r: Result<seq<U.Usuario>>)
    ensures r.Success? <==> forall k :: 0 <= k < |items| ==> items[k].Obj? && U.FromDict(items[k].fields).Success?
    ensures r.Success? ==> |r.value| == |items|
    ensures r.Success? ==> forall k :: 0 <= k < |items| ==> items[k].Obj? && U.FromDict(items[k].fields) == Success(r.value[k])
    ensures r.Failure? ==> exists k :: 0 <= k < |items|
                                       && (forall j :: 0 <= j < k ==> items[j].Obj? && U.FromDict(items[j].fields).Success?)
                                       && if items[k].Obj? then U.FromDict(items[k].fields) == Failure(r.error)
                                          else r.error == TipoInvalido("users")
  {
    DecodeAll(items, (_: nat, v: Value) => if v.Obj? then U.FromDict(v.fields) else Failure(TipoInvalido("users")), 0)
  }

  /** `[Tarea.from_dict(t) for t in ...]`: entry k must be a dictionary that
      `from_dict` accepts, reading `uuid(k)` as its generated id; entry k
      becomes task k, and the first entry refused decides the error. */
  function DecodeTareas(items: seq<Value>, uuid: nat -> string, now: string): (r: Result<seq<T.TareaDatos>>)
    ensures r.Success? <==> forall k :: 0 <= k < |items| ==> items[k].Obj? && T.FromDict(items[k].fields, uuid(k), now).Success?
    ensures r.Success? ==> |r.value| == |items|
    ensures r.Success? ==> forall k :: 0 <= k < |items| ==> items[k].Obj? && T.FromDict(items[k].fields, uuid(k), now) == Success(r.value[k])
    ensures r.Success? ==> forall t :: t in r.value ==> t.estado in T.ESTADOS_VALIDOS
    ensures r.Failure? ==> exists k :: 0 <= k < |items|
                                       && (forall j :: 0 <= j < k ==> items[j].Obj? && T.FromDict(items[j].fields, uuid(j), now).Success?)
                                       && if items[k].Obj? then T.FromDict(items[k].fields, uuid(k), now) == Failure(r.error)
                                          else r.error == TipoInvalido("tasks")
  {
    DecodeAll(items, (k: nat, v: Value) => if v.Obj? then T.FromDict(v.fields, uuid(k), now) else Failure(TipoInvalido("tasks")), 0)
  }

  /** `_load`: no store means no users and no tasks; otherwise a missing
      users or tasks key reads as an empty list, and the users are read
      before the tasks. */
  function LoadStore(store: Option<Dict>, uuid: nat -> string, now: string): (r: Result<(seq<U.Usuario>, seq<T.TareaDatos>)>)
    ensures store.None? ==> r == Success(([], []))
    ensures store.Some? ==>
              (r.Success? <==>
                 Get(store.value, "users", Arr([])).Arr? && DecodeUsuarios(Get(store.value, "users", Arr([])).items).Success?
                 && Get(store.value, "tasks", Arr([])).Arr?
                 && DecodeTareas(Get(store.value, "tasks", Arr([])).items, uuid, now).Success?)
    ensures store.Some? && !Get(store.value, "users", Arr([])).Arr? ==> r == Failure(TipoInvalido("users"))
    ensures (store.Some? && Get(store.value, "users", Arr([])).Arr?
             && DecodeUsuarios(Get(store.value, "users", Arr([])).items).Failure?)
            ==> r == Failure(DecodeUsuarios(Get(store.value, "users", Arr([])).items).error)
    ensures (store.Some? && Get(store.value, "users", Arr([])).Arr?
             && DecodeUsuarios(Get(store.value, "users", Arr([])).items).Success?
             && !Get(store.value, "tasks", Arr([])).Arr?)
            ==> r == Failure(TipoInvalido("tasks"))
    ensures (store.Some? && Get(store.value, "users", Arr([])).Arr?
             && DecodeUsuarios(Get(store.value, "users", Arr([])).items).Success?
             && Get(store.value, "tasks", Arr([])).Arr?
             && DecodeTareas(Get(store.value, "tasks", Arr([])).items, uuid, now).Failure?)
            ==> r == Failure(DecodeTareas(Get(store.value, "tasks", Arr([])).items, uuid, now).error)
    ensures store.Some? && r.Success? ==>
              Get(store.value, "users", Arr([])).Arr?
              && DecodeUsuarios(Get(store.value, "users", Arr([])).items) == Success(r.value.0)
    ensures store.Some? && r.Success? ==>
              Get(store.value, "tasks", Arr([])).Arr?
              && DecodeTareas(Get(store.value, "tasks", Arr([])).items, uuid, now) == Success(r.value.1)
    ensures store.Some? && "users" !in store.value && r.Success? ==> r.value.0 == []
    ensures store.Some? && "tasks" !in store.value && r.Success? ==> r.value.1 == []
    ensures r.Success? ==> forall t :: t in r.value.1 ==> t.estado in T.ESTADOS_VALIDOS
  {
    match store
    case None => Success(([], []))
    case Some(data) =>
      var usersV := Get(data, "users", Arr([]));
      if !usersV.Arr? then Failure(TipoInvalido("users"))
      else
        var us :- DecodeUsuarios(usersV.items);
        var tasksV := Get(data, "tasks", Arr([]));
        if !tasksV.Arr? then Failure(TipoInvalido("tasks"))
        else
          var ts :- DecodeTareas(tasksV.items, uuid, now);
          Success((us, ts))
  }

  /** A store without the users and tasks keys loads as two empty lists. */
  lemma LoadMissingKeys(data: Dict, uuid: nat -> string, now: string)
    requires "users" !in data && "tasks" !in data
    ensures LoadStore(Some(data), uuid, now) == Success(([], []))
  {
  }

  /** The stored user list reads back as the same users. */
  lemma DecodeEncodeUsuarios(us: seq<U.Usuario>)
    ensures DecodeUsuarios(EncodeUsuarios(us)) == Success(us)
  {
    forall k | 0 <= k < |us| ensures U.FromDict(U.ToDict(us[k])) == Success(us[k]) {
      U.FromDictToDict(us[k]);
    }
    var r := DecodeUsuarios(EncodeUsuarios(us));
    assert r.Success?;
    assert r.value == us;
  }

  /** The stored task list reads back as the same tasks, whatever ids the
      generator would have drawn. */
  lemma DecodeEncodeTareas(ts: seq<T.TareaDatos>, uuid: nat -> string, now: string)
    requires forall t :: t in ts ==> T.TareaValida(t)
    ensures DecodeTareas(EncodeTareas(ts), uuid, now) == Success(ts)
  {
    forall k | 0 <= k < |ts| ensures T.FromDict(T.ToDict(ts[k]), uuid(k), now) == Success(ts[k]) {
      T.RoundTrip(ts[k], uuid(k), now);
    }
    var r := DecodeTareas(EncodeTareas(ts), uuid, now);
    assert r.Success?;
    assert r.value == ts;
  }

  /** What `_save` writes, `_load` reads back: the same users and the same
      tasks, in the same order, with no identifier regenerated. */
  lemma LoadSnapshot(us: seq<U.Usuario>, ts: seq<T.TareaDatos>, uuid: nat -> string, now: string)
    requires forall t :: t in ts ==> T.TareaValida(t)
    ensures LoadStore(Some(Snapshot(us, ts)), uuid, now) == Success((us, ts))
  {
    DecodeEncodeUsuarios(us);
    DecodeEncodeTareas(ts, uuid, now);
  }

  /** The values of a list of task objects, position by position. */
  function DatosDe(ts: seq<T.Tarea>): (r: seq<T.TareaDatos>)
    reads ts
    ensures |r| == |ts| && forall k :: 0 <= k < |ts| ==> r[k] == ts[k].Datos()
  {
    if ts == [] then [] else [ts[0].Datos()] + DatosDe(ts[1..])
  }

  /** `_load`'s list of task objects: one fresh object per value, in
      order, no two the same object. */
  method NuevosObjetos(ts: seq<T.TareaDatos>) returns (objs: seq<T.Tarea>)
    requires forall t :: t in ts ==> t.estado in T.ESTADOS_VALIDOS
    ensures DatosDe(objs) == ts
    ensures forall t :: t in objs ==> fresh(t) && t.Valid()
    ensures forall i, j :: 0 <= i < j < |objs| ==> objs[i] != objs[j]
  {
    objs := [];
    var i := 0;
    while i < |ts|
      invariant 0 <= i <= |ts|
      invariant |objs| == i
      invariant forall k :: 0 <= k < i ==> fresh(objs[k]) && objs[k].Valid() && objs[k].Datos() == ts[k]
      invariant forall k, l :: 0 <= k < l < i ==> objs[k] != objs[l]
    {
      assert ts[i] in ts;
      var t := new T.Tarea(ts[i]);
      objs := objs + [t];
      i := i + 1;
    }
    assert DatosDe(objs) == ts;
  }

  // ---------------------------------------------------------------------
  // The repository object

  class DataHandler {
    var users: seq<U.Usuario>
    var tasks: seq<T.Tarea>
    /** The persisted store: None while no file exists. */
    var stored: Option<Dict>

    /** The document a save writes for the current users and tasks. */
    function Payload(): Dict
      reads this, tasks
    {
      Snapshot(users, DatosDe(tasks))
    }

    constructor (us: seq<U.Usuario>, ts: seq<T.Tarea>, store: Option<Dict>)
      ensures users == us && tasks == ts && stored == store
    {
      users := us;
      tasks := ts;
      stored := store;
    }

    /** `DataHandler(filename)`: starts empty, then `_load`s the store; a
        store that cannot be read fails the whole construction. */
    static method Open(store: Option<Dict>, uuid: nat -> string, now: string) returns (r: Result<DataHandler>)
      ensures match LoadStore(store, uuid, now)
              case Success(loaded) =>
                r.Success? && fresh(r.value) && r.value.stored == store &&
                r.value.users == loaded.0 && DatosDe(r.value.tasks) == loaded.1 &&
                (forall t :: t in r.value.tasks ==> fresh(t) && t.Valid()) &&
                forall i, j :: 0 <= i < j < |r.value.tasks| ==> r.value.tasks[i] != r.value.tasks[j]
              case Failure(e) => r == Failure(e)
    {
      var loaded := LoadStore(store, uuid, now);
      if loaded.Failure? {
        return Failure(loaded.error);
      }
      var objs := NuevosObjetos(loaded.value.1);
      var h := new DataHandler(loaded.value.0, objs, store);
      return Success(h);
    }

    /** `_save`: overwrites the store with the current users and tasks. */
    method Save()
      modifies this`stored
      ensures stored == Some(Payload())
    {
      stored := Some(Payload());
    }

    /** `add_user`: refuses a user whose id or email is taken, changing
        nothing; otherwise appends it and saves. */
    method AddUser(u: U.Usuario) returns (res: Outcome)
      modifies this
      ensures tasks == old(tasks)
      ensures res.Fail? <==> old(Choca(users, u))
      ensures res.Fail? ==> res.error == UsuarioDuplicado && users == old(users) && stored == old(stored)
      ensures res.Pass? ==> users == old(users) + [u] && stored == Some(Payload())
      ensures old(UsuariosUnicos(users)) ==> UsuariosUnicos(users)
    {
      if Choca(users, u) {
        return Fail(UsuarioDuplicado);
      }
      if UsuariosUnicos(users) {
        AddUserKeepsUnique(users, u);
      }
      users := users + [u];
      Save();
      return Pass;
    }

    /** `get_users`: the users in insertion order, unfiltered. */
    function GetUsers(): (us: seq<U.Usuario>)
      reads this
      ensures us == users
    {
      users
    }

    /** `add_task`: appends without any check on the id, then saves. */
    method AddTask(t: T.Tarea)
      modifies this
      ensures users == old(users) && tasks == old(tasks) + [t]
      ensures stored == Some(Payload())
    {
      tasks := tasks + [t];
      Save();
    }

    /** `get_tasks`: the tasks in insertion order, unfiltered. */
    function GetTasks(): (ts: seq<T.Tarea>)
      reads this
      ensures ts == tasks
    {
      tasks
    }

    /** `find_user_by_email`: the first user with that email, scanning in
        insertion order; None exactly when no user has it. */
    method FindUserByEmail(email: string) returns (r: Option<U.Usuario>)
      ensures r.None? <==> forall i :: 0 <= i < |users| ==> users[i].email != email
      ensures r.Some? ==> exists i :: 0 <= i < |users| && users[i] == r.value && r.value.email == email
                                      && forall j :: 0 <= j < i ==> users[j].email != email
    {
      var i := 0;
      while i < |users|
        invariant 0 <= i <= |users|
        invariant forall j :: 0 <= j < i ==> users[j].email != email
      {
        if users[i].email == email {
          return Some(users[i]);
        }
        i := i + 1;
      }
      return None;
    }

    /** `find_task_by_id`: the first task with that id, scanning in
        insertion order; None exactly when no task has it. */
    method FindTaskById(id: string) returns (r: Option<T.Tarea>)
      ensures r.None? <==> forall i :: 0 <= i < |tasks| ==> tasks[i].id != id
      ensures r.Some? ==> exists i :: 0 <= i < |tasks| && tasks[i] == r.value && r.value.id == id
                                      && forall j :: 0 <= j < i ==> tasks[j].id != id
    {
      var i := 0;
      while i < |tasks|
        invariant 0 <= i <= |tasks|
        invariant forall j :: 0 <= j < i ==> tasks[j].id != id
      {
        if tasks[i].id == id {
          return Some(tasks[i]);
        }
        i := i + 1;
      }
      return None;
    }
  }
}

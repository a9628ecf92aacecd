# Task tracker domain layer in Dafny

This project models the domain layer of a small task tracker. The layer has four parts:

- **Usuario** is a user record: id, name and email. The email doubles as the user's alias.
- **Asignacion** assigns a user alias to a task with a role and a timestamp. The role must be one of `"programador"`, `"pruebas"` or `"infra"`.
- **Tarea** is the task. It holds:
  - a state machine over `"pendiente"`, `"en_progreso"` and `"finalizada"`, where `"finalizada"` is terminal;
  - a list of assignments;
  - a list of dependency ids. `add_dependency` and `remove_dependency` keep it free of duplicates and of the task's own id. The constructor and `from_dict` do not check that rule.
- **DataHandler** is the repository. It keeps the users and tasks in insertion order and rewrites the whole store after every change.

Files and modules:

- `base.dfy` (`Base`) holds the shared types:
  - `Value`/`Dict`, the dictionaries `to_dict` builds and `from_dict` reads;
  - `Error`, with one constructor per exception the source raises, plus `TipoInvalido`, which only the model reports, for a stored value of the wrong shape;
  - `DecodeAll`, a list comprehension whose step may fail, stopping at the first failing item;
  - the result types `Result`, `Outcome` and `Option`.
- `usuario.dfy` (`Usuarios`) models the user as a datatype with no validation.
  - Building a user is the datatype constructor `Usuario(id, name, email)`, which stores the three strings verbatim.
  - The module also has the dictionary serialiser and deserialiser.
- `asignacion.dfy` (`Asignaciones`) models the assignment as a datatype.
  - `NewAsignacion` is a smart constructor that returns an error on an invalid role.
  - The role check is case-sensitive and compares exact strings.
- `tarea.dfy` (`Tareas`) models the task in two layers:
  - functions on the task's value `TareaDatos` state each transition: `WithEstado`, `WithAsignacion`, `WithoutAlias`, `WithDependency` and `WithoutDependency`;
  - the class `Tarea` performs the same operations in place on its fields, and each method is proved to follow its function;
  - a failing call changes nothing.
  - The lemmas cover the terminal state, the dependency invariant, order-preserving removal of assignments and the `to_dict`/`from_dict` round trip.
  - `to_dict` of a task object is `ToDict(t.Datos())`.
  - `from_dict` is the function `FromDict`; it yields the value the constructor builds the object from.
- `data_handler.dfy` (`DataHandling`) models the repository as a class:
  - `users` and `tasks` are list fields that the methods append to;
  - `stored` is the persisted store, `None` while no file exists;
  - `Save` overwrites `stored` with `Snapshot(users, tasks)`;
  - `Open` is the constructor followed by `_load`;
  - the lookups are first-match loops.

The role check compares the Spanish literals exactly; only the HTTP layer (`src/controller.py`) lower-cases input.

## Model

| member | source | states |
|---|---|---|
| Usuarios.ToDict | src/models/usuario.py:7-8 | the dictionary has exactly the keys id, name, email, each holding the matching field |
| Usuarios.GetUserInfo | src/models/usuario.py:10-11 | `get_user_info()` is the same dictionary as `to_dict()` |
| Usuarios.FromDict | src/models/usuario.py:13-15 | succeeds exactly when id, name and email are present as strings; the user holds those three values; the first missing key among id, name, email, in that order, fails with its KeyError; extra keys are ignored |
| Usuarios.FromDictToDict | src/models/usuario.py:7-15 | `from_dict(u.to_dict())` gives back `u` with the same id, name and email |
| Usuarios.ToDictFromDict | src/models/usuario.py:7-15 | for a dictionary with exactly the keys id, name and email, `from_dict(d).to_dict() == d` |
| Asignaciones.NewAsignacion | src/models/asignacion.py:5-12 | fails with the role error exactly when the role is not one of the three literals; otherwise alias and role are kept verbatim, a non-empty fecha is kept, and an empty one becomes the clock's value |
| Asignaciones.RolCaseSensitive | src/models/asignacion.py:5-9 | capitalised spellings of valid roles are refused |
| Asignaciones.ToDict | src/models/asignacion.py:14-19 | exactly the keys usuario_alias, rol, fecha, each holding the matching field |
| Asignaciones.FromDict | src/models/asignacion.py:21-23 | succeeds exactly when the three fields are strings and the role is valid; the first missing key among usuario_alias, rol, fecha, in that order, fails with its KeyError, and an invalid role then fails with the construction error; the result carries the stored alias and role; the fecha is the stored one, or the clock's value when the stored one is empty |
| Asignaciones.RoundTrip | src/models/asignacion.py:7-23 | for a valid assignment with non-empty fecha, `from_dict(to_dict(a))` reproduces alias, role and fecha without reading the clock |
| Asignaciones.FromDictRolInvalido | src/models/asignacion.py:21-23 | `from_dict` on a dictionary with an invalid role fails with the same role error as construction |
| Tareas.NuevaTarea | src/models/tarea.py:7-25 | fails with the state error exactly when the state is outside the three; otherwise a non-empty task_id becomes the id, an empty one is replaced by the generated id, and the other arguments are stored |
| Tareas.NuevaTareaPorDefecto | src/models/tarea.py:9-25 | with every default, a task is "pendiente", has no assignments and no dependencies, and takes the generated id |
| Tareas.WithEstado | src/models/tarea.py:30-35 | `set_estado(x)` succeeds exactly when x is valid and the task is not finished or x is "finalizada"; an invalid x fails first; on success only the state changes, to x |
| Tareas.TransicionesAbiertas | src/models/tarea.py:30-35 | from "pendiente" or "en_progreso", every valid state is reachable in one call |
| Tareas.FinalizadaEsTerminal | src/models/tarea.py:33-35 | a finished task stays "finalizada" under any sequence of `set_estado` calls |
| Tareas.SetEstadosSoloCambiaEstado | src/models/tarea.py:30-35 | any sequence of `set_estado` calls changes only the state, which stays valid |
| Tareas.WithAsignacion | src/models/tarea.py:27-28 | appends with no check: the list grows by exactly one, the new assignment is last, nothing else changes |
| Tareas.SinAlias | src/models/tarea.py:52-54 | the kept assignments are exactly those of the list whose alias differs; the list is unchanged when no assignment has the alias and shorter when one does |
| Tareas.SinAliasConcat | src/models/tarea.py:52-54 | filtering distributes over concatenation, so the remaining assignments keep their original order |
| Tareas.WithoutAlias | src/models/tarea.py:49-54 | fails with "not assigned" exactly when no assignment has the alias; otherwise the new list is `SinAlias` of the old one, so no assignment with the alias remains, every other one is kept in order, and nothing else changes |
| Tareas.GuardedAddKeepsOnePerAlias | src/controller.py:110-114 | with the HTTP layer's "already assigned" guard, adding keeps at most one assignment per alias |
| Tareas.SinAliasKeepsOnePerAlias | src/models/tarea.py:49-54 | removing an alias keeps at most one assignment per alias |
| Tareas.WithDependency | src/models/tarea.py:37-42 | fails exactly when the id is the task's own (checked first) or already listed; otherwise the id is appended at the end and nothing else changes |
| Tareas.AddDependencyKeepsInvariant | src/models/tarea.py:37-42 | adding a dependency preserves "no duplicates and not the own id" |
| Tareas.FirstIndex | src/models/tarea.py:47 | the position `list.remove` removes is the first occurrence of the id |
| Tareas.WithoutDependency | src/models/tarea.py:44-47 | fails exactly when the id is not listed; otherwise removes its first occurrence and keeps the other entries in order |
| Tareas.RemoveDependencyKeepsInvariant | src/models/tarea.py:44-47 | under the invariant, the removed id is gone afterwards, every other id stays, and the invariant still holds |
| Tareas.EncodeAsignaciones | src/models/tarea.py:62 | entry k is `to_dict()` of assignment k |
| Tareas.EncodeIds | src/models/tarea.py:63 | entry k is dependency id k |
| Tareas.ToDict | src/models/tarea.py:56-64 | exactly the six keys; scalar fields map to their values; entry k of the assignments list is `to_dict()` of assignment k, and entry k of the dependencies list is id k |
| Tareas.DecodeAsignaciones | src/models/tarea.py:68 | succeeds exactly when every entry is a dictionary that `Asignacion.from_dict` accepts; assignment k is `from_dict` of entry k, with a valid role; otherwise the first refused entry decides the error |
| Tareas.DecodeIds | src/models/tarea.py:74 | succeeds exactly when every entry is a string, and id k is entry k |
| Tareas.FromDict | src/models/tarea.py:66-76 | succeeds exactly when the assignments read, nombre, descripcion and id are strings, the state (default "pendiente") is valid and the dependencies read; the assignments are read first, then a missing nombre, descripcion or id fails with its KeyError, in that order; an invalid state fails with the constructor's error; on success nombre and descripcion come from the dictionary, the id is the stored one or the generated one when it is empty, the state is `d.get("estado", "pendiente")`, and the assignments and dependencies are the decoded stored lists; each missing optional key, on its own, reads as its default |
| Tareas.DecodeEncodeAsignaciones | src/models/tarea.py:62-68 | the nested assignment list reads back as the original assignments |
| Tareas.DecodeEncodeIds | src/models/tarea.py:63-74 | the dependency list reads back as the original ids |
| Tareas.RoundTrip | src/models/tarea.py:56-76 | for a task with non-empty id and fechas, `from_dict(to_dict(t))` is `t` and `from_dict(t.to_dict()).to_dict() == t.to_dict()` |
| Tareas.FromDictDefaults | src/models/tarea.py:68-74 | a dictionary holding only nombre, descripcion and id is accepted, as a pending task with no assignments and no dependencies |
| Tareas.FromDictAdmiteDependenciasInvalidas | src/models/tarea.py:66-76 | `from_dict` accepts a dependency list that breaks the invariant (the own id, twice) |
| Tareas.Tarea.Crear | src/models/tarea.py:9-25 | returns a fresh valid object holding `NuevaTarea`'s value, or its error |
| Tareas.Tarea.AddAsignacion | src/models/tarea.py:27-28 | the object's new value is `WithAsignacion` of its old value |
| Tareas.Tarea.SetEstado | src/models/tarea.py:30-35 | follows `WithEstado`: on failure it returns the error and the object is unchanged; on success the new value is the one `WithEstado` gives |
| Tareas.Tarea.AddDependency | src/models/tarea.py:37-42 | follows `WithDependency` the same way and preserves the dependency invariant |
| Tareas.Tarea.RemoveDependency | src/models/tarea.py:44-47 | follows `WithoutDependency` the same way; under the invariant, the id is absent afterwards |
| Tareas.Tarea.RemoveAsignacion | src/models/tarea.py:49-54 | follows `WithoutAlias` the same way |
| DataHandling.AddUserKeepsUnique | src/data_handler.py:19-22 | appending a user whose id and email are both unused keeps ids and emails pairwise distinct |
| DataHandling.EncodeUsuarios | src/data_handler.py:37 | entry k is `to_dict()` of user k |
| DataHandling.EncodeTareas | src/data_handler.py:38 | entry k is `to_dict()` of task k |
| DataHandling.Snapshot | src/data_handler.py:35-39 | the stored document has exactly the keys users and tasks; entry k of each list is `to_dict()` of user k or task k |
| DataHandling.DatosDe | src/data_handler.py:38 | the serialised task list has the value of each task object, position by position |
| Base.DecodeAll | src/data_handler.py:48-49 | a comprehension whose step may raise succeeds exactly when every item is accepted, item k then giving result k; otherwise the first refused item decides the error |
| DataHandling.DecodeUsuarios | src/data_handler.py:48 | succeeds exactly when every entry is a dictionary that `Usuario.from_dict` accepts; user k is `from_dict` of entry k; otherwise the first refused entry decides the error |
| DataHandling.DecodeTareas | src/data_handler.py:49 | succeeds exactly when every entry is a dictionary that `Tarea.from_dict` accepts; task k is `from_dict` of entry k, with a valid state; otherwise the first refused entry decides the error |
| DataHandling.LoadStore | src/data_handler.py:43-49 | with no store both lists are empty; otherwise it succeeds exactly when both lists read, the users are the decoded `data.get("users", [])` and the tasks the decoded `data.get("tasks", [])`, a failing user list fails with its own error before the tasks are read, and a failing task list then fails with its own error, and each missing key, on its own, reads as an empty list |
| DataHandling.LoadMissingKeys | src/data_handler.py:48-49 | missing users and tasks keys load as empty lists |
| DataHandling.DecodeEncodeUsuarios | src/data_handler.py:37-48 | the stored user list reads back as the same users |
| DataHandling.DecodeEncodeTareas | src/data_handler.py:38-49 | the stored task list reads back as the same tasks |
| DataHandling.LoadSnapshot | src/data_handler.py:35-49 | loading what a save wrote gives the same users and tasks in the same order |
| DataHandling.NuevosObjetos | src/data_handler.py:49 | one fresh valid task object per value, in order, no two the same object |
| DataHandling.DataHandler.Open | src/data_handler.py:13-17 | builds the repository from the store: the loaded users, one fresh valid task object per loaded task with no object shared, and the store kept as is; a store that cannot be read fails |
| DataHandling.DataHandler.Save | src/data_handler.py:35-41 | the store becomes the snapshot of the current users and tasks |
| DataHandling.DataHandler.AddUser | src/data_handler.py:19-23 | fails exactly when some user shares the id or the email, leaving users and store unchanged; otherwise appends and saves; keeps ids and emails unique |
| DataHandling.DataHandler.GetUsers | src/data_handler.py:25-26 | returns the user list itself, in insertion order |
| DataHandling.DataHandler.AddTask | src/data_handler.py:28-30 | appends with no id check and saves; users unchanged |
| DataHandling.DataHandler.GetTasks | src/data_handler.py:32-33 | returns the task list itself, in insertion order |
| DataHandling.DataHandler.FindUserByEmail | src/data_handler.py:51-52 | returns the first user with that email in insertion order; None exactly when no user has it |
| DataHandling.DataHandler.FindTaskById | src/data_handler.py:54-55 | returns the first task with that id in insertion order; None exactly when no task has it |

## Left out

- File and JSON I/O in `_save`/`_load`: the store is an abstract snapshot value, so indentation, encoding, disk errors and malformed files are not modelled. A store that exists is assumed to hold a dictionary.
- `uuid.uuid4()` and `datetime.utcnow()` are parameters:
  - `uuid` stands for the generated task id; when loading, a stored task at position k with an empty id receives `uuid(k)`;
  - `now` stands for the timestamp; one `now` serves every assignment read during a load, where the source reads the clock once per assignment.
- Dynamic typing: the dictionary values model strings, lists and objects only, so JSON numbers, booleans and null are left out. Where the source would keep a value of another shape, such as a list where a string is expected or a falsy non-list for `dependencias`, the model reports `TipoInvalido`.
- Python list aliasing is not modelled. `asignaciones or []`, `dependencias or []`, `from_dict` passing the dictionary's list through, and `get_users`/`get_tasks` returning the live list all share mutable lists in the source; here the lists are owned values.
- Error messages are modelled as `Error` constructors, not as their text.
- `src/controller.py` is the HTTP routing layer and is not part of this model. That includes:
  - the lower-casing of role, state and action;
  - the status codes;
  - the duplicated `GET /usuarios` route.
  
  Its "already assigned" guard appears only as the precondition of `Tareas.GuardedAddKeepsOnePerAlias`.

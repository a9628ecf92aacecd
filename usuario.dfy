/** The user record: an id, a display name and the email that serves as the
    user's alias everywhere else. Built once, never changed, no validation. */
module Usuarios {
  import opened Base

  /** `Usuario(user_id, name, email)`: the constructor stores the three
      strings exactly as given. */
  datatype Usuario = Usuario(id: string, name: string, email: string)

  /** The dictionary shape of a user: exactly the keys id, name and email. */
  predicate IsUsuarioDict(d: Dict)
  {
    d.Keys == {"id", "name", "email"} &&
    d["id"].Str? && d["name"].Str? && d["email"].Str?
  }

  /** `to_dict`: the three fields under their own names, nothing else. */
  function ToDict(u: Usuario): (d: Dict)
    ensures IsUsuarioDict(d)
    ensures d["id"] == Str(u.id) && d["name"] == Str(u.name) && d["email"] == Str(u.email)
  {
    map["id" := Str(u.id), "name" := Str(u.name), "email" := Str(u.email)]
  }

  /** `get_user_info`: the same dictionary as `to_dict`. */
  function GetUserInfo(u: Usuario): (d: Dict)
    ensures d == ToDict(u)
    ensures IsUsuarioDict(d)
  {
    ToDict(u)
  }

  /** `from_dict`: reads id, name and email (in that order, failing on the
      first missing one) and ignores any other key. */
  function FromDict(d: Dict): (r: Result<Usuario>)
    ensures r.Success? <==> HasStrFields(d, ["id", "name", "email"])
    ensures r.Success? ==> Str(r.value.id) == d["id"] && Str(r.value.name) == d["name"]
                           && Str(r.value.email) == d["email"]
    ensures "id" !in d ==> r == Failure(FaltaCampo("id"))
    ensures HasStrFields(d, ["id"]) && "name" !in d ==> r == Failure(FaltaCampo("name"))
    ensures HasStrFields(d, ["id", "name"]) && "email" !in d ==> r == Failure(FaltaCampo("email"))
  {
    var id :- StrField(d, "id");
    var name :- StrField(d, "name");
    var email :- StrField(d, "email");
    Success(Usuario(id, name, email))
  }

  /** Serialising and reading back yields the same user. */
  lemma FromDictToDict(u: Usuario)
    ensures FromDict(ToDict(u)) == Success(u)
  {
  }

  /** A dictionary of exactly the user shape is reproduced by reading it and
      writing it back. */
  lemma ToDictFromDict(d: Dict)
    requires IsUsuarioDict(d)
    ensures FromDict(d).Success? && ToDict(FromDict(d).value) == d
  {
    var u := FromDict(d).value;
    assert ToDict(u).Keys == d.Keys;
  }
}

/** The account endpoints: registration with its duplicate-email check, login
    with a single answer for every credential failure, and the profile update
    that collects the changed fields one by one. Request bodies are JSON
    objects whose values are strings; a key the handler indexes but the body
    lacks raises `KeyError`, which the handler's `except` turns into a 500
    carrying `str(e)`. Access tokens are not part of the model. */
module Auth {
  import opened Wrappers
  import opened Users

  /** `str(KeyError(key))`. */
  function KeyErrorMessage(key: string): string {
    "'" + key + "'"
  }

  /** The public part of an account returned after registering or logging in. */
  datatype UserInfo = UserInfo(id: nat, name: string, email: string, role: string)

  datatype AuthReply =
    | Failure(status: int, msg: string)
    | Signed(status: int, user: UserInfo)

  /** The first of `keys` that `body` lacks, in evaluation order. */
  function FirstMissing(body: map<string, string>, keys: seq<string>): (r: Option<string>)
    ensures r.None? <==> forall k :: k in keys ==> k in body
    ensures r.Some? ==> r.value in keys && r.value !in body
  {
    if keys == [] then None
    else if keys[0] !in body then Some(keys[0])
    else FirstMissing(body, keys[1..])
  }

  /** The body keys `register` reads, in the order Python evaluates them:
      `data['email']` first, then the constructor's keyword arguments. */
  const RegisterKeys: seq<string> := ["email", "name", "email", "password", "department"]

  /** `POST /register`. */
  method Register(store: UserStore, body: map<string, string>, salt: string, now: nat)
    returns (reply: AuthReply)
    modifies store
    ensures "email" !in body ==>
      reply == Failure(500, KeyErrorMessage("email")) && store.users == old(store.users)
    ensures "email" in body && FindByEmail(old(store.users), body["email"]).Some? ==>
      reply == Failure(400, "User already exists") && store.users == old(store.users)
    ensures "email" in body && FindByEmail(old(store.users), body["email"]).None?
            && FirstMissing(body, RegisterKeys).Some? ==>
      reply == Failure(500, KeyErrorMessage(FirstMissing(body, RegisterKeys).value))
      && store.users == old(store.users)
    ensures reply.Signed? <==>
      FirstMissing(body, RegisterKeys).None? && FindByEmail(old(store.users), body["email"]).None?
    ensures reply.Signed? ==>
      var u := NewUser(body["name"], body["email"], body["password"], body["department"], salt, now);
      store.users == old(store.users) + [u]
      && reply == Signed(201, UserInfo(|old(store.users)|, u.name, u.email, DefaultRole))
    ensures old(UniqueEmails(store.users)) ==> UniqueEmails(store.users)
  {
    if "email" !in body {
      return Failure(500, KeyErrorMessage("email"));
    }
    var existing := FindByEmail(store.users, body["email"]);
    if existing.Some? {
      return Failure(400, "User already exists");
    }
    var missing := FirstMissing(body, RegisterKeys);
    if missing.Some? {
      return Failure(500, KeyErrorMessage(missing.value));
    }
    var u := NewUser(body["name"], body["email"], body["password"], body["department"], salt, now);
    var id := store.Save(u);
    reply := Signed(201, UserInfo(id, u.name, u.email, u.role));
  }

  const InvalidCredentials: string := "Invalid credentials"

  /** `POST /login`: the first user with the given email, if the given
      password verifies against that user's hash. */
  function Login(users: seq<User>, body: map<string, string>): (reply: AuthReply)
    ensures "email" !in body ==> reply == Failure(500, KeyErrorMessage("email"))
    ensures reply.Signed? <==>
      "email" in body && "password" in body
      && exists i :: 0 <= i < |users| && users[i].email == body["email"]
                     && CheckPasswordHash(users[i].password, body["password"])
                     && forall j :: 0 <= j < i ==> users[j].email != body["email"]
    ensures reply.Signed? ==>
      var i := reply.user.id;
      i < |users| && reply == Signed(200, UserInfo(i, users[i].name, users[i].email, users[i].role))
  {
    if "email" !in body then Failure(500, KeyErrorMessage("email"))
    else match FindByEmail(users, body["email"])
      case None => Failure(400, InvalidCredentials)
      case Some(i) =>
        if "password" !in body then Failure(500, KeyErrorMessage("password"))
        else if !CheckPasswordHash(users[i].password, body["password"]) then Failure(400, InvalidCredentials)
        else Signed(200, UserInfo(i, users[i].name, users[i].email, users[i].role))
  }

  /** An unknown email and a wrong password get the same answer. */
  lemma LoginFailuresIndistinguishable(users: seq<User>, body: map<string, string>)
    requires "email" in body && "password" in body
    requires FindByEmail(users, body["email"]).None?
      || !CheckPasswordHash(users[FindByEmail(users, body["email"]).value].password, body["password"])
    ensures Login(users, body) == Failure(400, InvalidCredentials)
  {
  }

  /** Whoever has just registered can log in with the same email and
      password, and is given the new account. */
  lemma {:induction false} LoginAfterRegister(users: seq<User>, body: map<string, string>, salt: string, now: nat)
    requires FirstMissing(body, RegisterKeys).None?
    requires FindByEmail(users, body["email"]).None?
    ensures
      var u := NewUser(body["name"], body["email"], body["password"], body["department"], salt, now);
      Login(users + [u], body) == Signed(200, UserInfo(|users|, u.name, u.email, DefaultRole))
  {
    assert "email" in RegisterKeys && "password" in RegisterKeys;
    var u := NewUser(body["name"], body["email"], body["password"], body["department"], salt, now);
    var all := users + [u];
    assert all[|users|] == u;
    assert forall j :: 0 <= j < |users| ==> all[j].email != body["email"];
    assert FindByEmail(all, body["email"]) == Some(|users|);
  }

  datatype ProfileReply =
    | ProfileFailure(status: int, msg: string)
    | ProfileView(user: Option<UserView>)

  /** The fields `PATCH /me` collects before writing; `None` is a key left out
      of `update_data`. */
  datatype UserPatch = UserPatch(
    name: Option<string>,
    email: Option<string>,
    department: Option<string>,
    password: Option<PasswordHash>)

  /** `$set` of the collected fields. */
  function ApplyPatch(u: User, p: UserPatch): (v: User)
    ensures v.role == u.role && v.createdAt == u.createdAt
    ensures p == UserPatch(None, None, None, None) ==> v == u
  {
    u.(name := p.name.GetOr(u.name),
       email := p.email.GetOr(u.email),
       department := p.department.GetOr(u.department),
       password := p.password.GetOr(u.password))
  }

  /** `PATCH /me` for the authenticated user `current`. */
  method UpdateCurrentUser(store: UserStore, current: nat, data: map<string, string>, salt: string)
    returns (reply: ProfileReply)
    requires current < |store.users|
    modifies store
    ensures |store.users| == |old(store.users)|
    ensures forall j :: 0 <= j < |store.users| && j != current ==> store.users[j] == old(store.users)[j]
    ensures reply.ProfileFailure? <==>
      "email" in data
      && var holder := FindByEmail(old(store.users), data["email"]);
         holder.Some? && holder.value != current
    ensures reply.ProfileFailure? ==>
      reply == ProfileFailure(400, "Email already in use") && store.users == old(store.users)
    ensures reply.ProfileView? ==>
      var was, now := old(store.users)[current], store.users[current];
      && now.name == (if "name" in data then data["name"] else was.name)
      && now.email == (if "email" in data then data["email"] else was.email)
      && now.department == (if "department" in data then data["department"] else was.department)
      && now.password == (if "password" in data && data["password"] != ""
                          then GeneratePasswordHash(data["password"], salt) else was.password)
      && now.role == was.role && now.createdAt == was.createdAt
      && reply == ProfileView(ToDict(Some((current, now))))
    ensures "name" !in data && "email" !in data && "department" !in data
            && ("password" !in data || data["password"] == "") ==>
      store.users == old(store.users)
    ensures old(UniqueEmails(store.users)) ==> UniqueEmails(store.users)
  {
    var update := UserPatch(None, None, None, None);
    if "name" in data {
      update := update.(name := Some(data["name"]));
    }
    if "email" in data {
      var existing := FindByEmail(store.users, data["email"]);
      if existing.Some? && existing.value != current {
        return ProfileFailure(400, "Email already in use");
      }
      update := update.(email := Some(data["email"]));
    }
    if "department" in data {
      update := update.(department := Some(data["department"]));
    }
    if "password" in data && data["password"] != "" {
      update := update.(password := Some(GeneratePasswordHash(data["password"], salt)));
    }
    if update != UserPatch(None, None, None, None) {
      store.Replace(current, ApplyPatch(store.users[current], update));
    }
    reply := ProfileView(ToDict(Some((current, store.users[current]))));
  }
}

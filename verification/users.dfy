/** The users collection: account records with a salted password hash, the
    `employee` default role, lookup by email and the password-free view the
    API hands out. */
module Users {
  import opened Wrappers

  /** `generate_password_hash(password)`: a one-way digest of `secret` under
      a random `salt`. The model keeps the pair, which is exactly what
      `check_password_hash` needs to recompute the digest; the digest
      function itself and the random salt are not part of the model (the
      salt is a parameter). */
  datatype PasswordHash = Hashed(salt: string, secret: string)

  function GeneratePasswordHash(password: string, salt: string): PasswordHash {
    Hashed(salt, password)
  }

  /** `check_password_hash(stored, provided)`: rehashing the provided password
      with the stored salt reproduces the stored hash. */
  predicate CheckPasswordHash(stored: PasswordHash, provided: string)
    ensures CheckPasswordHash(stored, provided)
      <==> stored == GeneratePasswordHash(provided, stored.salt)
  {
    stored.secret == provided
  }

  /** A user document. The id of a stored user is its position in the store. */
  datatype User = User(
    name: string,
    email: string,
    password: PasswordHash,
    department: string,
    role: string,
    createdAt: nat)

  const DefaultRole: string := "employee"

  /** `User(name, email, password, department, role='employee')`, created at
      time `now`: the plaintext is replaced by its hash, and only the given
      password verifies against the stored one. */
  function NewUser(name: string, email: string, password: string, department: string,
                   salt: string, now: nat, role: string := DefaultRole): (u: User)
    ensures u.name == name && u.email == email && u.department == department
    ensures u.role == role && u.createdAt == now
    ensures forall provided :: CheckPasswordHash(u.password, provided) <==> provided == password
  {
    User(name, email, GeneratePasswordHash(password, salt), department, role, now)
  }

  /** `find_one({"email": email})`: the first user in insertion order with
      that email, or `None`. */
  function FindByEmail(users: seq<User>, email: string): (r: Option<nat>)
    ensures r.Some? ==> r.value < |users| && users[r.value].email == email
    ensures r.Some? ==> forall j :: 0 <= j < r.value ==> users[j].email != email
    ensures r.None? <==> forall j :: 0 <= j < |users| ==> users[j].email != email
  {
    if users == [] then None
    else if users[0].email == email then Some(0)
    else match FindByEmail(users[1..], email)
      case None => None
      case Some(i) => Some(i + 1)
  }

  /** `find_one({"_id": ...})`. */
  function FindById(users: seq<User>, id: nat): (r: Option<User>)
    ensures r.Some? <==> id < |users|
    ensures r.Some? ==> r.value == users[id]
  {
    if id < |users| then Some(users[id]) else None
  }

  /** No two users share an email: what the duplicate checks on registration
      and on profile update keep. */
  ghost predicate UniqueEmails(users: seq<User>) {
    forall i, j :: 0 <= i < j < |users| ==> users[i].email != users[j].email
  }

  /** The user document as the API returns it: every key but `password`. */
  datatype UserView = UserView(
    id: nat,
    name: string,
    email: string,
    department: string,
    role: string,
    createdAt: nat)

  /** `User.to_dict(user)`: `None` stays `None`; otherwise the id is kept and
      the `password` key removed. */
  function ToDict(doc: Option<(nat, User)>): (r: Option<UserView>)
    ensures r.None? <==> doc.None?
  {
    match doc
    case None => None
    case Some((id, u)) => Some(UserView(id, u.name, u.email, u.department, u.role, u.createdAt))
  }

  /** The view forgets the password and nothing else: two documents have the
      same view exactly when they differ at most in their password. */
  lemma ToDictDropsOnlyPassword(id1: nat, a: User, id2: nat, b: User)
    ensures ToDict(Some((id1, a))) == ToDict(Some((id2, b)))
      <==> id1 == id2 && a.(password := b.password) == b
  {
    if ToDict(Some((id1, a))) == ToDict(Some((id2, b))) {
      var x, y := ToDict(Some((id1, a))).value, ToDict(Some((id2, b))).value;
      assert x.name == y.name && x.email == y.email && x.department == y.department;
      assert x.role == y.role && x.createdAt == y.createdAt;
    }
  }

  /** The users collection. */
  class UserStore {
    var users: seq<User>

    constructor ()
      ensures users == []
    {
      users := [];
    }

    /** `User.save()`: inserts the document and returns its id. */
    method Save(u: User) returns (id: nat)
      modifies this
      ensures users == old(users) + [u]
      ensures id == |old(users)| && users[id] == u
    {
      id := |users|;
      users := users + [u];
    }

    /** `update_one({"_id": id}, {"$set": ...})` with the new document `u`. */
    method Replace(id: nat, u: User)
      requires id < |users|
      modifies this
      ensures users == old(users)[id := u]
    {
      users := users[id := u];
    }
  }
}

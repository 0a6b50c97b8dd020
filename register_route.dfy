/**
 * Registration (src/app/api/auth/register/route.ts): the required fields, the role a
 * newcomer may choose, the duplicate-email guard, and the stored user with its password
 * hashed. bcrypt.hash is a parameter.
 */
module RegisterRoute {
  import opened Wrappers
  import opened Ids
  import opened Strings
  import opened Http
  import opened Documents
  import opened UserModel

  /** The destructured request body; a key that is missing is None. */
  datatype RegisterBody = RegisterBody(
    name: Option<string>,
    email: Option<string>,
    password: Option<string>,
    role: Option<string>)

  datatype Message = Message(message: string)

  /** allowedRoles.includes(role) ? role : "client": nobody registers as an admin. */
  function NormaliseRole(role: Option<string>): (r: Role)
    ensures r == Org <==> role == Some("org")
    ensures r == Client <==> role != Some("org")
    ensures r != Admin
  {
    if role == Some("org") then Org else Client
  }

  /** !name || !email || !password fails. */
  predicate Filled(body: RegisterBody) {
    Truthy(body.name) && Truthy(body.email) && Truthy(body.password)
  }

  /**
   * The reply that ends the request before anything is written: the field check first,
   * then the email lookup. None when the request goes on to create the user.
   */
  function Refusal(body: RegisterBody, users: seq<User>): (r: Option<Reply<Message>>)
    ensures !Filled(body) ==> r == Some(Error(400, "Name, email, and password are required"))
    ensures Filled(body) && EmailTaken(users, body.email.value) ==> r == Some(Error(409, "Email already registered"))
    ensures r.None? <==> Filled(body) && !EmailTaken(users, body.email.value)
  {
    if !Filled(body) then Some(Error(400, "Name, email, and password are required"))
    else if FindByEmail(users, body.email.value).Some? then Some(Error(409, "Email already registered"))
    else None
  }

  /** What User.create receives: the hash in place of the password, and the normalised role. */
  function DraftOf(body: RegisterBody, hash: string -> string): UserDraft
    requires Filled(body)
  {
    UserDraft(body.name, body.email, Some(hash(body.password.value)), Some(RoleName(NormaliseRole(body.role))))
  }

  /**
   * Once the guards pass, User.create stores exactly the requested user, with the
   * hashed password and the normalised role, unless the hash is empty (which bcrypt
   * never returns): then the required password path refuses it.
   */
  lemma CreateStoresHashedUser(users: seq<User>, body: RegisterBody, hash: string -> string, id: ObjectId, now: Timestamp)
    requires Refusal(body, users).None?
    ensures TryInsert(users, DraftOf(body, hash), id, now).Err? <==> hash(body.password.value) == ""
    ensures hash(body.password.value) != "" ==>
      TryInsert(users, DraftOf(body, hash), id, now)
        == Ok(User(id, body.name.value, body.email.value, hash(body.password.value), NormaliseRole(body.role), now, now))
  {
    var d := DraftOf(body, hash);
    if hash(body.password.value) != "" {
      var u := NewUser(d, id, now).value;
      assert RoleName(u.role) == RoleName(NormaliseRole(body.role));
      assert u.role == NormaliseRole(body.role);
    }
  }

  /** POST /api/auth/register against the registry. */
  method Post(body: RegisterBody, registry: UserRegistry, hash: string -> string, now: Timestamp)
    returns (reply: Reply<Message>)
    requires registry.Valid()
    modifies registry
    ensures registry.Valid()
    ensures Refusal(body, old(registry.users)).Some? ==>
      && reply == Refusal(body, old(registry.users)).value
      && registry.users == old(registry.users) && registry.nextId == old(registry.nextId)
    ensures Refusal(body, old(registry.users)).None? ==>
      var r := TryInsert(old(registry.users), DraftOf(body, hash), old(registry.nextId), now);
      && (r.Ok? ==> reply == Reply(200, Json(Message("Registered successfully")))
                    && registry.users == old(registry.users) + [r.value])
      && (r.Err? ==> reply == Reply(500, Unhandled)
                     && registry.users == old(registry.users) && registry.nextId == old(registry.nextId))
  {
    var refusal := Refusal(body, registry.users);
    if refusal.Some? {
      return refusal.value;
    }
    var r := registry.Insert(DraftOf(body, hash), now);
    if r.Ok? {
      reply := Reply(200, Json(Message("Registered successfully")));
    } else {
      reply := Reply(500, Unhandled);
    }
  }
}

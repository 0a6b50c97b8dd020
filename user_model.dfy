/**
 * The user registry (src/models/User.ts): the role enum with its default, the required
 * paths, and the unique index on email.
 */
module UserModel {
  import opened Wrappers
  import opened Ids
  import opened Documents

  datatype Role = Admin | Org | Client

  function RoleName(r: Role): string {
    match r
    case Admin => "admin"
    case Org => "org"
    case Client => "client"
  }

  /** The enum rule of the role path. */
  function ParseRole(name: string): (r: Option<Role>)
    ensures r.Some? <==> name == "admin" || name == "org" || name == "client"
    ensures r.Some? ==> RoleName(r.value) == name
  {
    if name == "admin" then Some(Admin)
    else if name == "org" then Some(Org)
    else if name == "client" then Some(Client)
    else None
  }

  /** A stored user; the password path holds whatever string was stored (a bcrypt hash). */
  datatype User = User(
    id: ObjectId,
    name: string,
    email: string,
    password: string,
    role: Role,
    createdAt: Timestamp,
    updatedAt: Timestamp)

  datatype UserDraft = UserDraft(
    name: Option<string>,
    email: Option<string>,
    password: Option<string>,
    role: Option<string>)

  /** A missing role defaults to "client". */
  function DraftRole(d: UserDraft): Option<Role> {
    if d.role.None? then Some(Client) else ParseRole(d.role.value)
  }

  function UserChecks(d: UserDraft): seq<Check> {
    [ Check("name", PresentString(d.name)),
      Check("email", PresentString(d.email)),
      Check("password", PresentString(d.password)),
      Check("role", DraftRole(d).Some?) ]
  }

  /** Validation of a draft: the user it becomes, with the default role filled in. */
  function NewUser(d: UserDraft, id: ObjectId, now: Timestamp): (r: Result<User, DbError>)
    ensures r.Ok? <==>
      PresentString(d.name) && PresentString(d.email) && PresentString(d.password) &&
      (d.role.None? || ParseRole(d.role.value).Some?)
    ensures r.Ok? ==>
      && r.value.id == id && r.value.name == d.name.value && r.value.email == d.email.value
      && r.value.password == d.password.value
      && (d.role.None? ==> r.value.role == Client)
      && (d.role.Some? ==> RoleName(r.value.role) == d.role.value)
      && r.value.createdAt == now && r.value.updatedAt == now
    ensures r.Err? ==> r.error.ValidationFailed? && r.error.paths != []
  {
    var failing := Failing(UserChecks(d));
    if failing != [] then Err(ValidationFailed(failing))
    else
      assert UserChecks(d)[0].holds && UserChecks(d)[1].holds;
      assert UserChecks(d)[2].holds && UserChecks(d)[3].holds;
      Ok(User(id, d.name.value, d.email.value, d.password.value, DraftRole(d).value, now, now))
  }

  const EmailIndex: string := "email_1"

  predicate EmailTaken(users: seq<User>, email: string) {
    exists i :: 0 <= i < |users| && users[i].email == email
  }

  /** No two users share an email. */
  predicate EmailsUnique(users: seq<User>) {
    forall i, j :: 0 <= i < j < |users| ==> users[i].email != users[j].email
  }

  /** User.findOne({ email }): the user registered under email, if any. */
  function FindByEmail(users: seq<User>, email: string): (r: Option<User>)
    ensures r.Some? <==> EmailTaken(users, email)
    ensures r.Some? ==> r.value in users && r.value.email == email
  {
    if users == [] then None
    else if users[0].email == email then Some(users[0])
    else FindByEmail(users[1..], email)
  }

  /** The user with the given id, as populate("organizer") looks it up. */
  function FindById(users: seq<User>, id: ObjectId): (r: Option<User>)
    ensures r.Some? <==> exists i :: 0 <= i < |users| && users[i].id == id
    ensures r.Some? ==> r.value in users && r.value.id == id
  {
    if users == [] then None
    else if users[0].id == id then Some(users[0])
    else FindById(users[1..], id)
  }

  /** With unique emails, the user found by email is the only one holding it. */
  lemma FindByEmailIsTheOwner(users: seq<User>, i: nat)
    requires EmailsUnique(users) && i < |users|
    ensures FindByEmail(users, users[i].email) == Some(users[i])
  {
    var u := FindByEmail(users, users[i].email).value;
    var k :| 0 <= k < |users| && users[k] == u;
    assert users[k].email == users[i].email;
  }

  /** User.create against the registry: validation first, then the unique index. */
  function TryInsert(users: seq<User>, d: UserDraft, id: ObjectId, now: Timestamp): (r: Result<User, DbError>)
    ensures r.Ok? <==> NewUser(d, id, now).Ok? && !EmailTaken(users, d.email.value)
    ensures r.Ok? ==> r == NewUser(d, id, now)
    ensures NewUser(d, id, now).Ok? && EmailTaken(users, d.email.value) ==> r == Err(DuplicateKey(EmailIndex))
  {
    match NewUser(d, id, now)
    case Err(e) => Err(e)
    case Ok(u) => if EmailTaken(users, u.email) then Err(DuplicateKey(EmailIndex)) else Ok(u)
  }

  lemma InsertKeepsEmailsUnique(users: seq<User>, d: UserDraft, id: ObjectId, now: Timestamp)
    requires EmailsUnique(users) && TryInsert(users, d, id, now).Ok?
    ensures EmailsUnique(users + [TryInsert(users, d, id, now).value])
  {
    var u' := users + [TryInsert(users, d, id, now).value];
    forall i, j | 0 <= i < j < |u'| ensures u'[i].email != u'[j].email {
      if j == |users| {
        assert u'[i] == users[i];
      }
    }
  }

  class UserRegistry {
    var users: seq<User>
    var nextId: ObjectId

    ghost predicate Valid()
      reads this
    {
      && EmailsUnique(users)
      && (forall i :: 0 <= i < |users| ==> users[i].id < nextId)
      && (forall i, j :: 0 <= i < j < |users| ==> users[i].id < users[j].id)
    }

    constructor()
      ensures Valid() && users == [] && nextId == 0
    {
      users, nextId := [], 0;
    }

    /** User.create: an invalid draft, or one whose email is registered, changes nothing. */
    method Insert(d: UserDraft, now: Timestamp) returns (r: Result<User, DbError>)
      requires Valid()
      modifies this
      ensures Valid()
      ensures r == TryInsert(old(users), d, old(nextId), now)
      ensures r.Ok? ==> users == old(users) + [r.value] && nextId == old(nextId) + 1
      ensures r.Err? ==> users == old(users) && nextId == old(nextId)
    {
      r := TryInsert(users, d, nextId, now);
      if r.Ok? {
        InsertKeepsEmailsUnique(users, d, nextId, now);
        users := users + [r.value];
        nextId := nextId + 1;
      }
    }
  }
}

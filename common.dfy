/** Option and Result, used wherever the application has an absent value or an error path. */
module Wrappers {

  datatype Option<+T> = None | Some(value: T) {
    function GetOr(default: T): T {
      match this
      case Some(v) => v
      case None => default
    }
  }

  datatype Result<+R, +E> = Ok(value: R) | Err(error: E)
}

/** Identifiers and timestamps as the database hands them out. */
module Ids {

  /** A MongoDB ObjectId; only equality between ids matters to the application. */
  type ObjectId = nat

  /** A point in time in milliseconds, as a JavaScript Date holds it. */
  type Timestamp = int
}

/** The JavaScript number operations the application relies on, over exact reals. */
module JsNumbers {

  function Max(a: int, b: int): (m: int)
    ensures m >= a && m >= b && (m == a || m == b)
  {
    if a >= b then a else b
  }

  function AbsReal(x: real): (r: real)
    ensures r >= 0.0 && (r == x || r == -x)
  {
    if x < 0.0 then -x else x
  }

  /** Math.round: the nearest integer, a half rounded towards positive infinity. */
  function Round(x: real): (n: int)
    ensures n as real - 0.5 <= x < n as real + 0.5
  {
    (x + 0.5).Floor
  }

  lemma RoundMonotone(x: real, y: real)
    requires x <= y
    ensures Round(x) <= Round(y)
  {
  }

  lemma RoundOfInteger(n: int)
    ensures Round(n as real) == n
  {
  }

  /** The length that Array.from({ length: n }) produces for an integral n. */
  function ArrayLength(n: int): (len: nat)
    ensures n >= 0 ==> len == n
    ensures n < 0 ==> len == 0
  {
    if n < 0 then 0 else n
  }
}

/** HTTP replies as the route handlers build them with NextResponse.json. */
module Http {

  datatype Body<+T> =
    | Json(value: T)
    | ErrorMessage(error: string, details: seq<string>)
    | Unhandled  // an exception escaped the handler and the framework answered on its own

  datatype Reply<+T> = Reply(status: int, body: Body<T>)

  function Error<T>(status: int, message: string): (r: Reply<T>)
    ensures r.status == status && r.body.ErrorMessage? && r.body.error == message
  {
    Reply(status, ErrorMessage(message, []))
  }
}

/** String predicates of JavaScript. */
module Strings {
  import opened Wrappers

  /** s.startsWith(prefix) */
  predicate StartsWith(s: string, prefix: string) {
    |prefix| <= |s| && s[..|prefix|] == prefix
  }

  /** An optional string that JavaScript treats as true: present and non-empty. */
  predicate Truthy(v: Option<string>) {
    v.Some? && v.value != ""
  }
}

/** The session that the authentication layer supplies to a request (src/lib/config/auth.config.ts). */
module Sessions {
  import opened Wrappers
  import opened Ids

  /** session.user: the id comes from the token subject and the role from the token, unchecked. */
  datatype SessionUser = SessionUser(id: ObjectId, name: string, email: string, role: string)

  /** A session may exist without a user object. */
  datatype Session = Session(user: Option<SessionUser>)

  /** A session that carries a user. */
  predicate SignedIn(session: Option<Session>) {
    session.Some? && session.value.user.Some?
  }

  function Caller(session: Option<Session>): SessionUser
    requires SignedIn(session)
  {
    session.value.user.value
  }
}

/** A parsed JSON request body. A key missing from an object is JavaScript's undefined. */
module Json {
  import opened Wrappers

  datatype Json =
    | JNull
    | JBool(b: bool)
    | JNumber(n: real)
    | JString(s: string)
    | JArray(items: seq<Json>)
    | JObject(fields: map<string, Json>)

  /** body[key], with None for undefined. */
  function Member(body: Json, key: string): Option<Json> {
    if body.JObject? && key in body.fields then Some(body.fields[key]) else None
  }
}

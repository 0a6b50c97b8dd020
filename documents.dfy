/**
 * What the schemas of src/models have in common: Mongoose's `required` rule, the
 * validation error that lists every failing path, and the error a unique index raises.
 */
module Documents {
  import opened Wrappers

  /** Why a document was not stored. */
  datatype DbError =
    | ValidationFailed(paths: seq<string>)  // every path whose rule failed, in schema order
    | DuplicateKey(index: string)           // the unique index that already holds the key

  /** `required: true` on a String path: the value is present and not the empty string. */
  predicate PresentString(v: Option<string>) {
    v.Some? && |v.value| > 0
  }

  /** A path of a schema together with whether its rules hold for the document. */
  datatype Check = Check(path: string, holds: bool)

  /** The paths whose rules fail, in schema order. */
  function Failing(checks: seq<Check>): (r: seq<string>)
    ensures r == [] <==> forall i :: 0 <= i < |checks| ==> checks[i].holds
    ensures forall p :: p in r <==> exists i :: 0 <= i < |checks| && checks[i].path == p && !checks[i].holds
  {
    if checks == [] then []
    else (if checks[0].holds then [] else [checks[0].path]) + Failing(checks[1..])
  }
}

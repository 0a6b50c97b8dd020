/**
 * eventSchema (src/lib/validations/event.ts) applied with safeParse to a JSON body.
 * Date.parse is a parameter: it gives None where JavaScript gives NaN.
 */
module EventValidation {
  import opened Wrappers
  import opened Ids
  import opened Json
  import opened EventModel

  /** The rule a field broke. */
  datatype Rule =
    | Required      // the key is missing
    | WrongType     // the value has another JSON type
    | TooShort      // .min(5) on a string
    | InvalidDate   // the refine on Date.parse
    | BelowMinimum  // .min(1) on a number
    | NotInEnum     // z.enum(["public", "private"])

  /** One issue of a failed parse; the path "" stands for the body itself. */
  datatype Issue = Issue(path: string, rule: Rule)

  /** The data of a successful parse: the schema's fields and nothing else. */
  datatype EventInput = EventInput(
    title: string,
    date: string,
    location: string,
    availableSeats: real,
    eventType: EventType,
    stage: Option<string>)

  // The field rules, stated on the value of a key (None when the key is missing).

  predicate LongEnough(v: Option<Json>, min: nat) {
    v.Some? && v.value.JString? && |v.value.s| >= min
  }

  predicate ParsableDate(v: Option<Json>, dateParse: string -> Option<Timestamp>) {
    v.Some? && v.value.JString? && dateParse(v.value.s).Some?
  }

  predicate AtLeast(v: Option<Json>, min: real) {
    v.Some? && v.value.JNumber? && v.value.n >= min
  }

  predicate KnownType(v: Option<Json>) {
    v.Some? && v.value.JString? && ParseEventType(v.value.s).Some?
  }

  predicate OptionalString(v: Option<Json>) {
    v.None? || v.value.JString?
  }

  /** The body is an object and every field rule holds. */
  predicate ValidEvent(body: Json, dateParse: string -> Option<Timestamp>) {
    && body.JObject?
    && LongEnough(Member(body, "title"), 5)
    && ParsableDate(Member(body, "date"), dateParse)
    && LongEnough(Member(body, "location"), 5)
    && AtLeast(Member(body, "availableSeats"), 1.0)
    && KnownType(Member(body, "type"))
    && OptionalString(Member(body, "stage"))
  }

  // The issues each field schema reports.

  function TypeOrRequired(path: string, v: Option<Json>): Issue {
    Issue(path, if v.None? then Required else WrongType)
  }

  function MinLengthIssues(path: string, v: Option<Json>, min: nat): (r: seq<Issue>)
    ensures r == [] <==> LongEnough(v, min)
    ensures |r| <= 1 && forall i :: 0 <= i < |r| ==> r[i].path == path
  {
    if v.Some? && v.value.JString? then
      if |v.value.s| >= min then [] else [Issue(path, TooShort)]
    else [TypeOrRequired(path, v)]
  }

  /** The refine runs only on a value that passed z.string(). */
  function DateIssues(v: Option<Json>, dateParse: string -> Option<Timestamp>): (r: seq<Issue>)
    ensures r == [] <==> ParsableDate(v, dateParse)
    ensures |r| <= 1 && forall i :: 0 <= i < |r| ==> r[i].path == "date"
  {
    if v.Some? && v.value.JString? then
      if dateParse(v.value.s).Some? then [] else [Issue("date", InvalidDate)]
    else [TypeOrRequired("date", v)]
  }

  function MinNumberIssues(path: string, v: Option<Json>, min: real): (r: seq<Issue>)
    ensures r == [] <==> AtLeast(v, min)
    ensures |r| <= 1 && forall i :: 0 <= i < |r| ==> r[i].path == path
  {
    if v.Some? && v.value.JNumber? then
      if v.value.n >= min then [] else [Issue(path, BelowMinimum)]
    else [TypeOrRequired(path, v)]
  }

  function EnumIssues(v: Option<Json>): (r: seq<Issue>)
    ensures r == [] <==> KnownType(v)
    ensures |r| <= 1 && forall i :: 0 <= i < |r| ==> r[i].path == "type"
  {
    if v.Some? && v.value.JString? then
      if ParseEventType(v.value.s).Some? then [] else [Issue("type", NotInEnum)]
    else [TypeOrRequired("type", v)]
  }

  /** z.string().optional(): undefined passes, null does not. */
  function OptionalStringIssues(v: Option<Json>): (r: seq<Issue>)
    ensures r == [] <==> OptionalString(v)
    ensures |r| <= 1 && forall i :: 0 <= i < |r| ==> r[i].path == "stage"
  {
    if OptionalString(v) then [] else [Issue("stage", WrongType)]
  }

  /** The issues of every field, in the order of the schema's keys. */
  function FieldIssues(body: Json, dateParse: string -> Option<Timestamp>): (r: seq<Issue>)
    ensures r == [] <==>
      && LongEnough(Member(body, "title"), 5)
      && ParsableDate(Member(body, "date"), dateParse)
      && LongEnough(Member(body, "location"), 5)
      && AtLeast(Member(body, "availableSeats"), 1.0)
      && KnownType(Member(body, "type"))
      && OptionalString(Member(body, "stage"))
  {
    MinLengthIssues("title", Member(body, "title"), 5)
      + DateIssues(Member(body, "date"), dateParse)
      + MinLengthIssues("location", Member(body, "location"), 5)
      + MinNumberIssues("availableSeats", Member(body, "availableSeats"), 1.0)
      + EnumIssues(Member(body, "type"))
      + OptionalStringIssues(Member(body, "stage"))
  }

  /**
   * eventSchema.safeParse(body): the parsed fields when every rule holds, otherwise
   * every issue found; a body that is not an object fails as a whole.
   */
  function SafeParse(body: Json, dateParse: string -> Option<Timestamp>): (r: Result<EventInput, seq<Issue>>)
    ensures r.Ok? <==> ValidEvent(body, dateParse)
    ensures r.Ok? ==>
      && Member(body, "title") == Some(JString(r.value.title))
      && Member(body, "date") == Some(JString(r.value.date))
      && Member(body, "location") == Some(JString(r.value.location))
      && Member(body, "availableSeats") == Some(JNumber(r.value.availableSeats))
      && Member(body, "type") == Some(JString(EventTypeName(r.value.eventType)))
      && (r.value.stage.None? <==> Member(body, "stage").None?)
      && (r.value.stage.Some? ==> Member(body, "stage") == Some(JString(r.value.stage.value)))
    ensures r.Ok? ==>
      |r.value.title| >= 5 && |r.value.location| >= 5 && r.value.availableSeats >= 1.0 &&
      dateParse(r.value.date).Some?
    ensures r.Err? ==> r.error != []
  {
    if !body.JObject? then Err([Issue("", WrongType)])
    else
      var issues := FieldIssues(body, dateParse);
      if issues != [] then Err(issues)
      else
        var stage := Member(body, "stage");
        Ok(EventInput(
          Member(body, "title").value.s,
          Member(body, "date").value.s,
          Member(body, "location").value.s,
          Member(body, "availableSeats").value.n,
          ParseEventType(Member(body, "type").value.s).value,
          if stage.None? then None else Some(stage.value.s)))
  }

  /** The messages the schema itself sets; the other issues carry zod's own wording. */
  function CustomMessage(issue: Issue): Option<string> {
    match issue
    case Issue("title", TooShort) => Some("Title must be at least 5 characters")
    case Issue("date", InvalidDate) => Some("Invalid date format")
    case Issue("location", TooShort) => Some("Location must be at least 5 characters")
    case Issue("availableSeats", BelowMinimum) => Some("Available seats must be at least 1")
    case _ => None
  }

  /** A string stage, or none at all, never changes the verdict. */
  lemma StageNeverDecides(fields: map<string, Json>, stage: string, dateParse: string -> Option<Timestamp>)
    ensures ValidEvent(JObject(fields["stage" := JString(stage)]), dateParse)
        == ValidEvent(JObject(fields - {"stage"}), dateParse)
  {
    var with, without := JObject(fields["stage" := JString(stage)]), JObject(fields - {"stage"});
    assert forall k :: k != "stage" ==> Member(with, k) == Member(without, k);
    assert Member(with, "title") == Member(without, "title");
    assert Member(with, "date") == Member(without, "date");
    assert Member(with, "location") == Member(without, "location");
    assert Member(with, "availableSeats") == Member(without, "availableSeats");
    assert Member(with, "type") == Member(without, "type");
  }
}

/**
 * What the two generation endpoints share: the request body as `request.json()`
 * yields it, the validation of the required fields, the text of the learner's
 * interests, the calls to the language model, and the JSON responses.
 */
module Routes {
  import opened Wrappers
  import opened Text
  import opened Json
  import opened Prompts

  /** The outcome of `await request.json()`: the parsed body, or the message
      of the error it throws when the body is not JSON. */
  datatype Body = Unreadable(message: string) | Received(value: Json)

  /** The outcome of one call to the language model: the reply text, or the
      message of the error the call throws. */
  datatype Generated = Reply(text: string) | Failure(message: string)

  /** A JSON response: its HTTP status and its body. */
  datatype Response = Response(status: int, body: Json)

  /** The prompts an endpoint sent to the language model, in order (the text
      of each is `PromptText`), and its response. */
  datatype Exchange = Exchange(calls: seq<Prompt>, response: Response)

  const MissingFields := "Missing required fields"
  const InvalidFormat := "AI returned invalid format. Please try again."
  const UnknownError := "Unknown error"
  /** The TypeError a destructuring of a `null` body throws. */
  const NullDestructure := "Cannot destructure property 'topicId' of '(intermediate value)' as it is null."
  /** The TypeError `userInterests.join(', ')` throws when the interests are not an array. */
  const JoinNotFunction := "userInterests.join is not a function"

  /** The fields the validation requires. */
  const RequiredKeys := {"topicId", "topicTitle", "grade", "userInterests"}

  /** A response whose body is `{ error: message }`. */
  function ErrorResponse(status: int, message: string): (r: Response)
    ensures r.status == status && r.body.JObject? && r.body.fields.Keys == {"error"}
    ensures r.body.fields["error"] == JString(message)
  {
    Response(status, JObject(map["error" := JString(message)]))
  }

  /** `error.message || 'Unknown error'`. */
  function Details(message: string): (r: string)
    ensures r != ""
    ensures message != "" ==> r == message
    ensures message == "" ==> r == UnknownError
  {
    if message != "" then message else UnknownError
  }

  /** The response of the outer `catch`: status 500 with a title and the error's details. */
  function Crash(title: string, message: string): (r: Response)
    ensures r.status == 500
    ensures r.body.JObject? && r.body.fields.Keys == {"error", "details"}
    ensures r.body.fields["error"] == JString(title)
    ensures r.body.fields["details"] == JString(Details(message)) && r.body.fields["details"] != JString("")
  {
    Response(500, JObject(map["error" := JString(title), "details" := JString(Details(message))]))
  }

  /** The validation both endpoints run before building a prompt: a required
      field is falsy, or the interests have `length` 0. */
  predicate Rejected(request: Json)
    requires !request.JNull?
    ensures !Rejected(request) ==> request.JObject? && RequiredKeys <= request.fields.Keys
  {
    || !Truthy(Read(request, "topicId"))
    || !Truthy(Read(request, "topicTitle"))
    || !Truthy(Read(request, "grade"))
    || !Truthy(Read(request, "userInterests"))
    || Read(Read(request, "userInterests").value, "length") == Some(JNum(0))
  }

  /** The body was read, is not `null`, and passed the validation. */
  predicate Admitted(body: Body)
    ensures Admitted(body) ==> body.Received? && body.value.JObject?
  {
    body.Received? && !body.value.JNull? && !Rejected(body.value)
  }

  /** A field the validation found truthy. */
  function Field(body: Body, key: string): (v: Json)
    requires Admitted(body) && key in RequiredKeys
    ensures Read(body.value, key) == Some(v) && Truthy(Some(v))
  {
    Read(body.value, key).value
  }

  /** `userInterests.join(', ')`: the items joined, the TypeError of a value
      that is not an array (JSON values carry no `join` method), or the
      TypeError of an item that cannot be converted to text. */
  function InterestsText(interests: Json): (r: Outcome<string>)
    ensures r.Value? <==> interests.JArray? && Printable(interests)
    ensures r.Value? ==> r.value == JoinItems(interests.items, ", ")
    ensures !interests.JArray? ==> r == Throw(JoinNotFunction)
    ensures interests.JArray? && !Printable(interests) ==> r == Throw(ConvertFailure)
  {
    match interests
    case JArray(items) => if Printable(interests) then Value(JoinItems(items, ", ")) else Throw(ConvertFailure)
    case _ => Throw(JoinNotFunction)
  }

  /** The interpolations of a prompt, evaluated left to right, stop at the
      first one that throws: its message, or `None` when none throws. */
  function FirstThrow(steps: seq<Outcome<string>>): (r: Option<string>)
    ensures r.None? <==> forall i :: 0 <= i < |steps| ==> steps[i].Value?
    ensures r.Some? ==> exists i :: 0 <= i < |steps| && steps[i] == Throw(r.value) && forall j :: 0 <= j < i ==> steps[j].Value?
    decreases |steps|
  {
    if steps == [] then None
    else if steps[0].Throw? then Some(steps[0].message)
    else
      var r := FirstThrow(steps[1..]);
      assert r.Some? ==> exists i :: 0 <= i < |steps[1..]| && steps[1..][i] == Throw(r.value) && forall j :: 0 <= j < i ==> steps[1..][j].Value?;
      assert r.Some? ==> exists i :: 1 <= i < |steps| && steps[i] == Throw(r.value) && forall j :: 0 <= j < i ==> steps[j].Value? by {
        if r.Some? {
          var i :| 0 <= i < |steps[1..]| && steps[1..][i] == Throw(r.value) && forall j :: 0 <= j < i ==> steps[1..][j].Value?;
          assert forall j :: 0 <= j < i + 1 ==> steps[j].Value? by {
            forall j | 0 <= j < i + 1 ensures steps[j].Value? {
              if j > 0 { assert steps[j] == steps[1..][j - 1]; }
            }
          }
        }
      }
      r
  }

  /** A body that is not an object has no required field and is rejected. */
  lemma NonObjectRejected(request: Json)
    requires !request.JNull? && !request.JObject?
    ensures Rejected(request)
  {
    assert Read(request, "topicId").None?;
  }

  /** An empty list of interests is rejected, whatever the other fields are. */
  lemma EmptyInterestsRejected(request: Json)
    requires !request.JNull? && Read(request, "userInterests") == Some(JArray([]))
    ensures Rejected(request)
  {
  }

  /** A body with the three fields truthy and a non-empty array of interests
      passes the validation. */
  lemma CompleteAdmitted(body: Body, items: seq<Json>)
    requires body.Received? && body.value.JObject?
    requires Truthy(Read(body.value, "topicId")) && Truthy(Read(body.value, "topicTitle")) && Truthy(Read(body.value, "grade"))
    requires Read(body.value, "userInterests") == Some(JArray(items)) && items != []
    ensures Admitted(body)
  {
    assert Read(JArray(items), "length") == Some(JNum(|items|));
  }

  /** Conversely, an admitted request whose interests are an array has at
      least one interest. */
  lemma AdmittedInterestsNonEmpty(body: Body)
    requires Admitted(body) && Field(body, "userInterests").JArray?
    ensures Field(body, "userInterests").items != []
  {
    var items := Field(body, "userInterests").items;
    assert Read(JArray(items), "length") == Some(JNum(|items|));
  }

  /** Interests given as strings are joined with ", ". */
  lemma StringInterestsJoined(labels: seq<string>)
    ensures InterestsText(JArray(Strings(labels))) == Value(Join(labels, ", "))
  {
    var items := Strings(labels);
    assert forall i :: 0 <= i < |items| ==> Printable(items[i]);
    JoinStrings(labels, ", ");
  }
}

/**
 * The lesson endpoint (app/api/generate-lesson/route.ts): validate the
 * request, send the lesson prompt to the language model, trim and unfence its
 * reply, parse it, check that it holds three cards, and answer with the topic
 * id, the legacy interest and the cards.
 */
module LessonRoute {
  import opened Wrappers
  import opened Text
  import opened Json
  import opened Fences
  import opened Prompts
  import opened Routes

  const LessonFailed := "Failed to generate lesson"
  const IncompleteLesson := "AI generated incomplete lesson. Please try again."
  /** The TypeError reading `cards` from a `null` parse result throws. */
  const NullCards := "Cannot read properties of null (reading 'cards')"
  /** The description the prompt shows when the request has none. */
  const DefaultDescription := "Математическая тема"
  /** The `interest` every lesson answers with, whatever the learner's interests. */
  const LegacyInterest := "Football"

  /** `topicDescription || 'Математическая тема'`, as the template converts
      it: the request's description when truthy, the default one otherwise. */
  function Description(request: Json): (d: Outcome<string>)
    requires !request.JNull?
    ensures Truthy(Read(request, "topicDescription")) ==> d == Stringify(Read(request, "topicDescription").value)
    ensures !Truthy(Read(request, "topicDescription")) ==> d == Value(DefaultDescription)
  {
    var given := Read(request, "topicDescription");
    if Truthy(given) then Stringify(given.value) else Value(DefaultDescription)
  }

  /** The interpolations of the lesson prompt, in the order the template
      literal first evaluates them: the grade, the joined interests, the topic
      id, the title and the description. The later interpolations of the
      grade, the interests and the topic id convert the same values again and
      cannot throw anything new. */
  function Interpolations(body: Body): (r: seq<Outcome<string>>)
    requires Admitted(body)
    ensures |r| == 5
    ensures forall i :: 0 <= i < |r| && r[i].Throw? ==> r[i].message in {JoinNotFunction, ConvertFailure}
  {
    [ Stringify(Field(body, "grade")),
      InterestsText(Field(body, "userInterests")),
      Stringify(Field(body, "topicId")),
      Stringify(Field(body, "topicTitle")),
      Description(body.value) ]
  }

  /** The request gets as far as the call to the language model: it passed
      the validation, its interests are an array, and every value the prompt
      interpolates converts to text (a falsy description is not converted). */
  predicate Prompted(body: Body)
    ensures Prompted(body) ==>
      Admitted(body) && Field(body, "userInterests").JArray? && Field(body, "userInterests").items != []
  {
    && Admitted(body)
    && Field(body, "userInterests").JArray?
    && Printable(Field(body, "grade"))
    && Printable(Field(body, "userInterests"))
    && Printable(Field(body, "topicId"))
    && Printable(Field(body, "topicTitle"))
    && (Truthy(Read(body.value, "topicDescription")) ==> Printable(Read(body.value, "topicDescription").value))
  }

  /** The values the lesson prompt interpolates. The lesson prompt has no question count. */
  function LessonSlots(body: Body): (r: Slots)
    requires Prompted(body)
    ensures Interpolations(body) == [Value(r.grade), Value(r.interests), Value(r.topicId), Value(r.title), Value(r.description)]
    ensures r.count == ""
  {
    Slots(
      grade := ToText(Field(body, "grade")),
      interests := JoinItems(Field(body, "userInterests").items, ", "),
      title := ToText(Field(body, "topicTitle")),
      count := "",
      topicId := ToText(Field(body, "topicId")),
      description := Description(body.value).value)
  }

  /** Building the prompt of an admitted request throws exactly when the
      request is not prompted, and then with one of two TypeErrors. */
  lemma ThrowsUnlessPrompted(body: Body)
    requires Admitted(body)
    ensures FirstThrow(Interpolations(body)).None? <==> Prompted(body)
    ensures FirstThrow(Interpolations(body)).Some? ==>
      FirstThrow(Interpolations(body)).value in {JoinNotFunction, ConvertFailure}
  {
    var steps := Interpolations(body);
    if FirstThrow(steps).None? {
      assert steps[0].Value? && steps[1].Value? && steps[2].Value? && steps[3].Value? && steps[4].Value?;
    } else {
      var i :| 0 <= i < |steps| && steps[i] == Throw(FirstThrow(steps).value);
      assert steps[i].message in {JoinNotFunction, ConvertFailure};
    }
  }

  /** The grade is interpolated first: when it cannot be converted, that is
      the error, whatever the interests are. */
  lemma GradeThrowsFirst(body: Body)
    requires Admitted(body) && !Printable(Field(body, "grade"))
    ensures FirstThrow(Interpolations(body)) == Some(ConvertFailure)
  {
    assert Interpolations(body)[0] == Throw(ConvertFailure);
  }

  /** With a printable grade, interests that are not an array throw next. */
  lemma JoinThrowsNext(body: Body)
    requires Admitted(body) && Printable(Field(body, "grade")) && !Field(body, "userInterests").JArray?
    ensures FirstThrow(Interpolations(body)) == Some(JoinNotFunction)
  {
    var steps := Interpolations(body);
    assert steps[0].Value? && steps[1] == Throw(JoinNotFunction);
  }

  /** A request whose fields are non-empty strings, whose interests are a
      non-empty list of strings and that has no description gets to the
      language model, and its prompt shows those strings and the default
      description. */
  lemma StringRequestPrompted(body: Body, topicId: string, title: string, grade: string, labels: seq<string>)
    requires body.Received? && body.value.JObject? && !("topicDescription" in body.value.fields)
    requires topicId != "" && title != "" && grade != "" && labels != []
    requires Read(body.value, "topicId") == Some(JString(topicId))
    requires Read(body.value, "topicTitle") == Some(JString(title))
    requires Read(body.value, "grade") == Some(JString(grade))
    requires Read(body.value, "userInterests") == Some(JArray(Strings(labels)))
    ensures Prompted(body)
    ensures LessonSlots(body) == Slots(grade, Join(labels, ", "), title, "", topicId, DefaultDescription)
  {
    CompleteAdmitted(body, Strings(labels));
    StringInterestsJoined(labels);
  }

  /** The text handed to `JSON.parse`: trimmed and unfenced, nothing repaired. */
  function Unfenced(reply: string): (r: string)
    ensures IsInfix(r, reply)
  {
    var t := Trim(reply);
    var r := StripFences(t);
    InfixTransitive(r, t, reply);
    r
  }

  /** The parsed reply holds a lesson: it is not `null`, and its `cards` are
      truthy with a `length` of exactly 3. */
  predicate Complete(data: Json)
    ensures Complete(data) ==> data.JObject? && "cards" in data.fields
  {
    && !data.JNull?
    && Truthy(Read(data, "cards"))
    && Read(Read(data, "cards").value, "length") == Some(JNum(3))
  }

  /** The body of a successful response. */
  function Lesson(topicId: Json, cards: Json): (r: Json)
    ensures r.JObject? && "interest" in r.fields && r.fields["interest"] == JString(LegacyInterest)
  {
    JObject(map["topicId" := topicId, "interest" := JString(LegacyInterest), "cards" := cards])
  }

  /** What the endpoint answers once `JSON.parse` gave `parsed` (`None` when it threw). */
  function Verdict(parsed: Option<Json>, topicId: Json): (res: Response)
    ensures parsed.None? ==> res == ErrorResponse(500, InvalidFormat)
    ensures parsed == Some(JNull) ==> res == Crash(LessonFailed, NullCards)
    ensures parsed.Some? && !parsed.value.JNull? && !Complete(parsed.value) ==> res == ErrorResponse(500, IncompleteLesson)
    ensures res.status == 200 <==> parsed.Some? && Complete(parsed.value)
    ensures res.status == 200 ==> res.body == Lesson(topicId, Read(parsed.value, "cards").value)
  {
    match parsed
    case None => ErrorResponse(500, InvalidFormat)
    case Some(data) =>
      if data.JNull? then Crash(LessonFailed, NullCards)
      else if !Complete(data) then ErrorResponse(500, IncompleteLesson)
      else Response(200, Lesson(topicId, Read(data, "cards").value))
  }

  /** The endpoint's POST handler. `generate` stands for the language model
      call, which receives the prompt whose text is `PromptText(p)`, and `parse`
      for `JSON.parse` (`None` when it throws). */
  function PostLesson(body: Body, generate: Prompt -> Generated, parse: string -> Option<Json>): (r: Exchange)
    ensures body.Unreadable? ==> r.response == Crash(LessonFailed, body.message)
    ensures body == Received(JNull) ==> r.response == Crash(LessonFailed, NullDestructure)
    ensures body.Received? && !body.value.JNull? ==> (Rejected(body.value) <==> r.response.status == 400)
    ensures r.response.status == 400 ==> r.response == ErrorResponse(400, MissingFields)
    ensures Admitted(body) && FirstThrow(Interpolations(body)).Some? ==>
      r.response == Crash(LessonFailed, FirstThrow(Interpolations(body)).value)
    ensures Prompted(body) <==> r.calls != []
    ensures Prompted(body) ==> r.calls == [LessonPrompt(LessonSlots(body))]
    ensures Prompted(body) && generate(r.calls[0]).Failure? ==>
      r.response == Crash(LessonFailed, generate(r.calls[0]).message)
    ensures Prompted(body) && generate(r.calls[0]).Reply? ==>
      r.response == Verdict(parse(Unfenced(generate(r.calls[0]).text)), Field(body, "topicId"))
    ensures r.response.status == 200 ==> Prompted(body) && generate(r.calls[0]).Reply?
  {
    if body.Unreadable? then Exchange([], Crash(LessonFailed, body.message))
    else if body.value.JNull? then Exchange([], Crash(LessonFailed, NullDestructure))
    else if Rejected(body.value) then Exchange([], ErrorResponse(400, MissingFields))
    else
      ThrowsUnlessPrompted(body);
      var thrown := FirstThrow(Interpolations(body));
      if thrown.Some? then Exchange([], Crash(LessonFailed, thrown.value))
      else
        var prompt := LessonPrompt(LessonSlots(body));
        match generate(prompt)
        case Failure(message) => Exchange([prompt], Crash(LessonFailed, message))
        case Reply(text) => Exchange([prompt], Verdict(parse(Unfenced(text)), Field(body, "topicId")))
  }

  /** A successful lesson answers with exactly the topic id of the request,
      the legacy interest and three cards. */
  lemma LessonShape(body: Body, generate: Prompt -> Generated, parse: string -> Option<Json>)
    requires PostLesson(body, generate, parse).response.status == 200
    ensures var lesson := PostLesson(body, generate, parse).response.body;
      && lesson.JObject? && lesson.fields.Keys == {"topicId", "interest", "cards"}
      && lesson.fields["topicId"] == Field(body, "topicId")
      && lesson.fields["interest"] == JString(LegacyInterest)
      && Truthy(Some(lesson.fields["cards"]))
      && Read(lesson.fields["cards"], "length") == Some(JNum(3))
  {
    var r := PostLesson(body, generate, parse);
    var data := parse(Unfenced(generate(r.calls[0]).text)).value;
    var cards := Read(data, "cards").value;
    assert Complete(data);
    LessonFields(Field(body, "topicId"), cards);
  }

  lemma LessonFields(topicId: Json, cards: Json)
    ensures Lesson(topicId, cards).fields.Keys == {"topicId", "interest", "cards"}
    ensures Lesson(topicId, cards).fields["topicId"] == topicId && Lesson(topicId, cards).fields["cards"] == cards
  {
  }

  /** A reply fenced as JSON, with white space around the fence, whose body
      parses to an object with three cards, gives a lesson with those cards. */
  lemma FencedReplyAccepted(body: Body, generate: Prompt -> Generated, parse: string -> Option<Json>,
                            a: string, text: string, b: string, fields: map<string, Json>, cards: seq<Json>)
    requires Prompted(body) && AllSpace(a) && AllSpace(b)
    requires generate(LessonPrompt(LessonSlots(body))) == Reply(a + JsonOpening + text + Closing + b)
    requires parse(text) == Some(JObject(fields)) && "cards" in fields && fields["cards"] == JArray(cards) && |cards| == 3
    ensures PostLesson(body, generate, parse).response == Response(200, Lesson(Field(body, "topicId"), JArray(cards)))
  {
    var reply := a + JsonOpening + text + Closing + b;
    UnfencedJson(a, text, b);
    ThreeCardsAccepted(fields, cards, Field(body, "topicId"));
  }

  /** A reply that parses to an object with three cards gives a lesson with those cards. */
  lemma ThreeCardsAccepted(fields: map<string, Json>, cards: seq<Json>, topicId: Json)
    requires "cards" in fields && fields["cards"] == JArray(cards) && |cards| == 3
    ensures Verdict(Some(JObject(fields)), topicId) == Response(200, Lesson(topicId, JArray(cards)))
  {
    assert Read(JArray(cards), "length") == Some(JNum(3));
  }

  /** Trimming and unfencing a reply fenced as JSON leaves the fence's body. */
  lemma UnfencedJson(a: string, text: string, b: string)
    requires AllSpace(a) && AllSpace(b)
    ensures Unfenced(a + JsonOpening + text + Closing + b) == text
  {
    TrimAround(a, JsonOpening, text, Closing, b);
    StripJsonFence(text);
  }

  /** Two cards, or four, are refused as incomplete. */
  lemma WrongCardCountRefused(fields: map<string, Json>, cards: seq<Json>, topicId: Json)
    requires "cards" in fields && fields["cards"] == JArray(cards) && |cards| != 3
    ensures Verdict(Some(JObject(fields)), topicId) == ErrorResponse(500, IncompleteLesson)
  {
    assert Read(JArray(cards), "length") == Some(JNum(|cards|));
  }

  /** The lesson prompt of a request shows its grade, its interests joined with
      ", ", its topic's id and title, and its description or the default one. */
  lemma LessonPromptShowsRequest(body: Body)
    requires Prompted(body)
    ensures var text := PromptText(LessonPrompt(LessonSlots(body)));
      && IsInfix(ToText(Field(body, "grade")), text)
      && IsInfix(JoinItems(Field(body, "userInterests").items, ", "), text)
      && IsInfix(ToText(Field(body, "topicTitle")), text)
      && IsInfix(ToText(Field(body, "topicId")), text)
      && IsInfix(Description(body.value).value, text)
  {
    LessonPromptShowsSlots(LessonSlots(body));
  }

  /** Without a description the prompt shows the default one. */
  lemma DefaultDescriptionShown(body: Body)
    requires Prompted(body) && !Truthy(Read(body.value, "topicDescription"))
    ensures IsInfix(DefaultDescription, PromptText(LessonPrompt(LessonSlots(body))))
  {
    LessonShowsDescription(LessonSlots(body));
  }
}

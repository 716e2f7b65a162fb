/**
 * The quiz endpoint (app/api/generate-quiz/route.ts): validate the request,
 * send the quiz prompt to the language model, clean its reply (white space,
 * a Markdown fence, an `undefined` feedback), parse it, check that it holds
 * questions, and stamp every question with the topic id.
 */
module QuizRoute {
  import opened Wrappers
  import opened Text
  import opened Json
  import opened Fences
  import opened UndefinedRepair
  import opened Prompts
  import opened Routes

  const QuizFailed := "Failed to generate quiz"
  const IncompleteQuiz := "AI generated incomplete quiz. Please try again."
  /** The TypeError reading `questions` from a `null` parse result throws. */
  const NullQuestions := "Cannot read properties of null (reading 'questions')"
  /** The TypeError `quizData.questions.map(...)` throws when the questions are not an array. */
  const MapNotFunction := "quizData.questions.map is not a function"

  /** `numQuestions`, which defaults to 3 when the request leaves it out. */
  function Count(request: Json): (v: Json)
    requires !request.JNull?
    ensures Read(request, "numQuestions").None? ==> v == JNum(3)
    ensures Read(request, "numQuestions").Some? ==> v == Read(request, "numQuestions").value
  {
    match Read(request, "numQuestions")
    case None => JNum(3)
    case Some(n) => n
  }

  /** The interpolations of the quiz prompt, in the order the template
      literal first evaluates them: the grade, the joined interests, the
      title, the question count and the topic id. The later interpolations of
      the grade and the interests convert the same values again and cannot
      throw anything new. */
  function Interpolations(body: Body): (r: seq<Outcome<string>>)
    requires Admitted(body)
    ensures |r| == 5
    ensures forall i :: 0 <= i < |r| && r[i].Throw? ==> r[i].message in {JoinNotFunction, ConvertFailure}
  {
    [ Stringify(Field(body, "grade")),
      InterestsText(Field(body, "userInterests")),
      Stringify(Field(body, "topicTitle")),
      Stringify(Count(body.value)),
      Stringify(Field(body, "topicId")) ]
  }

  /** The request gets as far as the call to the language model: it passed
      the validation, its interests are an array, and every value the prompt
      interpolates converts to text. */
  predicate Prompted(body: Body)
    ensures Prompted(body) ==>
      Admitted(body) && Field(body, "userInterests").JArray? && Field(body, "userInterests").items != []
  {
    && Admitted(body)
    && Field(body, "userInterests").JArray?
    && Printable(Field(body, "grade"))
    && Printable(Field(body, "userInterests"))
    && Printable(Field(body, "topicTitle"))
    && Printable(Count(body.value))
    && Printable(Field(body, "topicId"))
  }

  /** The values the quiz prompt interpolates. The quiz prompt has no description. */
  function QuizSlots(body: Body): (r: Slots)
    requires Prompted(body)
    ensures Interpolations(body) == [Value(r.grade), Value(r.interests), Value(r.title), Value(r.count), Value(r.topicId)]
    ensures r.description == ""
  {
    Slots(
      grade := ToText(Field(body, "grade")),
      interests := JoinItems(Field(body, "userInterests").items, ", "),
      title := ToText(Field(body, "topicTitle")),
      count := ToText(Count(body.value)),
      topicId := ToText(Field(body, "topicId")),
      description := "")
  }

  /** Building the prompt of an admitted request throws exactly when the
      request is not prompted, and then with one of two TypeErrors. */
  lemma ThrowsUnlessPrompted(body: Body)
    requires Admitted(body)
    ensures FirstThrow(Interpolations(body)).None? <==> Prompted(body)
    ensures FirstThrow(Interpolations(body)).Some? ==>
      FirstThrow(Interpolations(body)).value in {JoinNotFunction, ConvertFailure}
  {
    var steps := Interpolations(body);
    if FirstThrow(steps).None? {
      assert steps[0].Value? && steps[1].Value? && steps[2].Value? && steps[3].Value? && steps[4].Value?;
    } else {
      var i :| 0 <= i < |steps| && steps[i] == Throw(FirstThrow(steps).value);
      assert steps[i].message in {JoinNotFunction, ConvertFailure};
    }
  }

  /** The grade is interpolated first: when it cannot be converted, that is
      the error, whatever the interests are. */
  lemma GradeThrowsFirst(body: Body)
    requires Admitted(body) && !Printable(Field(body, "grade"))
    ensures FirstThrow(Interpolations(body)) == Some(ConvertFailure)
  {
    assert Interpolations(body)[0] == Throw(ConvertFailure);
  }

  /** With a printable grade, interests that are not an array throw next. */
  lemma JoinThrowsNext(body: Body)
    requires Admitted(body) && Printable(Field(body, "grade")) && !Field(body, "userInterests").JArray?
    ensures FirstThrow(Interpolations(body)) == Some(JoinNotFunction)
  {
    var steps := Interpolations(body);
    assert steps[0].Value? && steps[1] == Throw(JoinNotFunction);
  }

  /** A request whose fields are non-empty strings and whose interests are a
      non-empty list of strings gets to the language model, and its prompt
      shows those strings, with 3 questions when the count is left out. */
  lemma StringRequestPrompted(body: Body, topicId: string, title: string, grade: string, labels: seq<string>)
    requires body.Received? && body.value.JObject? && !("numQuestions" in body.value.fields)
    requires topicId != "" && title != "" && grade != "" && labels != []
    requires Read(body.value, "topicId") == Some(JString(topicId))
    requires Read(body.value, "topicTitle") == Some(JString(title))
    requires Read(body.value, "grade") == Some(JString(grade))
    requires Read(body.value, "userInterests") == Some(JArray(Strings(labels)))
    ensures Prompted(body)
    ensures QuizSlots(body) == Slots(grade, Join(labels, ", "), title, "3", topicId, "")
  {
    CompleteAdmitted(body, Strings(labels));
    StringInterestsJoined(labels);
    assert IntToString(3) == "3";
  }

  /** The text handed to `JSON.parse`: trimmed, unfenced, with the `undefined`
      feedback replaced by `null`. */
  function Normalize(reply: string): (r: string)
    ensures |r| <= |reply|
  {
    var t := Trim(reply);
    var u := StripFences(t);
    InfixShorter(t, reply);
    InfixShorter(u, t);
    Repair(u)
  }

  /** The questions of the parsed reply are usable: the parse result is not
      `null`, and its `questions` are truthy with a `length` other than 0. */
  predicate Complete(data: Json)
    ensures Complete(data) ==> data.JObject? && "questions" in data.fields
  {
    && !data.JNull?
    && Truthy(Read(data, "questions"))
    && Read(Read(data, "questions").value, "length") != Some(JNum(0))
  }

  /** `{ ...q, topicId }`: the question's own properties and the topic id. */
  function StampOne(q: Json, topicId: Json): (r: Json)
    ensures r.JObject? && "topicId" in r.fields && r.fields["topicId"] == topicId
  {
    JObject(Spread(q)["topicId" := topicId])
  }

  /** `questions.map(q => ({ ...q, topicId }))`. */
  function Stamp(questions: seq<Json>, topicId: Json): (r: seq<Json>)
    ensures |r| == |questions|
    ensures forall i :: 0 <= i < |r| ==> r[i] == StampOne(questions[i], topicId)
  {
    seq(|questions|, i requires 0 <= i < |questions| => StampOne(questions[i], topicId))
  }

  /** The cleaning of the reply before `JSON.parse`, one reassignment of
      `jsonText` after the other. */
  method CleanReply(responseText: string) returns (jsonText: string)
    ensures jsonText == Normalize(responseText)
  {
    jsonText := Trim(responseText);
    ghost var trimmed := jsonText;
    if StartsWith(jsonText, JsonTag) {
      jsonText := DropTrailing(DropLeading(jsonText, JsonOpening), Closing);
    } else if StartsWith(jsonText, Fence) {
      jsonText := DropTrailing(DropLeading(jsonText, BareOpening), Closing);
    }
    assert jsonText == StripFences(trimmed);
    jsonText := ReplaceAll(jsonText, Bare);
    jsonText := ReplaceAll(jsonText, Quoted);
  }

  /** The endpoint's POST handler. `generate` stands for the language model
      call, which receives the prompt whose text is `PromptText(p)`, and `parse` for
      `JSON.parse` (`None` when it throws). */
  method PostQuiz(body: Body, generate: Prompt -> Generated, parse: string -> Option<Json>)
    returns (calls: seq<Prompt>, res: Response)
    ensures body.Unreadable? ==> res == Crash(QuizFailed, body.message)
    ensures body == Received(JNull) ==> res == Crash(QuizFailed, NullDestructure)
    ensures body.Received? && !body.value.JNull? ==> (Rejected(body.value) <==> res.status == 400)
    ensures res.status == 400 ==> res == ErrorResponse(400, MissingFields)
    ensures Admitted(body) && FirstThrow(Interpolations(body)).Some? ==>
      res == Crash(QuizFailed, FirstThrow(Interpolations(body)).value)
    ensures Prompted(body) <==> calls != []
    ensures Prompted(body) ==> calls == [QuizPrompt(QuizSlots(body))]
    ensures Prompted(body) && generate(calls[0]).Failure? ==>
      res == Crash(QuizFailed, generate(calls[0]).message)
    ensures Prompted(body) && generate(calls[0]).Reply? ==>
      var parsed := parse(Normalize(generate(calls[0]).text));
      && (parsed.None? ==> res == ErrorResponse(500, InvalidFormat))
      && (parsed == Some(JNull) ==> res == Crash(QuizFailed, NullQuestions))
      && (parsed.Some? && !parsed.value.JNull? && !Complete(parsed.value) ==> res == ErrorResponse(500, IncompleteQuiz))
      && (parsed.Some? && Complete(parsed.value) && !Read(parsed.value, "questions").value.JArray? ==>
            res == Crash(QuizFailed, MapNotFunction))
    ensures res.status == 200 <==>
      && Prompted(body) && generate(calls[0]).Reply?
      && var parsed := parse(Normalize(generate(calls[0]).text));
      && parsed.Some? && Complete(parsed.value) && Read(parsed.value, "questions").value.JArray?
    ensures res.status == 200 ==>
      var data := parse(Normalize(generate(calls[0]).text)).value;
      && data.JObject?
      && res.body == JObject(data.fields["questions" := JArray(Stamp(Read(data, "questions").value.items, Field(body, "topicId")))])
  {
    calls := [];
    if body.Unreadable? {
      res := Crash(QuizFailed, body.message);
      return;
    }
    var request := body.value;
    if request.JNull? {
      res := Crash(QuizFailed, NullDestructure);
      return;
    }
    if Rejected(request) {
      res := ErrorResponse(400, MissingFields);
      return;
    }
    var topicId := Field(body, "topicId");
    ThrowsUnlessPrompted(body);
    var thrown := FirstThrow(Interpolations(body));
    if thrown.Some? {
      res := Crash(QuizFailed, thrown.value);
      return;
    }
    var prompt := QuizPrompt(QuizSlots(body));
    calls := [prompt];
    var generated := generate(prompt);
    if generated.Failure? {
      res := Crash(QuizFailed, generated.message);
      return;
    }
    var responseText := generated.text;

    var jsonText := CleanReply(responseText);

    var parsed := parse(jsonText);
    if parsed.None? {
      res := ErrorResponse(500, InvalidFormat);
      return;
    }
    var quizData := parsed.value;
    if quizData.JNull? {
      res := Crash(QuizFailed, NullQuestions);
      return;
    }
    var questions := Read(quizData, "questions");
    if !Truthy(questions) || Read(questions.value, "length") == Some(JNum(0)) {
      res := ErrorResponse(500, IncompleteQuiz);
      return;
    }
    if !questions.value.JArray? {
      res := Crash(QuizFailed, MapNotFunction);
      return;
    }
    quizData := quizData.(fields := quizData.fields["questions" := JArray(Stamp(questions.value.items, topicId))]);
    res := Response(200, quizData);
  }

  /** A reply fenced as JSON, with any white space around the fence, is parsed
      from its repaired body. */
  lemma NormalizeJsonFence(a: string, body: string, b: string)
    requires AllSpace(a) && AllSpace(b)
    ensures Normalize(a + JsonOpening + body + Closing + b) == Repair(body)
  {
    TrimAround(a, JsonOpening, body, Closing, b);
    StripJsonFence(body);
  }

  /** The same for a fence without a language tag. */
  lemma NormalizeBareFence(a: string, body: string, b: string)
    requires AllSpace(a) && AllSpace(b)
    ensures Normalize(a + BareOpening + body + Closing + b) == Repair(body)
  {
    TrimAround(a, BareOpening, body, Closing, b);
    StripBareFence(body);
  }

  /** A reply that does not start with a fence once trimmed is only trimmed
      and repaired. */
  lemma NormalizeUnfenced(reply: string)
    requires !StartsWith(Trim(reply), Fence)
    ensures Normalize(reply) == Repair(Trim(reply))
  {
  }

  /** `JSON.parse` never receives an `undefined` feedback, bare or quoted. */
  lemma NormalizeLeavesNoUndefined(reply: string)
    ensures !HasMatch(Normalize(reply), Bare) && !HasMatch(Normalize(reply), Quoted)
  {
    RepairLeavesNoUndefined(StripFences(Trim(reply)));
  }

  /** A stamped question carries the topic id and every other property of the
      question's spread, and nothing else. */
  lemma StampOneFields(q: Json, topicId: Json)
    ensures StampOne(q, topicId).fields.Keys == Spread(q).Keys + {"topicId"}
    ensures StampOne(q, topicId).fields["topicId"] == topicId
    ensures forall k :: k in Spread(q) && k != "topicId" ==> StampOne(q, topicId).fields[k] == Spread(q)[k]
  {
  }

  /** A question object keeps its own properties, its topic id replaced. */
  lemma StampObject(fields: map<string, Json>, topicId: Json)
    ensures StampOne(JObject(fields), topicId) == JObject(fields["topicId" := topicId])
  {
  }

  /** A question that is an array spreads its items under their indexes. */
  lemma StampArray(items: seq<Json>, topicId: Json, i: nat)
    requires i < |items|
    ensures NatToString(i) in StampOne(JArray(items), topicId).fields
    ensures StampOne(JArray(items), topicId).fields[NatToString(i)] == items[i]
  {
    IndexFieldsAt(items, i);
    assert NatToString(i) != "topicId" by {
      assert "topicId"[0] == 't';
    }
  }

  /** `null`, a boolean or a number spreads nothing: only the topic id is left. */
  lemma StampPrimitive(q: Json, topicId: Json)
    requires q.JNull? || q.JBool? || q.JNum?
    ensures StampOne(q, topicId) == JObject(map["topicId" := topicId])
  {
  }

  /** Stamping keeps the number and the order of the questions, and stamping
      again with the same topic id changes nothing. */
  lemma StampIdempotent(questions: seq<Json>, topicId: Json)
    ensures Stamp(Stamp(questions, topicId), topicId) == Stamp(questions, topicId)
  {
    var once := Stamp(questions, topicId);
    forall i | 0 <= i < |once|
      ensures StampOne(once[i], topicId) == once[i]
    {
      StampObject(Spread(questions[i])["topicId" := topicId], topicId);
    }
  }

  /** Left out, the question count is 3: the prompt asks for "3" questions. */
  lemma DefaultCount(body: Body)
    requires Prompted(body) && Read(body.value, "numQuestions").None?
    ensures QuizSlots(body).count == "3"
  {
    assert IntToString(3) == "3";
  }

  /** The quiz prompt of a request shows its grade, its interests joined with
      ", ", its topic's title and id, and its question count. */
  lemma QuizPromptShowsRequest(body: Body)
    requires Prompted(body)
    ensures var text := PromptText(QuizPrompt(QuizSlots(body)));
      && IsInfix(ToText(Field(body, "grade")), text)
      && IsInfix(JoinItems(Field(body, "userInterests").items, ", "), text)
      && IsInfix(ToText(Field(body, "topicTitle")), text)
      && IsInfix(ToText(Field(body, "topicId")), text)
      && IsInfix(ToText(Count(body.value)), text)
  {
    QuizPromptShowsSlots(QuizSlots(body));
  }
}

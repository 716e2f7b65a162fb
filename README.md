# OQU generation endpoints and interest selection, in Dafny

OQU is a math-learning web app. A language model writes lessons and quizzes for
a learner, personalised by the learner's interests. This project models the
part of the app that can be reasoned about without the model or the browser.

**The two server endpoints**
- `POST /api/generate-quiz` and `POST /api/generate-lesson` validate the
  request: the topic id, title, grade and interests are truthy, and the
  interests' `length` is not 0. A non-empty string of interests passes this
  check and fails later, at `join`.
- They build a prompt, interpolating the request's values. The interests are
  joined with `", "`. Building the prompt throws when the interests are not an
  array, or when a value to interpolate is an object with its own `toString`
  key, on its own or inside an array; the first interpolation that throws
  decides the error. The lesson prompt falls back to a default description;
  the quiz asks for 3 questions unless told otherwise.
- They send the prompt to the language model.
- They clean the model's reply: trim it, and remove one Markdown code fence.
  The quiz endpoint also replaces an `undefined` error feedback by `null`.
- They parse the reply and check its shape. The quiz needs a truthy
  `questions` whose `length` is not 0; a value that is not an array passes
  this check and fails at `.map`. The lesson needs a truthy `cards` whose
  `length` is 3, and answers with that value whatever it is.
- The quiz answers with the parsed quiz, each question stamped with the
  request's topic id. The lesson answers with a fresh object holding the topic
  id, the legacy interest `"Football"` and the cards.
- Every failure becomes a fixed status and message: 400 for a bad request,
  500 for a bad reply or a thrown error.

**The two client pages**
- The onboarding page (`app/page.tsx`) and the settings page
  (`app/settings/page.tsx`) let the learner toggle interest labels from a
  fixed catalogue, and store the selection.
- The settings page pre-selects the stored interests on mount. It also drops
  from the store the interests the catalogue no longer offers.
- The onboarding page sends a learner who already has interests straight to
  the dashboard.

**How the pieces are modelled**
- The quiz endpoint changes state step by step, so it is an imperative method,
  `QuizRoute.PostQuiz`, with the cleaning of its reply in
  `QuizRoute.CleanReply`.
- The lesson endpoint is a chain of expressions: the function
  `LessonRoute.PostLesson`.
- Each page is a class whose fields are the page's state and the shared store,
  with one method per event handler.
- The language model call and `JSON.parse` are parameters of the endpoints:
  - `generate: Prompt -> Generated` returns the reply or the message of the
    error it throws;
  - `parse: string -> Option<Json>` returns `None` when `JSON.parse` throws.
- An endpoint records the prompt it sent as a `Prompt` value. The text of that
  prompt is `Prompts.PromptText`, built from the template's literal passages
  and its holes.
- JavaScript semantics the endpoints rely on are spelled out in module `Json`:
  truthiness, property reads, `String(v)`, `Array.prototype.join` and object
  spread. `String.prototype.trim` is in module `Text`. The two regular
  expressions are in modules `Fences` and `UndefinedRepair`.

Modules, one file each: `Wrappers`, `Text`, `Json`, `Fences`,
`UndefinedRepair`, `Prompts`, `Routes` (what both endpoints share),
`QuizRoute`, `LessonRoute`, `Interests`, `Settings`, `Onboarding`.

## Model

| member | source | states |
|---|---|---|
| Json.Truthy | app/api/generate-quiz/route.ts:10 | a value is truthy only when present and not `null`, and every array and object is truthy, even an empty one, so an empty list of interests passes `!userInterests` and is caught by its `length` |
| Json.Read | app/api/generate-quiz/route.ts:10 | a property read answers an object's own keys and nothing else, and answers only `length` on strings and arrays |
| Json.JoinStrings | app/api/generate-quiz/route.ts:22 | `join` over an array of strings is the strings joined with the separator |
| Json.IndexFieldsKeys | app/api/generate-quiz/route.ts:140-143 | spreading an array yields only index keys |
| Json.IndexFieldsAt | app/api/generate-quiz/route.ts:140-143 | spreading an array puts every item under its own index |
| Json.ToText | app/api/generate-quiz/route.ts:21 | the text of an empty array is empty, and the text of a one-item array is the text of its item (empty for `null`) |
| Json.Printable | app/api/generate-quiz/route.ts:18-93 | a printable array holds no object with its own `toString` key among its items |
| Json.JoinItems | app/api/generate-quiz/route.ts:22 | joining no items gives the empty text, and joining one item gives its text with no separator |
| Json.Stringify | app/api/generate-quiz/route.ts:18-93 | a conversion to text succeeds exactly on printable values, giving their text, and otherwise throws the TypeError for a value that cannot become a primitive |
| Json.OwnToStringThrows | app/api/generate-lesson/route.ts:18-81 | an object with its own `toString` key cannot be interpolated, on its own or as any item of any array; without that key it prints as "[object Object]" |
| Json.ArrayThrowsWithItem | app/api/generate-lesson/route.ts:22 | converting an array throws exactly when converting one of its items throws, at any depth |
| Json.Spread | app/api/generate-quiz/route.ts:141 | spreading an object copies its fields; `null`, booleans and numbers spread nothing |
| Text.IsSpace | app/api/generate-quiz/route.ts:107 | the white space of `trim` and `\s` holds no printable ASCII character but the space: every other character it holds is a control character or at or above U+00A0 |
| Text.Join | app/api/generate-quiz/route.ts:22 | joining one string gives it back with no separator; `Json.JoinStrings` ties it to the join of an array of strings |
| Text.Trim | app/api/generate-quiz/route.ts:107 | `trim` leaves text with no white space at either end, and that text occurs in the input |
| Text.TrimExact | app/api/generate-lesson/route.ts:95 | `trim` removes exactly the white space around a trimmed text |
| Text.TrimAround | app/api/generate-quiz/route.ts:107 | text that starts and ends with non-space characters survives `trim` exactly |
| Text.TrimIdempotent | app/api/generate-quiz/route.ts:107 | trimming twice is trimming once |
| Fences.DropLeading | app/api/generate-quiz/route.ts:109 | an anchored leading pattern is removed exactly when the text starts with it; otherwise the text is unchanged |
| Fences.DropTrailing | app/api/generate-quiz/route.ts:109 | an anchored trailing pattern is removed exactly when the text ends with it; otherwise the text is unchanged |
| Fences.StripFences | app/api/generate-quiz/route.ts:107-112 | text that does not start with three backticks passes unchanged; the result always occurs inside the input |
| Fences.StripJsonFence | app/api/generate-quiz/route.ts:108-109 | a reply fenced as ```` ```json ```` on its own line gives exactly the fence's interior |
| Fences.StripBareFence | app/api/generate-lesson/route.ts:98-99 | a reply fenced with bare backticks gives exactly the fence's interior |
| Fences.StripOtherLanguageTag | app/api/generate-quiz/route.ts:110-111 | a fence tagged with another language, such as `js`, keeps its opening line; only the closing fence goes |
| Fences.StripJsonTagWithoutLineBreak | app/api/generate-quiz/route.ts:108-109 | the `json` tag not followed by a line break keeps the opening; only the closing fence goes |
| Fences.StripOuterLayer | app/api/generate-quiz/route.ts:107-112 | for any body, one pass over a reply fenced twice as ```` ```json ```` removes only the outer fence |
| Fences.StripRemovesOneLayer | app/api/generate-quiz/route.ts:107-112 | on the reply `{}` fenced twice, a second pass changes the result again, so stripping is not idempotent |
| UndefinedRepair.ReplaceAll | app/api/generate-quiz/route.ts:115 | the global replacement never lengthens the text, since every match is longer than `"errorFeedback": null`; the lemmas below state which matches it replaces |
| UndefinedRepair.Repair | app/api/generate-quiz/route.ts:114-116 | the two replacements, bare token first, never lengthen the reply |
| UndefinedRepair.MatchAt | app/api/generate-quiz/route.ts:115 | a match found at the start of the text fits in the text and is at least as long as the key and the token |
| UndefinedRepair.MatchAtSound | app/api/generate-quiz/route.ts:115-116 | what the matcher finds is the key, then white space, then the token |
| UndefinedRepair.MatchAtComplete | app/api/generate-quiz/route.ts:115-116 | every match of the regular expression at the start of the text is the one the matcher finds |
| UndefinedRepair.MatchNeedsLongestSpaceRun | app/api/generate-quiz/route.ts:115 | `\s*` followed by the token can only match the longest run of white space |
| UndefinedRepair.ReplaceAllLeavesNoMatch | app/api/generate-quiz/route.ts:115 | after a global replacement no match of its pattern is left |
| UndefinedRepair.ReplaceAllKeepsNoMatch | app/api/generate-quiz/route.ts:116 | the quoted replacement creates no bare `undefined` match that was not there before |
| UndefinedRepair.ReplaceAllIdentity | app/api/generate-quiz/route.ts:115-116 | on text without a match the replacement changes nothing |
| UndefinedRepair.ReplaceAllCopiesUnmatched | app/api/generate-quiz/route.ts:115 | the text before the first match is copied unchanged |
| UndefinedRepair.RepairLeavesNoUndefined | app/api/generate-quiz/route.ts:114-116 | after both replacements neither pattern matches anywhere |
| UndefinedRepair.RepairIdempotent | app/api/generate-quiz/route.ts:114-116 | repairing twice is repairing once |
| Prompts.QuizPassage | app/api/generate-quiz/route.ts:18-93 | each passage is the source's text between two holes of the quiz template literal, character for character, and `QuizTemplate` places the passages and the holes in the source's order |
| Prompts.LessonPassage | app/api/generate-lesson/route.ts:18-81 | each passage is the source's text between two holes of the lesson template literal, character for character, and `LessonTemplate` places the passages and the holes in the source's order |
| Prompts.PromptText | app/api/generate-quiz/route.ts:18-93 | the text sent to the language model is the endpoint's template filled with the prompt's slots; the `QuizShows…` and `LessonShows…` lemmas state which values it shows |
| Prompts.Fill | app/api/generate-quiz/route.ts:18-93 | every literal passage of a template occurs in the filled prompt |
| Prompts.FillShowsHole | app/api/generate-quiz/route.ts:18-93 | every hole of a template literal shows its value's text in the prompt |
| Prompts.FillIgnoresSlot | app/api/generate-lesson/route.ts:18-81 | a template without a hole for a value does not depend on that value |
| Prompts.QuizShowsGrade | app/api/generate-quiz/route.ts:21 | the quiz prompt shows the grade |
| Prompts.QuizShowsInterests | app/api/generate-quiz/route.ts:22 | the quiz prompt shows the joined interests |
| Prompts.QuizShowsTitle | app/api/generate-quiz/route.ts:25 | the quiz prompt shows the topic's title |
| Prompts.QuizShowsCount | app/api/generate-quiz/route.ts:28 | the quiz prompt shows the number of questions |
| Prompts.QuizShowsTopicId | app/api/generate-quiz/route.ts:60 | the quiz prompt shows the topic id |
| Prompts.QuizPromptShowsSlots | app/api/generate-quiz/route.ts:18-93 | the quiz prompt shows the grade, interests, title, count and topic id |
| Prompts.QuizPromptIgnoresDescription | app/api/generate-quiz/route.ts:18-93 | the quiz prompt does not depend on a description |
| Prompts.LessonShowsGrade | app/api/generate-lesson/route.ts:21 | the lesson prompt shows the grade |
| Prompts.LessonShowsInterests | app/api/generate-lesson/route.ts:22 | the lesson prompt shows the joined interests |
| Prompts.LessonShowsTopicId | app/api/generate-lesson/route.ts:25 | the lesson prompt shows the topic id |
| Prompts.LessonShowsTitle | app/api/generate-lesson/route.ts:26 | the lesson prompt shows the topic's title |
| Prompts.LessonShowsDescription | app/api/generate-lesson/route.ts:27 | the lesson prompt shows the description |
| Prompts.LessonPromptShowsSlots | app/api/generate-lesson/route.ts:18-81 | the lesson prompt shows the grade, interests, topic id, title and description |
| Prompts.LessonPromptIgnoresCount | app/api/generate-lesson/route.ts:18-81 | the lesson prompt does not depend on a question count |
| Routes.ErrorResponse | app/api/generate-quiz/route.ts:11-14 | the response has the given status and a body with exactly the key `error`, holding the message |
| Routes.Details | app/api/generate-quiz/route.ts:153 | the details of a thrown error are its message when that is non-empty, and "Unknown error" otherwise |
| Routes.Crash | app/api/generate-quiz/route.ts:148-156 | a thrown error answers 500 with exactly the keys `error` (the endpoint's title) and `details` (the message, or "Unknown error" when it is empty) |
| Routes.Rejected | app/api/generate-quiz/route.ts:10 | a request that passes the validation is an object holding all four required keys |
| Routes.Admitted | app/api/generate-lesson/route.ts:7-15 | a body that was read and passed the validation is an object |
| Routes.Field | app/api/generate-lesson/route.ts:10 | a required field of an admitted request is present and truthy |
| Routes.InterestsText | app/api/generate-quiz/route.ts:22 | `join` succeeds exactly on an array whose items convert to text, and then gives the items joined with `", "`; a value that is not an array throws "userInterests.join is not a function", and an array with an item that cannot be converted throws the conversion's TypeError |
| Routes.FirstThrow | app/api/generate-quiz/route.ts:18-93 | the interpolations of a prompt stop at the first one that throws, and nothing throws exactly when every interpolation gives a value |
| Routes.NonObjectRejected | app/api/generate-quiz/route.ts:10-15 | a body that is not an object is rejected with 400 |
| Routes.EmptyInterestsRejected | app/api/generate-quiz/route.ts:10 | an empty list of interests is rejected, whatever the other fields hold |
| Routes.CompleteAdmitted | app/api/generate-lesson/route.ts:10-15 | three truthy fields and a non-empty array of interests pass the validation |
| Routes.AdmittedInterestsNonEmpty | app/api/generate-lesson/route.ts:10 | an admitted request whose interests are an array has at least one interest |
| Routes.StringInterestsJoined | app/api/generate-lesson/route.ts:22 | interests sent as strings are joined with `", "` without throwing |
| QuizRoute.Count | app/api/generate-quiz/route.ts:7 | the question count is the request's when given, and 3 when left out |
| QuizRoute.Interpolations | app/api/generate-quiz/route.ts:21-60 | the prompt converts five values in the order grade, interests, title, count, topic id, and each that throws throws either the `join` TypeError or the conversion TypeError |
| QuizRoute.Prompted | app/api/generate-quiz/route.ts:10-30 | a request that reaches the language model passed the validation and has an array of at least one interest |
| QuizRoute.QuizSlots | app/api/generate-quiz/route.ts:21-60 | the values the quiz prompt shows are exactly the texts the five interpolations give, in template order, and there is no description |
| QuizRoute.ThrowsUnlessPrompted | app/api/generate-quiz/route.ts:18-93 | building the prompt of an admitted request throws exactly when its interests are not an array or one of the grade, interests, title, count and topic id cannot be converted to text, and then with one of those two TypeErrors |
| QuizRoute.GradeThrowsFirst | app/api/generate-quiz/route.ts:21-22 | the grade is interpolated before the interests are joined, so a grade that cannot be converted decides the error whatever the interests are |
| QuizRoute.JoinThrowsNext | app/api/generate-quiz/route.ts:21-22 | with a printable grade, interests that are not an array throw "userInterests.join is not a function" |
| QuizRoute.StringRequestPrompted | app/api/generate-quiz/route.ts:7-30 | a request of non-empty strings with a non-empty list of string interests and no count reaches the language model, with a prompt showing those strings, the interests joined with `", "` and 3 questions |
| QuizRoute.Normalize | app/api/generate-quiz/route.ts:106-116 | the text handed to `JSON.parse` is never longer than the reply |
| QuizRoute.Complete | app/api/generate-quiz/route.ts:131 | usable questions come from a parse result that is an object with a `questions` key |
| QuizRoute.StampOne | app/api/generate-quiz/route.ts:140-143 | a stamped question is an object whose `topicId` is the request's, whatever the question was |
| QuizRoute.Stamp | app/api/generate-quiz/route.ts:140-143 | stamping keeps the number and order of the questions and stamps each one |
| QuizRoute.CleanReply | app/api/generate-quiz/route.ts:106-116 | the reassignments of `jsonText` trim, unfence and repair the reply |
| QuizRoute.PostQuiz | app/api/generate-quiz/route.ts:5-158 | each outcome: 400 exactly on a rejected request, before any call; one prompt exactly when validation passes and building the prompt does not throw; 500 with the fixed message for an unparsable reply or missing or empty questions; the caught error for a `null` body, the first interpolation that throws, a failed call, a `null` parse result or questions that cannot be mapped; 200 exactly on usable questions, with the parsed quiz whose questions are stamped |
| QuizRoute.NormalizeJsonFence | app/api/generate-quiz/route.ts:106-116 | a reply fenced as JSON, with white space around it, is parsed from its repaired interior |
| QuizRoute.NormalizeBareFence | app/api/generate-quiz/route.ts:106-116 | a reply fenced with bare backticks is parsed from its repaired interior |
| QuizRoute.NormalizeUnfenced | app/api/generate-quiz/route.ts:106-116 | a reply without a fence is only trimmed and repaired |
| QuizRoute.NormalizeLeavesNoUndefined | app/api/generate-quiz/route.ts:114-120 | the parser never receives an `undefined` feedback, bare or quoted |
| QuizRoute.StampOneFields | app/api/generate-quiz/route.ts:140-143 | a stamped question holds the spread's properties and the topic id, and nothing else |
| QuizRoute.StampObject | app/api/generate-quiz/route.ts:141-142 | a question object keeps its own properties, with its topic id replaced |
| QuizRoute.StampArray | app/api/generate-quiz/route.ts:141 | a question that is an array spreads its items under their indexes |
| QuizRoute.StampPrimitive | app/api/generate-quiz/route.ts:141 | a question that is `null`, a boolean or a number becomes just the topic id |
| QuizRoute.StampIdempotent | app/api/generate-quiz/route.ts:140-143 | stamping again with the same topic id changes nothing |
| QuizRoute.DefaultCount | app/api/generate-quiz/route.ts:7 | without a count, the prompt asks for "3" questions |
| QuizRoute.QuizPromptShowsRequest | app/api/generate-quiz/route.ts:18-93 | the quiz prompt shows the request's grade, interests joined with `", "`, title, topic id and count |
| LessonRoute.Description | app/api/generate-lesson/route.ts:27 | the description is the request's converted to text when truthy, which may throw, and the default one otherwise |
| LessonRoute.Interpolations | app/api/generate-lesson/route.ts:21-27 | the prompt converts five values in the order grade, interests, topic id, title, description, and each that throws throws either the `join` TypeError or the conversion TypeError |
| LessonRoute.Prompted | app/api/generate-lesson/route.ts:10-27 | a request that reaches the language model passed the validation and has an array of at least one interest |
| LessonRoute.LessonSlots | app/api/generate-lesson/route.ts:21-27 | the values the lesson prompt shows are exactly the texts the five interpolations give, in template order, and there is no question count |
| LessonRoute.ThrowsUnlessPrompted | app/api/generate-lesson/route.ts:18-81 | building the prompt of an admitted request throws exactly when its interests are not an array or one of the grade, interests, topic id, title and truthy description cannot be converted to text, and then with one of those two TypeErrors |
| LessonRoute.GradeThrowsFirst | app/api/generate-lesson/route.ts:21-22 | the grade is interpolated before the interests are joined, so a grade that cannot be converted decides the error whatever the interests are |
| LessonRoute.JoinThrowsNext | app/api/generate-lesson/route.ts:21-22 | with a printable grade, interests that are not an array throw "userInterests.join is not a function" |
| LessonRoute.StringRequestPrompted | app/api/generate-lesson/route.ts:7-27 | a request of non-empty strings with a non-empty list of string interests and no description reaches the language model, with a prompt showing those strings, the interests joined with `", "` and the default description |
| LessonRoute.Unfenced | app/api/generate-lesson/route.ts:95-100 | the text handed to `JSON.parse` occurs in the reply: trimming and unfencing only cut it |
| LessonRoute.Complete | app/api/generate-lesson/route.ts:115 | a lesson comes from a parse result that is an object with a `cards` key |
| LessonRoute.Lesson | app/api/generate-lesson/route.ts:124-128 | the lesson is an object whose `interest` is `"Football"`, whatever the learner's interests |
| LessonRoute.Verdict | app/api/generate-lesson/route.ts:102-131 | an unparsable reply answers 500 with the invalid-format message; a `null` result, the caught error; missing cards or a length other than 3, the incomplete-lesson message; 200 exactly otherwise, with the lesson built from the cards |
| LessonRoute.PostLesson | app/api/generate-lesson/route.ts:5-143 | each outcome: 400 exactly on a rejected request, before any call; one prompt exactly when validation passes and building the prompt does not throw; the caught error for a `null` body, the first interpolation that throws or a failed call; otherwise the verdict on the trimmed and unfenced reply, with no repair |
| LessonRoute.LessonShape | app/api/generate-lesson/route.ts:124-128 | a successful lesson has exactly the keys `topicId` (the request's), `interest` (`"Football"`) and `cards`, a truthy value whose `length` is 3 |
| LessonRoute.LessonFields | app/api/generate-lesson/route.ts:124-128 | the lesson object has exactly three keys and carries the given topic id and cards |
| LessonRoute.FencedReplyAccepted | app/api/generate-lesson/route.ts:94-131 | a reply fenced as JSON whose interior parses to three cards answers 200 with those cards |
| LessonRoute.ThreeCardsAccepted | app/api/generate-lesson/route.ts:115-128 | a parsed object with three cards gives a lesson with those cards and the request's topic id, dropping the other fields |
| LessonRoute.WrongCardCountRefused | app/api/generate-lesson/route.ts:115-121 | an array of cards of any length other than 3 is refused as incomplete |
| LessonRoute.UnfencedJson | app/api/generate-lesson/route.ts:95-100 | trimming and unfencing a reply fenced as JSON leaves exactly its interior |
| LessonRoute.LessonPromptShowsRequest | app/api/generate-lesson/route.ts:18-81 | the lesson prompt shows the request's grade, interests joined with `", "`, title, topic id and description |
| LessonRoute.DefaultDescriptionShown | app/api/generate-lesson/route.ts:27 | without a description, the prompt shows the default one |
| Interests.Labels | app/settings/page.tsx:100-102 | the catalogue's labels are exactly the labels of its categories |
| Interests.KnownLabels | app/settings/page.tsx:99-102 | a label is valid exactly when some category of the catalogue offers it |
| Interests.Without | app/settings/page.tsx:120 | the filtered selection no longer holds the label and is not longer than before |
| Interests.Keep | app/settings/page.tsx:105-107 | the mount filter keeps only labels the catalogue offers |
| Interests.Toggle | app/settings/page.tsx:118-123 | after a toggle the label is selected exactly when it was not selected before |
| Interests.WithoutMembers | app/settings/page.tsx:120 | filtering a label out keeps exactly the other labels |
| Interests.WithoutConcat | app/settings/page.tsx:120 | filtering a label out keeps the other labels in order |
| Interests.WithoutAbsent | app/page.tsx:104 | filtering out a label that is not there changes nothing |
| Interests.KeepMembers | app/settings/page.tsx:105-107 | the mount filter keeps exactly the stored labels the catalogue offers |
| Interests.KeepConcat | app/settings/page.tsx:105-107 | the mount filter keeps the kept labels in their order |
| Interests.KeepChanges | app/settings/page.tsx:105-114 | the filter shortens the list exactly when it holds an unknown label, so equal lengths mean nothing was dropped |
| Interests.KeepIdempotent | app/settings/page.tsx:105-107 | filtering twice is filtering once |
| Interests.ToggleSelected | app/settings/page.tsx:118-120 | toggling a selected label removes every occurrence of it and nothing else |
| Interests.ToggleTwice | app/settings/page.tsx:118-123 | toggling an absent label appends it, and toggling it again restores the selection |
| Interests.ToggleTwiceSelected | app/page.tsx:102-107 | toggling a selected label twice moves it to the end |
| Interests.ToggleKeepsDistinct | app/page.tsx:102-107 | a selection without repeats keeps that property under toggling |
| Interests.WithoutDistinct | app/page.tsx:104 | filtering a selection without repeats leaves one without repeats |
| Interests.ToggleKeepsKnown | app/settings/page.tsx:118-123 | toggling a catalogue label keeps a selection of catalogue labels |
| Interests.CatalogueLabels | app/settings/page.tsx:9-88 | the catalogue has seven categories and 36 labels |
| Settings.SettingsPage.SaveDisabled | app/settings/page.tsx:186 | the save button is disabled exactly when no label is selected |
| Settings.SettingsPage.constructor | app/settings/page.tsx:90-94 | the page starts with nothing selected, nothing saved and the shared store as it is |
| Settings.SettingsPage.Mount | app/settings/page.tsx:96-116 | with stored interests, the selection becomes the stored ones the catalogue offers, in order; the store is rewritten exactly when that dropped an unknown label; without stored interests nothing changes |
| Settings.SettingsPage.ToggleInterest | app/settings/page.tsx:118-124 | the selection is toggled and nothing else changes; a catalogue label keeps the selection within the catalogue |
| Settings.SettingsPage.HandleSave | app/settings/page.tsx:126-137 | it runs only on a page not yet saved, since once saved a message replaces the button (lines 179-183); the button is disabled exactly when nothing is selected, and then nothing happens; otherwise the selection is stored as it is, the page is saved and the dashboard follows |
| Onboarding.OnboardingPage.ContinueDisabled | app/page.tsx:152 | the continue button is disabled exactly when no label is selected |
| Onboarding.OnboardingPage.constructor | app/page.tsx:90-93 | the page starts with nothing selected and the shared store as it is |
| Onboarding.OnboardingPage.Mount | app/page.tsx:96-100 | the page redirects to the dashboard exactly when the learner has interests |
| Onboarding.OnboardingPage.ToggleInterest | app/page.tsx:102-108 | the selection is toggled and the store is untouched |
| Onboarding.OnboardingPage.HandleContinue | app/page.tsx:110-116 | continuing is disabled exactly when nothing is selected, and then nothing happens; otherwise the selection is stored as it is and the dashboard opens |

Two facts about the fence stripping that a reader might not expect:
- It removes one fence layer per pass, so it is not idempotent on nested
  fences: a doubly fenced reply changes again on a second pass
  (`Fences.StripRemovesOneLayer`).
- It strips only a ```` ```json ```` fence and a bare fence. Any other language
  tag keeps its opening line (`Fences.StripOtherLanguageTag`).

## Left out

- The language model call (`generateWithGemini` and its failover) is a parameter `generate`; its model id and temperature are configuration and are not modelled.
- `JSON.parse` is a parameter `parse`; no JSON parser is modelled.
- Logging (`console.log`, `console.error` and the 300-character preview) has no effect on the outcome and is left out.
- Json.ToText: JSON numbers are integers in this model and are printed with all their digits. Floating point is not modelled, so this misses three things: `String(v)` of a fractional number; `String` writing integers of magnitude 10^21 or more in exponent form ("1e+21"); and `JSON.parse` rounding integers above 2^53.
- Json.Read: index properties of strings and arrays (`s[0]`) and inherited properties are not read; the endpoints only read `length` from them.
- Json.Read, Json.Spread: strings are `seq<char>`, so lengths and spread indexes count characters, not UTF-16 code units. A character outside the Basic Multilingual Plane spreads into two index keys in JavaScript and into one in the model; this reaches the stamp of a string question (app/api/generate-quiz/route.ts:141).
- Object key order is not kept (objects are maps), so the order of keys in a response body is not modelled.
- The messages of the TypeErrors the runtime throws (reading from `null`, destructuring `null`, calling `join` or `map` on a non-array, converting an object to a primitive value) follow V8's wording; their exact wording is an assumption.
- Routes.Crash: an error's message is a string; an error without a message is modelled by the empty message, and a non-string message is not modelled.
- The exact prompt wording is kept as literal passages in `Prompts`; the contracts state which request values the prompts show, not the wording around them.
- React rendering, `useEffect` scheduling, `router.push` and `setTimeout` are framework plumbing: a page method returns the route it would open instead of navigating, and the 1.5-second delay before the settings page navigates is not modelled.
- The shared store (`GlobalProvider`, with `userInterests`, `setUserInterests` and `hasInterests`) is not part of this model; each page holds the stored interests as a field, and the onboarding page takes `hasInterests` as a constructor argument.
- The catalogue's icons and the settings page's back button are presentation only.
- The catalogue appears in both page files; it is modelled once, from app/settings/page.tsx.
- Interests.CatalogueLabels: that the 36 labels are pairwise distinct is not proved.
- The onboarding page's button styling and caption (app/page.tsx:153-164) are presentation; the disabled condition itself is `ContinueDisabled`.
- The quiz session controller, the results view, the dashboard and the presentation components are outside this model.

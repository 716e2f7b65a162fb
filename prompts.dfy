/**
 * The prompts both endpoints send to the language model: fixed text with the
 * request's values interpolated, as a template literal does. A template is a
 * sequence of literal pieces and holes; filling it puts each slot's text into
 * its holes.
 */
module Prompts {
  import opened Text

  /** The values a prompt interpolates, already converted to text. */
  datatype Slot = Grade | Interests | Title | Count | TopicId | Description

  datatype Slots = Slots(grade: string, interests: string, title: string, count: string, topicId: string, description: string)

  /** A piece of a template: its `passage`-th literal passage, or a hole for a slot. */
  datatype Piece = Lit(passage: nat) | Hole(slot: Slot)

  function SlotText(slots: Slots, slot: Slot): string {
    match slot
    case Grade => slots.grade
    case Interests => slots.interests
    case Title => slots.title
    case Count => slots.count
    case TopicId => slots.topicId
    case Description => slots.description
  }

  function PieceText(piece: Piece, passages: nat -> string, slots: Slots): string {
    match piece
    case Lit(k) => passages(k)
    case Hole(slot) => SlotText(slots, slot)
  }

  /** The text of a template literal whose literal passages are `passages`.
      Every literal passage of the template occurs in it. */
  function Fill(pieces: seq<Piece>, passages: nat -> string, slots: Slots): (r: string)
    ensures forall i :: 0 <= i < |pieces| && pieces[i].Lit? ==> IsInfix(passages(pieces[i].passage), r)
    decreases |pieces|
  {
    if pieces == [] then ""
    else
      var head := PieceText(pieces[0], passages, slots);
      var rest := Fill(pieces[1..], passages, slots);
      InfixOfConcat([], head, rest);
      assert [] + head + rest == head + rest;
      InfixAfterAll(head, rest);
      assert forall i :: 1 <= i < |pieces| ==> pieces[i] == pieces[1..][i - 1];
      head + rest
  }

  /** Every hole of a template shows its slot's text in the filled prompt. */
  lemma {:induction false} FillShowsHole(pieces: seq<Piece>, passages: nat -> string, i: nat, slots: Slots)
    requires i < |pieces| && pieces[i].Hole?
    ensures IsInfix(SlotText(slots, pieces[i].slot), Fill(pieces, passages, slots))
    decreases i
  {
    var rest := Fill(pieces[1..], passages, slots);
    if i == 0 {
      InfixOfConcat([], SlotText(slots, pieces[0].slot), rest);
      assert [] + SlotText(slots, pieces[0].slot) + rest == Fill(pieces, passages, slots);
    } else {
      assert pieces[1..][i - 1] == pieces[i];
      FillShowsHole(pieces[1..], passages, i - 1, slots);
      InfixAfter(PieceText(pieces[0], passages, slots), SlotText(slots, pieces[i].slot), rest);
    }
  }

  /** A template without a hole for `slot` does not depend on that slot's text. */
  lemma {:induction false} FillIgnoresSlot(pieces: seq<Piece>, passages: nat -> string, slots: Slots, other: Slots, slot: Slot)
    requires forall i :: 0 <= i < |pieces| ==> pieces[i] != Hole(slot)
    requires forall s :: s != slot ==> SlotText(slots, s) == SlotText(other, s)
    ensures Fill(pieces, passages, slots) == Fill(pieces, passages, other)
    decreases |pieces|
  {
    if pieces != [] {
      assert pieces[0] != Hole(slot);
      FillIgnoresSlot(pieces[1..], passages, slots, other, slot);
    }
  }

  /** A hole for `slot` at position `i` shows the slot's text. */
  lemma FillShowsSlot(pieces: seq<Piece>, passages: nat -> string, i: nat, slots: Slots, slot: Slot)
    requires i < |pieces| && pieces[i] == Hole(slot)
    ensures IsInfix(SlotText(slots, slot), Fill(pieces, passages, slots))
  {
    FillShowsHole(pieces, passages, i, slots);
  }

  /** The literal passages of the quiz prompt (app/api/generate-quiz/route.ts, lines 18-93), in order. */
  function QuizPassage(k: nat): string
  {
    if k == 0 then @"Ты профессиональный учитель математики. Создай тест для проверки знаний ученика.

**ИНФОРМАЦИЯ ОБ УЧЕНИКЕ:**
- Класс: "
    else if k == 1 then @"
- Интересы: "
    else if k == 2 then @" (используй ЛЮБОЙ из этих интересов!)

**ТЕМА ТЕСТА:**
- "
    else if k == 3 then @"

**ЗАДАНИЕ:**
Создай "
    else if k == 4 then @" вопроса с множественным выбором. Каждый вопрос должен:
- Быть на уровне "
    else if k == 5 then @" класса
- По возможности использовать РАЗНЫЕ интересы ученика для контекста ("
    else if k == 6 then @")
- Варьировать интересы между вопросами для разнообразия
- Иметь 4 варианта ответа
- Иметь ТОЛЬКО ОДИН правильный ответ

**СОКРАТИЧЕСКАЯ ОБРАТНАЯ СВЯЗЬ:**
Для КАЖДОГО неправильного ответа напиши:
- Почему этот ответ НЕ правильный
- Какую ошибку делает ученик, выбирая его
- Подсказку, как подумать правильно
- 2-3 предложения

Правильный ответ НЕ должен иметь обратной связи (оставь undefined).

**ОБЪЯСНЕНИЕ ПРАВИЛЬНОГО ОТВЕТА:**
Для КАЖДОГО вопроса напиши поле ""correctExplanation"":
- Почему ПРАВИЛЬНЫЙ ответ является правильным
- Логику и рассуждение за решением
- Как ученик должен был подумать, чтобы найти решение
- 2-3 предложения

**КРИТИЧЕСКИЕ ТРЕБОВАНИЯ:**
- ВСЕ тексты на русском языке
- Вопросы соответствуют программе "
    else if k == 7 then @" класса
- Сократическая обратная связь помогает ПОНЯТЬ, а не просто говорит ""неправильно""
- Объяснение правильного ответа делает решение ЯСНЫМ и логичным
- Используй интересы для мотивации

Верни ТОЛЬКО валидный JSON с такой структурой:
{
  ""topicId"": """
    else @""",
  ""questions"": [
    {
      ""id"": ""q1"",
      ""question"": ""Текст вопроса..."",
      ""correctExplanation"": ""Объяснение правильного ответа (2-3 предложения)"",
      ""options"": [
        {
          ""id"": ""opt-a"",
          ""text"": ""Вариант ответа"",
          ""errorFeedback"": ""Сократическое объяснение ошибки (2-3 предложения)""
        },
        {
          ""id"": ""opt-b"",
          ""text"": ""Правильный ответ"",
          ""errorFeedback"": undefined
        },
        {
          ""id"": ""opt-c"",
          ""text"": ""Неправильный вариант"",
          ""errorFeedback"": ""Почему это не так...""
        },
        {
          ""id"": ""opt-d"",
          ""text"": ""Еще неправильный"",
          ""errorFeedback"": ""Объяснение ошибки...""
        }
      ],
      ""correctAnswer"": ""opt-b""
    }
  ]
}

ВАЖНО: errorFeedback = undefined только для правильного ответа!"
  }

  /** Where the quiz prompt's passages and holes stand. */
  const QuizTemplate: seq<Piece> := [Lit(0), Hole(Grade), Lit(1), Hole(Interests), Lit(2), Hole(Title), Lit(3), Hole(Count), Lit(4), Hole(Grade), Lit(5), Hole(Interests), Lit(6), Hole(Grade), Lit(7), Hole(TopicId), Lit(8)]

  /** The literal passages of the lesson prompt (app/api/generate-lesson/route.ts, lines 18-81), in order. */
  function LessonPassage(k: nat): string
  {
    if k == 0 then @"Ты профессиональный учитель математики в Казахстане. Создай персонализированный урок для ученика.

**ИНФОРМАЦИЯ ОБ УЧЕНИКЕ:**
- Класс: "
    else if k == 1 then @"
- Интересы ученика: "
    else if k == 2 then @" (используй ВСЕ эти интересы для персонализации!)

**ТЕМА УРОКА:**
- ID: "
    else if k == 3 then @"
- Название: "
    else if k == 4 then @"
- Описание: "
    else if k == 5 then @"

**ЗАДАНИЕ:**
Создай урок из ТРЕХ карточек, используя ОДИН ИЛИ НЕСКОЛЬКО интересов ученика для персонализации:

1. **МЕТАФОРА (metaphor)** - Свяжи математическую концепцию с интересами ученика
   - Можешь использовать любой из интересов: "
    else if k == 6 then @"
   - Или комбинировать несколько интересов в одном примере!
   - Покажи, как математика применяется в том, что им нравится
   - 2-3 параграфа

2. **ТЕОРИЯ (theory)** - Объясни математическую концепцию
   - Четкое определение
   - Ключевые формулы и правила
   - Пошаговое объяснение
   - Уровень "
    else if k == 7 then @" класса
   - 2-3 параграфа

3. **ПРИМЕР (example)** - Реши задачу, используя интерес ученика
   - Контекст из ЛЮБОГО интереса ученика ("
    else if k == 8 then @")
   - Пошаговое решение
   - Объяснение каждого шага
   - 2-3 параграфа

**КРИТИЧЕСКИЕ ТРЕБОВАНИЯ:**
- ВСЕ тексты на русском языке
- Используй РАЗНЫЕ интересы в разных карточках для разнообразия
- Можешь комбинировать несколько интересов в одном примере
- Уровень сложности для "
    else if k == 9 then @" класса
- Конкретные примеры, не абстрактные

Верни ТОЛЬКО валидный JSON с такой структурой:
{
  ""topicId"": """
    else @""",
  ""cards"": [
    {
      ""id"": ""card-1"",
      ""type"": ""metaphor"",
      ""title"": ""Заголовок связи с интересом"",
      ""content"": ""Детальное объяснение...""
    },
    {
      ""id"": ""card-2"",
      ""type"": ""theory"",
      ""title"": ""Теория"",
      ""content"": ""Математическое объяснение...""
    },
    {
      ""id"": ""card-3"",
      ""type"": ""example"",
      ""title"": ""Пример из [интереса]"",
      ""content"": ""Решение задачи...""
    }
  ]
}"
  }

  /** Where the lesson prompt's passages and holes stand. */
  const LessonTemplate: seq<Piece> := [Lit(0), Hole(Grade), Lit(1), Hole(Interests), Lit(2), Hole(TopicId), Lit(3), Hole(Title), Lit(4), Hole(Description), Lit(5), Hole(Interests), Lit(6), Hole(Grade), Lit(7), Hole(Interests), Lit(8), Hole(Grade), Lit(9), Hole(TopicId), Lit(10)]

  /** A prompt as an endpoint builds it: its template and the values it interpolates. */
  datatype Prompt = QuizPrompt(slots: Slots) | LessonPrompt(slots: Slots)

  /** The text sent to the language model for a prompt. */
  function PromptText(p: Prompt): string {
    match p
    case QuizPrompt(slots) => Fill(QuizTemplate, QuizPassage, slots)
    case LessonPrompt(slots) => Fill(LessonTemplate, LessonPassage, slots)
  }

  lemma QuizShowsGrade(slots: Slots)
    ensures IsInfix(slots.grade, PromptText(QuizPrompt(slots)))
  {
    FillShowsSlot(QuizTemplate, QuizPassage, 1, slots, Grade);
  }

  lemma QuizShowsInterests(slots: Slots)
    ensures IsInfix(slots.interests, PromptText(QuizPrompt(slots)))
  {
    FillShowsSlot(QuizTemplate, QuizPassage, 3, slots, Interests);
  }

  lemma QuizShowsTitle(slots: Slots)
    ensures IsInfix(slots.title, PromptText(QuizPrompt(slots)))
  {
    FillShowsSlot(QuizTemplate, QuizPassage, 5, slots, Title);
  }

  lemma QuizShowsCount(slots: Slots)
    ensures IsInfix(slots.count, PromptText(QuizPrompt(slots)))
  {
    FillShowsSlot(QuizTemplate, QuizPassage, 7, slots, Count);
  }

  lemma QuizShowsTopicId(slots: Slots)
    ensures IsInfix(slots.topicId, PromptText(QuizPrompt(slots)))
  {
    FillShowsSlot(QuizTemplate, QuizPassage, 15, slots, TopicId);
  }

  /** The quiz prompt shows the grade, the interests, the topic's title, the
      number of questions and the topic id. */
  lemma QuizPromptShowsSlots(slots: Slots)
    ensures var p := PromptText(QuizPrompt(slots));
      && IsInfix(slots.grade, p) && IsInfix(slots.interests, p) && IsInfix(slots.title, p)
      && IsInfix(slots.count, p) && IsInfix(slots.topicId, p)
  {
    QuizShowsGrade(slots);
    QuizShowsInterests(slots);
    QuizShowsTitle(slots);
    QuizShowsCount(slots);
    QuizShowsTopicId(slots);
  }

  /** The quiz prompt has no description: changing it changes nothing. */
  lemma QuizPromptIgnoresDescription(slots: Slots, description: string)
    ensures PromptText(QuizPrompt(slots.(description := description))) == PromptText(QuizPrompt(slots))
  {
    FillIgnoresSlot(QuizTemplate, QuizPassage, slots.(description := description), slots, Description);
  }

  lemma LessonShowsGrade(slots: Slots)
    ensures IsInfix(slots.grade, PromptText(LessonPrompt(slots)))
  {
    FillShowsSlot(LessonTemplate, LessonPassage, 1, slots, Grade);
  }

  lemma LessonShowsInterests(slots: Slots)
    ensures IsInfix(slots.interests, PromptText(LessonPrompt(slots)))
  {
    FillShowsSlot(LessonTemplate, LessonPassage, 3, slots, Interests);
  }

  lemma LessonShowsTopicId(slots: Slots)
    ensures IsInfix(slots.topicId, PromptText(LessonPrompt(slots)))
  {
    FillShowsSlot(LessonTemplate, LessonPassage, 5, slots, TopicId);
  }

  lemma LessonShowsTitle(slots: Slots)
    ensures IsInfix(slots.title, PromptText(LessonPrompt(slots)))
  {
    FillShowsSlot(LessonTemplate, LessonPassage, 7, slots, Title);
  }

  lemma LessonShowsDescription(slots: Slots)
    ensures IsInfix(slots.description, PromptText(LessonPrompt(slots)))
  {
    FillShowsSlot(LessonTemplate, LessonPassage, 9, slots, Description);
  }

  /** The lesson prompt shows the grade, the interests, the topic's id, title and description. */
  lemma LessonPromptShowsSlots(slots: Slots)
    ensures var p := PromptText(LessonPrompt(slots));
      && IsInfix(slots.grade, p) && IsInfix(slots.interests, p) && IsInfix(slots.topicId, p)
      && IsInfix(slots.title, p) && IsInfix(slots.description, p)
  {
    LessonShowsGrade(slots);
    LessonShowsInterests(slots);
    LessonShowsTopicId(slots);
    LessonShowsTitle(slots);
    LessonShowsDescription(slots);
  }

  /** The lesson prompt has no question count: changing it changes nothing. */
  lemma LessonPromptIgnoresCount(slots: Slots, count: string)
    ensures PromptText(LessonPrompt(slots.(count := count))) == PromptText(LessonPrompt(slots))
  {
    FillIgnoresSlot(LessonTemplate, LessonPassage, slots.(count := count), slots, Count);
  }
}
